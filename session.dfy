/** The player component as one session object: its React state and the parts of
    the video element and streaming engine it writes are fields, and each event
    handler or effect is a method that runs to completion. The video element is
    taken to be mounted throughout. */
module Session {
  import opened Wrappers
  import opened JsNumber
  import opened SkipRanges
  import opened Captions
  import opened Manifest
  import opened Streaming
  import opened Transport

  /** The props the component reads; None where the caller passes `undefined`. */
  datatype PlayerProps = PlayerProps(
    src: Option<string>,
    sourceUrl: Option<string>,
    captionUrl: Option<string>,
    captionLanguage: Option<string>,
    videoType: Option<string>,
    skipRanges: Option<string>,
    skipData: Option<seq<SkipRange>>,
    autoPlay: Option<bool>)

  /** One buffered interval as the media element reports it. */
  datatype TimeRange = TimeRange(start: real, end: real)

  /** The media events that only move the loading flag. */
  datatype LoadingEvent = LoadStart | CanPlay | Waiting

  /** `x || ""` for an optional string prop. */
  function OrEmpty(o: Option<string>): string {
    if o.Some? then o.value else ""
  }

  /** The `<track>` loadVideo appends for an external caption URL. */
  function ExternalElement(url: string): TrackElement {
    TrackElement("subtitles", "External Subtitles", "en", url, false, true)
  }

  /** The track elements that were not added for an external caption: an
      element is kept exactly when it is not external (WithoutExternalAppend
      shows the order is kept too). */
  function WithoutExternal(es: seq<TrackElement>): (r: seq<TrackElement>)
    ensures forall e :: e in r <==> e in es && !e.external
    decreases |es|
  {
    if es == [] then []
    else WithoutExternal(es[..|es| - 1]) + (if es[|es| - 1].external then [] else [es[|es| - 1]])
  }

  /** The filter keeps order: filtering a concatenation filters each part. */
  lemma {:induction false} WithoutExternalAppend(a: seq<TrackElement>, b: seq<TrackElement>)
    ensures WithoutExternal(a + b) == WithoutExternal(a) + WithoutExternal(b)
    decreases |b|
  {
    if b == [] {
      assert a + b == a;
    } else {
      var init := b[..|b| - 1];
      assert (a + b)[..|a + b| - 1] == a + init;
      assert (a + b)[|a + b| - 1] == b[|b| - 1];
      WithoutExternalAppend(a, init);
    }
  }

  /** The destroy call loadVideo makes for the engine it finds, if any. */
  function DestroyCall(e: Option<Engine>): seq<EngineCall> {
    if e.Some? then [Destroyed(e.value.source)] else []
  }

  class Player {
    // Props (fixed for the life of the session). A string prop that is only
    // ever tested for truthiness is "" when undefined; so is an undefined or
    // empty skipData.
    const sourceUrl: string
    const videoType: string
    const captionLanguage: string
    const skipRangesProp: string
    const skipData: seq<SkipRange>
    const autoPlay: bool
    /** `captionUrlState`: initialised from the prop and never set again. */
    const captionUrlState: string

    // React state.
    var jsonData: Option<JsonSource>
    var src: string
    var captionTracks: seq<CaptionTrack>
    var currentCaption: int
    var isPlaying: bool
    var currentTime: real
    var bufferedRanges: seq<TimeRange>
    var volume: real
    var isMuted: bool
    var qualities: seq<QualityLevel>
    var currentQuality: int
    var audioTracks: seq<AudioTrack>
    var currentAudioTrack: int
    var playbackSpeed: real
    var isLoading: bool
    var textTracksState: seq<TextTrack>
    var currentCaptionTrack: int
    var captionsEnabled: bool
    var skipRangesList: seq<SkipRange>
    var currentSkipRange: Option<SkipRange>

    // The video element.
    var mediaSrc: string
    var mediaTime: real
    var mediaVolume: real
    var mediaMuted: bool
    var mediaRate: real
    /** `video.textTracks`, the live list whose modes the handlers set. */
    var textTracks: seq<TextTrack>
    /** The `<track>` children of the video element. */
    var trackElements: seq<TrackElement>

    // The streaming engine held in `hlsRef`, and the lifecycle calls made on it.
    var engine: Option<Engine>
    var engineLog: seq<EngineCall>

    /** Volumes stay in [0, 1], and quality and audio ids are positions in
        their lists. */
    ghost predicate Valid()
      reads this
    {
      && 0.0 <= volume <= 1.0
      && 0.0 <= mediaVolume <= 1.0
      && QualityIdsAreIndices(qualities)
      && AudioIdsAreIndices(audioTracks)
    }

    /** The state the manifest reconciliation writes. */
    function ManifestView(): Reconciled
      reads this
    {
      Reconciled(src, captionTracks, currentCaption, skipRangesList)
    }

    /** First render: the `useState` initial values, with the props' defaults
        (`captionLanguage = "en"`, `videoType = "mp4"`, `autoPlay = false`). */
    constructor (p: PlayerProps)
      ensures Valid()
      ensures sourceUrl == OrEmpty(p.sourceUrl) && captionUrlState == OrEmpty(p.captionUrl)
      ensures captionLanguage == (if p.captionLanguage.Some? then p.captionLanguage.value else "en")
      ensures videoType == (if p.videoType.Some? then p.videoType.value else "mp4")
      ensures skipRangesProp == OrEmpty(p.skipRanges)
      ensures skipData == (if p.skipData.Some? then p.skipData.value else [])
      ensures autoPlay == (p.autoPlay == Some(true))
      ensures jsonData == None && src == OrEmpty(p.src)
      ensures captionTracks == [] && currentCaption == -1
      ensures !isPlaying && currentTime == 0.0 && bufferedRanges == []
      ensures volume == 1.0 && !isMuted
      ensures qualities == [] && currentQuality == -1 && audioTracks == [] && currentAudioTrack == 0
      ensures playbackSpeed == 1.0 && !isLoading
      ensures textTracksState == [] && currentCaptionTrack == -1 && !captionsEnabled
      ensures skipRangesList == [] && currentSkipRange == None
      ensures mediaSrc == "" && mediaTime == 0.0 && mediaVolume == 1.0 && !mediaMuted && mediaRate == 1.0
      ensures textTracks == [] && trackElements == []
      ensures engine == None && engineLog == []
    {
      sourceUrl := OrEmpty(p.sourceUrl);
      videoType := if p.videoType.Some? then p.videoType.value else "mp4";
      captionLanguage := if p.captionLanguage.Some? then p.captionLanguage.value else "en";
      skipRangesProp := OrEmpty(p.skipRanges);
      skipData := if p.skipData.Some? then p.skipData.value else [];
      autoPlay := p.autoPlay == Some(true);
      captionUrlState := OrEmpty(p.captionUrl);
      jsonData := None;
      src := OrEmpty(p.src);
      captionTracks := [];
      currentCaption := -1;
      isPlaying := false;
      currentTime := 0.0;
      bufferedRanges := [];
      volume := 1.0;
      isMuted := false;
      qualities := [];
      currentQuality := -1;
      audioTracks := [];
      currentAudioTrack := 0;
      playbackSpeed := 1.0;
      isLoading := false;
      textTracksState := [];
      currentCaptionTrack := -1;
      captionsEnabled := false;
      skipRangesList := [];
      currentSkipRange := None;
      mediaSrc := "";
      mediaTime := 0.0;
      mediaVolume := 1.0;
      mediaMuted := false;
      mediaRate := 1.0;
      textTracks := [];
      trackElements := [];
      engine := None;
      engineLog := [];
    }

    // ---------------------------------------------------------------- manifest

    /** The manifest effect's synchronous part. With a source URL it only
        issues the fetch (its outcome arrives through OnSourceJson); otherwise a
        caption URL yields the single default track. */
    method ManifestEffect()
      requires Valid()
      modifies this`captionTracks, this`currentCaption
      ensures Valid()
      ensures ManifestView() ==
        if sourceUrl == "" && captionUrlState != ""
        then DirectCaption(old(ManifestView()), captionUrlState, captionLanguage)
        else old(ManifestView())
    {
      if sourceUrl == "" && captionUrlState != "" {
        captionTracks := [CaptionTrack(captionUrlState, captionLanguage, "captions", true)];
        currentCaption := 0;
      }
    }

    /** The fetch's success handler, run whenever a parsed document arrives;
        there is no check that it answers the latest request. */
    method OnSourceJson(doc: JsonSource)
      requires Valid()
      modifies this`jsonData, this`src, this`captionTracks, this`currentCaption, this`skipRangesList
      ensures Valid()
      ensures jsonData == Some(doc)
      ensures ManifestView() == ApplyJson(old(ManifestView()), doc)
    {
      jsonData := Some(doc);
      if doc.videoSourceUrl.Some? && doc.videoSourceUrl.value != "" {
        src := doc.videoSourceUrl.value;
      }
      if doc.captionTracks.Some? {
        captionTracks := doc.captionTracks.value;
        var defaultIndex := FindDefault(doc.captionTracks.value);
        if defaultIndex != -1 {
          currentCaption := defaultIndex;
        }
      }
      if doc.skip.Some? && |doc.skip.value| > 0 {
        skipRangesList := doc.skip.value;
      }
    }

    // ---------------------------------------------------------------- loading

    /** `loadVideo(newSrc, externalCaptionUrl)`. The runtime's capabilities
        (`Hls.isSupported()`, native HLS playback) are inputs. */
    method LoadVideo(newSrc: string, externalCaptionUrl: string, hlsSupported: bool, nativeHls: bool)
      requires Valid()
      modifies this`isLoading, this`src, this`engine, this`engineLog, this`mediaSrc, this`trackElements
      ensures Valid()
      ensures src == newSrc
      ensures isLoading == TakesHlsPath(videoType, newSrc)
      ensures engineLog == old(engineLog) + DestroyCall(old(engine))
        + (if TakesHlsPath(videoType, newSrc) && hlsSupported then [Created(newSrc)] else [])
      ensures engine == if TakesHlsPath(videoType, newSrc) && hlsSupported then Some(Engine(newSrc, -1, -1)) else None
      ensures mediaSrc ==
        if !TakesHlsPath(videoType, newSrc) || (!hlsSupported && nativeHls) then newSrc else old(mediaSrc)
      ensures trackElements ==
        if externalCaptionUrl != ""
        then WithoutExternal(old(trackElements)) + [ExternalElement(externalCaptionUrl)]
        else old(trackElements)
    {
      isLoading := true;
      src := newSrc;
      if engine.Some? {
        engineLog := engineLog + [Destroyed(engine.value.source)];
        engine := None;
      }
      assert engineLog == old(engineLog) + DestroyCall(old(engine));
      var hlsPath := TakesHlsPath(videoType, newSrc);
      if hlsPath {
        if hlsSupported {
          engine := Some(Engine(newSrc, -1, -1));
          engineLog := engineLog + [Created(newSrc)];
        } else if nativeHls {
          mediaSrc := newSrc;
        }
      } else {
        mediaSrc := newSrc;
        isLoading := false;
      }
      if externalCaptionUrl != "" {
        AddExternalCaption(externalCaptionUrl);
      }
    }

    /** loadVideo's external-caption step: the `<track>` elements earlier
        external captions added are removed, one text track at a time, and one
        for `url` is appended. */
    method AddExternalCaption(url: string)
      requires Valid()
      modifies this`trackElements
      ensures Valid()
      ensures trackElements == WithoutExternal(old(trackElements)) + [ExternalElement(url)]
    {
      var kept: seq<TrackElement> := [];
      var i := 0;
      while i < |trackElements|
        invariant 0 <= i <= |trackElements|
        invariant kept == WithoutExternal(trackElements[..i])
      {
        assert trackElements[..i + 1][..i] == trackElements[..i];
        if !trackElements[i].external {
          kept := kept + [trackElements[i]];
        }
        i := i + 1;
      }
      assert trackElements[..i] == trackElements;
      trackElements := kept + [ExternalElement(url)];
    }

    /** The `src` effect: a non-empty source is loaded, without an external
        caption. */
    method SrcEffect(hlsSupported: bool, nativeHls: bool)
      requires Valid()
      modifies this`isLoading, this`src, this`engine, this`engineLog, this`mediaSrc, this`trackElements
      ensures Valid()
      ensures src == old(src) && trackElements == old(trackElements)
      ensures old(src) == "" ==>
        && isLoading == old(isLoading) && engine == old(engine)
        && engineLog == old(engineLog) && mediaSrc == old(mediaSrc)
      ensures old(src) != "" ==>
        && isLoading == TakesHlsPath(videoType, src)
        && engineLog == old(engineLog) + DestroyCall(old(engine))
           + (if TakesHlsPath(videoType, src) && hlsSupported then [Created(src)] else [])
        && engine == (if TakesHlsPath(videoType, src) && hlsSupported then Some(Engine(src, -1, -1)) else None)
        && mediaSrc == (if !TakesHlsPath(videoType, src) || (!hlsSupported && nativeHls) then src else old(mediaSrc))
    {
      if src != "" {
        LoadVideo(src, "", hlsSupported, nativeHls);
      }
    }

    /** The engine's MANIFEST_PARSED handler: levels and audio tracks numbered
        by position, loading over, and autoplay attempted; `playSucceeds` is the
        outcome of `video.play()`, and a rejection leaves playback as it was. */
    method OnHlsManifestParsed(levels: seq<EngineLevel>, tracks: seq<EngineAudioTrack>, playSucceeds: bool)
      requires Valid()
      modifies this`qualities, this`audioTracks, this`isLoading, this`isPlaying
      ensures Valid()
      ensures qualities == QualitiesFrom(levels, 0)
      ensures audioTracks == AudioTracksFrom(tracks, 0)
      ensures !isLoading
      ensures isPlaying == (old(isPlaying) || (autoPlay && playSucceeds))
    {
      qualities := QualitiesFrom(levels, 0);
      audioTracks := AudioTracksFrom(tracks, 0);
      isLoading := false;
      if autoPlay && playSucceeds {
        isPlaying := true;
      }
    }

    /** The `loadedmetadata` listener of the native HLS path. */
    method OnNativeLoadedMetadata(playSucceeds: bool)
      requires Valid()
      modifies this`isLoading, this`isPlaying
      ensures Valid()
      ensures !isLoading
      ensures isPlaying == (old(isPlaying) || (autoPlay && playSucceeds))
    {
      isLoading := false;
      if autoPlay && playSucceeds {
        isPlaying := true;
      }
    }

    /** `loadstart` and `waiting` set the loading flag, `canplay` clears it. */
    method HandleLoadingEvent(e: LoadingEvent)
      requires Valid()
      modifies this`isLoading
      ensures Valid()
      ensures isLoading == !e.CanPlay?
    {
      isLoading := !e.CanPlay?;
    }

    /** `progress`: the buffered ranges, copied one by one. */
    method HandleProgress(buffered: seq<TimeRange>)
      requires Valid()
      modifies this`bufferedRanges
      ensures Valid()
      ensures bufferedRanges == buffered
    {
      var ranges: seq<TimeRange> := [];
      var i := 0;
      while i < |buffered|
        invariant 0 <= i <= |buffered|
        invariant ranges == buffered[..i]
      {
        ranges := ranges + [TimeRange(buffered[i].start, buffered[i].end)];
        i := i + 1;
      }
      bufferedRanges := ranges;
    }

    /** `selectQuality(id)`: without an engine nothing happens; otherwise the
        engine gets the level (-1 is automatic) and the state records it. */
    method SelectQuality(qualityId: int)
      requires Valid()
      modifies this`engine, this`currentQuality
      ensures Valid()
      ensures old(engine).None? ==> engine == old(engine) && currentQuality == old(currentQuality)
      ensures old(engine).Some? ==>
        engine == Some(old(engine).value.(currentLevel := qualityId)) && currentQuality == qualityId
    {
      if engine.None? {
        return;
      }
      if qualityId == -1 {
        engine := Some(engine.value.(currentLevel := -1));
      } else {
        engine := Some(engine.value.(currentLevel := qualityId));
      }
      currentQuality := qualityId;
    }

    /** `switchQuality(id)`: with an engine, its level and the state become the
        id; without one nothing happens. */
    method SwitchQuality(qualityId: int)
      requires Valid()
      modifies this`engine, this`currentQuality
      ensures Valid()
      ensures old(engine).None? ==> engine == old(engine) && currentQuality == old(currentQuality)
      ensures old(engine).Some? ==>
        engine == Some(old(engine).value.(currentLevel := qualityId)) && currentQuality == qualityId
    {
      if engine.Some? {
        engine := Some(engine.value.(currentLevel := qualityId));
        currentQuality := qualityId;
      }
    }

    /** A level button of the quality menu: the state records the id even
        without an engine, and `switchQuality` hands it to the engine. */
    method ChooseQuality(qualityId: int)
      requires Valid()
      modifies this`engine, this`currentQuality
      ensures Valid()
      ensures currentQuality == qualityId
      ensures engine == if old(engine).Some? then Some(old(engine).value.(currentLevel := qualityId)) else None
    {
      currentQuality := qualityId;
      SwitchQuality(qualityId);
    }

    /** The quality menu's Auto button: only the state shows -1; the engine
        keeps whatever level it was given. */
    method ChooseAutoQuality()
      requires Valid()
      modifies this`currentQuality
      ensures Valid()
      ensures currentQuality == -1 && engine == old(engine)
    {
      currentQuality := -1;
    }

    /** `selectAudioTrack(id)`: without an engine nothing happens. */
    method SelectAudioTrack(trackId: int)
      requires Valid()
      modifies this`engine, this`currentAudioTrack
      ensures Valid()
      ensures old(engine).None? ==> engine == old(engine) && currentAudioTrack == old(currentAudioTrack)
      ensures old(engine).Some? ==>
        engine == Some(old(engine).value.(audioTrack := trackId)) && currentAudioTrack == trackId
    {
      if engine.None? {
        return;
      }
      engine := Some(engine.value.(audioTrack := trackId));
      currentAudioTrack := trackId;
    }

    /** The unmount cleanup: the engine is destroyed but `hlsRef` keeps it. */
    method Unmount()
      requires Valid()
      modifies this`engineLog
      ensures Valid()
      ensures engineLog == old(engineLog) + DestroyCall(engine)
    {
      if engine.Some? {
        engineLog := engineLog + [Destroyed(engine.value.source)];
      }
    }

    // ---------------------------------------------------------------- skip ranges

    /** The skip-inputs effect. */
    method SkipInputsEffect()
      requires Valid()
      modifies this`skipRangesList
      ensures Valid()
      ensures skipRangesList == SkipListFrom(skipData, skipRangesProp, old(skipRangesList))
    {
      if |skipData| > 0 {
        skipRangesList := skipData;
      } else if skipRangesProp != "" {
        skipRangesList := ParseSkipRanges(skipRangesProp);
      }
    }

    /** The active-range effect, run when the time or the list changes. */
    method SkipQueryEffect()
      requires Valid()
      modifies this`currentSkipRange
      ensures Valid()
      ensures currentSkipRange == ActiveRange(skipRangesList, currentTime)
    {
      currentSkipRange := ActiveRange(skipRangesList, currentTime);
    }

    /** `timeupdate`: the state takes the element's position. */
    method HandleTimeUpdate()
      requires Valid()
      modifies this`currentTime
      ensures Valid()
      ensures currentTime == mediaTime
    {
      currentTime := mediaTime;
    }

    /** `handleSkip`: seek the element to the active range's end. An active
        range's end is a number or +Infinity; assigning a non-finite time throws,
        so then nothing changes. */
    method HandleSkip()
      requires Valid()
      modifies this`mediaTime
      ensures Valid()
      ensures mediaTime ==
        if currentSkipRange.Some? && currentSkipRange.value.end.Num?
        then currentSkipRange.value.end.v else old(mediaTime)
    {
      if currentSkipRange.Some? && currentSkipRange.value.end.Num? {
        mediaTime := currentSkipRange.value.end.v;
      }
    }

    // ---------------------------------------------------------------- captions

    /** The caption rebuild effect: every `<track>` child is removed, then one
        is appended for the selected caption when the index is in range. */
    method RebuildTrackElements()
      requires Valid()
      modifies this`trackElements
      ensures Valid()
      ensures 0 <= currentCaption < |captionTracks| ==> trackElements == [ElementFor(captionTracks[currentCaption])]
      ensures !(0 <= currentCaption < |captionTracks|) ==> trackElements == []
    {
      while |trackElements| > 0
        decreases |trackElements|
      {
        trackElements := trackElements[1..];
      }
      if 0 <= currentCaption < |captionTracks| {
        trackElements := trackElements + [ElementFor(captionTracks[currentCaption])];
      }
    }

    /** The rebuild effect's deferred step: the first text track is shown. */
    method ShowFirstTextTrack()
      requires Valid()
      modifies this`textTracks
      ensures Valid()
      ensures |textTracks| == |old(textTracks)|
      ensures old(textTracks) != [] ==> textTracks == old(textTracks)[0 := old(textTracks)[0].(mode := Showing)]
      ensures old(textTracks) == [] ==> textTracks == []
    {
      if |textTracks| > 0 {
        textTracks := textTracks[0 := textTracks[0].(mode := Showing)];
      }
    }

    /** The browser's side: the element's live text-track list changes to
        `live` (it derives it from the `<track>` children and the stream). The
        component's state copy is not touched. */
    method LiveTextTracksChanged(live: seq<TextTrack>)
      requires Valid()
      modifies this`textTracks
      ensures Valid()
      ensures textTracks == live && textTracksState == old(textTracksState)
    {
      textTracks := live;
    }

    /** `updateTextTracks`: the element's live list is copied into the state. */
    method UpdateTextTracks()
      requires Valid()
      modifies this`textTracksState
      ensures Valid()
      ensures textTracksState == textTracks && textTracks == old(textTracks)
    {
      textTracksState := textTracks;
    }

    /** An entry of the captions menu: "Off" passes -1, a track entry its
        index. Only the selected caption changes; the caption effect then
        rebuilds the `<track>` element for it. */
    method ChooseCaption(index: int)
      requires Valid()
      modifies this`currentCaption
      ensures Valid()
      ensures currentCaption == index
    {
      currentCaption := index;
    }

    /** `handleLoadedMetadata`, given to the element as `onLoadedMetadata`:
        the duration is not modelled; the text tracks are copied again. */
    method HandleLoadedMetadata()
      requires Valid()
      modifies this`textTracksState
      ensures Valid()
      ensures textTracksState == textTracks && textTracks == old(textTracks)
    {
      UpdateTextTracks();
    }

    /** `toggleCaptions`: flips the enabled flag and shows or hides the current
        track, or, with no valid current track, the first subtitles or captions
        track, which becomes current when captions are switched on. */
    method ToggleCaptions()
      requires Valid()
      modifies this`captionsEnabled, this`textTracks, this`currentCaptionTrack
      ensures Valid()
      ensures captionsEnabled == !old(captionsEnabled)
      ensures var k := ToggleTarget(old(textTracks), old(currentCaptionTrack));
        && textTracks == (if k >= 0
            then old(textTracks)[k := old(textTracks)[k].(mode := if captionsEnabled then Showing else Hidden)]
            else old(textTracks))
        && currentCaptionTrack ==
            (if !(0 <= old(currentCaptionTrack) < |old(textTracks)|) && k >= 0 && captionsEnabled
             then k else old(currentCaptionTrack))
    {
      var newState := !captionsEnabled;
      captionsEnabled := newState;
      var mode := if newState then Showing else Hidden;
      if 0 <= currentCaptionTrack < |textTracks| {
        textTracks := textTracks[currentCaptionTrack := textTracks[currentCaptionTrack].(mode := mode)];
      } else {
        var i := 0;
        while i < |textTracks|
          invariant 0 <= i <= |textTracks|
          invariant textTracks == old(textTracks)
          invariant forall j :: 0 <= j < i ==> !IsCaptionLike(textTracks[j])
        {
          if IsCaptionLike(textTracks[i]) {
            textTracks := textTracks[i := textTracks[i].(mode := mode)];
            if newState {
              currentCaptionTrack := i;
            }
            break;
          }
          i := i + 1;
        }
      }
    }

    /** `selectCaptionTrack(index)`: all tracks hidden, then track `index`
        shown and made current when it exists; otherwise captions are off. */
    method SelectCaptionTrack(index: int)
      requires Valid()
      modifies this`textTracks, this`currentCaptionTrack, this`captionsEnabled
      ensures Valid()
      ensures textTracks == SelectedModes(old(textTracks), index)
      ensures 0 <= index < |textTracks| ==> currentCaptionTrack == index && captionsEnabled
      ensures !(0 <= index < |textTracks|) ==> currentCaptionTrack == -1 && !captionsEnabled
    {
      var i := 0;
      while i < |textTracks|
        invariant 0 <= i <= |textTracks| == |old(textTracks)|
        invariant forall j :: 0 <= j < i ==> textTracks[j] == old(textTracks)[j].(mode := Hidden)
        invariant forall j :: i <= j < |textTracks| ==> textTracks[j] == old(textTracks)[j]
      {
        textTracks := textTracks[i := textTracks[i].(mode := Hidden)];
        i := i + 1;
      }
      if 0 <= index < |textTracks| {
        textTracks := textTracks[index := textTracks[index].(mode := Showing)];
        currentCaptionTrack := index;
        captionsEnabled := true;
      } else {
        currentCaptionTrack := -1;
        captionsEnabled := false;
      }
    }

    // ---------------------------------------------------------------- volume, mute, speed

    /** `handleVolumeChange`: the slider's value (between its min 0 and max 1)
        becomes the volume of the state and the element, and the state counts as
        muted exactly at 0. The element's own `muted` flag is not touched. */
    method HandleVolumeChange(value: real)
      requires Valid()
      requires 0.0 <= value <= 1.0
      modifies this`volume, this`mediaVolume, this`isMuted
      ensures Valid()
      ensures volume == value && mediaVolume == value && isMuted == (value == 0.0)
    {
      volume := value;
      mediaVolume := value;
      isMuted := value == 0.0;
    }

    /** `toggleMute`: muting sets the state's volume to 0 and leaves the
        element's volume; unmuting restores volume 1 on both. */
    method ToggleMute()
      requires Valid()
      modifies this`isMuted, this`mediaMuted, this`volume, this`mediaVolume
      ensures Valid()
      ensures isMuted == !old(isMuted) && mediaMuted == isMuted
      ensures isMuted ==> volume == 0.0 && mediaVolume == old(mediaVolume)
      ensures !isMuted ==> volume == 1.0 && mediaVolume == 1.0
    {
      var newMuted := !isMuted;
      isMuted := newMuted;
      mediaMuted := newMuted;
      if newMuted {
        volume := 0.0;
      } else {
        volume := 1.0;
        mediaVolume := 1.0;
      }
    }

    /** ArrowUp. */
    method KeyVolumeUp()
      requires Valid()
      modifies this`volume, this`mediaVolume, this`isMuted
      ensures Valid()
      ensures volume == VolumeUp(old(volume)) && mediaVolume == volume && isMuted == (volume == 0.0)
    {
      var next := VolumeUp(volume);
      VolumeKeysStayInRange(volume);
      HandleVolumeChange(next);
    }

    /** ArrowDown. */
    method KeyVolumeDown()
      requires Valid()
      modifies this`volume, this`mediaVolume, this`isMuted
      ensures Valid()
      ensures volume == VolumeDown(old(volume)) && mediaVolume == volume && isMuted == (volume == 0.0)
    {
      var next := VolumeDown(volume);
      VolumeKeysStayInRange(volume);
      HandleVolumeChange(next);
    }

    /** `updatePlaybackSpeed(speed)`: the element's rate and the state. */
    method UpdatePlaybackSpeed(speed: real)
      requires Valid()
      modifies this`mediaRate, this`playbackSpeed
      ensures Valid()
      ensures mediaRate == speed && playbackSpeed == speed
    {
      mediaRate := speed;
      playbackSpeed := speed;
    }

    /** A speed entry of the settings menu: the state's speed and the
        element's rate both become the chosen speed. */
    method ChooseSpeed(i: nat)
      requires Valid()
      requires i < |SpeedChoices|
      modifies this`mediaRate, this`playbackSpeed
      ensures Valid()
      ensures playbackSpeed == mediaRate == SpeedChoices[i]
      ensures 0.25 <= playbackSpeed <= 2.0
    {
      SpeedChoicesOnQuarters(i);
      playbackSpeed := SpeedChoices[i];
      mediaRate := SpeedChoices[i];
    }

    /** Shift+`>`. */
    method KeySpeedUp()
      requires Valid()
      modifies this`mediaRate, this`playbackSpeed
      ensures Valid()
      ensures playbackSpeed == SpeedUp(old(playbackSpeed)) && mediaRate == playbackSpeed
      ensures 0.25 <= old(playbackSpeed) <= 2.0 ==> 0.25 <= playbackSpeed <= 2.0
    {
      UpdatePlaybackSpeed(SpeedUp(playbackSpeed));
    }

    /** Shift+`<`. */
    method KeySpeedDown()
      requires Valid()
      modifies this`mediaRate, this`playbackSpeed
      ensures Valid()
      ensures playbackSpeed == SpeedDown(old(playbackSpeed)) && mediaRate == playbackSpeed
      ensures 0.25 <= old(playbackSpeed) <= 2.0 ==> 0.25 <= playbackSpeed <= 2.0
    {
      UpdatePlaybackSpeed(SpeedDown(playbackSpeed));
    }

    /** `n`: normal speed. */
    method KeyNormalSpeed()
      requires Valid()
      modifies this`mediaRate, this`playbackSpeed
      ensures Valid()
      ensures playbackSpeed == 1.0 && mediaRate == 1.0
    {
      UpdatePlaybackSpeed(1.0);
    }
  }
}
