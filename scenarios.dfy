/** Whole sessions driven through the player's handlers in the order the
    browser would deliver the events, with what each ends in. */
module Scenarios {
  import opened Wrappers
  import opened Text
  import opened JsNumber
  import opened SkipRanges
  import opened Captions
  import opened Manifest
  import opened Streaming
  import opened Transport
  import opened FormUrlEncoded
  import opened Session
  import opened Embed

  const NoProps := PlayerProps(None, None, None, None, None, None, None, None)

  /** A manifest naming a direct media file `url` and one default track
      labelled `text`: after the document arrives the source is `url` and track
      0 is selected; loading it plays the file directly, and the rebuild leaves
      the one `<track>` built for that track (EnglishElement gives its attributes
      for the label "English"). */
  method ManifestThenDirectLoad(url: string, text: string) returns (p: Player)
    requires url != "" && !Contains(url, ".m3u8")
    ensures fresh(p) && p.Valid()
    ensures p.src == url && p.captionTracks == [CaptionTrack("en.vtt", text, "", true)] && p.currentCaption == 0
    ensures p.mediaSrc == url && !p.isLoading && p.engine.None?
    ensures p.trackElements == [ElementFor(CaptionTrack("en.vtt", text, "", true))]
    ensures p.textTracks == [] && p.textTracksState == []
  {
    p := ReceiveManifest(url, text);
    p.SrcEffect(true, true);
    p.RebuildTrackElements();
  }

  /** The first half of that session: the manifest arrives, nothing is loaded yet. */
  method ReceiveManifest(url: string, text: string) returns (p: Player)
    ensures fresh(p) && p.Valid() && p.videoType == "mp4"
    ensures p.src == url && p.captionTracks == [CaptionTrack("en.vtt", text, "", true)] && p.currentCaption == 0
    ensures p.mediaSrc == "" && !p.isLoading && p.engine.None? && p.engineLog == []
    ensures p.trackElements == [] && p.textTracks == [] && p.textTracksState == []
  {
    p := new Player(NoProps.(sourceUrl := Some("m.json")));
    p.ManifestEffect();
    var track := CaptionTrack("en.vtt", text, "", true);
    p.OnSourceJson(JsonSource(Some(url), Some([track]), None));
    assert FindDefault([track]) == 0;
  }

  /** The same session continued: once the browser lists the new `<track>`'s
      text track, the rebuild's deferred step shows it, while the state's copy
      stays empty until `updateTextTracks` runs. */
  method ManifestThenShowCaption(url: string, text: string) returns (p: Player)
    requires url != "" && !Contains(url, ".m3u8")
    ensures fresh(p) && p.Valid()
    ensures p.mediaSrc == url && |p.trackElements| == 1
    ensures p.textTracks == [TextTrack("captions", text, Showing)] && p.textTracksState == []
  {
    p := ManifestThenDirectLoad(url, text);
    var element := p.trackElements[0];
    p.LiveTextTracksChanged([TextTrack(element.kind, element.labelText, Disabled)]);
    p.ShowFirstTextTrack();
  }

  /** The same session once `loadedmetadata` fires: the element's listener
      and its `onLoadedMetadata` handler both copy the live list, so the
      state's copy now holds the showing caption track. */
  method ManifestThenMetadata(url: string, text: string) returns (p: Player)
    requires url != "" && !Contains(url, ".m3u8")
    ensures p.mediaSrc == url && |p.trackElements| == 1
    ensures p.textTracksState == p.textTracks == [TextTrack("captions", text, Showing)]
  {
    p := ManifestThenShowCaption(url, text);
    p.UpdateTextTracks();
    p.HandleLoadedMetadata();
  }

  /** A choice in the captions menu followed by the caption effect: "Off"
      leaves no `<track>`, a track entry exactly the one built for it. The
      enabled flag and the live text tracks are not touched. */
  method ChooseCaptionThenRebuild(p: Player, index: int)
    requires p.Valid() && -1 <= index < |p.captionTracks|
    modifies p
    ensures p.Valid() && p.currentCaption == index
    ensures p.captionTracks == old(p.captionTracks) && p.textTracks == old(p.textTracks)
    ensures index == -1 ==> p.trackElements == []
    ensures index >= 0 ==> p.trackElements == [ElementFor(p.captionTracks[index])]
    ensures p.captionsEnabled == old(p.captionsEnabled)
  {
    p.ChooseCaption(index);
    p.RebuildTrackElements();
  }

  /** A speed picked from the menu followed by Shift+`>`: one quarter step up,
      stopping at 2. */
  method MenuSpeedThenFaster(i: nat) returns (p: Player)
    requires i < |SpeedChoices|
    ensures p.playbackSpeed == p.mediaRate == (if i < 6 then i + 3 else 8) as real / 4.0
  {
    p := new Player(NoProps);
    p.ChooseSpeed(i);
    p.KeySpeedUp();
    SpeedChoicesOnQuarters(i);
    SpeedStepsOnQuarters(i + 2);
  }

  const EnglishTrack := CaptionTrack("en.vtt", "English", "", true)

  lemma EnglishElement()
    ensures ElementFor(EnglishTrack) == TrackElement("captions", "English", "english", "en.vtt", true, false)
  {
    var w := "English";
    assert ' ' !in w;
    SplitNoSeparator(w, ' ');
    var l := ToLower(w);
    assert l[0] == 'e' && l[1] == 'n' && l[2] == 'g' && l[3] == 'l';
    assert l[4] == 'i' && l[5] == 's' && l[6] == 'h';
    assert l == "english";
  }

  /** `?video=<url>&type=hls` on the embed page with a playlist URL such as
      `a.m3u8`: the player is told "mp4", but the `.m3u8` in the URL still
      selects the HLS path; with hls.js available an engine is created, and once
      it reports the manifest the levels are offered and loading ends. */
  method EmbedHlsVideo(url: string) returns (p: Player)
    requires Contains(url, ".m3u8")
    ensures p.engineLog == [Created(url)] && p.engine == Some(Engine(url, -1, -1))
    ensures |p.qualities| >= 1 && AvailableQualities(p.qualities) == [QualityLevel(0, 720, 2800000)]
    ensures !p.isLoading && !p.isPlaying
  {
    var page := EmbedHlsPage(url);
    p := new Player(page.props);
    p.SrcEffect(true, false);
    ExampleLevels();
    p.OnHlsManifestParsed(ExampleEngineLevels, [], true);
  }

  /** The embed page's half: the player is rendered with `video` as its
      source and `"mp4"` as its type. */
  method EmbedHlsPage(url: string) returns (page: Page)
    requires Contains(url, ".m3u8")
    ensures page == Player(HlsProps(url))
  {
    page := EmbedPlayer(HlsQuery(url));
    HlsQueryProps(url);
    assert url != "" by {
      if url == "" {
        NotContainsLonger(url, ".m3u8");
      }
    }
  }

  function HlsQuery(url: string): seq<Param> {
    [("video", url), ("type", "hls")]
  }

  function HlsProps(url: string): PlayerProps {
    PlayerProps(Some(url), None, None, Some("en"), Some("mp4"), None, None, None)
  }

  const ExampleEngineLevels := [EngineLevel(720, 2800000), EngineLevel(0, 0)]

  lemma HlsQueryProps(url: string)
    ensures Get(HlsQuery(url), "source") == None && Get(HlsQuery(url), "video") == Some(url)
    ensures Get(HlsQuery(url), "caption") == None && Get(HlsQuery(url), "language") == None
    ensures Get(HlsQuery(url), "skip") == None
  {
    assert FirstWithKey(HlsQuery(url), "video") == 0;
  }

  lemma ExampleLevels()
    ensures QualitiesFrom(ExampleEngineLevels, 0) == [QualityLevel(0, 720, 2800000), QualityLevel(1, 0, 0)]
    ensures AvailableQualities([QualityLevel(0, 720, 2800000), QualityLevel(1, 0, 0)]) == [QualityLevel(0, 720, 2800000)]
  {
    var qs := [QualityLevel(0, 720, 2800000), QualityLevel(1, 0, 0)];
    assert qs[1..][1..] == [];
    assert AvailableQualities(qs[1..]) == [];
  }

  /** An HLS source on a runtime with neither hls.js nor native HLS: nothing
      is attached and the loading flag stays set. */
  method UnsupportedHlsStaysLoading() returns (p: Player)
    ensures p.isLoading && p.engine.None? && p.engineLog == [] && p.mediaSrc == ""
  {
    p := new Player(NoProps.(src := Some("live.m3u8")));
    assert Contains("live.m3u8", ".m3u8") by {
      ContainsAt("live.m3u8", ".m3u8", 4);
    }
    p.SrcEffect(false, false);
  }

  /** Muting and then pressing arrow-up: the state reports unmuted at volume
      0.1 while the element stays muted, since `handleVolumeChange` never clears
      the element's `muted` flag. */
  method MuteThenArrowUp() returns (p: Player)
    ensures !p.isMuted && p.volume == 0.1 && p.mediaVolume == 0.1 && p.mediaMuted
  {
    p := new Player(NoProps);
    p.ToggleMute();
    p.KeyVolumeUp();
  }

  /** Skip data `[{5,10},{20,25}]` and playback at 7 s: the first range is
      active; skipping seeks to 10, where no range is active any more (the end is
      excluded); at 22 s the second range is. ExampleTwoRanges shows the skip
      string "5-10,20-25" parses to the same list. */
  method SkipThroughRanges() returns (p: Player, first: Option<SkipRange>, afterSkip: Option<SkipRange>, later: Option<SkipRange>)
    ensures first == Some(SkipRange(Num(5.0), Num(10.0), None))
    ensures afterSkip == None
    ensures later == Some(SkipRange(Num(20.0), Num(25.0), None))
    ensures p.currentTime == 22.0
  {
    p := new Player(NoProps.(skipData := Some(ExampleRanges)));
    p.SkipInputsEffect();
    ExampleActiveRanges();
    p.mediaTime := 7.0;
    p.HandleTimeUpdate();
    p.SkipQueryEffect();
    first := p.currentSkipRange;
    p.HandleSkip();
    p.HandleTimeUpdate();
    p.SkipQueryEffect();
    afterSkip := p.currentSkipRange;
    p.mediaTime := 22.0;
    p.HandleTimeUpdate();
    p.SkipQueryEffect();
    later := p.currentSkipRange;
  }

  const ExampleRanges := [SkipRange(Num(5.0), Num(10.0), None), SkipRange(Num(20.0), Num(25.0), None)]

  lemma ExampleActiveRanges()
    ensures ActiveRange(ExampleRanges, 7.0) == Some(ExampleRanges[0])
    ensures ActiveRange(ExampleRanges, 10.0) == None
    ensures ActiveRange(ExampleRanges, 22.0) == Some(ExampleRanges[1])
  {
    assert ExampleRanges[1..][1..] == [];
  }

  /** Selecting the same caption track twice leaves the tracks as one
      selection does, with exactly that track showing. */
  method SelectCaptionTwice(live: seq<TextTrack>, index: int) returns (p: Player, once: seq<TextTrack>)
    requires 0 <= index < |live|
    ensures p.textTracks == once == SelectedModes(live, index)
    ensures CountShowing(p.textTracks) == 1 && p.textTracks[index].mode == Showing
    ensures p.currentCaptionTrack == index && p.captionsEnabled
  {
    p := new Player(NoProps);
    p.LiveTextTracksChanged(live);
    p.UpdateTextTracks();
    p.SelectCaptionTrack(index);
    once := p.textTracks;
    p.SelectCaptionTrack(index);
    SelectIdempotent(live, index);
    SelectedShowsAtMostOne(live, index);
  }
}
