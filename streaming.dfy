/** What the component takes from the streaming engine: the HLS-or-direct
    decision, the quality levels and audio tracks renumbered 0..n-1 when the
    engine reports its manifest, and the quality list the menu offers. */
module Streaming {
  import opened Text

  /** A level as the engine reports it. */
  datatype EngineLevel = EngineLevel(height: int, bitrate: int)

  /** An audio track as the engine reports it; "" stands for a missing or
      empty `name` or `lang`. */
  datatype EngineAudioTrack = EngineAudioTrack(name: string, lang: string)

  datatype QualityLevel = QualityLevel(id: int, height: int, bitrate: int)

  datatype AudioTrack = AudioTrack(id: int, name: string, lang: string)

  /** The engine instance the component holds in `hlsRef`: the source it
      loaded and the level and audio track the component last assigned to it
      (-1 is the engine's automatic choice). */
  datatype Engine = Engine(source: string, currentLevel: int, audioTrack: int)

  /** The engine lifecycle calls the component makes, in order. */
  datatype EngineCall = Created(source: string) | Destroyed(source: string)

  /** `videoType === "hls" || src.includes(".m3u8")`. */
  predicate TakesHlsPath(videoType: string, src: string) {
    videoType == "hls" || Contains(src, ".m3u8")
  }

  /** `levels.map((l, idx) => ({id: idx, height, bitrate}))`, numbering from `base`. */
  function QualitiesFrom(ls: seq<EngineLevel>, base: int): (r: seq<QualityLevel>)
    ensures |r| == |ls|
    ensures forall i :: 0 <= i < |ls| ==>
      r[i] == QualityLevel(base + i, ls[i].height, ls[i].bitrate)
    decreases |ls|
  {
    if ls == [] then []
    else [QualityLevel(base, ls[0].height, ls[0].bitrate)] + QualitiesFrom(ls[1..], base + 1)
  }

  /** The name shown for audio track idx: its own, or `Audio ${idx + 1}`. */
  function AudioName(t: EngineAudioTrack, idx: nat): string {
    if t.name != "" then t.name else "Audio " + NatToString(idx + 1)
  }

  /** `audioTracks.map((track, idx) => ({id: idx, name, lang}))`, numbering from
      `base`; missing names and languages get their fallbacks. */
  function AudioTracksFrom(ts: seq<EngineAudioTrack>, base: nat): (r: seq<AudioTrack>)
    ensures |r| == |ts|
    ensures forall i :: 0 <= i < |ts| ==> r[i] == AudioTrack(
      base + i, AudioName(ts[i], base + i), if ts[i].lang != "" then ts[i].lang else "unknown")
    decreases |ts|
  {
    if ts == [] then []
    else
      [AudioTrack(base, AudioName(ts[0], base), if ts[0].lang != "" then ts[0].lang else "unknown")]
      + AudioTracksFrom(ts[1..], base + 1)
  }

  predicate QualityIdsAreIndices(qs: seq<QualityLevel>) {
    forall i :: 0 <= i < |qs| ==> qs[i].id == i
  }

  predicate AudioIdsAreIndices(ts: seq<AudioTrack>) {
    forall i :: 0 <= i < |ts| ==> ts[i].id == i
  }

  /** Every mapped audio track has a non-empty name and language. */
  lemma {:induction false} AudioTracksNamed(ts: seq<EngineAudioTrack>, base: nat)
    ensures forall i :: 0 <= i < |ts| ==>
      AudioTracksFrom(ts, base)[i].name != "" && AudioTracksFrom(ts, base)[i].lang != ""
  {
    forall i | 0 <= i < |ts|
      ensures AudioTracksFrom(ts, base)[i].name != "" && AudioTracksFrom(ts, base)[i].lang != ""
    {
      assert |NatToString(base + i + 1)| >= 1;
    }
  }

  predicate IsAvailable(q: QualityLevel) {
    q.height > 0 && q.bitrate > 0
  }

  /** `qualities.filter(q => q.height > 0 && q.bitrate > 0)`. */
  function AvailableQualities(qs: seq<QualityLevel>): seq<QualityLevel>
    decreases |qs|
  {
    if qs == [] then []
    else (if IsAvailable(qs[0]) then [qs[0]] else []) + AvailableQualities(qs[1..])
  }

  /** A level is offered exactly when it is in the list with a positive height
      and a positive bitrate. */
  lemma {:induction false} AvailableMembership(qs: seq<QualityLevel>, q: QualityLevel)
    ensures q in AvailableQualities(qs) <==> q in qs && IsAvailable(q)
    decreases |qs|
  {
    if qs != [] {
      AvailableMembership(qs[1..], q);
      assert qs == [qs[0]] + qs[1..];
    }
  }

  /** The filter keeps list order: filtering a concatenation filters each part. */
  lemma {:induction false} AvailableDistributes(a: seq<QualityLevel>, b: seq<QualityLevel>)
    ensures AvailableQualities(a + b) == AvailableQualities(a) + AvailableQualities(b)
    decreases |a|
  {
    if a == [] {
      assert a + b == b;
    } else {
      var ab := a + b;
      assert ab[0] == a[0] && ab[1..] == a[1..] + b;
      var head := if IsAvailable(a[0]) then [a[0]] else [];
      assert AvailableQualities(ab) == head + AvailableQualities(a[1..] + b);
      AvailableDistributes(a[1..], b);
      assert AvailableQualities(a) == head + AvailableQualities(a[1..]);
    }
  }

  /** With ids equal to positions, each offered level's id picks that very
      level out of the full list. */
  lemma OfferedIdsIndexTheList(qs: seq<QualityLevel>, q: QualityLevel)
    requires QualityIdsAreIndices(qs)
    requires q in AvailableQualities(qs)
    ensures 0 <= q.id < |qs| && qs[q.id] == q
  {
    AvailableMembership(qs, q);
  }

  /** The levels of a parsed manifest are numbered by position. */
  lemma QualityLevelsNumbered(ls: seq<EngineLevel>)
    ensures QualityIdsAreIndices(QualitiesFrom(ls, 0))
  {
  }

  /** The audio tracks of a parsed manifest are numbered by position. */
  lemma AudioTracksNumbered(ts: seq<EngineAudioTrack>)
    ensures AudioIdsAreIndices(AudioTracksFrom(ts, 0))
  {
  }
}
