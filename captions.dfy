/** Caption bookkeeping: the caption tracks a manifest lists, the `<track>`
    element built for the selected one, and the mode changes the component
    makes on the media element's text-track list. */
module Captions {
  import opened Text

  /** `{file, label, kind, default?}`; `isDefault` is the truthiness of `default`. */
  datatype CaptionTrack = CaptionTrack(file: string, labelText: string, kind: string, isDefault: bool)

  /** The mode of a text track of the media element. */
  datatype TrackMode = Disabled | Hidden | Showing

  /** One entry of `video.textTracks`. */
  datatype TextTrack = TextTrack(kind: string, labelText: string, mode: TrackMode)

  /** A `<track>` child of the video element; `external` marks the ones
      loadVideo adds for an external caption URL. */
  datatype TrackElement = TrackElement(
    kind: string, labelText: string, srclang: string, src: string, isDefault: bool, external: bool)

  /** `label.split(" ")[0].toLowerCase()`. */
  function SrcLang(text: string): string {
    ToLower(Split(text, ' ')[0])
  }

  /** The language tag is the lower-cased first word of the label: the label
      up to its first space, which the tag itself never contains. */
  lemma SrcLangIsFirstWord(text: string)
    ensures var w := Split(text, ' ')[0];
      && w <= text
      && (|w| < |text| ==> text[|w|] == ' ')
      && SrcLang(text) == ToLower(w)
      && ' ' !in SrcLang(text)
    ensures ' ' !in text ==> SrcLang(text) == ToLower(text)
  {
    SplitFirstPiece(text, ' ');
    var w := Split(text, ' ')[0];
    forall i | 0 <= i < |w| ensures SrcLang(text)[i] != ' ' {
      assert w[i] != ' ';
    }
    if ' ' !in text {
      SplitNoSeparator(text, ' ');
    }
  }

  /** The single `<track>` the caption rebuild effect appends for a caption
      track: a default "captions" track with the track's file and label, whose
      language tag is the label's first word lower-cased, and so has no space. */
  function ElementFor(t: CaptionTrack): (e: TrackElement)
    ensures e.src == t.file && e.labelText == t.labelText
    ensures e.kind == "captions" && e.isDefault && !e.external
    ensures var w := Split(t.labelText, ' ')[0];
      && w <= t.labelText && (|w| < |t.labelText| ==> t.labelText[|w|] == ' ')
      && e.srclang == ToLower(w) && ' ' !in e.srclang
    ensures ' ' !in t.labelText ==> e.srclang == ToLower(t.labelText)
  {
    SrcLangIsFirstWord(t.labelText);
    TrackElement("captions", t.labelText, SrcLang(t.labelText), t.file, true, false)
  }

  predicate IsCaptionLike(t: TextTrack) {
    t.kind == "subtitles" || t.kind == "captions"
  }

  /** Index of the first subtitles or captions track, or -1. */
  function FirstCaptionLike(ts: seq<TextTrack>): (k: int)
    ensures -1 <= k < |ts|
    ensures k >= 0 ==> IsCaptionLike(ts[k])
    ensures forall j :: 0 <= j < |ts| && (k == -1 || j < k) ==> !IsCaptionLike(ts[j])
    decreases |ts|
  {
    if ts == [] then -1
    else if IsCaptionLike(ts[0]) then 0
    else
      var k := FirstCaptionLike(ts[1..]);
      if k == -1 then -1 else k + 1
  }

  /** What selectCaptionTrack leaves on the text tracks: every track hidden,
      then track `index` showing when it exists. */
  function SelectedModes(ts: seq<TextTrack>, index: int): seq<TextTrack> {
    seq(|ts|, j requires 0 <= j < |ts| =>
      ts[j].(mode := if j == index then Showing else Hidden))
  }

  function CountShowing(ts: seq<TextTrack>): nat
    decreases |ts|
  {
    if ts == [] then 0 else (if ts[0].mode == Showing then 1 else 0) + CountShowing(ts[1..])
  }

  /** After a selection, exactly the selected track is showing when the index
      is valid and no track is showing otherwise; every other track is hidden
      and no track changes kind or label. */
  lemma SelectedModesShape(ts: seq<TextTrack>, index: int)
    ensures var r := SelectedModes(ts, index);
      && |r| == |ts|
      && (forall j :: 0 <= j < |ts| ==> r[j].kind == ts[j].kind && r[j].labelText == ts[j].labelText)
      && (forall j :: 0 <= j < |ts| ==> (r[j].mode == Showing <==> j == index))
      && (forall j :: 0 <= j < |ts| && j != index ==> r[j].mode == Hidden)
  {
  }

  /** At most one track is showing after a selection: one for a valid index,
      none for an invalid one. */
  lemma {:induction false} SelectedShowsAtMostOne(ts: seq<TextTrack>, index: int)
    ensures CountShowing(SelectedModes(ts, index)) == if 0 <= index < |ts| then 1 else 0
    decreases |ts|
  {
    if ts != [] {
      var r := SelectedModes(ts, index);
      assert r[1..] == SelectedModes(ts[1..], index - 1);
      SelectedShowsAtMostOne(ts[1..], index - 1);
    }
  }

  /** Selecting the same track twice leaves the same modes as selecting it once. */
  lemma SelectIdempotent(ts: seq<TextTrack>, index: int)
    ensures SelectedModes(SelectedModes(ts, index), index) == SelectedModes(ts, index)
  {
  }

  /** The track toggleCaptions acts on: the current one when it exists,
      otherwise the first subtitles or captions track (or -1 for none). */
  function ToggleTarget(ts: seq<TextTrack>, current: int): (k: int)
    ensures -1 <= k < |ts|
    ensures 0 <= current < |ts| ==> k == current
  {
    if 0 <= current < |ts| then current else FirstCaptionLike(ts)
  }
}
