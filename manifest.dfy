/** Manifest reconciliation: how a fetched JSON source document, or a lone
    caption URL, turns into the player's source, caption tracks, selected caption
    and skip list. */
module Manifest {
  import opened Wrappers
  import opened Captions
  import opened SkipRanges

  /** The parts of the JSON document the component reads: `video.source.url`,
      `captions.tracks` and `skip`, each None when the path is absent. */
  datatype JsonSource = JsonSource(
    videoSourceUrl: Option<string>,
    captionTracks: Option<seq<CaptionTrack>>,
    skip: Option<seq<SkipRange>>)

  /** The four pieces of session state the reconciliation writes. */
  datatype Reconciled = Reconciled(
    src: string, tracks: seq<CaptionTrack>, currentCaption: int, skips: seq<SkipRange>)

  /** `tracks.findIndex(t => t.default)`. */
  function FindDefault(ts: seq<CaptionTrack>): (k: int)
    ensures -1 <= k < |ts|
    ensures k >= 0 ==> ts[k].isDefault
    ensures forall j :: 0 <= j < |ts| && (k == -1 || j < k) ==> !ts[j].isDefault
    decreases |ts|
  {
    if ts == [] then -1
    else if ts[0].isDefault then 0
    else
      var k := FindDefault(ts[1..]);
      if k == -1 then -1 else k + 1
  }

  /** The fetch's success handler: a truthy `video.source.url` overwrites the
      source; present `captions.tracks` replace the tracks and move the selection
      to the first default track if there is one; a non-empty `skip` replaces the
      skip list. */
  function ApplyJson(r: Reconciled, doc: JsonSource): Reconciled {
    var src := if doc.videoSourceUrl.Some? && doc.videoSourceUrl.value != "" then doc.videoSourceUrl.value else r.src;
    var tracks := if doc.captionTracks.Some? then doc.captionTracks.value else r.tracks;
    var current :=
      if doc.captionTracks.Some? && FindDefault(doc.captionTracks.value) != -1
      then FindDefault(doc.captionTracks.value) else r.currentCaption;
    var skips := if doc.skip.Some? && |doc.skip.value| > 0 then doc.skip.value else r.skips;
    Reconciled(src, tracks, current, skips)
  }

  /** The caption-URL branch: one default "captions" track for the URL,
      labelled with the caption language, selected. */
  function DirectCaption(r: Reconciled, captionUrl: string, language: string): Reconciled {
    r.(tracks := [CaptionTrack(captionUrl, language, "captions", true)], currentCaption := 0)
  }

  /** What each field becomes after a JSON document is applied. */
  lemma ApplyJsonFields(r: Reconciled, doc: JsonSource)
    ensures var r' := ApplyJson(r, doc);
      && (r'.src != r.src ==> doc.videoSourceUrl == Some(r'.src))
      && (doc.videoSourceUrl.Some? && doc.videoSourceUrl.value != "" ==> r'.src == doc.videoSourceUrl.value)
      && (doc.videoSourceUrl.None? || doc.videoSourceUrl == Some("") ==> r'.src == r.src)
      && r'.tracks == (if doc.captionTracks.Some? then doc.captionTracks.value else r.tracks)
      && (r'.skips != r.skips ==> doc.skip == Some(r'.skips) && |r'.skips| > 0)
      && (doc.skip.Some? && |doc.skip.value| > 0 ==> r'.skips == doc.skip.value)
  {
  }

  /** The selected caption after a JSON document: the first track whose
      `default` is truthy, and unchanged when no track is. */
  lemma ApplyJsonSelectsFirstDefault(r: Reconciled, doc: JsonSource)
    ensures var r' := ApplyJson(r, doc);
      && (r'.currentCaption == r.currentCaption
          || (0 <= r'.currentCaption < |r'.tracks| && r'.tracks[r'.currentCaption].isDefault
              && forall j :: 0 <= j < r'.currentCaption ==> !r'.tracks[j].isDefault))
      && ((doc.captionTracks.None? || forall j :: 0 <= j < |doc.captionTracks.value| ==> !doc.captionTracks.value[j].isDefault)
          ==> r'.currentCaption == r.currentCaption)
      && (doc.captionTracks.Some? && (exists j :: 0 <= j < |doc.captionTracks.value| && doc.captionTracks.value[j].isDefault)
          ==> 0 <= r'.currentCaption && doc.captionTracks.value[r'.currentCaption].isDefault
              && forall j :: 0 <= j < r'.currentCaption ==> !doc.captionTracks.value[j].isDefault)
  {
  }

  /** No stale-result guard: whichever document is delivered last decides every
      field it carries, even when it belongs to an older request. */
  lemma LastDeliveryWins(r: Reconciled, newer: JsonSource, older: JsonSource, url: string)
    requires older.videoSourceUrl == Some(url) && url != ""
    ensures ApplyJson(ApplyJson(r, newer), older).src == url
  {
  }

  /** A document that carries a url, tracks with a default and a non-empty skip
      list overwrites everything an earlier one set. */
  lemma CompleteDocumentOverrides(r: Reconciled, first: JsonSource, second: JsonSource)
    requires second.videoSourceUrl.Some? && second.videoSourceUrl.value != ""
    requires second.captionTracks.Some? && FindDefault(second.captionTracks.value) != -1
    requires second.skip.Some? && |second.skip.value| > 0
    ensures ApplyJson(ApplyJson(r, first), second) == ApplyJson(r, second)
  {
  }

  /** The single caption URL gives exactly one default track, selected. */
  lemma DirectCaptionShape(r: Reconciled, captionUrl: string, language: string)
    ensures var r' := DirectCaption(r, captionUrl, language);
      && |r'.tracks| == 1
      && r'.tracks[0] == CaptionTrack(captionUrl, language, "captions", true)
      && r'.currentCaption == 0
      && r'.src == r.src && r'.skips == r.skips
  {
  }

  /** A manifest with source `a.mp4` and one default English track selects that
      track and plays `a.mp4`. */
  lemma ExampleManifest(r: Reconciled)
    ensures var doc := JsonSource(Some("a.mp4"), Some([CaptionTrack("en.vtt", "English", "", true)]), None);
      var r' := ApplyJson(r, doc);
      r'.src == "a.mp4" && |r'.tracks| == 1 && r'.currentCaption == 0
  {
  }
}
