/** The embed page: it reads the player's settings from its own query
    parameters, forwards every parameter it does not reserve onto the manifest
    URL, and renders either the player or a "No video source provided" screen. */
module Embed {
  import opened Wrappers
  import opened Text
  import opened FormUrlEncoded
  import opened Session

  /** The parameters the page consumes itself. */
  const EmbedParams: set<string> := {"source", "video", "caption", "language", "skip"}

  /** Position of the first pair with this key, or -1. */
  function FirstWithKey(ps: seq<Param>, key: string): (k: int)
    ensures -1 <= k < |ps|
    ensures k >= 0 ==> ps[k].0 == key
    ensures forall j :: 0 <= j < |ps| && (k == -1 || j < k) ==> ps[j].0 != key
    decreases |ps|
  {
    if ps == [] then -1
    else if ps[0].0 == key then 0
    else
      var k := FirstWithKey(ps[1..], key);
      if k == -1 then -1 else k + 1
  }

  /** `searchParams.get(key)`: the value of the first pair with that key. */
  function Get(ps: seq<Param>, key: string): (r: Option<string>)
    ensures r.None? <==> forall i :: 0 <= i < |ps| ==> ps[i].0 != key
    ensures r.Some? ==>
      exists k :: 0 <= k < |ps| && ps[k] == (key, r.value) && (forall j :: 0 <= j < k ==> ps[j].0 != key)
  {
    var k := FirstWithKey(ps, key);
    if k == -1 then None else Some(ps[k].1)
  }

  /** With a key given twice, `get` returns the first value, whatever follows. */
  lemma GetRepeatedKey(key: string, first: string, second: string, rest: seq<Param>)
    ensures Get([(key, first), (key, second)] + rest, key) == Some(first)
  {
    assert FirstWithKey([(key, first), (key, second)] + rest, key) == 0;
  }

  /** `value || undefined` for a string that may be absent. */
  function Truthy(o: Option<string>): (r: Option<string>)
    ensures r.Some? <==> o.Some? && o.value != ""
    ensures r.Some? ==> r == o
  {
    if o.Some? && o.value != "" then o else None
  }

  /** The unknown parameters the `forEach` collects: the pairs whose key is not
      reserved, in their original order. */
  function Unknown(ps: seq<Param>): seq<Param>
    decreases |ps|
  {
    if ps == [] then []
    else
      var last := ps[|ps| - 1];
      Unknown(ps[..|ps| - 1]) + (if last.0 in EmbedParams then [] else [last])
  }

  /** The source URL with the unknown parameters appended after `?`, or after
      `&` when it already has a query; unchanged when there is nothing to
      append. */
  function WithForwarded(source: string, ps: seq<Param>): string {
    var query := Serialize(Unknown(ps));
    if query == "" then source
    else source + [if Contains(source, "?") then '&' else '?'] + query
  }

  /** What the page renders. */
  datatype Page = NoVideoSource | Player(props: PlayerProps)

  /** `EmbedPlayer`, for the page's decoded query parameters in order. */
  method EmbedPlayer(ps: seq<Param>) returns (page: Page)
    ensures page.NoVideoSource? <==> Truthy(Get(ps, "source")).None? && Truthy(Get(ps, "video")).None?
    ensures page.Player? ==>
      && page.props.sourceUrl ==
         (if Truthy(Get(ps, "source")).Some? then Some(WithForwarded(Get(ps, "source").value, ps)) else None)
      && page.props.src == Truthy(Get(ps, "video"))
      && page.props.captionUrl == Truthy(Get(ps, "caption"))
      && page.props.captionLanguage ==
         Some(if Truthy(Get(ps, "language")).Some? then Get(ps, "language").value else "en")
      && page.props.videoType == Some("mp4")
      && page.props.skipRanges == Truthy(Get(ps, "skip"))
      && page.props.skipData.None? && page.props.autoPlay.None?
  {
    var sourceUrl := Get(ps, "source");
    var videoUrl := Get(ps, "video");
    var captionUrl := Get(ps, "caption");
    var language := if Truthy(Get(ps, "language")).Some? then Get(ps, "language").value else "en";
    var skipParam := Get(ps, "skip");

    var finalSourceUrl := sourceUrl;
    if sourceUrl.Some? && sourceUrl.value != "" {
      var unknownParams: seq<Param> := [];
      var i := 0;
      while i < |ps|
        invariant 0 <= i <= |ps|
        invariant unknownParams == Unknown(ps[..i])
      {
        assert ps[..i + 1][..i] == ps[..i];
        if ps[i].0 !in EmbedParams {
          unknownParams := unknownParams + [ps[i]];
        }
        i := i + 1;
      }
      assert ps[..i] == ps;
      var query := Serialize(unknownParams);
      if query != "" {
        var separator := if Contains(sourceUrl.value, "?") then '&' else '?';
        finalSourceUrl := Some(sourceUrl.value + [separator] + query);
      }
    }

    if Truthy(finalSourceUrl).None? && Truthy(videoUrl).None? {
      return NoVideoSource;
    }
    return Player(PlayerProps(
      src := Truthy(videoUrl),
      sourceUrl := Truthy(finalSourceUrl),
      captionUrl := Truthy(captionUrl),
      captionLanguage := Some(language),
      videoType := Some("mp4"),
      skipRanges := Truthy(skipParam),
      skipData := None,
      autoPlay := None));
  }

  // ---------------------------------------------------------------- the unknown parameters

  /** A pair is forwarded exactly when it is a parameter of the page and its
      key is not reserved; so no reserved key is ever forwarded. */
  lemma {:induction false} UnknownMembership(ps: seq<Param>, p: Param)
    ensures p in Unknown(ps) <==> p in ps && p.0 !in EmbedParams
    decreases |ps|
  {
    if ps != [] {
      var init := ps[..|ps| - 1];
      UnknownMembership(init, p);
      assert ps == init + [ps[|ps| - 1]];
    }
  }

  /** Forwarding keeps the original order: the unknown parameters of a
      concatenation are those of each part, one after the other. */
  lemma {:induction false} UnknownAppend(a: seq<Param>, b: seq<Param>)
    ensures Unknown(a + b) == Unknown(a) + Unknown(b)
    decreases |b|
  {
    if b == [] {
      assert a + b == a;
    } else {
      var init := b[..|b| - 1];
      assert (a + b)[..|a + b| - 1] == a + init;
      assert (a + b)[|a + b| - 1] == b[|b| - 1];
      UnknownAppend(a, init);
    }
  }

  /** Nothing is forwarded exactly when every key is reserved. */
  lemma {:induction false} UnknownEmpty(ps: seq<Param>)
    ensures Unknown(ps) == [] <==> forall i :: 0 <= i < |ps| ==> ps[i].0 in EmbedParams
    decreases |ps|
  {
    if ps != [] {
      var init := ps[..|ps| - 1];
      UnknownEmpty(init);
      assert forall i :: 0 <= i < |init| ==> init[i] == ps[i];
    }
  }

  // ---------------------------------------------------------------- the final source URL

  /** The given source is always an exact prefix of the final one. */
  lemma ForwardedKeepsSource(source: string, ps: seq<Param>)
    ensures source <= WithForwarded(source, ps)
  {
  }

  /** The final source equals the given one exactly when no parameter is
      unknown. */
  lemma ForwardedUnchanged(source: string, ps: seq<Param>)
    ensures WithForwarded(source, ps) == source <==> Unknown(ps) == []
  {
    SerializeEmpty(Unknown(ps));
  }

  /** With unknown parameters, the character after the source is `&` exactly
      when the source already contains `?`, and `?` otherwise. */
  lemma ForwardedSeparator(source: string, ps: seq<Param>)
    requires Unknown(ps) != []
    ensures |WithForwarded(source, ps)| > |source|
    ensures WithForwarded(source, ps)[|source|] == '&' <==> '?' in source
    ensures WithForwarded(source, ps)[|source|] == '?' <==> '?' !in source
  {
    SerializeEmpty(Unknown(ps));
    ContainsChar(source, '?');
  }

  /** What follows the separator parses back into exactly the unknown
      parameters, in their original order. */
  lemma ForwardedQueryParses(source: string, ps: seq<Param>)
    requires Unknown(ps) != []
    ensures Parse(WithForwarded(source, ps)[|source| + 1..]) == Unknown(ps)
  {
    SerializeEmpty(Unknown(ps));
    var r := WithForwarded(source, ps);
    assert r[|source| + 1..] == Serialize(Unknown(ps));
    ParseSerialize(Unknown(ps));
  }

  /** A source without a query gains one holding exactly the unknown
      parameters: the part after its first `?` parses to them. */
  lemma ForwardedOntoPlainSource(source: string, ps: seq<Param>)
    requires Unknown(ps) != [] && '?' !in source
    ensures var r := WithForwarded(source, ps);
      && Split(r, '?')[0] == source
      && Parse(r[|source| + 1..]) == Unknown(ps)
  {
    SerializeEmpty(Unknown(ps));
    ContainsChar(source, '?');
    SplitAtFirst(source, '?', Serialize(Unknown(ps)));
    ForwardedQueryParses(source, ps);
  }

  /** `type` is not reserved: a `type` parameter reaches the manifest URL
      (while the player itself is always told "mp4"). */
  lemma TypeIsForwarded(ps: seq<Param>, value: string)
    requires ("type", value) in ps
    ensures ("type", value) in Unknown(ps)
    ensures forall source :: ("type", value) in Parse(WithForwarded(source, ps)[|source| + 1..])
  {
    UnknownMembership(ps, ("type", value));
    forall source: string ensures ("type", value) in Parse(WithForwarded(source, ps)[|source| + 1..]) {
      ForwardedQueryParses(source, ps);
    }
  }
}
