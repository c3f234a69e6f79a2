# Auraplay player core, modelled in Dafny

Auraplay is a React video player. It plays a direct media file, or an HLS
playlist through hls.js or the browser's own HLS support. It can load its
source, caption tracks and skip ranges from a JSON manifest. An embed page
configures the player from its own URL's query parameters. This project
models two parts of that code and proves properties about them:

- **The player session** (`components/auraplay.tsx`). It is modelled as one
  class, `Session.Player`.
  - Its React state, and the parts of the `<video>` element and the hls.js
    instance that the component writes, are fields.
  - Each event handler or effect is a method that runs to completion.
  - The pure parts are functions with lemmas, in their own modules:
    - `SkipRanges`: the skip-range string parser and the active-range query.
    - `Manifest`: how a JSON manifest or a lone caption URL becomes session
      state.
    - `Captions`: the `<track>` element the caption effect builds, and the
      text-track mode changes.
    - `Streaming`: the HLS-or-direct decision, the level and audio-track
      numbering, and the quality filter.
    - `Transport`: the keyboard volume and speed clamps, and `formatTime`.
    - `JsNumber`: JavaScript's `Number(string)` conversion and its
      comparisons with NaN and `undefined`.
- **The embed page** (`app/embed/page.tsx`). `Embed.EmbedPlayer` reads the
  reserved parameters, forwards every other parameter onto the manifest URL,
  and picks the player or the "No video source provided" screen.
  - `FormUrlEncoded` models the query encoding that `URLSearchParams` uses.
    This is the application/x-www-form-urlencoded serializer and parser of
    the WHATWG URL Standard, section 5, over UTF-8. With it, the forwarded
    query is proved to parse back into exactly the forwarded parameters.

`Scenarios` drives whole sessions through the handlers, in the order a
browser delivers the events.

Some behaviours of the code are easy to miss. The model follows the code:

- The skip-range parse is not all-or-nothing. `Number` never throws, so the
  `try`/`catch` around the parse never fires.
- A piece with a non-numeric start, such as `"bad"`, becomes a range with a
  NaN start, which never covers any time. Other malformed pieces differ:
  - An empty start converts to 0, so `"-10"` is the range 0 to 10 and
    covers 5 s.
  - A non-numeric end, as in `"5-x"`, gives a NaN end, which covers no time.
- The quality menu's level buttons set `currentQuality` even when there is no
  engine. The Auto button sets only `currentQuality`, and the engine keeps the
  level it was last given.
- `loadVideo` depends on `currentQuality` (line 364). A picked quality
  therefore re-runs the source effect, which destroys the engine and builds
  a new one.
- There is no stale-result guard on the manifest fetch. A failed fetch only
  logs, so there is no error state.
- An HLS source on a runtime with neither hls.js nor native HLS leaves
  `isLoading` true and sets no media source.
- The embed page's `type` parameter is not read. The player is always told
  `"mp4"`, and `type` is forwarded onto the manifest URL like any other
  unknown parameter.

Some inputs come from outside the component and become method parameters:

- whether hls.js is supported, and whether the element plays HLS natively;
- the outcome of `video.play()`;
- the parsed JSON document;
- the levels and tracks the engine reports;
- the element's live text-track list.

The `<video>` element is taken to be mounted throughout.

## Model

| member | source | states |
|---|---|---|
| `Session.Player.constructor` | components/auraplay.tsx:90-189 | The first render's state: prop defaults `captionLanguage = "en"`, `videoType = "mp4"`, `autoPlay = false`; volume 1, speed 1, no tracks, no engine, no skip list; the session invariant holds. |
| `Session.Player.ManifestEffect` | components/auraplay.tsx:367-409 | Without a source URL, a non-empty caption URL yields exactly the single-default-track state of `DirectCaption`. With a source URL, only the fetch is issued and the state is unchanged. |
| `Session.Player.OnSourceJson` | components/auraplay.tsx:371-394 | A delivered document changes source, tracks, selected caption and skip list exactly as `ApplyJson` says, and is stored as `jsonData`. |
| `Session.Player.LoadVideo` | components/auraplay.tsx:258-363 | Sets the source. Destroys and drops any existing engine before anything else is attached. Takes the HLS path iff the type is `"hls"` or the source contains `.m3u8`: a new engine with hls.js, the element's `src` with native HLS, nothing otherwise. Off that path it assigns `src` directly and clears `isLoading`. An external caption URL replaces earlier external `<track>`s with one new one. |
| `Session.Player.AddExternalCaption` | components/auraplay.tsx:339-356 | The `<track>` elements afterwards are the non-external ones in their old order, followed by one external subtitles track for the URL. |
| `Session.WithoutExternal` | components/auraplay.tsx:342-347 | An element is kept iff it was there and is not external. |
| `Session.WithoutExternalAppend` | components/auraplay.tsx:342-347 | The removal keeps order: filtering a concatenation filters each part. |
| `Session.Player.SrcEffect` | components/auraplay.tsx:411-416 | An empty source changes nothing. A non-empty one gets the loading, engine and media-source outcome of `loadVideo` without an external caption. |
| `Session.Player.OnHlsManifestParsed` | components/auraplay.tsx:279-310 | Qualities and audio tracks are the engine's, numbered by position. Loading is over. Playback starts iff autoplay is on and `play()` succeeds; a rejection changes nothing. |
| `Session.Player.OnNativeLoadedMetadata` | components/auraplay.tsx:320-332 | Loading is over, and playback starts iff autoplay is on and `play()` succeeds. |
| `Session.Player.HandleLoadingEvent` | components/auraplay.tsx:435-437 | `loadstart` and `waiting` set the loading flag; `canplay` clears it. |
| `Session.Player.HandleProgress` | components/auraplay.tsx:438-444 | The buffered ranges in the state are exactly the element's, in order. |
| `Session.Player.SelectQuality` | components/auraplay.tsx:784-793 | Without an engine nothing changes. Otherwise the engine's level and `currentQuality` both become the id (-1 is automatic). Nothing in the component calls `selectQuality`. |
| `Session.Player.SwitchQuality` | components/auraplay.tsx:864-869 | Without an engine nothing changes. Otherwise the engine's level and `currentQuality` both become the id. |
| `Session.Player.ChooseQuality` | components/auraplay.tsx:1193-1197 | A level button: `currentQuality` becomes the id whether or not there is an engine. An engine, if any, switches to that level. |
| `Session.Player.ChooseAutoQuality` | components/auraplay.tsx:1178-1181 | The Auto button: `currentQuality` becomes -1, and the engine, with the level it was given, is unchanged. |
| `Session.Player.SelectAudioTrack` | components/auraplay.tsx:795-799 | Without an engine nothing changes. Otherwise the engine's audio track and `currentAudioTrack` both become the id. Nothing in the component calls `selectAudioTrack`. |
| `Session.Player.Unmount` | components/auraplay.tsx:452-459 | The cleanup destroys the engine if there is one, and records nothing else. |
| `Session.Player.SkipInputsEffect` | components/auraplay.tsx:462-478 | The skip list becomes non-empty `skipData`; else the parse of a non-empty skip string; else stays as it was. |
| `Session.Player.SkipQueryEffect` | components/auraplay.tsx:480-486 | The current skip range is the active range of the list at the current time. |
| `Session.Player.HandleTimeUpdate` | components/auraplay.tsx:676-680 | The state's time becomes the element's position. |
| `Session.Player.HandleSkip` | components/auraplay.tsx:871-875 | With an active range whose end is a number, the element seeks to that end; otherwise the position is unchanged. |
| `Session.Player.RebuildTrackElements` | components/auraplay.tsx:488-505 | Afterwards there is exactly one `<track>`, the one for the selected caption, when the index is in range, and none otherwise. |
| `Session.Player.ShowFirstTextTrack` | components/auraplay.tsx:507-511 | The first text track, if any, is set to showing; the others are untouched. |
| `Session.Player.LiveTextTracksChanged` | components/auraplay.tsx:508-509 | The browser's side: the element's live text-track list becomes the given one. The state's copy is untouched until `updateTextTracks` runs. |
| `Session.Player.UpdateTextTracks` | components/auraplay.tsx:425-429 | The state's text-track list becomes a copy of the element's live list, which is unchanged. |
| `Session.Player.ChooseCaption` | components/auraplay.tsx:954-974 | A captions menu entry: "Off" sets the selected caption to -1, and a track entry sets it to that track's index. Nothing else changes. |
| `Session.Player.HandleLoadedMetadata` | components/auraplay.tsx:682-687 | The state's text-track list becomes a copy of the element's live list, which is unchanged. |
| `Session.Player.ToggleCaptions` | components/auraplay.tsx:744-763 | The enabled flag flips. The current track, or else the first subtitles or captions track, is shown or hidden to match. That fallback track becomes current only when captions are switched on. |
| `Session.Player.SelectCaptionTrack` | components/auraplay.tsx:765-782 | The modes become `SelectedModes`: all hidden, track `index` showing. A valid index becomes current and enables captions; an invalid one sets -1 and disables them. Nothing in the component calls `selectCaptionTrack`; the captions menu sets the selected caption instead (`ChooseCaption`). |
| `Session.Player.HandleVolumeChange` | components/auraplay.tsx:697-704 | State and element volume both become the slider value. The state is muted exactly at 0. |
| `Session.Player.ToggleMute` | components/auraplay.tsx:706-718 | The mute flag flips on state and element. Muting zeroes the state's volume only; unmuting sets volume 1 on both. |
| `Session.Player.KeyVolumeUp` | components/auraplay.tsx:601-606 | Volume becomes `VolumeUp` of the old volume, on state and element, and stays in [0, 1]. |
| `Session.Player.KeyVolumeDown` | components/auraplay.tsx:607-612 | Volume becomes `VolumeDown` of the old volume, on state and element, and stays in [0, 1]. |
| `Session.Player.ChooseSpeed` | components/auraplay.tsx:1145-1151 | A speed menu entry: the state's speed and the element's rate both become the chosen menu speed, which lies in [0.25, 2]. |
| `Session.Player.UpdatePlaybackSpeed` | components/auraplay.tsx:801-806 | The element's rate and the state's speed both become the given speed. |
| `Session.Player.KeySpeedUp` | components/auraplay.tsx:624-630 | Speed becomes `SpeedUp` of the old speed, on state and element; a speed in [0.25, 2] stays there. |
| `Session.Player.KeySpeedDown` | components/auraplay.tsx:631-637 | Speed becomes `SpeedDown` of the old speed, on state and element; a speed in [0.25, 2] stays there. |
| `Session.Player.KeyNormalSpeed` | components/auraplay.tsx:613-616 | The `n` key sets speed 1 on state and element. |
| `Manifest.FindDefault` | components/auraplay.tsx:385 | The index of the first track whose `default` is truthy, or -1 when there is none. |
| `Manifest.ApplyJsonFields` | components/auraplay.tsx:376-394 | The source changes only to a truthy `video.source.url`. Present `captions.tracks` replace the tracks. The skip list changes only to a non-empty `skip`. |
| `Manifest.ApplyJsonSelectsFirstDefault` | components/auraplay.tsx:381-389 | The selected caption becomes the first default track when there is one, and is unchanged otherwise. |
| `Manifest.LastDeliveryWins` | components/auraplay.tsx:369-395 | With no stale-result guard, the document delivered last sets the source, even if it answers an older request. |
| `Manifest.CompleteDocumentOverrides` | components/auraplay.tsx:371-394 | A document with a url, a default track and a non-empty skip list erases the effect of any earlier document. |
| `Manifest.DirectCaptionShape` | components/auraplay.tsx:397-408 | The caption-URL branch gives exactly one track `{file: url, label: language, kind: "captions", default: true}`, selected. Source and skip list are untouched. |
| `Manifest.ExampleManifest` | components/auraplay.tsx:371-389 | A manifest with `a.mp4` and one default English track selects that track and plays `a.mp4`. |
| `SkipRanges.ParsePieces` | components/auraplay.tsx:468-471 | One range per piece, each the parse of its own piece, in order. |
| `SkipRanges.ParseSkipRangesPieces` | components/auraplay.tsx:468-471 | The skip string gives one range per comma-separated piece, in order: one more than the number of commas. |
| `SkipRanges.ParseRangeDigits` | components/auraplay.tsx:469 | A piece `a-b` of two decimal numbers parses to the range from a to b. |
| `SkipRanges.ExampleTwoRanges` | components/auraplay.tsx:468-471 | `"5-10,20-25"` parses to `[{5,10},{20,25}]`. |
| `SkipRanges.ExampleMalformedPiece` | components/auraplay.tsx:467-476 | `"5-10,bad"` does not fail as a whole. The bad piece becomes a range with NaN start and undefined end, which covers no time. |
| `SkipRanges.FiveToTen` | components/auraplay.tsx:469 | The piece `"5-10"` parses to the range 5 to 10. |
| `SkipRanges.ParseRangeBad` | components/auraplay.tsx:469 | A piece without `-` gets an undefined end; `"bad"` gets a NaN start. |
| `SkipRanges.ParseRangeOpenStart` | components/auraplay.tsx:469 | A piece `-b` parses to the range 0 to b, because `Number("")` is 0. It covers every time in [0, b). |
| `SkipRanges.BadIsNaN` | components/auraplay.tsx:469 | `Number("bad")` is NaN. |
| `SkipRanges.ActiveRangeIsFirstCovering` | components/auraplay.tsx:481-485 | The active range is the first range in list order with `start <= t < end`. It is null exactly when no range covers t. |
| `SkipRanges.ActiveRangeCovers` | components/auraplay.tsx:481 | An active range covers t, so neither of its bounds is NaN or undefined. |
| `SkipRanges.NoRetriggerAtEnd` | components/auraplay.tsx:481 | A range is never active at its own end, so a skip to its end leaves it. |
| `JsNumber.ToNumber` | components/auraplay.tsx:469 | `Number` never yields `undefined` (it never throws), and an empty or blank string is 0. |
| `JsNumber.LeadingSpace` | components/auraplay.tsx:469 | The length of the string's run of leading white space: those characters are white space and the next is not. |
| `JsNumber.Trim` | components/auraplay.tsx:469 | The result is the slice of the input that starts after the leading white space. Everything after it is white space, and it neither starts nor ends with white space. |
| `JsNumber.StrippedUnique` | components/auraplay.tsx:469 | Only one string has those properties, so `Trim` is determined by them. |
| `JsNumber.TrimNoSpace` | components/auraplay.tsx:469 | A string without white space is its own trim. |
| `JsNumber.DigitsToNumber` | components/auraplay.tsx:469 | A decimal digit string converts to its value, leading zeros included, so there is no octal reading. |
| `JsNumber.NatToStringToNumber` | components/auraplay.tsx:469 | The decimal rendering of a natural number converts back to it. |
| `JsNumber.NotANumberNeverCompares` | components/auraplay.tsx:481 | `t >= b` and `t < b` are both false when b is NaN or `undefined`. |
| `Captions.ElementFor` | components/auraplay.tsx:497-504 | The rebuilt `<track>` has `kind` "captions", the track's label and file, and `default` set, and is not external. Its `srclang` is the lower-cased first word of the label: a prefix ending at the first space, or the whole label when it has none. The `srclang` contains no space. |
| `Captions.SrcLangIsFirstWord` | components/auraplay.tsx:501 | `srclang` is the lower-cased label up to its first space, and contains no space. |
| `Captions.FirstCaptionLike` | components/auraplay.tsx:755-760 | The index of the first subtitles or captions track, or -1 when there is none. |
| `Captions.ToggleTarget` | components/auraplay.tsx:751-761 | toggleCaptions acts on the current track when it exists; otherwise on the fallback, or on none. |
| `Captions.SelectedModesShape` | components/auraplay.tsx:768-781 | After a selection, a track is showing iff it is the selected one. Every other track is hidden. Kinds and labels are unchanged. |
| `Captions.SelectedShowsAtMostOne` | components/auraplay.tsx:768-781 | Exactly one track shows after a valid selection, and none after an invalid one. |
| `Captions.SelectIdempotent` | components/auraplay.tsx:765-782 | Selecting the same track twice equals selecting it once. |
| `Streaming.QualitiesFrom` | components/auraplay.tsx:281-287 | One quality per engine level, in order, with id = position and the level's height and bitrate. |
| `Streaming.AudioTracksFrom` | components/auraplay.tsx:290-296 | One track per engine audio track, in order, with id = position, the name or `Audio n`, and the language or `"unknown"`. |
| `Streaming.AudioTracksNamed` | components/auraplay.tsx:293-294 | Every mapped audio track has a non-empty name and language. |
| `Streaming.QualityLevelsNumbered` | components/auraplay.tsx:281-287 | The mapped levels' ids are their positions. |
| `Streaming.AudioTracksNumbered` | components/auraplay.tsx:290-296 | The mapped audio tracks' ids are their positions. |
| `Streaming.AvailableMembership` | components/auraplay.tsx:861 | A level is offered iff it is in the list with positive height and bitrate. |
| `Streaming.AvailableDistributes` | components/auraplay.tsx:861 | The filter keeps list order: filtering a concatenation filters each part. |
| `Streaming.OfferedIdsIndexTheList` | components/auraplay.tsx:861 | Each offered level's id selects that same level in the full list, the one the quality menu passes to the engine through `switchQuality`. |
| `Transport.VolumeUp` | components/auraplay.tsx:603 | At most 1, exactly 0.1 more below 0.9, and never lower for a volume in [0, 1]. |
| `Transport.VolumeDown` | components/auraplay.tsx:609 | At least 0, exactly 0.1 less above 0.1, and never higher for a volume in [0, 1]. |
| `Transport.SpeedUp` | components/auraplay.tsx:626 | At most 2, exactly 0.25 more below 1.75, and stays in [0.25, 2]. |
| `Transport.SpeedDown` | components/auraplay.tsx:633 | At least 0.25, exactly 0.25 less above 0.5, and stays in [0.25, 2]. |
| `Transport.SpeedStepsOnQuarters` | components/auraplay.tsx:624-637 | On the quarter steps 0.25 to 2, each key moves one step and stops at the end, so speed stays on the grid. |
| `Transport.SpeedChoicesOnQuarters` | components/auraplay.tsx:1145 | Each menu speed is a quarter step from 0.5 to 2, inside [0.25, 2]. |
| `Transport.VolumeKeysStayInRange` | components/auraplay.tsx:601-612 | Both arrow keys keep a volume in [0, 1] inside it. |
| `Transport.MinutesAndSeconds` | components/auraplay.tsx:827-828 | For a non-negative time, minutes are the whole minutes and seconds the remaining whole seconds. |
| `Transport.PadSecondsDigits` | components/auraplay.tsx:829 | The seconds field is exactly two digits with the seconds' value. |
| `Transport.FormatTimeRoundTrip` | components/auraplay.tsx:826-830 | `m:ss` of a non-negative time reads back as its whole seconds. |
| `Text.SplitCount` | components/auraplay.tsx:468 | `split` gives one more piece than there are separators. |
| `Text.SplitJoin` | components/auraplay.tsx:469 | Splitting the join of separator-free pieces gives the pieces back. |
| `Text.JoinSplit` | components/auraplay.tsx:468 | Joining the pieces of a split gives the string back. |
| `Text.SplitFirstPiece` | components/auraplay.tsx:501 | The first piece of a split is a prefix that ends at the first separator. |
| `Text.ToLower` | components/auraplay.tsx:501 | Lower-casing keeps the length. Each upper-case ASCII letter becomes its lower-case letter, every other character is kept, and no upper-case letter is left. |
| `Text.ToLowerIdempotent` | components/auraplay.tsx:501 | Lower-casing twice equals lower-casing once. |
| `Text.ContainsChar` | app/embed/page.tsx:29 | `includes` of a one-character string is membership of that character. |
| `Text.DigitsValueNatToString` | components/auraplay.tsx:829 | The decimal rendering of n has value n. |
| `FormUrlEncoded.Utf8RoundTrip` | app/embed/page.tsx:24 | UTF-8 decoding of an encoded string gives it back. |
| `FormUrlEncoded.FormEncodeChars` | app/embed/page.tsx:28 | A percent-encoded name or value only uses unreserved bytes, `+` and `%XX`. It never contains `&`, `=`, `?` or `#`. |
| `FormUrlEncoded.PercentRoundTrip` | app/embed/page.tsx:28 | Percent-decoding reverses percent-encoding of any byte string. |
| `FormUrlEncoded.FormRoundTrip` | app/embed/page.tsx:28 | A name or value decodes back to itself after encoding. |
| `FormUrlEncoded.SerializeEmpty` | app/embed/page.tsx:28 | The serialized list is empty iff there are no pairs. |
| `FormUrlEncoded.ParsePairString` | app/embed/page.tsx:24 | One serialized pair parses back to itself. |
| `FormUrlEncoded.ParseSerialize` | app/embed/page.tsx:30 | The serialized parameter list parses back to the same pairs, in order. |
| `Embed.FirstWithKey` | app/embed/page.tsx:12-16 | The position of the first pair with the key, or -1 when there is none. |
| `Embed.Get` | app/embed/page.tsx:12-16 | `get` is absent iff no pair has the key. Otherwise it is the value of the first pair with the key: no earlier pair has that key. |
| `Embed.GetRepeatedKey` | app/embed/page.tsx:12-16 | With a key given twice, `get` returns the first value. |
| `Embed.EmbedPlayer` | app/embed/page.tsx:7-61 | The no-source screen shows iff neither `source` nor `video` is non-empty. Otherwise the player gets: the source with unknown parameters forwarded, the video, the caption, the language or `"en"`, `videoType "mp4"`, the skip string, no skip data, no autoplay. |
| `Embed.UnknownMembership` | app/embed/page.tsx:22-26 | A pair is forwarded iff it is a parameter whose key is not reserved, so no reserved key is forwarded. |
| `Embed.UnknownAppend` | app/embed/page.tsx:22-26 | Forwarding keeps the original order. |
| `Embed.UnknownEmpty` | app/embed/page.tsx:21-28 | Nothing is forwarded iff every key is reserved. |
| `Embed.ForwardedKeepsSource` | app/embed/page.tsx:30 | The given source is an exact prefix of the final source URL. |
| `Embed.ForwardedUnchanged` | app/embed/page.tsx:18-31 | The final source equals the given one iff there are no unknown parameters. |
| `Embed.ForwardedSeparator` | app/embed/page.tsx:29-30 | The separator is `&` iff the source already contains `?`, and `?` otherwise. |
| `Embed.ForwardedQueryParses` | app/embed/page.tsx:28-30 | What follows the separator parses back into exactly the unknown parameters, in order. |
| `Embed.ForwardedOntoPlainSource` | app/embed/page.tsx:29-30 | On a source without `?`, the part before the first `?` is the source and the rest parses to the unknown parameters. |
| `Embed.TypeIsForwarded` | app/embed/page.tsx:10 | A `type` parameter is not reserved, so it reaches the manifest URL's query. |
| `Scenarios.ReceiveManifest` | components/auraplay.tsx:371-394 | A manifest naming a file and one default track: the source and the selected track are set, and nothing is loaded yet. |
| `Scenarios.ManifestThenDirectLoad` | components/auraplay.tsx:367-416 | The same manifest, then the source effect: the file plays directly with no engine, and one `<track>` is built for that track. The element has no text tracks yet. |
| `Scenarios.ManifestThenShowCaption` | components/auraplay.tsx:488-511 | The browser then reports the new track, and the timeout shows it. Its caption track is showing. The state's copy is still empty, because `loadedmetadata` has not fired yet. |
| `Scenarios.ManifestThenMetadata` | components/auraplay.tsx:682-687 | Then `loadedmetadata` fires. Its listener (450) and `handleLoadedMetadata` both copy the live list, so the state's copy holds the showing caption track. |
| `Scenarios.EnglishElement` | components/auraplay.tsx:497-504 | The label "English" gives `srclang` "english". |
| `Scenarios.EmbedHlsVideo` | app/embed/page.tsx:48-60 | `?video=x.m3u8&type=hls` with hls.js: the player is told "mp4", but the `.m3u8` still creates an engine. After the manifest only levels with positive height and bitrate are offered, and loading is over. |
| `Scenarios.HlsQueryProps` | app/embed/page.tsx:12-16 | The example query's `get` results: only `video` is present. |
| `Scenarios.ExampleLevels` | components/auraplay.tsx:281-287 | The example levels are numbered 0 and 1, and the zero level is filtered out. |
| `Scenarios.UnsupportedHlsStaysLoading` | components/auraplay.tsx:272-333 | HLS on a runtime with neither hls.js nor native HLS: no engine, no media source, loading never ends. |
| `Scenarios.MuteThenArrowUp` | components/auraplay.tsx:697-718 | After mute then arrow-up, the state reads unmuted at volume 0.1 while the element stays muted. |
| `Scenarios.SkipThroughRanges` | components/auraplay.tsx:480-486 | With ranges 5-10 and 20-25: the first is active at 7 s; after the skip to 10 none is active; at 22 s the second is. |
| `Scenarios.ExampleActiveRanges` | components/auraplay.tsx:481 | Active ranges of the example list at 7, 10 and 22 seconds. |
| `Scenarios.ChooseCaptionThenRebuild` | components/auraplay.tsx:954-974 | A captions menu choice, then the caption effect: "Off" leaves no `<track>`, and a track entry leaves exactly the one built for that track. The enabled flag, the caption tracks and the live text tracks are unchanged. |
| `Scenarios.MenuSpeedThenFaster` | components/auraplay.tsx:1145-1151 | A menu speed, then Shift+`>`: the speed moves one quarter step up and stops at 2. |
| `Scenarios.SelectCaptionTwice` | components/auraplay.tsx:765-782 | Selecting a valid track twice leaves the same modes as once, with exactly that track showing. |

## Left out

- JSX and rendering: overlays, the stats panel, icons, toasts, styles and cue-line styling. The menu entries that change session state are modelled: the captions menu as `ChooseCaption` (956, 971), the speed menu as `ChooseSpeed` (1147-1151) and the quality menu as `ChooseQuality` and `ChooseAutoQuality`. The other menu state only changes what is displayed, and is not modelled:
  - which settings submenu is open;
  - the caption appearance settings (1017-1125);
  - the aspect ratio and the video transforms (1229-1308);
  - the visibility of the controls, the shortcuts and the stats.
- The keydown dispatcher itself: key-name lower-casing, `preventDefault`, and the seek, play, fullscreen, picture-in-picture and screenshot keys. Only the volume, speed and `n` branches are modelled, as the `Key…` methods.
- `togglePlay`, `handleSeek`, fullscreen, picture-in-picture, screenshots and poster capture. They are DOM and browser-API calls.
- Timers and randomness: the controls auto-hide, the toast timeout, and the stats interval with `Math.random` and the Network Information API. The caption effect's 100 ms timeout is the separate method `ShowFirstTextTrack`; when it fires is not modelled.
- hls.js internals and the browser's capability checks. Support, native HLS, reported levels and tracks, and `play()`'s outcome are inputs.
- LoadVideo: the blob URL that hls.js's `attachMedia` puts on the element is not modelled, so on that path the element's `src` is left as it was.
- The load listener of the external `<track>` (357-361) is not modelled. It is attached only on `loadVideo`'s external-caption path. That path is reached only from `handleLoadVideo`, which nothing calls.
- The `LEVEL_SWITCHED` handler (312-317). It only re-sets `currentQuality` to -1 when it is already -1.
- The `duration` state that `handleLoadedMetadata` sets (684). Nothing in the modelled core reads the duration. The handler's other step, `updateTextTracks`, is modelled as `HandleLoadedMetadata`.
- `handleLoadVideo` (418-423). It is one call of `LoadVideo` with the caption URL and is never called from the page.
- Manifests that do not match the expected document shape. `Manifest.JsonSource` holds only a string `url`, a list of well-formed caption tracks with a boolean `default`, and a list of skip ranges. The code accepts any JSON, and with another shape it does things the model cannot express:
  - A truthy `captions.tracks` that is not an array makes `findIndex` throw at 385. That happens after `setCaptionTracks` at 382, so the tracks are replaced while the selection stays: a partial update, after which the catch at 396 only logs.
  - A non-boolean `default` is tested for truthiness, so `"false"` makes a track the default.
  - A non-string label throws at `.split` in the caption effect (501).
  - A non-string `url` is stored as the source as it is.
- Aliasing of text tracks. `updateTextTracks` stores the element's own TextTrack objects, so a later mode change shows through the state's copy. The model copies values, so its copy keeps the modes as they were when it was taken. The scenarios take the copy after the modes change.
- The manifest fetch and its failure (369-370, 396). The request is issued outside the model; the parsed document is the argument of `OnSourceJson`, and a failure only logs.
- React scheduling: each handler runs to completion and effects run when called. Stale closures and effect ordering are not modelled.
- The re-run of the source effect after a quality choice, caused by `loadVideo`'s `currentQuality` dependency (364). `ChooseQuality` leaves the engine at the picked level. In the code that engine is destroyed and replaced by a new one at automatic level, so the pick does not survive.
- JsNumber.ToNumber: works over exact reals. IEEE-754 rounding and overflow of long digit strings to Infinity are not modelled.
- Transport.FormatTimeRoundTrip: covers only non-negative times. `formatTime` of a NaN or a negative time is not stated.
- Volume, speed and time are exact reals, so `0.1` steps are exact rather than binary floating point.
- Text.ToLower: maps ASCII letters only. `toLowerCase`'s full Unicode case mapping is not modelled.
- FormUrlEncoded: malformed UTF-8 is decoded to U+FFFD one byte at a time instead of by the standard's maximal-subpart rule. Query strings produced by the serializer never hit this case.
- The embed page's query is taken as its already-decoded list of pairs. How the browser decodes the page's own URL is not modelled.
- A source URL holding a `#` fragment: the forwarded parameters are appended after it and land in the fragment. The model states the URL the code builds, not what a server would receive.
- Session.Player.HandleVolumeChange: requires the slider value to be in [0, 1], which the range input's min and max guarantee (1622-1628).
- Changes of the component's props after the first render. The props are fixed for a `Player`'s lifetime, so effects re-run only when state they depend on changes.
- An undefined `skipData` prop is modelled as an empty list. An undefined `src`, `sourceUrl`, `captionUrl` or `skipRanges` prop is modelled as `""`. These are the props without a default, and the component only tests them for truthiness or length. `captionLanguage`, `videoType` and `autoPlay` get their declared defaults instead.
