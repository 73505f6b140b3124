# pytube captions and channel decoders in Dafny

This project models two parts of pytube, the YouTube download library.

- **Captions** (`pytube/captions.py`):
  - what `Caption.__init__` keeps of a caption track: its URL, its display name and its language code;
  - `Caption.convert_time`, which writes milliseconds as a SubRip timestamp `HH:MM:SS,mmm`;
  - `Caption.xml_caption_to_srt`, which compiles a parsed timed-text XML document into SubRip text. It tries three document dialects in a fixed order:
    - dialect A: children with float `start`/`dur` in seconds;
    - dialect B: `<p>` elements with integer `t`/`d` in milliseconds and `<s>` segments;
    - dialect C: the children of `<body>`, read when B wrote nothing.
- **Channel pages** (`pytube/contrib/channel.py`):
  - locating the list of renderer nodes in a videos page or a browse response (`_find_content_list`, `_find_searched_content_list`);
  - turning renderer nodes into video records and a continuation token (`_parse_contents`);
  - extracting de-duplicated watch URLs and a continuation token from the three payload shapes (`_extract_videos`);
  - reading abbreviated counts such as `12K` (`text_to_number`, `subscriber_count`);
  - reading comma-grouped counts (`total_view_count`, `video_count`);
  - the two listings built on these (`recent_videos`, `search_videos`).

The modules are:

- `Wrappers`: `Option` and `Result`.
- `Strings`: Python's `strip`, `replace`, `split(sep)[0]` and `join`.
- `Numerals`:
  - Python's `int()` and `float()` on decimal text, as exact integers and reals;
  - `str()` of integers and the `{n:0w}` format.
- `Json`: a parsed JSON tree with Python's subscripts, `.get`, `in`, truthiness and `for` iteration. Python's `None` is `Null`. Exceptions are a `PyError` value.
- `Xml`: an ElementTree element with `iter` and `find`.
- `Captions` and `Channel`: the core.

Every operation that raises in Python returns `Failure(e)` with the exception kind. A `try` that catches everything becomes an `Option`. Each loop of the source that accumulates a result is a method whose loop invariant ties its variables to a prefix fold; that fold is the function the lemmas talk about. The two first-match tab scans of `_find_content_list` and `_find_searched_content_list`, which return early, are recursive functions.

## Model

| member | source | states |
|---|---|---|
| `Captions.NewCaption` | pytube/captions.py:16-39 | The constructor's loop over `runs` computes the track that `CaptionTrackOf` describes, including the exception it raises. |
| `Captions.NameFromSimpleText` | pytube/captions.py:26-28 | A `simpleText` entry is the name, whatever runs there are. |
| `Captions.NameIsLastTextRun` | pytube/captions.py:29-32 | Without `simpleText`, the name is the text of the last run that has a `text` key. |
| `Captions.NameUnsetWithoutTextRun` | pytube/captions.py:29-32 | When no run has `text`, the name is never assigned. |
| `Captions.RunsNameOfDicts` | pytube/captions.py:30-32 | A list of dict runs never makes the loop raise. |
| `Captions.RunsNameAbortsOnPrefix` | pytube/captions.py:30-32 | Once the runs loop raises on a prefix, the constructor raises that exception. |
| `Captions.CodeIsStrippedVssId` | pytube/captions.py:35-39 | A track that constructs has a string `vssId`, and its code is that string with `strip('.')` applied. |
| `Captions.CodeStripsOuterDots` | pytube/captions.py:39 | `strip('.')` keeps a contiguous slice of `vssId`. Only dots are removed before and after it, and it neither starts nor ends with a dot. |
| `Captions.CodeExamples` | pytube/captions.py:36-39 | `.en` gives `en`, `a.en` stays `a.en`, and `..` gives the empty code. |
| `Captions.Decompose` | pytube/captions.py:79-82 | The four fields `convert_time` computes split a non-negative time into hours, minutes below 60, seconds below 60 and milliseconds below 1000. |
| `Captions.TimeFieldsOf` | pytube/captions.py:79-82 | Helper for `Decompose`: floor division and modulo recover each field from a time built from such fields. |
| `Captions.ConvertTimeFields` | pytube/captions.py:77-83 | A time is written as its hours, minutes, seconds and milliseconds, zero-padded to widths 2, 2, 2 and 3. |
| `Captions.ParseSrtLayout` | pytube/captions.py:83 | Helper for `ConvertTimeRoundTrip`: the model's own SubRip reader picks out the four fields of `H:MM:SS,mmm`. |
| `Captions.ClockFieldsRead` | pytube/captions.py:83 | The zero-padded fields have the widths the layout needs and denote the time they came from. |
| `Captions.ClockValueOf` | pytube/captions.py:83 | Helper for `ConvertTimeRoundTrip`, about the model's reader: digit fields denote hours·3600000 + minutes·60000 + seconds·1000 + milliseconds. |
| `Captions.ParseSrtFields` | pytube/captions.py:83 | The layout of four fields reads back as the time they encode. |
| `Captions.ConvertTimeRoundTrip` | pytube/captions.py:77-83 | Reading back `convert_time(ms)` gives `ms` for every `ms >= 0`. |
| `Captions.ConvertTimeWidth` | pytube/captions.py:83 | Below 100 hours the timestamp is exactly 12 characters. |
| `Captions.XmlCaptionToSrt` | pytube/captions.py:84-161 | The method's result is `CaptionSrt`: A; when A raises, B; C only when B wrote nothing; None when B or C raises. |
| `Captions.DialectAPass` | pytube/captions.py:92-111 | The dialect A loop computes `ABlocks`. |
| `Captions.DialectBPass` | pytube/captions.py:112-141 | The dialect B loop, whose counter advances only on blocks written, computes `BBlocks`. |
| `Captions.SegmentPass` | pytube/captions.py:126-132 | The loop over a `<p>`'s children computes `SegmentTexts`. |
| `Captions.DialectCPass` | pytube/captions.py:145-157 | The dialect C loop computes `CBlocks`. |
| `Captions.NumberEachAbortsOnPrefix` | pytube/captions.py:92-111 | In dialects A and C, an element that cannot be read makes the whole pass raise. |
| `Captions.NumberKeptAbortsOnPrefix` | pytube/captions.py:115-141 | In dialect B, a `<p>` that cannot be read makes the whole pass raise. |
| `Captions.SegmentTextsAbortsOnPrefix` | pytube/captions.py:127-132 | A segment without text makes the `<p>` unreadable. |
| `Captions.NumberEachOnePerElement` | pytube/captions.py:93-109 | The shared A/C pattern succeeds if and only if every element reads. It then writes exactly one block per element, the i-th numbered i+1 with that element's times and text. |
| `Captions.ATimesReadable` | pytube/captions.py:96-101 | A child's times read if and only if it has a `start` that `float()` accepts and any `dur` is accepted too. The end is start plus `dur`, or plus 0 without `dur`. |
| `Captions.ACueReadable` | pytube/captions.py:94-108 | A child gives a cue if and only if its times read and `float_to_srt_time_format` renders both; the cue carries those two renderings. |
| `Captions.DialectAOneBlockPerChild` | pytube/captions.py:93-109 | Dialect A succeeds if and only if every child's times read and render, and then writes one block per child, numbered from 1, with the rendered start and end. |
| `Captions.SegmentTextsOnePerChild` | pytube/captions.py:127-132 | One text per segment, with `&#39;` turned into an apostrophe. |
| `Captions.Spoken` | pytube/captions.py:133-137 | The kept cues are at most as many as the elements, and none has empty text. |
| `Captions.Numbered` | pytube/captions.py:140-141 | One block per cue. |
| `Captions.NumberedAppend` | pytube/captions.py:140-141 | Helper for `NumberKeptSpoken`: one more cue appends its block, numbered after the others. |
| `Captions.BCueReadable` | pytube/captions.py:117-133 | A `<p>` reads if and only if its integer `t`, its `d` (default "0") and every segment read. The cue runs from `t` to `t + d`, and its text is the stripped concatenation of the segment texts. |
| `Captions.CCueReadable` | pytube/captions.py:148-153 | A child of `<body>` reads if and only if it has integer `t` and `d` and text of its own. The cue runs from `t` to `t + d`. |
| `Captions.NoBodyDialectCFails` | pytube/captions.py:147 | Without `<body>`, dialect C raises. |
| `Captions.NumberKeptDefined` | pytube/captions.py:115-141 | The dialect B pattern succeeds if and only if every element reads. |
| `Captions.NumberKeptSpoken` | pytube/captions.py:115-141 | When every element reads, the pass writes the cues with text in document order, numbered 1, 2, … without gaps. |
| `Captions.DialectBNumbersSpokenCues` | pytube/captions.py:115-141 | Dialect B succeeds if and only if every `<p>` reads. Its blocks are then the spoken cues, numbered consecutively. |
| `Captions.DialectCOneBlockPerChild` | pytube/captions.py:147-155 | Dialect C succeeds if and only if every child of `<body>` reads. It then writes one block per child, empty text included. |
| `Captions.MissingStartFallsThrough` | pytube/captions.py:100-112 | A child without `start` hands the document to dialects B and C. |
| `Captions.UnrenderableTimeFallsThrough` | pytube/captions.py:102-112 | A child whose start or end `float_to_srt_time_format` cannot render hands the document to dialects B and C. |
| `Captions.UnreadableParagraphGivesNone` | pytube/captions.py:112-160 | Once A has raised, an unreadable `<p>` makes the result None. C is not tried, because it shares B's handler. |
| `Captions.SpokenParagraphSkipsDialectC` | pytube/captions.py:142-143 | When B writes a block, the result is B's blocks joined and stripped, and `<body>` is never looked at. |
| `Captions.DialectCOnlyAfterSilentB` | pytube/captions.py:144-157 | When B reads every `<p>` but writes nothing, the result is C's blocks joined, not stripped, or None. |
| `Captions.EmptyRootGivesEmptyText` | pytube/captions.py:161 | A root without children gives the empty string. |
| `Captions.DialectsABStripped` | pytube/captions.py:161 | Text from dialect A or B has no whitespace at either end. |
| `Strings.StripCharsSlice` | pytube/captions.py:39 | `strip(chars)` keeps a contiguous middle slice and removes only the stripped characters around it. |
| `Numerals.FormatIntExact` | pytube/captions.py:83 | A value below 10^w fills a width-w field exactly, with digits that denote it. |
| `Numerals.FormatIntReadsBack` | pytube/captions.py:83 | A non-negative value's padded field is all digits, at least w wide, and denotes it. |
| `Numerals.ParseIntRoundTrip` | pytube/captions.py:117-118 | `int(str(n)) == n` for every integer. |
| `Numerals.ParseIntDigits` | pytube/contrib/channel.py:138-142 | Digits, possibly surrounded by whitespace, are read as their decimal value. |
| `Numerals.ParseFloatNat` | pytube/contrib/channel.py:394-395 | `float(str(n)) == n` for every natural number. |
| `Numerals.ParseFloatDecimal` | pytube/contrib/channel.py:387-388 | `float("w.f")` is the exact decimal fraction the digits spell. |
| `Channel.FirstContentTabIsFirst` | pytube/contrib/channel.py:243-245 | The first tab with content gives its rich-grid contents. Every earlier tab had none. |
| `Channel.NoContentTabGivesNone` | pytube/contrib/channel.py:241-246 | With no tab that has content, the list is None. |
| `Channel.FalsyContentsGivesNone` | pytube/contrib/channel.py:242-246 | Missing or falsy `contents` gives None. |
| `Channel.FirstExpandableTabIsFirst` | pytube/contrib/channel.py:250-255 | The search takes the first tab with a truthy `expandableTabRenderer`. |
| `Channel.NoExpandableTab` | pytube/contrib/channel.py:250-252 | Tabs none of which is expandable give None. |
| `Channel.NoExpandableTabGivesNone` | pytube/contrib/channel.py:248-261 | With truthy `contents` but no expandable tab, the result is None, and the continuation actions are not consulted. |
| `Channel.ActionsGiveContinuationItems` | pytube/contrib/channel.py:256-260 | Without `contents`, the first action's `continuationItems` is the list, or None when absent. |
| `Channel.ParseContents` | pytube/contrib/channel.py:263-335 | The loop computes `ParsedContents`: the records and the last token, or the first exception. |
| `Channel.ParseItemsNext` | pytube/contrib/channel.py:266-334 | Helper for `ParseContents`, one iteration of the fold: a video appends its record, a continuation replaces the token, anything else changes nothing, and an exception ends the call. |
| `Channel.ParseItemsAbortsOnPrefix` | pytube/contrib/channel.py:266-334 | Once a node has raised, the call raises that exception. |
| `Channel.FirstFailingNodeFails` | pytube/contrib/channel.py:266-334 | The first node that raises decides the exception, whatever follows it. |
| `Channel.NoFailingNodeSucceeds` | pytube/contrib/channel.py:266-335 | When no node raises, the call succeeds. |
| `Channel.SuccessClassifiesEveryNode` | pytube/contrib/channel.py:266-335 | A call that succeeds classified every node without an exception. |
| `Channel.ParseItemsLast` | pytube/contrib/channel.py:301-327 | The last node adds a record exactly when it is a video. |
| `Channel.RecordsInInputOrder` | pytube/contrib/channel.py:266-327 | The records correspond one-to-one, in input order, to the nodes classified as videos. There are at most as many records as nodes. |
| `Channel.MissingVideoIdFailsCall` | pytube/contrib/channel.py:268-271 | A rich item without `videoId` makes the whole call raise KeyError. |
| `Channel.SectionMissingVideoIdFailsCall` | pytube/contrib/channel.py:302-306 | An item section whose video renderer has no `videoId` makes the whole call raise KeyError. |
| `Channel.TokenOfLastContinuation` | pytube/contrib/channel.py:328-334 | The token is that of the last continuation node whose token path resolves. |
| `Channel.NoContinuationNoToken` | pytube/contrib/channel.py:265-335 | With no such node, the token stays None. |
| `Channel.OptionalFieldsIndependent` | pytube/contrib/channel.py:280-300 | The views and the description read disjoint parts of the renderer. |
| `Channel.RecordNeedsOnlyIdAndTitle` | pytube/contrib/channel.py:268-301 | A record exists if and only if its `videoId` and title can be read. Optional fields never make it fail. |
| `Channel.UngroupedCount` | pytube/contrib/channel.py:281-287 | Removing the commas of a grouped count leaves digits that `int()` reads as their value. |
| `Channel.BeforeSeparator` | pytube/contrib/channel.py:285 | Helper for `GroupedCountBefore`: `split(sep)[0]` cuts exactly before the separator that follows separator-free text. |
| `Channel.GroupedCountBefore` | pytube/contrib/channel.py:138-142 | `int(text.split(sep)[0].replace(",", ""))` reads a grouped count followed by the separator as the number its digits spell. |
| `Channel.ViewsOfText` | pytube/contrib/channel.py:281-287 | For any renderer, whatever its other keys, `views` is `int()` of the first word of `viewCountText.simpleText`, without commas. |
| `Channel.ViewsOfGroupedCount` | pytube/contrib/channel.py:280-289 | For any renderer whose `viewCountText.simpleText` is a grouped count followed by a space, `views` is the number its digits spell. |
| `Channel.PathFailureIsCaught` | pytube/contrib/channel.py:508-541 | Subscript chains raise only KeyError, IndexError or TypeError, the kinds the cascade catches. |
| `Channel.ShapesTriedInOrder` | pytube/contrib/channel.py:508-541 | The cascade never raises. It takes the first of the three shapes that resolves, or gives nothing. |
| `Channel.AllShapesFailGiveNothing` | pytube/contrib/channel.py:539-541 | When no shape resolves, the result is no URLs and no continuation. |
| `Channel.LastTokenNeedsList` | pytube/contrib/channel.py:544-547 | A token found under `videos[-1]` means the videos value is a non-empty list. |
| `Channel.PeelExactlyTheLastItem` | pytube/contrib/channel.py:543-550 | A continuation is returned exactly when the last item carries a token path, and then exactly that item is removed. Otherwise the list is unchanged; a TypeError escapes. |
| `Channel.MapAll` | pytube/contrib/channel.py:555-560 | `list(map(f, xs))` succeeds if and only if `f` succeeds on every element, with one result per element in order. |
| `Channel.WatchUrls` | pytube/contrib/channel.py:555-560 | Every video gives `/watch?v=` plus its `gridVideoRenderer.videoId`, in order. A video without it raises. |
| `Channel.Unique` | pytube/contrib/channel.py:553-555 | No URL repeats, and the set of URLs is unchanged. |
| `Channel.ExtractedFromItems` | pytube/contrib/channel.py:543-563 | The URLs are the de-duplicated watch URLs of exactly the videos minus the last one when it carries a token path, and of all the videos otherwise. The token is that last item's token, or None. |
| `Channel.ExtractedWatchUrls` | pytube/contrib/channel.py:552-563 | No returned URL repeats, and each is built from some video's `gridVideoRenderer.videoId`. |
| `Channel.SuffixFactor` | pytube/contrib/channel.py:379 | The suffixes are exactly K, M, B and T. |
| `Channel.TextToNumberRaisesOnlyOnEmpty` | pytube/contrib/channel.py:382 | `text_to_number` raises, with IndexError, if and only if the text is empty. |
| `Channel.SuffixScales` | pytube/contrib/channel.py:382-391 | A suffixed number part is scaled by its factor. A part `float` rejects gives the number-part message. |
| `Channel.SuffixScalesBy` | pytube/contrib/channel.py:387-388 | The suffix scales whatever value the number part has. |
| `Channel.NoSuffixReadsWhole` | pytube/contrib/channel.py:392-398 | Without a suffix the whole text is read. Rejected text gives the input message. |
| `Channel.TextToNumberScaled` | pytube/contrib/channel.py:382-388 | `12K` reads as 12000, and likewise for every whole number and suffix. |
| `Channel.TextToNumberDecimalScaled` | pytube/contrib/channel.py:382-388 | `1.5K` reads as 1500: a decimal number part times the factor. |
| `Channel.TextToNumberPlain` | pytube/contrib/channel.py:392-395 | A whole number without suffix reads as itself. |
| `Channel.BareSuffixIsMessage` | pytube/contrib/channel.py:384-391 | A bare suffix gives the number-part message. |
| `Channel.SubscriberCountScaled` | pytube/contrib/channel.py:400-413 | `12K subscribers` gives 12000. |
| `Channel.SubscriberCountLeadingSpace` | pytube/contrib/channel.py:406-413 | Text starting with a space makes `text[-1]` raise, and the count is None. |
| `Channel.TotalViewCount` | pytube/contrib/channel.py:133-142 | When the text is present, a failure is ValueError for a string and AttributeError for anything else. |
| `Channel.TotalViewCountGrouped` | pytube/contrib/channel.py:138-142 | A grouped count before ` views` reads as the number its digits spell. |
| `Channel.TotalViewCountRoundTrip` | pytube/contrib/channel.py:138-142 | Writing a count followed by ` views` and reading it back gives the count. |
| `Channel.VideoCountGrouped` | pytube/contrib/channel.py:427-440 | A grouped count before ` videos` reads as the number its digits spell. |
| `Channel.RecentVideosOfFirstTab` | pytube/contrib/channel.py:337-344 | `recent_videos` gives the records of the first content tab's nodes, or their exception. |
| `Channel.SearchContinuation` | pytube/contrib/channel.py:360-375 | A continuation response gives the records and the token of its items. |

## Left out

- Network access is not modelled: `request.get`, InnerTube `browse`, OAuth and caching. Each model function takes the already parsed document or JSON value as a parameter.
- `Channel.__init__` and its URL building are not modelled.
- Parsing is not modelled: `json.loads`, `ElementTree.fromstring`, `extract_ytcfg_json` and `extract_yt_initial_data` (regular-expression search over HTML).
- `html.unescape` is a parameter (`Externals.unescape`), since it is an HTML5 entity table.
- `Caption.float_to_srt_time_format` is a parameter (`Externals.srtTime`), because it goes through `math.modf`, `time.gmtime` and float formatting. It returns None where it raises, for instance on seconds `time.gmtime` cannot represent; which inputs those are is left to the parameter.
- Floating point is not modelled. `float()` is read as an exact real, so rounding, `inf`, `nan`, hexadecimal and underscore forms are absent. `int()` accepts ASCII decimal digits with an optional sign and surrounding whitespace; underscores and non-ASCII digits are not modelled.
- `str()` of floats, lists and dicts in the watch URL is the parameter `display`. Strings, None, booleans and integers are rendered exactly.
- `Channel.Unique`: this is `uniqueify`, whose source is not part of this model. It is modelled as keeping the first occurrence of each URL. The contract states no repeats and the same set of URLs, not the order.
- Dict key order is not kept by `map`. A loop over a dict's keys is modelled by what every such loop in the core does with them: it raises on the first key, or, for the caption runs, raises exactly when some key contains `text`.
- Logging and `print` in the error paths are not modelled.
- Not modelled: the other channel properties (`channel_name`, `channel_id`, `vanity_url`, `about_metadata_json`, `description`, `date_joined`, `country`), the memoised page properties (`html`, `videos_json` and the like), `Caption.download`, `Caption.xml_captions`, `Caption.json_captions` and `generate_srt_captions`. They fetch, cache, write files or look up one key.
- `Captions.ConvertTimeRoundTrip`: stated for non-negative milliseconds only. For negative input Python's floor division gives a negative hour field, which the reader does not accept.

## Behaviour worth noting

- In `_parse_contents`, a rich or section item without `videoId` or a title raises out of the whole call; the record is not dropped on its own. Only `views` and `description` are guarded.
- In `xml_caption_to_srt`, dialects B and C share one `try`: an exception in B returns None without trying C. C's output is joined but not stripped.
- The caption name from `runs` is the text of the last run that has a `text` key.
- `strip('.')` removes dots at both ends of `vssId`, so `.en` becomes `en` and `a.en` stays `a.en`.
