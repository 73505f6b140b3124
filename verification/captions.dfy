/** The caption side of the library: the metadata of one caption track as
    `Caption.__init__` normalises it, the SubRip timestamp, and the compiler
    from a parsed XML timed-text document to SubRip text, which tries three
    document dialects in a fixed order. */
module Captions {
  import opened Wrappers
  import opened Strings
  import opened Numerals
  import opened Xml
  import opened Json

  /** Library functions the compiler calls and the model leaves open:
      `html.unescape` (imported both as `unescape` and `html.unescape`) and
      `Caption.float_to_srt_time_format`, the SubRip rendering of a number of
      seconds, None where it raises (`time.gmtime` rejects seconds out of
      the platform's range). */
  datatype Externals = Externals(unescape: string -> string, srtTime: real -> Option<string>)

  // ---------------------------------------------------------------------
  // Track metadata (Caption.__init__)
  // ---------------------------------------------------------------------

  /** What `Caption.__init__` keeps of a track: `url` is `.get("baseUrl")`
      (None when absent), `name` is None when the constructor never assigns
      it, `code` is the `vssId` with its outer dots stripped. */
  datatype CaptionTrack = CaptionTrack(url: Json, name: Option<Json>, code: string)

  predicate IsDot(c: char) { c == '.' }

  /** The name after the loop over `runs` has visited `runs`: each run that
      has a `text` key overwrites it with that text. `'text' in el` and
      `el['text']` are Python's, so a run that is a number raises, and a run
      that is a list containing "text" raises on the subscript. */
  function RunsName(runs: seq<Json>): Result<Option<Json>, PyError>
    decreases |runs|
  {
    if runs == [] then Success(None)
    else
      var name :- RunsName(runs[..|runs| - 1]);
      var el := runs[|runs| - 1];
      var hasText :- Contains(el, "text");
      if hasText then
        var text :- Item(el, "text");
        Success(Some(text))
      else Success(name)
  }

  /** The elements the runs loop visits, as far as they matter to it. A
      string gives one-character strings, none of which contains "text". A
      dict gives its keys: one in which "text" is a substring makes the loop
      subscript a string and raise TypeError; the others are skipped, so the
      order of the keys does not matter. */
  function RunElements(runs: Json): Result<seq<Json>, PyError> {
    match runs
    case Obj(m) =>
      if exists k :: k in m && IsSubstring("text", k) then Failure(TypeError) else Success([])
    case _ => Iterate(runs, TypeError)
  }

  /** The display name: `simpleText` when the name dict has it, otherwise
      what the runs loop leaves. */
  function TrackName(nameDict: Json): Result<Option<Json>, PyError> {
    var simple :- Contains(nameDict, "simpleText");
    if simple then
      var text :- Item(nameDict, "simpleText");
      Success(Some(text))
    else
      var runsValue :- Item(nameDict, "runs");
      var runs :- RunElements(runsValue);
      RunsName(runs)
  }

  /** `Caption.__init__` as a value: the track, or the exception raised. */
  function CaptionTrackOf(track: Json): Result<CaptionTrack, PyError> {
    var url :- Get(track, "baseUrl");
    var nameDict :- Item(track, "name");
    var name :- TrackName(nameDict);
    var vssId :- Item(track, "vssId");
    if vssId.Str? then Success(CaptionTrack(url, name, StripChars(vssId.s, IsDot)))
    else Failure(AttributeError)
  }

  /** `Caption.__init__`: reads the url, picks the display name (looping over
      the runs when there is no `simpleText`) and normalises the code. */
  method NewCaption(track: Json) returns (r: Result<CaptionTrack, PyError>)
    ensures r == CaptionTrackOf(track)
  {
    var url := Get(track, "baseUrl");
    if url.Failure? { return Failure(url.error); }
    var nameDict := Item(track, "name");
    if nameDict.Failure? { return Failure(nameDict.error); }
    var simple := Contains(nameDict.value, "simpleText");
    if simple.Failure? { return Failure(simple.error); }
    var name: Option<Json> := None;
    if simple.value {
      var text := Item(nameDict.value, "simpleText");
      if text.Failure? { return Failure(text.error); }
      name := Some(text.value);
    } else {
      var runsValue := Item(nameDict.value, "runs");
      if runsValue.Failure? { return Failure(runsValue.error); }
      var elements := RunElements(runsValue.value);
      if elements.Failure? { return Failure(elements.error); }
      var runs := elements.value;
      var i := 0;
      while i < |runs|
        invariant 0 <= i <= |runs|
        invariant RunsName(runs[..i]) == Success(name)
      {
        var el := runs[i];
        assert runs[..i + 1][..i] == runs[..i];
        var hasText := Contains(el, "text");
        if hasText.Failure? {
          RunsNameAbortsOnPrefix(runs, i + 1);
          return Failure(hasText.error);
        }
        if hasText.value {
          var text := Item(el, "text");
          if text.Failure? {
            RunsNameAbortsOnPrefix(runs, i + 1);
            return Failure(text.error);
          }
          name := Some(text.value);
        }
        i := i + 1;
      }
      assert runs[..i] == runs;
    }
    var vssId := Item(track, "vssId");
    if vssId.Failure? { return Failure(vssId.error); }
    if !vssId.value.Str? { return Failure(AttributeError); }
    r := Success(CaptionTrack(url.value, name, StripChars(vssId.value.s, IsDot)));
  }

  /** Once the loop has raised on a prefix of the runs, the whole loop has
      raised the same exception. */
  lemma {:induction false} RunsNameAbortsOnPrefix(runs: seq<Json>, i: nat)
    requires i <= |runs| && RunsName(runs[..i]).Failure?
    ensures RunsName(runs) == RunsName(runs[..i])
    decreases |runs|
  {
    if i < |runs| {
      var init := runs[..|runs| - 1];
      assert init[..i] == runs[..i];
      RunsNameAbortsOnPrefix(init, i);
    } else {
      assert runs[..i] == runs;
    }
  }

  /** With no `simpleText`, the name is the text of the LAST run that has a
      `text` key (each such run overwrites the previous one). */
  lemma {:induction false} NameIsLastTextRun(runs: seq<Json>, j: nat)
    requires forall i :: 0 <= i < |runs| ==> runs[i].Obj?
    requires j < |runs| && "text" in runs[j].fields
    requires forall i :: j < i < |runs| ==> "text" !in runs[i].fields
    ensures RunsName(runs) == Success(Some(runs[j].fields["text"]))
    decreases |runs|
  {
    var init := runs[..|runs| - 1];
    RunsNameOfDicts(init);
    if j < |runs| - 1 {
      NameIsLastTextRun(init, j);
      assert RunsName(init) == Success(Some(runs[j].fields["text"]));
      assert Contains(runs[|runs| - 1], "text") == Success(false);
    } else {
      assert Contains(runs[j], "text") == Success(true);
    }
  }

  /** Runs that are all dicts never make the loop raise. */
  lemma {:induction false} RunsNameOfDicts(runs: seq<Json>)
    requires forall i :: 0 <= i < |runs| ==> runs[i].Obj?
    ensures RunsName(runs).Success?
    decreases |runs|
  {
    if runs != [] {
      RunsNameOfDicts(runs[..|runs| - 1]);
    }
  }

  /** With no run carrying `text`, the loop never assigns the name. */
  lemma {:induction false} NameUnsetWithoutTextRun(runs: seq<Json>)
    requires forall i :: 0 <= i < |runs| ==> runs[i].Obj? && "text" !in runs[i].fields
    ensures RunsName(runs) == Success(None)
    decreases |runs|
  {
    if runs != [] {
      NameUnsetWithoutTextRun(runs[..|runs| - 1]);
    }
  }

  /** A `simpleText` entry wins over any runs. */
  lemma NameFromSimpleText(nameDict: Json)
    requires nameDict.Obj? && "simpleText" in nameDict.fields
    ensures TrackName(nameDict) == Success(Some(nameDict.fields["simpleText"]))
  {
  }

  /** The language code of a track is its `vssId`, a string, stripped of
      dots. */
  lemma CodeIsStrippedVssId(track: Json)
    requires CaptionTrackOf(track).Success?
    ensures track.Obj? && "vssId" in track.fields && track.fields["vssId"].Str?
    ensures CaptionTrackOf(track).value.code == StripChars(track.fields["vssId"].s, IsDot)
  {
  }

  /** Stripping dots removes the dots at both ends and leaves the interior
      unchanged: `.en` becomes `en`, `a.en` stays `a.en`. The code is the
      slice `s[i..j]` of the `vssId`, with only dots outside it and none at
      either of its ends. */
  lemma CodeStripsOuterDots(s: string) returns (i: nat, j: nat)
    ensures var code := StripChars(s, IsDot);
      && i <= j <= |s|
      && code == s[i..j]
      && (forall k :: 0 <= k < i ==> s[k] == '.')
      && (forall k :: j <= k < |s| ==> s[k] == '.')
      && (i < j ==> s[i] != '.' && s[j - 1] != '.')
  {
    var code := StripChars(s, IsDot);
    i, j := StripCharsSlice(s, IsDot);
    assert i < j ==> s[i] == code[0] && s[j - 1] == code[|code| - 1];
  }

  lemma CodeExamples()
    ensures StripChars(".en", IsDot) == "en"
    ensures StripChars("a.en", IsDot) == "a.en"
    ensures StripChars("..", IsDot) == ""
  {
    assert ".en"[1..] == "en";
    assert "."[1..] == "";
    assert ".."[1..] == ".";
  }

  // ---------------------------------------------------------------------
  // SubRip timestamps (Caption.convert_time)
  // ---------------------------------------------------------------------

  /** The SubRip layout of four time fields: hours and minutes and seconds
      zero-padded to two digits, milliseconds to three. */
  function SrtClock(h: int, m: int, s: int, f: int): string {
    FormatInt(h, 2) + ":" + FormatInt(m, 2) + ":" + FormatInt(s, 2) + "," + FormatInt(f, 3)
  }

  /** `Caption.convert_time`: milliseconds as `HH:MM:SS,mmm`, using Python's
      floor division and modulo (which agree with Dafny's for a positive
      divisor). */
  function ConvertTime(ms: int): string {
    SrtClock(ms / 3600000, (ms % 3600000) / 60000, (ms % 60000) / 1000, ms % 1000)
  }

  lemma DivModOf(n: int, d: int, q: int, r: int)
    requires d > 0 && 0 <= r < d && n == q * d + r
    ensures n / d == q && n % d == r
  {
    var q', r' := n / d, n % d;
    assert (q - q') * d == r' - r;
    if q - q' >= 1 {
      MulAtLeast(q - q', d);
      assert false;
    } else if q - q' <= -1 {
      MulAtLeast(q' - q, d);
      assert false;
    }
  }

  lemma MulAtLeast(k: int, d: int)
    requires k >= 1 && d > 0
    ensures k * d >= d
  {
  }

  /** The field arithmetic of `convert_time`: floor division and modulo
      recover hours, minutes below 60, seconds below 60 and milliseconds
      below 1000. */
  lemma TimeFieldsOf(h: nat, m: nat, s: nat, f: nat)
    requires m < 60 && s < 60 && f < 1000
    ensures var ms := h * 3600000 + m * 60000 + s * 1000 + f;
      && ms / 3600000 == h && (ms % 3600000) / 60000 == m
      && (ms % 60000) / 1000 == s && ms % 1000 == f
  {
    var ms := h * 3600000 + m * 60000 + s * 1000 + f;
    DivModOf(ms, 3600000, h, m * 60000 + s * 1000 + f);
    DivModOf(m * 60000 + s * 1000 + f, 60000, m, s * 1000 + f);
    DivModOf(ms, 60000, h * 60 + m, s * 1000 + f);
    DivModOf(s * 1000 + f, 1000, s, f);
    DivModOf(ms, 1000, h * 3600 + m * 60 + s, f);
  }

  /** `convert_time` splits its input into hours, minutes below 60, seconds
      below 60 and milliseconds below 1000, and lays them out zero-padded to
      widths 2, 2, 2 and 3. */
  lemma ConvertTimeFields(h: nat, m: nat, s: nat, f: nat)
    requires m < 60 && s < 60 && f < 1000
    ensures ConvertTime(h * 3600000 + m * 60000 + s * 1000 + f) == SrtClock(h, m, s, f)
  {
    TimeFieldsOf(h, m, s, f);
  }

  /** Reads a SubRip timestamp `H:MM:SS,mmm` (the hours at least two digits)
      back into milliseconds. */
  function ParseSrtTime(t: string): Option<int> {
    var n := |t|;
    if n >= 12 && t[n - 10] == ':' && t[n - 7] == ':' && t[n - 4] == ',' then
      ClockValue(t[..n - 10], t[n - 9..n - 7], t[n - 6..n - 4], t[n - 3..])
    else None
  }

  /** The time four digit fields denote, when they are digits and the
      minutes and seconds are below 60. */
  function ClockValue(hours: string, minutes: string, seconds: string, millis: string): Option<int> {
    if AllDigits(hours) && AllDigits(minutes) && AllDigits(seconds) && AllDigits(millis)
      && DigitsValue(minutes) < 60 && DigitsValue(seconds) < 60
    then
      Some(DigitsValue(hours) * 3600000 + DigitsValue(minutes) * 60000
        + DigitsValue(seconds) * 1000 + DigitsValue(millis))
    else None
  }

  /** The hours, minutes, seconds and milliseconds of a non-negative time,
      which are the fields `convert_time` computes. */
  lemma Decompose(ms: nat) returns (h: nat, m: nat, s: nat, f: nat)
    ensures m < 60 && s < 60 && f < 1000
    ensures ms == h * 3600000 + m * 60000 + s * 1000 + f
    ensures h == ms / 3600000 && m == (ms % 3600000) / 60000
    ensures s == (ms % 60000) / 1000 && f == ms % 1000
  {
    h := ms / 3600000;
    var rest := ms % 3600000;
    m := rest / 60000;
    var sub := rest % 60000;
    s := sub / 1000;
    f := sub % 1000;
    assert rest == m * 60000 + sub;
    assert sub == s * 1000 + f;
    TimeFieldsOf(h, m, s, f);
  }

  /** Fields of widths at least 2, then 2, 2 and 3, separated as in a SubRip
      timestamp, are the fields the reader picks out. */
  lemma ParseSrtLayout(t: string, H: string, M: string, S: string, F: string)
    requires |H| >= 2 && |M| == 2 && |S| == 2 && |F| == 3
    requires t == H + ":" + M + ":" + S + "," + F
    ensures ParseSrtTime(t) == ClockValue(H, M, S, F)
  {
    var n := |t|;
    assert n == |H| + 10;
    assert t[n - 10] == ':' && t[n - 7] == ':' && t[n - 4] == ',';
    assert t[..n - 10] == H;
    forall k | 0 <= k < 2 ensures t[n - 9 + k] == M[k] && t[n - 6 + k] == S[k] { }
    assert t[n - 9..n - 7] == M;
    assert t[n - 6..n - 4] == S;
    assert t[n - 3..] == F;
  }

  /** The zero-padded fields have the widths the reader expects and denote
      the time they were made from. */
  lemma ClockFieldsRead(ms: int, h: nat, m: nat, s: nat, f: nat)
    requires m < 60 && s < 60 && f < 1000
    requires ms == h * 3600000 + m * 60000 + s * 1000 + f
    ensures |FormatInt(h, 2)| >= 2 && |FormatInt(m, 2)| == 2 && |FormatInt(s, 2)| == 2 && |FormatInt(f, 3)| == 3
    ensures var v := ClockValue(FormatInt(h, 2), FormatInt(m, 2), FormatInt(s, 2), FormatInt(f, 3));
      v.Some? && v.value == ms
  {
    var H, M, S, F := FormatInt(h, 2), FormatInt(m, 2), FormatInt(s, 2), FormatInt(f, 3);
    assert Pow10(2) == 100 && Pow10(3) == 1000;
    FormatIntReadsBack(h, 2);
    FormatIntExact(m, 2);
    FormatIntExact(s, 2);
    FormatIntExact(f, 3);
    ClockValueOf(H, M, S, F, h, m, s, f);
  }

  /** Digit fields denote the time of the values they spell. */
  lemma ClockValueOf(H: string, M: string, S: string, F: string, h: nat, m: nat, s: nat, f: nat)
    requires AllDigits(H) && AllDigits(M) && AllDigits(S) && AllDigits(F)
    requires DigitsValue(H) == h && DigitsValue(M) == m && DigitsValue(S) == s && DigitsValue(F) == f
    requires m < 60 && s < 60
    ensures ClockValue(H, M, S, F).Some? && ClockValue(H, M, S, F).value == h * 3600000 + m * 60000 + s * 1000 + f
  {
  }

  /** The SubRip layout of four fields reads back as the time they encode. */
  lemma ParseSrtFields(ms: int, h: nat, m: nat, s: nat, f: nat)
    requires m < 60 && s < 60 && f < 1000
    requires ms == h * 3600000 + m * 60000 + s * 1000 + f
    ensures ParseSrtTime(SrtClock(h, m, s, f)) == Some(ms)
  {
    ClockFieldsRead(ms, h, m, s, f);
    ParseSrtLayout(SrtClock(h, m, s, f), FormatInt(h, 2), FormatInt(m, 2), FormatInt(s, 2), FormatInt(f, 3));
  }

  /** Every non-negative time is laid out as a well-formed SubRip timestamp
      that reads back as the same number of milliseconds. */
  lemma ConvertTimeRoundTrip(ms: nat)
    ensures ParseSrtTime(ConvertTime(ms)) == Some(ms)
  {
    var h, m, s, f := Decompose(ms);
    var clock := SrtClock(h, m, s, f);
    assert ConvertTime(ms) == clock;
    ParseSrtFields(ms, h, m, s, f);
  }

  /** Below 100 hours the timestamp is exactly the 12 characters
      `HH:MM:SS,mmm`. */
  lemma ConvertTimeWidth(ms: nat)
    requires ms < 360000000
    ensures |ConvertTime(ms)| == 12
  {
    assert Pow10(2) == 100 && Pow10(3) == 1000;
    FormatIntExact(ms / 3600000, 2);
    FormatIntExact((ms % 3600000) / 60000, 2);
    FormatIntExact((ms % 60000) / 1000, 2);
    FormatIntExact(ms % 1000, 3);
  }

  // ---------------------------------------------------------------------
  // The XML to SubRip compiler (Caption.xml_caption_to_srt)
  // ---------------------------------------------------------------------

  /** One SubRip block as the compiler writes it: the number, the time
      range, the text, and a closing newline. */
  function SrtBlock(n: int, start: string, end: string, text: string): string {
    IntToString(n) + "\n" + start + " --> " + end + "\n" + text + "\n"
  }

  /** A cue as a dialect reads it: times in the dialect's unit and the text. */
  datatype Cue<T> = Cue(start: T, end: T, text: string)

  /** Dialect A, one child of the root: `start` required, `dur` optional and
      0 when absent, both read with `float()`, and both ends rendered by
      `float_to_srt_time_format`; None when any of these raises. */
  function ACue(ext: Externals, child: Element): Option<Cue<string>> {
    var caption := ext.unescape(Replace(Replace(child.text.GetOr(""), "\n", " "), "  ", " "));
    var times :- ATimes(child);
    var startText :- ext.srtTime(times.0);
    var endText :- ext.srtTime(times.1);
    Some(Cue(startText, endText, caption))
  }

  /** The start and end of a Dialect A cue in seconds: `dur` read first and
      0 when absent, then `start`, which is required; None when `float()`
      raises or `start` is missing. */
  function ATimes(child: Element): Option<(real, real)> {
    var duration :- if "dur" in child.attrib then ParseFloat(child.attrib["dur"]) else Some(0.0);
    var start :- if "start" in child.attrib then ParseFloat(child.attrib["start"]) else None;
    Some((start, start + duration))
  }

  /** The rendering of a cue whose times are already text. */
  function AsIs(t: string): string { t }

  /** The pattern Dialects A and C share, over a prefix of the elements:
      each element is read into a cue, the first that cannot be read makes
      the whole pass raise, and the cue of the i-th element becomes block
      number i + 1, its times rendered by `time`. */
  function NumberEach<T>(es: seq<Element>, read: Element -> Option<Cue<T>>, time: T -> string): Option<seq<string>>
    decreases |es|
  {
    if es == [] then Some([])
    else
      var blocks :- NumberEach(es[..|es| - 1], read, time);
      var cue :- read(es[|es| - 1]);
      Some(blocks + [SrtBlock(|es|, time(cue.start), time(cue.end), cue.text)])
  }

  /** Dialect A over the root's children, times already rendered from
      seconds by the cue. */
  function ABlocks(ext: Externals, children: seq<Element>): Option<seq<string>> {
    NumberEach(children, c => ACue(ext, c), AsIs)
  }

  /** Dialect B, the children of one `<p>`: each child's text with `&#39;`
      turned into an apostrophe. A child without text raises (AttributeError
      on `None.replace`), and so does one whose own `t` is not an integer. */
  function SegmentTexts(segs: seq<Element>): Option<seq<string>>
    decreases |segs|
  {
    if segs == [] then Some([])
    else
      var init :- SegmentTexts(segs[..|segs| - 1]);
      var s := segs[|segs| - 1];
      var text :- s.text;
      if "t" in s.attrib && ParseInt(s.attrib["t"]).None? then None
      else Some(init + [Replace(text, "&#39;", "'")])
  }

  /** Dialect B, the times of one `<p>` in milliseconds: integer `t`
      required, integer `d` defaulting to "0"; the end is `t + d`. */
  function BTimes(p: Element): Option<(int, int)> {
    var start :- if "t" in p.attrib then ParseInt(p.attrib["t"]) else None;
    var duration :- ParseInt(if "d" in p.attrib then p.attrib["d"] else "0");
    Some((start, start + duration))
  }

  /** Dialect B, one `<p>`: its times, and as text the stripped
      concatenation of its children's texts. */
  function BCue(p: Element): Option<Cue<int>> {
    var times :- BTimes(p);
    var segments :- SegmentTexts(p.children);
    Some(Cue(times.0, times.1, Strip(Join("", segments))))
  }

  /** The pattern of Dialect B, over a prefix of the elements: each element
      is read into a cue, the first that cannot be read makes the pass
      raise, a cue with empty text is skipped, and the counter, which starts
      at 1 and advances only when a block is written, is always one more
      than the blocks so far. */
  function NumberKept<T>(es: seq<Element>, read: Element -> Option<Cue<T>>, time: T -> string): Option<seq<string>>
    decreases |es|
  {
    if es == [] then Some([])
    else
      var srt :- NumberKept(es[..|es| - 1], read, time);
      var cue :- read(es[|es| - 1]);
      if cue.text == "" then Some(srt)
      else Some(srt + [SrtBlock(|srt| + 1, time(cue.start), time(cue.end), cue.text)])
  }

  /** Dialect B over the `<p>` elements, times rendered from milliseconds. */
  function BBlocks(ps: seq<Element>): Option<seq<string>> {
    NumberKept(ps, BCue, ConvertTime)
  }

  /** Dialect C, one child of `<body>`: integer `t` and `d` both required,
      the element's own text required, unescaped, newlines turned into
      spaces, stripped. */
  function CCue(ext: Externals, p: Element): Option<Cue<int>> {
    var start :- if "t" in p.attrib then ParseInt(p.attrib["t"]) else None;
    var duration :- if "d" in p.attrib then ParseInt(p.attrib["d"]) else None;
    var text :- p.text;
    Some(Cue(start, start + duration, Strip(Replace(ext.unescape(text), "\n", " "))))
  }

  /** Dialect C over the children of `<body>`, times rendered from
      milliseconds. */
  function CBlocks(ext: Externals, ps: seq<Element>): Option<seq<string>> {
    NumberEach(ps, p => CCue(ext, p), ConvertTime)
  }

  /** Dialect C: no `<body>` child makes `enumerate(None)` raise. */
  function DialectC(ext: Externals, root: Element): Option<seq<string>> {
    var body :- Find(root, "body");
    CBlocks(ext, body.children)
  }

  /** What happens once Dialect A has raised: Dialects B and C share one
      `try`, so an exception in B ends everything with None and C is not
      tried; C runs only when B wrote no block. */
  function DialectsBC(ext: Externals, root: Element): Option<string> {
    var srt :- BBlocks(Iter(root, "p"));
    if |srt| > 0 then Some(Strip(Join("\n", srt)))
    else
      var content :- DialectC(ext, root);
      Some(Join("\n", content))
  }

  /** `Caption.xml_caption_to_srt` on the parsed document: None is the
      `return None` of the outer handler. */
  function CaptionSrt(ext: Externals, root: Element): Option<string> {
    match ABlocks(ext, root.children)
    case Some(segments) => Some(Strip(Join("\n", segments)))
    case None => DialectsBC(ext, root)
  }

  /** `Caption.xml_caption_to_srt`: Dialect A first; when it raises, Dialect
      B, and Dialect C only when B wrote nothing. */
  method XmlCaptionToSrt(ext: Externals, root: Element) returns (r: Option<string>)
    ensures r == CaptionSrt(ext, root)
  {
    var segments := DialectAPass(ext, root.children);
    if segments.Some? {
      return Some(Strip(Join("\n", segments.value)));
    }
    var srt := DialectBPass(Iter(root, "p"));
    if srt.None? {
      return None;
    }
    if |srt.value| > 0 {
      return Some(Strip(Join("\n", srt.value)));
    }
    var body := Find(root, "body");
    if body.None? {
      return None;
    }
    var content := DialectCPass(ext, body.value.children);
    if content.None? {
      return None;
    }
    return Some(Join("\n", content.value));
  }

  /** The Dialect A loop: one block per child of the root, numbered from 1. */
  method DialectAPass(ext: Externals, children: seq<Element>) returns (r: Option<seq<string>>)
    ensures r == ABlocks(ext, children)
  {
    var segments: seq<string> := [];
    var i := 0;
    while i < |children|
      invariant 0 <= i <= |children|
      invariant ABlocks(ext, children[..i]) == Some(segments)
    {
      var child := children[i];
      assert children[..i + 1][..i] == children[..i];
      var cue := ACue(ext, child);
      if cue.None? {
        NumberEachAbortsOnPrefix(children, c => ACue(ext, c), AsIs, i + 1);
        return None;
      }
      segments := segments + [SrtBlock(i + 1, cue.value.start, cue.value.end, cue.value.text)];
      i := i + 1;
    }
    assert children[..i] == children;
    return Some(segments);
  }

  /** The Dialect B loop over the `<p>` elements: `counter` numbers the
      blocks written and skips empty captions. */
  method DialectBPass(ps: seq<Element>) returns (r: Option<seq<string>>)
    ensures r == BBlocks(ps)
  {
    var srt: seq<string> := [];
    var counter := 1;
    var j := 0;
    while j < |ps|
      invariant 0 <= j <= |ps|
      invariant BBlocks(ps[..j]) == Some(srt)
      invariant counter == |srt| + 1
    {
      var p := ps[j];
      assert ps[..j + 1][..j] == ps[..j];
      var times := BTimes(p);
      if times.None? {
        NumberKeptAbortsOnPrefix(ps, BCue, ConvertTime, j + 1);
        return None;
      }
      var segments := SegmentPass(p.children);
      if segments.None? {
        NumberKeptAbortsOnPrefix(ps, BCue, ConvertTime, j + 1);
        return None;
      }
      var captionText := Strip(Join("", segments.value));
      if captionText != "" {
        srt := srt + [SrtBlock(counter, ConvertTime(times.value.0), ConvertTime(times.value.1), captionText)];
        counter := counter + 1;
      }
      j := j + 1;
    }
    assert ps[..j] == ps;
    return Some(srt);
  }

  /** The inner Dialect B loop over the children of one `<p>`. */
  method SegmentPass(segs: seq<Element>) returns (r: Option<seq<string>>)
    ensures r == SegmentTexts(segs)
  {
    var texts: seq<string> := [];
    var k := 0;
    while k < |segs|
      invariant 0 <= k <= |segs|
      invariant SegmentTexts(segs[..k]) == Some(texts)
    {
      var s := segs[k];
      SegmentTextsNext(segs, k);
      if s.text.None? || ("t" in s.attrib && ParseInt(s.attrib["t"]).None?) {
        SegmentTextsAbortsOnPrefix(segs, k + 1);
        return None;
      }
      texts := texts + [Replace(s.text.value, "&#39;", "'")];
      k := k + 1;
    }
    assert segs[..k] == segs;
    return Some(texts);
  }

  /** One step of `SegmentTexts`: the next segment's text is appended, or
      the pass raises on it. */
  lemma SegmentTextsNext(segs: seq<Element>, k: nat)
    requires k < |segs|
    ensures var s := segs[k];
      SegmentTexts(segs[..k + 1]) ==
        match SegmentTexts(segs[..k])
        case None => None
        case Some(init) =>
          if s.text.None? || ("t" in s.attrib && ParseInt(s.attrib["t"]).None?) then None
          else Some(init + [Replace(s.text.value, "&#39;", "'")])
  {
    assert segs[..k + 1][..k] == segs[..k];
  }

  /** The Dialect C loop over the children of `<body>`, numbered from 1. */
  method DialectCPass(ext: Externals, cs: seq<Element>) returns (r: Option<seq<string>>)
    ensures r == CBlocks(ext, cs)
  {
    var content: seq<string> := [];
    var n := 0;
    while n < |cs|
      invariant 0 <= n <= |cs|
      invariant CBlocks(ext, cs[..n]) == Some(content)
    {
      var p := cs[n];
      assert cs[..n + 1][..n] == cs[..n];
      var cue := CCue(ext, p);
      if cue.None? {
        NumberEachAbortsOnPrefix(cs, p => CCue(ext, p), ConvertTime, n + 1);
        return None;
      }
      content := content + [SrtBlock(n + 1, ConvertTime(cue.value.start), ConvertTime(cue.value.end), cue.value.text)];
      n := n + 1;
    }
    assert cs[..n] == cs;
    return Some(content);
  }

  lemma {:induction false} NumberEachAbortsOnPrefix<T>(es: seq<Element>, read: Element -> Option<Cue<T>>, time: T -> string, i: nat)
    requires i <= |es| && NumberEach(es[..i], read, time).None?
    ensures NumberEach(es, read, time).None?
    decreases |es|
  {
    if i < |es| {
      var init := es[..|es| - 1];
      assert init[..i] == es[..i];
      NumberEachAbortsOnPrefix(init, read, time, i);
    } else {
      assert es[..i] == es;
    }
  }

  lemma {:induction false} NumberKeptAbortsOnPrefix<T>(es: seq<Element>, read: Element -> Option<Cue<T>>, time: T -> string, i: nat)
    requires i <= |es| && NumberKept(es[..i], read, time).None?
    ensures NumberKept(es, read, time).None?
    decreases |es|
  {
    if i < |es| {
      var init := es[..|es| - 1];
      assert init[..i] == es[..i];
      NumberKeptAbortsOnPrefix(init, read, time, i);
    } else {
      assert es[..i] == es;
    }
  }

  lemma {:induction false} SegmentTextsAbortsOnPrefix(segs: seq<Element>, i: nat)
    requires i <= |segs| && SegmentTexts(segs[..i]).None?
    ensures SegmentTexts(segs).None?
    decreases |segs|
  {
    if i < |segs| {
      var init := segs[..|segs| - 1];
      assert init[..i] == segs[..i];
      SegmentTextsAbortsOnPrefix(init, i);
    } else {
      assert segs[..i] == segs;
    }
  }

  // ---------------------------------------------------------------------
  // What each dialect writes, and the order in which they are tried
  // ---------------------------------------------------------------------

  /** What Dialect A needs of a child: a `start` that `float()` accepts and,
      when present, a `dur` that it accepts too. */
  predicate AReadable(c: Element) {
    && "start" in c.attrib && ParseFloat(c.attrib["start"]).Some?
    && ("dur" in c.attrib ==> ParseFloat(c.attrib["dur"]).Some?)
  }

  /** A child whose times can be read and whose start and end
      `float_to_srt_time_format` can render. */
  predicate ARenders(ext: Externals, c: Element) {
    ATimes(c).Some? && ext.srtTime(ATimes(c).value.0).Some? && ext.srtTime(ATimes(c).value.1).Some?
  }

  /** A pass of the shared pattern succeeds exactly when every element can
      be read, and then writes one block per element, the i-th numbered
      i + 1 with the times and text of the i-th element's cue. */
  lemma {:induction false} NumberEachOnePerElement<T>(es: seq<Element>, read: Element -> Option<Cue<T>>, time: T -> string)
    ensures NumberEach(es, read, time).Some? <==> forall i :: 0 <= i < |es| ==> read(es[i]).Some?
    ensures NumberEach(es, read, time).Some? ==>
      && |NumberEach(es, read, time).value| == |es|
      && forall i :: 0 <= i < |es| ==>
        NumberEach(es, read, time).value[i]
          == SrtBlock(i + 1, time(read(es[i]).value.start), time(read(es[i]).value.end), read(es[i]).value.text)
    decreases |es|
  {
    if es != [] {
      var init := es[..|es| - 1];
      NumberEachOnePerElement(init, read, time);
      assert forall i :: 0 <= i < |init| ==> init[i] == es[i];
    }
  }

  /** The times of a child can be read exactly when it is readable; the
      cue then runs from `start` to `start` plus `dur`, or plus 0 without
      `dur`. */
  lemma ATimesReadable(c: Element)
    ensures ATimes(c).Some? <==> AReadable(c)
    ensures ATimes(c).Some? ==>
      && ATimes(c).value.0 == ParseFloat(c.attrib["start"]).value
      && ATimes(c).value.1 - ATimes(c).value.0 == (if "dur" in c.attrib then ParseFloat(c.attrib["dur"]).value else 0.0)
  {
  }

  /** Dialect A reads a child exactly when its times can be read and both
      can be rendered; the cue then carries those renderings. */
  lemma ACueReadable(ext: Externals, c: Element)
    ensures ACue(ext, c).Some? <==> ARenders(ext, c)
    ensures ACue(ext, c).Some? ==>
      && ACue(ext, c).value.start == ext.srtTime(ATimes(c).value.0).value
      && ACue(ext, c).value.end == ext.srtTime(ATimes(c).value.1).value
  {
  }

  /** Dialect A succeeds exactly when every child of the root is readable,
      and then writes one block per child, the i-th numbered i + 1 with the
      times of the i-th child's cue. */
  lemma DialectAOneBlockPerChild(ext: Externals, cs: seq<Element>)
    ensures ABlocks(ext, cs).Some? <==> forall i :: 0 <= i < |cs| ==> ARenders(ext, cs[i])
    ensures ABlocks(ext, cs).Some? ==>
      && |ABlocks(ext, cs).value| == |cs|
      && forall i :: 0 <= i < |cs| ==>
        ABlocks(ext, cs).value[i] == SrtBlock(i + 1, ext.srtTime(ATimes(cs[i]).value.0).value,
          ext.srtTime(ATimes(cs[i]).value.1).value, ACue(ext, cs[i]).value.text)
  {
    NumberEachOnePerElement(cs, c => ACue(ext, c), AsIs);
    forall i | 0 <= i < |cs| {
      ACueReadable(ext, cs[i]);
    }
  }

  /** The texts SegmentTexts collects: one per child, with `&#39;` replaced. */
  lemma {:induction false} SegmentTextsOnePerChild(segs: seq<Element>)
    requires SegmentTexts(segs).Some?
    ensures |SegmentTexts(segs).value| == |segs|
    ensures forall i :: 0 <= i < |segs| ==>
      segs[i].text.Some? && SegmentTexts(segs).value[i] == Replace(segs[i].text.value, "&#39;", "'")
    decreases |segs|
  {
    if segs != [] {
      var init := segs[..|segs| - 1];
      SegmentTextsOnePerChild(init);
      assert forall i :: 0 <= i < |init| ==> init[i] == segs[i];
    }
  }

  /** The cues the pattern of Dialect B keeps, in document order: those
      whose text is not empty. */
  function Spoken<T>(es: seq<Element>, read: Element -> Option<Cue<T>>): (r: seq<Cue<T>>)
    requires forall i :: 0 <= i < |es| ==> read(es[i]).Some?
    ensures |r| <= |es|
    ensures forall k :: 0 <= k < |r| ==> r[k].text != ""
    decreases |es|
  {
    if es == [] then []
    else
      var kept := Spoken(es[..|es| - 1], read);
      var cue := read(es[|es| - 1]).value;
      if cue.text == "" then kept else kept + [cue]
  }

  /** Blocks numbered 1, 2, … in the order of `cues`. */
  function Numbered<T>(cues: seq<Cue<T>>, time: T -> string): (r: seq<string>)
    ensures |r| == |cues|
  {
    seq(|cues|, k requires 0 <= k < |cues| =>
      SrtBlock(k + 1, time(cues[k].start), time(cues[k].end), cues[k].text))
  }

  /** A pass of the pattern of Dialect B succeeds exactly when every element
      can be read. */
  lemma {:induction false} NumberKeptDefined<T>(es: seq<Element>, read: Element -> Option<Cue<T>>, time: T -> string)
    ensures NumberKept(es, read, time).Some? <==> forall i :: 0 <= i < |es| ==> read(es[i]).Some?
    decreases |es|
  {
    if es != [] {
      var init := es[..|es| - 1];
      NumberKeptDefined(init, read, time);
      assert forall i :: 0 <= i < |init| ==> init[i] == es[i];
    }
  }

  /** Numbering one more cue appends its block, numbered after the others. */
  lemma NumberedAppend<T>(cues: seq<Cue<T>>, cue: Cue<T>, time: T -> string)
    ensures Numbered(cues + [cue], time) == Numbered(cues, time) + [SrtBlock(|cues| + 1, time(cue.start), time(cue.end), cue.text)]
  {
    var l, r := Numbered(cues + [cue], time), Numbered(cues, time) + [SrtBlock(|cues| + 1, time(cue.start), time(cue.end), cue.text)];
    forall k | 0 <= k < |l| ensures l[k] == r[k] {
      if k < |cues| {
        assert (cues + [cue])[k] == cues[k];
      }
    }
  }

  /** When every element can be read, a pass of the pattern of Dialect B
      writes the cues with text in document order, numbered 1, 2, … without
      gaps: the counter counts blocks written, not elements. */
  lemma {:induction false} NumberKeptSpoken<T>(es: seq<Element>, read: Element -> Option<Cue<T>>, time: T -> string)
    requires forall i :: 0 <= i < |es| ==> read(es[i]).Some?
    ensures NumberKept(es, read, time) == Some(Numbered(Spoken(es, read), time))
    decreases |es|
  {
    if es != [] {
      var init := es[..|es| - 1];
      assert forall i :: 0 <= i < |init| ==> init[i] == es[i];
      NumberKeptSpoken(init, read, time);
      var srt := NumberKept(init, read, time).value;
      var kept := Spoken(init, read);
      var cue := read(es[|es| - 1]).value;
      if cue.text == "" {
        assert Spoken(es, read) == kept;
        assert NumberKept(es, read, time) == Some(srt);
      } else {
        var block := SrtBlock(|srt| + 1, time(cue.start), time(cue.end), cue.text);
        assert Spoken(es, read) == kept + [cue];
        assert NumberKept(es, read, time) == Some(srt + [block]);
        NumberedAppend(kept, cue, time);
      }
    }
  }

  /** A `<p>` yields a Dialect B cue exactly when its `t`, its `d` (or "0")
      and every segment can be read; the cue then runs from `t` to `t + d`
      and its text is the stripped concatenation of the segment texts. */
  lemma BCueReadable(p: Element)
    ensures BCue(p).Some? <==>
      && "t" in p.attrib && ParseInt(p.attrib["t"]).Some?
      && ParseInt(if "d" in p.attrib then p.attrib["d"] else "0").Some?
      && SegmentTexts(p.children).Some?
    ensures BCue(p).Some? ==>
      && BCue(p).value.start == ParseInt(p.attrib["t"]).value
      && BCue(p).value.end - BCue(p).value.start == ParseInt(if "d" in p.attrib then p.attrib["d"] else "0").value
      && BCue(p).value.text == Strip(Join("", SegmentTexts(p.children).value))
  {
  }

  /** A child of `<body>` yields a Dialect C cue exactly when it has integer
      `t` and `d` and text of its own; the cue runs from `t` to `t + d`. */
  lemma CCueReadable(ext: Externals, p: Element)
    ensures CCue(ext, p).Some? <==>
      && "t" in p.attrib && ParseInt(p.attrib["t"]).Some?
      && "d" in p.attrib && ParseInt(p.attrib["d"]).Some?
      && p.text.Some?
    ensures CCue(ext, p).Some? ==>
      && CCue(ext, p).value.start == ParseInt(p.attrib["t"]).value
      && CCue(ext, p).value.end - CCue(ext, p).value.start == ParseInt(p.attrib["d"]).value
      && CCue(ext, p).value.text == Strip(Replace(ext.unescape(p.text.value), "\n", " "))
  {
  }

  /** Without a `<body>` child, Dialect C raises. */
  lemma NoBodyDialectCFails(ext: Externals, root: Element)
    requires forall c :: c in root.children ==> c.tag != "body"
    ensures DialectC(ext, root) == None
  {
  }

  /** Dialect B succeeds exactly when every `<p>` yields a cue, and then
      writes the `<p>` elements with a caption, in document order, numbered
      1, 2, … */
  lemma DialectBNumbersSpokenCues(ps: seq<Element>)
    ensures BBlocks(ps).Some? <==> forall i :: 0 <= i < |ps| ==> BCue(ps[i]).Some?
    ensures BBlocks(ps).Some? ==> BBlocks(ps).value == Numbered(Spoken(ps, BCue), ConvertTime)
  {
    NumberKeptDefined(ps, BCue, ConvertTime);
    if BBlocks(ps).Some? {
      NumberKeptSpoken(ps, BCue, ConvertTime);
    }
  }

  /** Dialect C succeeds exactly when every child of `<body>` yields a cue;
      unlike B it then writes a block for every child, empty text included,
      numbered by position. */
  lemma DialectCOneBlockPerChild(ext: Externals, cs: seq<Element>)
    ensures CBlocks(ext, cs).Some? <==> forall i :: 0 <= i < |cs| ==> CCue(ext, cs[i]).Some?
    ensures CBlocks(ext, cs).Some? ==>
      && |CBlocks(ext, cs).value| == |cs|
      && forall i :: 0 <= i < |cs| ==>
        var cue := CCue(ext, cs[i]).value;
        CBlocks(ext, cs).value[i] == SrtBlock(i + 1, ConvertTime(cue.start), ConvertTime(cue.end), cue.text)
  {
    NumberEachOnePerElement(cs, p => CCue(ext, p), ConvertTime);
  }

  /** A child of the root without a `start` attribute makes Dialect A raise,
      so the result is whatever Dialects B and C make of the document. */
  lemma MissingStartFallsThrough(ext: Externals, root: Element, i: nat)
    requires i < |root.children| && "start" !in root.children[i].attrib
    ensures CaptionSrt(ext, root) == DialectsBC(ext, root)
  {
    DialectAOneBlockPerChild(ext, root.children);
  }

  /** A readable child of the root whose start or end
      `float_to_srt_time_format` cannot render makes Dialect A raise too, so
      the document goes to Dialects B and C. */
  lemma UnrenderableTimeFallsThrough(ext: Externals, root: Element, i: nat)
    requires i < |root.children| && ATimes(root.children[i]).Some?
    requires ext.srtTime(ATimes(root.children[i]).value.0).None? || ext.srtTime(ATimes(root.children[i]).value.1).None?
    ensures CaptionSrt(ext, root) == DialectsBC(ext, root)
  {
    DialectAOneBlockPerChild(ext, root.children);
  }

  /** Once Dialect A has raised, a `<p>` anywhere in the document that Dialect
      B cannot read makes the whole conversion None: B and C share one
      handler, so C is not tried even when it would succeed. */
  lemma UnreadableParagraphGivesNone(ext: Externals, root: Element, i: nat)
    requires ABlocks(ext, root.children).None?
    requires i < |Iter(root, "p")| && BCue(Iter(root, "p")[i]).None?
    ensures CaptionSrt(ext, root) == None
  {
    DialectBNumbersSpokenCues(Iter(root, "p"));
  }

  /** Once Dialect A has raised, a document whose `<p>` elements all read and
      at least one of which has a caption is converted by Dialect B alone:
      the `<body>` is never looked at. */
  lemma SpokenParagraphSkipsDialectC(ext: Externals, root: Element)
    requires ABlocks(ext, root.children).None?
    requires forall i :: 0 <= i < |Iter(root, "p")| ==> BCue(Iter(root, "p")[i]).Some?
    requires Spoken(Iter(root, "p"), BCue) != []
    ensures CaptionSrt(ext, root) == Some(Strip(Join("\n", Numbered(Spoken(Iter(root, "p"), BCue), ConvertTime))))
  {
    DialectBNumbersSpokenCues(Iter(root, "p"));
  }

  /** Dialect C is reached only when Dialect A raised and Dialect B read every
      `<p>` but kept none; its output is joined but not stripped. */
  lemma DialectCOnlyAfterSilentB(ext: Externals, root: Element)
    requires ABlocks(ext, root.children).None?
    requires forall i :: 0 <= i < |Iter(root, "p")| ==> BCue(Iter(root, "p")[i]).Some?
    requires Spoken(Iter(root, "p"), BCue) == []
    ensures CaptionSrt(ext, root) == (
      match DialectC(ext, root)
      case Some(content) => Some(Join("\n", content))
      case None => None)
  {
    DialectBNumbersSpokenCues(Iter(root, "p"));
  }

  /** A root without children is Dialect A with nothing to write: the empty
      string, whatever else the document holds. */
  lemma EmptyRootGivesEmptyText(ext: Externals, root: Element)
    requires root.children == []
    ensures CaptionSrt(ext, root) == Some("")
  {
  }

  /** The text Dialects A and B return has no whitespace at either end. */
  lemma DialectsABStripped(ext: Externals, root: Element)
    requires ABlocks(ext, root.children).Some? || (BBlocks(Iter(root, "p")).Some? && BBlocks(Iter(root, "p")).value != [])
    ensures CaptionSrt(ext, root).Some?
    ensures var r := CaptionSrt(ext, root).value; r == [] || (!IsSpace(r[0]) && !IsSpace(r[|r| - 1]))
  {
    if ABlocks(ext, root.children).Some? {
      assert CaptionSrt(ext, root) == Some(Strip(Join("\n", ABlocks(ext, root.children).value)));
    } else {
      var srt := BBlocks(Iter(root, "p")).value;
      assert CaptionSrt(ext, root) == DialectsBC(ext, root) == Some(Strip(Join("\n", srt)));
    }
  }
}
