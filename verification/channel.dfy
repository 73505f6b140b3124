/** The channel page decoders: locating the list of renderer nodes inside
    the page's JSON tree, turning renderer nodes into video records and a
    continuation token, pulling watch URLs out of the grid and continuation
    payloads, and reading the abbreviated and comma-grouped counts the
    channel pages display. */
module Channel {
  import opened Wrappers
  import opened Strings
  import opened Numerals
  import opened Json

  // ---------------------------------------------------------------------
  // Locating the item list (Channel._find_content_list and
  // Channel._find_searched_content_list)
  // ---------------------------------------------------------------------

  const TabsPath: seq<Selector> := [Key("contents"), Key("twoColumnBrowseResultsRenderer"), Key("tabs")]
  const RichGridPath: seq<Selector> := [Key("tabRenderer"), Key("content"), Key("richGridRenderer"), Key("contents")]
  const SectionListPath: seq<Selector> :=
    [Key("expandableTabRenderer"), Key("content"), Key("sectionListRenderer"), Key("contents")]

  /** `tab.get("tabRenderer", {}).get("content")`, as a truth value. */
  function HasTabContent(tab: Json): Result<bool, PyError> {
    var renderer :- GetOr(tab, "tabRenderer", Obj(map[]));
    var content :- Get(renderer, "content");
    Success(Truthy(content))
  }

  /** The loop over the tabs: the rich-grid contents of the first tab with
      content, or None after the last tab. */
  function FirstContentTab(tabs: seq<Json>): Result<Json, PyError>
    decreases |tabs|
  {
    if tabs == [] then Success(Null)
    else
      var hit :- HasTabContent(tabs[0]);
      if hit then Path(tabs[0], RichGridPath) else FirstContentTab(tabs[1..])
  }

  /** `Channel._find_content_list`. */
  function FindContentList(data: Json): Result<Json, PyError> {
    var contents :- Get(data, "contents");
    if !Truthy(contents) then Success(Null)
    else
      var tabsValue :- Path(data, TabsPath);
      var tabs :- Iterate(tabsValue, AttributeError);
      FirstContentTab(tabs)
  }

  /** The tab loop of the search: the section-list contents of the first tab
      with a truthy `expandableTabRenderer`, or None after the last tab. */
  function FirstExpandableTab(tabs: seq<Json>): Result<Json, PyError>
    decreases |tabs|
  {
    if tabs == [] then Success(Null)
    else
      var renderer :- Get(tabs[0], "expandableTabRenderer");
      if !Truthy(renderer) then FirstExpandableTab(tabs[1..])
      else Path(tabs[0], SectionListPath)
  }

  /** `Channel._find_searched_content_list`. */
  function FindSearchedContentList(data: Json): Result<Json, PyError> {
    var contents :- Get(data, "contents");
    if Truthy(contents) then
      var tabsValue :- Path(data, TabsPath);
      var tabs :- Iterate(tabsValue, AttributeError);
      FirstExpandableTab(tabs)
    else
      var actions :- Get(data, "onResponseReceivedActions");
      if Truthy(actions) then
        var first :- At(actions, 0);
        var action :- Item(first, "appendContinuationItemsAction");
        Get(action, "continuationItems")
      else Success(Null)
  }

  /** The first tab with content decides the result: every earlier tab was
      looked at and had none. */
  lemma {:induction false} FirstContentTabIsFirst(tabs: seq<Json>, j: nat)
    requires j < |tabs| && HasTabContent(tabs[j]) == Success(true)
    requires forall i :: 0 <= i < j ==> HasTabContent(tabs[i]) == Success(false)
    ensures FirstContentTab(tabs) == Path(tabs[j], RichGridPath)
    decreases j
  {
    if j > 0 {
      FirstContentTabIsFirst(tabs[1..], j - 1);
    }
  }

  /** With no tab that has content, the list is None. */
  lemma {:induction false} NoContentTabGivesNone(tabs: seq<Json>)
    requires forall i :: 0 <= i < |tabs| ==> HasTabContent(tabs[i]) == Success(false)
    ensures FirstContentTab(tabs) == Success(Null)
    decreases |tabs|
  {
    if tabs != [] {
      NoContentTabGivesNone(tabs[1..]);
    }
  }

  /** A page whose `contents` is missing or falsy has no list. */
  lemma FalsyContentsGivesNone(data: Json)
    requires data.Obj? && !Truthy(if "contents" in data.fields then data.fields["contents"] else Null)
    ensures FindContentList(data) == Success(Null)
  {
  }

  /** The search takes the first tab with a truthy `expandableTabRenderer`. */
  lemma {:induction false} FirstExpandableTabIsFirst(tabs: seq<Json>, j: nat)
    requires j < |tabs| && tabs[j].Obj? && Truthy(Get(tabs[j], "expandableTabRenderer").value)
    requires forall i :: 0 <= i < j ==> tabs[i].Obj? && !Truthy(Get(tabs[i], "expandableTabRenderer").value)
    ensures FirstExpandableTab(tabs) == Path(tabs[j], SectionListPath)
    decreases j
  {
    if j > 0 {
      FirstExpandableTabIsFirst(tabs[1..], j - 1);
    }
  }

  /** A page with truthy `contents` but no expandable tab gives None: the
      continuation actions are not consulted. */
  lemma {:induction false} NoExpandableTabGivesNone(data: Json, tabs: seq<Json>)
    requires data.Obj? && "contents" in data.fields && Truthy(data.fields["contents"])
    requires Path(data, TabsPath) == Success(Arr(tabs))
    requires forall i :: 0 <= i < |tabs| ==> tabs[i].Obj? && !Truthy(Get(tabs[i], "expandableTabRenderer").value)
    ensures FindSearchedContentList(data) == Success(Null)
  {
    NoExpandableTab(tabs);
  }

  lemma {:induction false} NoExpandableTab(tabs: seq<Json>)
    requires forall i :: 0 <= i < |tabs| ==> tabs[i].Obj? && !Truthy(Get(tabs[i], "expandableTabRenderer").value)
    ensures FirstExpandableTab(tabs) == Success(Null)
    decreases |tabs|
  {
    if tabs != [] {
      NoExpandableTab(tabs[1..]);
    }
  }

  /** A page without truthy `contents` but with a non-empty list of actions
      gives the first action's `continuationItems`, or None when that key is
      absent. */
  lemma ActionsGiveContinuationItems(data: Json, actions: seq<Json>, action: map<string, Json>)
    requires data.Obj? && ("contents" in data.fields ==> !Truthy(data.fields["contents"]))
    requires "onResponseReceivedActions" in data.fields
    requires data.fields["onResponseReceivedActions"] == Arr(actions) && actions != []
    requires actions[0].Obj? && "appendContinuationItemsAction" in actions[0].fields
    requires actions[0].fields["appendContinuationItemsAction"] == Obj(action)
    ensures FindSearchedContentList(data)
      == Success(if "continuationItems" in action then action["continuationItems"] else Null)
  {
  }

  // ---------------------------------------------------------------------
  // Renderer nodes to video records (Channel._parse_contents)
  // ---------------------------------------------------------------------

  const RichVideoPath: seq<Selector> := [Key("richItemRenderer"), Key("content"), Key("videoRenderer")]
  const SectionVideoPath: seq<Selector> := [Key("itemSectionRenderer"), Key("contents"), Index(0), Key("videoRenderer")]
  const TokenPath: seq<Selector> :=
    [Key("continuationItemRenderer"), Key("continuationEndpoint"), Key("continuationCommand"), Key("token")]

  /** One video as `_parse_contents` records it. `videoId` is whatever JSON
      value the page holds there; `views` and `description` are None when
      reading them raised. */
  datatype Record = Record(videoId: Json, title: string, views: Option<int>, description: Option<string>)

  /** `[run["text"] for run in runs]`. */
  function RunTexts(runs: seq<Json>): (r: Result<seq<Json>, PyError>)
    ensures r.Success? ==> |r.value| == |runs|
    decreases |runs|
  {
    if runs == [] then Success([])
    else
      var text :- Item(runs[0], "text");
      var rest :- RunTexts(runs[1..]);
      Success([text] + rest)
  }

  /** `" ".join([run["text"] for run in runs])`: the list is built first, then
      `join` raises TypeError on an element that is not a string. */
  function JoinRuns(runs: Json): Result<string, PyError> {
    var items :- Iterate(runs, TypeError);
    var texts :- RunTexts(items);
    if forall i :: 0 <= i < |texts| ==> texts[i].Str? then
      Success(Join(" ", seq(|texts|, i requires 0 <= i < |texts| => texts[i].s)))
    else Failure(TypeError)
  }

  /** `int(text.split(sep)[0].replace(",", ""))`, None when `int()` raises:
      the count parsing shared by `views`, `total_view_count` and
      `video_count`. */
  function CountBefore(text: string, sep: string): Option<int>
    requires |sep| > 0
  {
    ParseInt(Replace(Before(text, sep), ",", ""))
  }

  /** The `views` field: the first space-separated word of
      `viewCountText.simpleText`, commas removed, read with `int()`; None when
      any step raises. */
  function ViewsOf(renderer: Json): Option<int> {
    match Path(renderer, [Key("viewCountText"), Key("simpleText")])
    case Success(Str(text)) => CountBefore(text, " ")
    case _ => None
  }

  /** The `description` field: the runs of `descriptionSnippet` joined with a
      space; None when any step raises. */
  function DescriptionOf(renderer: Json): Option<string> {
    match Path(renderer, [Key("descriptionSnippet"), Key("runs")])
    case Success(runs) => JoinRuns(runs).ToOption()
    case Failure(_) => None
  }

  /** The record of one video renderer: `videoId` and the title are required
      and their exceptions propagate; the optional fields never raise. */
  function VideoRecord(renderer: Json): Result<Record, PyError> {
    var videoId :- Item(renderer, "videoId");
    var runs :- Path(renderer, [Key("title"), Key("runs")]);
    var title :- JoinRuns(runs);
    Success(Record(videoId, title, ViewsOf(renderer), DescriptionOf(renderer)))
  }

  /** What one renderer node does to the result: add a record, replace the
      continuation token, or nothing. */
  datatype Step = Emit(record: Record) | SetToken(token: Json) | Skip

  /** The classification of one node, in the order the branches are tried: a
      truthy `richItemRenderer`, a truthy `itemSectionRenderer`, a truthy
      `continuationItemRenderer` (whose token path may be missing, which is
      swallowed), anything else. A node that is not a dict raises on `.get`. */
  function Classify(content: Json): Result<Step, PyError> {
    var rich :- Get(content, "richItemRenderer");
    if Truthy(rich) then
      var renderer :- Path(content, RichVideoPath);
      var record :- VideoRecord(renderer);
      Success(Emit(record))
    else
      var section :- Get(content, "itemSectionRenderer");
      if Truthy(section) then
        var renderer :- Path(content, SectionVideoPath);
        var record :- VideoRecord(renderer);
        Success(Emit(record))
      else
        var continuation :- Get(content, "continuationItemRenderer");
        if Truthy(continuation) then
          match Path(content, TokenPath)
          case Success(token) => Success(SetToken(token))
          case Failure(_) => Success(Skip)
        else Success(Skip)
  }

  /** What `_parse_contents` returns: the records and the continuation token
      (Null for None). */
  datatype Page = Page(records: seq<Record>, token: Json)

  /** The loop of `_parse_contents` after it has visited `items`, for a
      given classification of one node. The loop's properties hold whatever
      the classification, so they are stated for any. */
  function ParseItemsWith(classify: Json -> Result<Step, PyError>, items: seq<Json>): Result<Page, PyError>
    decreases |items|
  {
    if items == [] then Success(Page([], Null))
    else
      var page :- ParseItemsWith(classify, items[..|items| - 1]);
      var step :- classify(items[|items| - 1]);
      match step
      case Emit(record) => Success(Page(page.records + [record], page.token))
      case SetToken(token) => Success(Page(page.records, token))
      case Skip => Success(page)
  }

  /** The loop of `_parse_contents` after it has visited `items`. */
  function ParseItems(items: seq<Json>): Result<Page, PyError> {
    ParseItemsWith(Classify, items)
  }

  /** `_parse_contents(contents)`; the nodes of a dict are its keys, on which
      `.get` raises AttributeError. */
  function ParsedContents(contents: Json): Result<Page, PyError> {
    var items :- Iterate(contents, AttributeError);
    ParseItems(items)
  }

  /** `Channel._parse_contents`: a loop that appends records and overwrites
      the continuation token. */
  method ParseContents(contents: Json) returns (r: Result<Page, PyError>)
    ensures r == ParsedContents(contents)
  {
    var elements := Iterate(contents, AttributeError);
    if elements.Failure? {
      return Failure(elements.error);
    }
    var items := elements.value;
    var newContents: seq<Record> := [];
    var continuationToken := Null;
    var i := 0;
    while i < |items|
      invariant 0 <= i <= |items|
      invariant ParseItems(items[..i]) == Success(Page(newContents, continuationToken))
    {
      var content := items[i];
      var step := Classify(content);
      ParseItemsNext(Classify, items, i);
      if step.Failure? {
        ParseItemsAbortsOnPrefix(Classify, items, i + 1);
        return Failure(step.error);
      }
      match step.value {
        case Emit(record) =>
          newContents := newContents + [record];
        case SetToken(token) =>
          continuationToken := token;
        case Skip =>
      }
      i := i + 1;
    }
    assert items[..i] == items;
    r := Success(Page(newContents, continuationToken));
  }

  /** One more iteration of the loop of `_parse_contents`. */
  lemma ParseItemsNext(classify: Json -> Result<Step, PyError>, items: seq<Json>, i: nat)
    requires i < |items| && ParseItemsWith(classify, items[..i]).Success?
    ensures var page := ParseItemsWith(classify, items[..i]).value;
      ParseItemsWith(classify, items[..i + 1]) ==
        match classify(items[i])
        case Failure(e) => Failure(e)
        case Success(Emit(record)) => Success(Page(page.records + [record], page.token))
        case Success(SetToken(token)) => Success(Page(page.records, token))
        case Success(Skip) => Success(page)
  {
    assert items[..i + 1][..i] == items[..i];
  }

  /** Once a node has raised, the whole call raises that exception. */
  lemma {:induction false} ParseItemsAbortsOnPrefix(classify: Json -> Result<Step, PyError>, items: seq<Json>, i: nat)
    requires i <= |items| && ParseItemsWith(classify, items[..i]).Failure?
    ensures ParseItemsWith(classify, items) == ParseItemsWith(classify, items[..i])
    decreases |items|
  {
    if i < |items| {
      var init := items[..|items| - 1];
      assert init[..i] == items[..i];
      ParseItemsAbortsOnPrefix(classify, init, i);
    } else {
      assert items[..i] == items;
    }
  }

  /** A call that succeeds has classified every node without an exception. */
  lemma {:induction false} SuccessClassifiesEveryNode(classify: Json -> Result<Step, PyError>, items: seq<Json>)
    requires ParseItemsWith(classify, items).Success?
    ensures forall j :: 0 <= j < |items| ==> classify(items[j]).Success?
    decreases |items|
  {
    if items != [] {
      var init := items[..|items| - 1];
      SuccessClassifiesEveryNode(classify, init);
      assert forall j :: 0 <= j < |init| ==> init[j] == items[j];
    }
  }

  /** The last node of a call that succeeds was classified without an
      exception, and adds a record exactly when it is a video. */
  lemma ParseItemsLast(classify: Json -> Result<Step, PyError>, items: seq<Json>)
    requires items != [] && ParseItemsWith(classify, items).Success?
    ensures ParseItemsWith(classify, items[..|items| - 1]).Success? && classify(items[|items| - 1]).Success?
    ensures var page := ParseItemsWith(classify, items[..|items| - 1]).value;
      var step := classify(items[|items| - 1]).value;
      ParseItemsWith(classify, items).value.records == if step.Emit? then page.records + [step.record] else page.records
  {
  }

  /** Records come from the nodes classified as videos, one each, in input
      order, and every such node gives one: continuation nodes and
      unrecognised nodes give none, so there are at most as many records as
      nodes. `idx[k]` is the node record `k` came from. */
  lemma {:induction false} RecordsInInputOrder(classify: Json -> Result<Step, PyError>, items: seq<Json>) returns (idx: seq<nat>)
    requires ParseItemsWith(classify, items).Success?
    ensures var records := ParseItemsWith(classify, items).value.records;
      && |idx| == |records| <= |items|
      && (forall k :: 0 <= k < |idx| ==> idx[k] < |items| && classify(items[idx[k]]) == Success(Emit(records[k])))
      && (forall k, l :: 0 <= k < l < |idx| ==> idx[k] < idx[l])
      && (forall j :: 0 <= j < |items| && classify(items[j]).Success? && classify(items[j]).value.Emit? ==> j in idx)
    decreases |items|
  {
    if items == [] {
      idx := [];
    } else {
      var init := items[..|items| - 1];
      var last := |items| - 1;
      ParseItemsLast(classify, items);
      idx := RecordsInInputOrder(classify, init);
      if classify(items[last]).value.Emit? {
        idx := idx + [last];
      }
      forall j | 0 <= j < |items| && classify(items[j]).Success? && classify(items[j]).value.Emit?
        ensures j in idx
      {
        if j < last {
          assert items[j] == init[j];
        }
      }
    }
  }

  /** The first node that raises decides the outcome: the call raises its
      exception, whatever the nodes after it hold. */
  lemma {:induction false} FirstFailingNodeFails(classify: Json -> Result<Step, PyError>, items: seq<Json>, j: nat)
    requires j < |items| && classify(items[j]).Failure?
    requires forall i :: 0 <= i < j ==> classify(items[i]).Success?
    ensures ParseItemsWith(classify, items) == Failure(classify(items[j]).error)
    decreases |items|
  {
    var init := items[..|items| - 1];
    assert forall i :: 0 <= i < |init| ==> init[i] == items[i];
    if j < |items| - 1 {
      FirstFailingNodeFails(classify, init, j);
    } else {
      NoFailingNodeSucceeds(classify, init);
    }
  }

  /** With no node that raises, the call succeeds. */
  lemma {:induction false} NoFailingNodeSucceeds(classify: Json -> Result<Step, PyError>, items: seq<Json>)
    requires forall i :: 0 <= i < |items| ==> classify(items[i]).Success?
    ensures ParseItemsWith(classify, items).Success?
    decreases |items|
  {
    if items != [] {
      var init := items[..|items| - 1];
      assert forall i :: 0 <= i < |init| ==> init[i] == items[i];
      NoFailingNodeSucceeds(classify, init);
    }
  }

  /** A rich item whose video renderer has no `videoId` makes the whole call
      raise KeyError, unless an earlier node already raised: the record is
      not dropped on its own. */
  lemma MissingVideoIdFailsCall(items: seq<Json>, j: nat, renderer: map<string, Json>)
    requires j < |items| && items[j].Obj? && "richItemRenderer" in items[j].fields
    requires Truthy(items[j].fields["richItemRenderer"])
    requires Path(items[j], RichVideoPath) == Success(Obj(renderer)) && "videoId" !in renderer
    requires forall i :: 0 <= i < j ==> Classify(items[i]).Success?
    ensures ParseItems(items) == Failure(KeyError)
  {
    assert Classify(items[j]) == Failure(KeyError);
    FirstFailingNodeFails(Classify, items, j);
  }

  /** The same for an item section whose first video renderer has no
      `videoId`: the whole call raises KeyError. */
  lemma SectionMissingVideoIdFailsCall(items: seq<Json>, j: nat, renderer: map<string, Json>)
    requires j < |items| && items[j].Obj? && "itemSectionRenderer" in items[j].fields
    requires !Truthy(Get(items[j], "richItemRenderer").value) && Truthy(items[j].fields["itemSectionRenderer"])
    requires Path(items[j], SectionVideoPath) == Success(Obj(renderer)) && "videoId" !in renderer
    requires forall i :: 0 <= i < j ==> Classify(items[i]).Success?
    ensures ParseItems(items) == Failure(KeyError)
  {
    assert Classify(items[j]) == Failure(KeyError);
    FirstFailingNodeFails(Classify, items, j);
  }

  /** The token is that of the last continuation node whose token path
      resolves; later nodes of other kinds leave it alone. */
  lemma {:induction false} TokenOfLastContinuation(classify: Json -> Result<Step, PyError>, items: seq<Json>, j: nat, token: Json)
    requires ParseItemsWith(classify, items).Success?
    requires j < |items| && classify(items[j]) == Success(SetToken(token))
    requires forall i :: j < i < |items| ==> classify(items[i]).Success? && !classify(items[i]).value.SetToken?
    ensures ParseItemsWith(classify, items).value.token == token
    decreases |items|
  {
    var init := items[..|items| - 1];
    assert forall i :: 0 <= i < |init| ==> init[i] == items[i];
    if j < |items| - 1 {
      TokenOfLastContinuation(classify, init, j, token);
    }
  }

  /** With no continuation node whose token path resolves, the token stays
      None. */
  lemma {:induction false} NoContinuationNoToken(classify: Json -> Result<Step, PyError>, items: seq<Json>)
    requires ParseItemsWith(classify, items).Success?
    requires forall i :: 0 <= i < |items| ==> classify(items[i]).Success? && !classify(items[i]).value.SetToken?
    ensures ParseItemsWith(classify, items).value.token == Null
    decreases |items|
  {
    if items != [] {
      var init := items[..|items| - 1];
      assert forall i :: 0 <= i < |init| ==> init[i] == items[i];
      NoContinuationNoToken(classify, init);
    }
  }

  /** The optional fields read disjoint parts of the renderer: changing the
      description snippet cannot change the views and vice versa. */
  lemma OptionalFieldsIndependent(fields: map<string, Json>, x: Json)
    ensures ViewsOf(Obj(fields["descriptionSnippet" := x])) == ViewsOf(Obj(fields))
    ensures DescriptionOf(Obj(fields["viewCountText" := x])) == DescriptionOf(Obj(fields))
  {
    var a := Obj(fields["descriptionSnippet" := x]);
    var b := Obj(fields["viewCountText" := x]);
    assert Item(a, "viewCountText") == Item(Obj(fields), "viewCountText");
    assert Item(b, "descriptionSnippet") == Item(Obj(fields), "descriptionSnippet");
  }

  /** A renderer's record exists exactly when its `videoId` and title can be
      read: a failing optional field never makes the record fail. */
  lemma RecordNeedsOnlyIdAndTitle(renderer: Json)
    ensures VideoRecord(renderer).Success? <==>
      && Item(renderer, "videoId").Success?
      && Path(renderer, [Key("title"), Key("runs")]).Success?
      && JoinRuns(Path(renderer, [Key("title"), Key("runs")]).value).Success?
  {
  }

  /** Text that is digits and commas, with at least one digit: a count as the
      pages print it, grouped by thousands or not. */
  predicate Grouped(s: string) {
    && (forall i :: 0 <= i < |s| ==> IsDigit(s[i]) || s[i] == ',')
    && (exists i :: 0 <= i < |s| && IsDigit(s[i]))
  }

  /** Removing the commas of a grouped count leaves digits that `int()`
      reads as their decimal value. */
  lemma UngroupedCount(s: string)
    requires Grouped(s)
    ensures var u := Replace(s, ",", ""); |u| > 0 && AllDigits(u) && ParseInt(u) == Some(DigitsValue(u))
  {
    var u := Replace(s, ",", "");
    assert |u| > 0 by {
      var i :| 0 <= i < |s| && IsDigit(s[i]);
      assert s[i] in s && s[i] != ',';
    }
    assert AllDigits(u) by {
      forall k | 0 <= k < |u| ensures IsDigit(u[k]) {
        assert u[k] in u && u[k] != ',';
        var i :| 0 <= i < |s| && s[i] == u[k];
      }
    }
    assert !IsSpace(u[0]) && !IsSpace(u[|u| - 1]);
    StripCharsUnchanged(u, IsSpace);
    ParseIntDigits(u);
  }

  /** Text free of the separator's first character, then the separator, is
      cut exactly before the separator by `split(sep)[0]`. */
  lemma BeforeSeparator(s: string, sep: string, rest: string)
    requires |sep| > 0 && sep[0] !in s
    ensures Before(s + sep + rest, sep) == s
  {
    var t := s + sep + rest;
    var r := Before(t, sep);
    assert t[|s|..|s| + |sep|] == sep;
    assert OccursAt(sep, t, |s|);
    assert t[..|s|] == s;
  }

  /** A grouped count followed by a separator that starts with a space
      reads as the number its digits spell. */
  lemma GroupedCountBefore(s: string, sep: string, rest: string)
    requires Grouped(s) && |sep| > 0 && sep[0] == ' '
    ensures var u := Replace(s, ",", "");
      var v := CountBefore(s + sep + rest, sep);
      AllDigits(u) && v.Some? && v.value == DigitsValue(u)
  {
    assert Before(s + sep + rest, sep) == s by {
      BeforeSeparator(s, sep, rest);
    }
    UngroupedCount(s);
  }

  /** `views` reads the text before the first space of
      `viewCountText.simpleText`, without its commas, whatever other keys
      the renderer carries. */
  lemma ViewsOfText(fields: map<string, Json>, inner: map<string, Json>, text: string)
    requires "viewCountText" in fields && fields["viewCountText"] == Obj(inner)
    requires "simpleText" in inner && inner["simpleText"] == Str(text)
    ensures ViewsOf(Obj(fields)) == CountBefore(text, " ")
  {
    PathAppend(Obj(fields), [Key("viewCountText")], [Key("simpleText")]);
  }

  /** `views` reads a grouped count followed by a space. */
  lemma ViewsOfGroupedCount(fields: map<string, Json>, inner: map<string, Json>, s: string, rest: string)
    requires "viewCountText" in fields && fields["viewCountText"] == Obj(inner)
    requires "simpleText" in inner && inner["simpleText"] == Str(s + " " + rest)
    requires Grouped(s)
    ensures var u := Replace(s, ",", "");
      var v := ViewsOf(Obj(fields));
      AllDigits(u) && v.Some? && v.value == DigitsValue(u)
  {
    ViewsOfText(fields, inner, s + " " + rest);
    GroupedCountBefore(s, " ", rest);
  }

  // ---------------------------------------------------------------------
  // Watch URLs from a grid or continuation payload
  // (Channel._extract_videos)
  // ---------------------------------------------------------------------

  const HtmlGridPath: seq<Selector> := [
    Key("contents"), Key("twoColumnBrowseResultsRenderer"), Key("tabs"), Index(1),
    Key("tabRenderer"), Key("content"), Key("sectionListRenderer"), Key("contents"), Index(0),
    Key("itemSectionRenderer"), Key("contents"), Index(0), Key("gridRenderer"), Key("items")]
  const ResponseActionsPath: seq<Selector> := [
    Index(1), Key("response"), Key("onResponseReceivedActions"), Index(0),
    Key("appendContinuationItemsAction"), Key("continuationItems")]
  const ActionsPath: seq<Selector> :=
    [Key("onResponseReceivedActions"), Index(0), Key("appendContinuationItemsAction"), Key("continuationItems")]
  const GridIdPath: seq<Selector> := [Key("gridVideoRenderer"), Key("videoId")]

  /** The exceptions each step of the shape cascade catches. */
  predicate Caught(e: PyError) {
    e == KeyError || e == IndexError || e == TypeError
  }

  /** The cascade over the three tree shapes, in order: the grid of the
      second tab of an HTML page, the actions of the second element of a
      continuation response list, the top-level actions. None when all
      three raise. */
  function LocateVideos(data: Json): Result<Option<Json>, PyError> {
    match Path(data, HtmlGridPath)
    case Success(videos) => Success(Some(videos))
    case Failure(e) =>
      if !Caught(e) then Failure(e)
      else match Path(data, ResponseActionsPath)
        case Success(videos) => Success(Some(videos))
        case Failure(e) =>
          if !Caught(e) then Failure(e)
          else match Path(data, ActionsPath)
            case Success(videos) => Success(Some(videos))
            case Failure(e) => if !Caught(e) then Failure(e) else Success(None)
  }

  /** Subscripts raise only exceptions the cascade catches, so it never lets
      one through. */
  lemma {:induction false} PathFailureIsCaught(v: Json, path: seq<Selector>)
    ensures Path(v, path).Failure? ==> Caught(Path(v, path).error)
    decreases |path|
  {
    if path != [] {
      match path[0]
      case Key(k) =>
        if Item(v, k).Success? { PathFailureIsCaught(Item(v, k).value, path[1..]); }
      case Index(i) =>
        if At(v, i).Success? { PathFailureIsCaught(At(v, i).value, path[1..]); }
    }
  }

  /** The cascade never raises: it takes the first shape that resolves, and
      gives None when none does. */
  lemma ShapesTriedInOrder(data: Json)
    ensures LocateVideos(data).Success?
    ensures Path(data, HtmlGridPath).Success? ==> LocateVideos(data).value == Some(Path(data, HtmlGridPath).value)
    ensures Path(data, HtmlGridPath).Failure? && Path(data, ResponseActionsPath).Success? ==>
      LocateVideos(data).value == Some(Path(data, ResponseActionsPath).value)
    ensures Path(data, HtmlGridPath).Failure? && Path(data, ResponseActionsPath).Failure? ==>
      LocateVideos(data).value == (if Path(data, ActionsPath).Success? then Some(Path(data, ActionsPath).value) else None)
  {
    PathFailureIsCaught(data, HtmlGridPath);
    PathFailureIsCaught(data, ResponseActionsPath);
    PathFailureIsCaught(data, ActionsPath);
  }

  /** A token path that resolves from the last element means the videos
      value is a non-empty list (the last character of a string is a string,
      which cannot be subscripted with a key). */
  lemma LastTokenNeedsList(videos: Json)
    requires Path(videos, [Index(-1)] + TokenPath).Success?
    ensures videos.Arr? && |videos.items| > 0
  {
    PathAppend(videos, [Index(-1)], TokenPath);
  }

  /** The trailing continuation node: its token and the list without it, or
      None and the list unchanged when `videos[-1]` or the token path raises
      KeyError or IndexError; a TypeError escapes. */
  function PeelContinuation(videos: Json): Result<(Json, Json), PyError> {
    match Path(videos, [Index(-1)] + TokenPath)
    case Success(token) =>
      LastTokenNeedsList(videos);
      Success((Arr(videos.items[..|videos.items| - 1]), token))
    case Failure(e) =>
      if e == KeyError || e == IndexError then Success((videos, Null)) else Failure(e)
  }

  /** A continuation is returned exactly when the last item carries a token
      path, and then that item, and only it, is removed. */
  lemma PeelExactlyTheLastItem(items: seq<Json>)
    ensures items == [] ==> PeelContinuation(Arr(items)) == Success((Arr([]), Null))
    ensures items != [] && Path(items[|items| - 1], TokenPath).Success? ==>
      PeelContinuation(Arr(items)) == Success((Arr(items[..|items| - 1]), Path(items[|items| - 1], TokenPath).value))
    ensures items != [] && Path(items[|items| - 1], TokenPath).Failure? ==>
      var e := Path(items[|items| - 1], TokenPath).error;
      PeelContinuation(Arr(items)) == if e == TypeError then Failure(TypeError) else Success((Arr(items), Null))
  {
    PathAppend(Arr(items), [Index(-1)], TokenPath);
    if items != [] {
      PathFailureIsCaught(items[|items| - 1], TokenPath);
    }
  }

  /** `str(v)` inside an f-string: exact for strings, None, booleans and
      integers; `display` renders the other values (floats, lists, dicts). */
  function PyStr(display: Json -> string, v: Json): string {
    match v
    case Str(s) => s
    case Null => "None"
    case Bool(b) => if b then "True" else "False"
    case Int(i) => IntToString(i)
    case _ => display(v)
  }

  /** `list(map(f, xs))`: the list of results, or the exception of the
      first element on which `f` raises. */
  function MapAll<T>(f: Json -> Result<T, PyError>, xs: seq<Json>): (r: Result<seq<T>, PyError>)
    ensures r.Success? <==> forall k :: 0 <= k < |xs| ==> f(xs[k]).Success?
    ensures r.Success? ==> |r.value| == |xs| && forall k :: 0 <= k < |xs| ==> f(xs[k]) == Success(r.value[k])
    decreases |xs|
  {
    if xs == [] then Success([])
    else
      var y :- f(xs[0]);
      var rest :- MapAll(f, xs[1..]);
      assert forall k :: 1 <= k < |xs| ==> xs[k] == xs[1..][k - 1];
      Success([y] + rest)
  }

  /** The lambda of the `map`: `f"/watch?v={x['gridVideoRenderer']['videoId']}"`. */
  function WatchUrl(display: Json -> string, video: Json): Result<string, PyError> {
    var id :- Path(video, GridIdPath);
    Success("/watch?v=" + PyStr(display, id))
  }

  /** `list(map(lambda x: ..., videos))`: the watch URL of every video, or
      the exception of the first video without an id. */
  function WatchUrls(display: Json -> string, videos: seq<Json>): (r: Result<seq<string>, PyError>)
    ensures r.Success? <==> forall k :: 0 <= k < |videos| ==> WatchUrl(display, videos[k]).Success?
    ensures r.Success? ==> |r.value| == |videos|
    ensures r.Success? ==> forall k :: 0 <= k < |videos| ==> WatchUrl(display, videos[k]) == Success(r.value[k])
  {
    MapAll(v => WatchUrl(display, v), videos)
  }

  /** Removal of repeated URLs, keeping the first occurrence of each. */
  function Unique(xs: seq<string>): (r: seq<string>)
    ensures forall i, j :: 0 <= i < j < |r| ==> r[i] != r[j]
    ensures forall x :: x in r <==> x in xs
    decreases |xs|
  {
    if xs == [] then []
    else
      var u := Unique(xs[..|xs| - 1]);
      assert forall x :: x in xs <==> x in xs[..|xs| - 1] || x == xs[|xs| - 1];
      if xs[|xs| - 1] in u then u else u + [xs[|xs| - 1]]
  }

  /** `Channel._extract_videos` on the parsed payload: the watch URLs without
      repeats and the continuation token (Null for None). */
  function ExtractVideos(display: Json -> string, data: Json): Result<(seq<string>, Json), PyError> {
    var found :- LocateVideos(data);
    match found
    case None => Success(([], Null))
    case Some(videos) =>
      var peeled :- PeelContinuation(videos);
      var items :- Iterate(peeled.0, TypeError);
      var urls :- WatchUrls(display, items);
      Success((Unique(urls), peeled.1))
  }

  /** When none of the three shapes resolves, there are no videos and no
      continuation. */
  lemma AllShapesFailGiveNothing(display: Json -> string, data: Json)
    requires Path(data, HtmlGridPath).Failure? && Path(data, ResponseActionsPath).Failure?
    requires Path(data, ActionsPath).Failure?
    ensures ExtractVideos(display, data) == Success(([], Null))
  {
    ShapesTriedInOrder(data);
  }

  /** The URLs come from the videos in order: all of them, or all but the
      last when the last carries a continuation token, which is then the
      token returned (Null otherwise). */
  lemma ExtractedFromItems(display: Json -> string, data: Json, videos: seq<Json>) returns (items: seq<Json>, urls: seq<string>)
    requires LocateVideos(data) == Success(Some(Arr(videos)))
    requires ExtractVideos(display, data).Success?
    ensures var hasToken := videos != [] && Path(videos[|videos| - 1], TokenPath).Success?;
      && items == (if hasToken then videos[..|videos| - 1] else videos)
      && ExtractVideos(display, data).value.1 == (if hasToken then Path(videos[|videos| - 1], TokenPath).value else Null)
    ensures WatchUrls(display, items) == Success(urls)
    ensures ExtractVideos(display, data).value.0 == Unique(urls)
  {
    PeelExactlyTheLastItem(videos);
    items := PeelContinuation(Arr(videos)).value.0.items;
    urls := WatchUrls(display, items).value;
  }

  /** Every returned id is a watch URL built from some item's
      `gridVideoRenderer.videoId`, and none is returned twice. */
  lemma ExtractedWatchUrls(display: Json -> string, data: Json, videos: seq<Json>)
    requires LocateVideos(data) == Success(Some(Arr(videos)))
    requires ExtractVideos(display, data).Success?
    ensures var ids := ExtractVideos(display, data).value.0;
      && (forall i, j :: 0 <= i < j < |ids| ==> ids[i] != ids[j])
      && (forall id :: id in ids ==>
            exists k :: 0 <= k < |videos| && Path(videos[k], GridIdPath).Success? &&
              id == "/watch?v=" + PyStr(display, Path(videos[k], GridIdPath).value))
  {
    var items, urls := ExtractedFromItems(display, data, videos);
    forall id | id in Unique(urls)
      ensures exists k :: (0 <= k < |videos| && Path(videos[k], GridIdPath).Success? &&
        id == "/watch?v=" + PyStr(display, Path(videos[k], GridIdPath).value))
    {
      var k :| 0 <= k < |urls| && urls[k] == id;
      assert WatchUrl(display, items[k]) == Success(id);
      assert items[k] == videos[k];
    }
  }

  // ---------------------------------------------------------------------
  // Abbreviated and grouped counts (Channel.text_to_number,
  // subscriber_count, total_view_count, video_count)
  // ---------------------------------------------------------------------

  /** What `text_to_number` returns: a float, or one of its two error
      messages. */
  datatype Number = Number(value: real) | Message(text: string)

  const NumberPartMessage := "Error: The number part could not be converted to float."
  const InputMessage := "Error: The input could not be converted to float."

  /** The multiplication factor of a magnitude suffix. */
  function SuffixFactor(c: char): (r: Option<real>)
    ensures r.Some? <==> c in {'K', 'M', 'B', 'T'}
  {
    if c == 'K' then Some(1000.0)
    else if c == 'M' then Some(1000000.0)
    else if c == 'B' then Some(1000000000.0)
    else if c == 'T' then Some(1000000000000.0)
    else None
  }

  /** `Channel.text_to_number` for a given reading of `float()`: a number
      with an optional K, M, B or T suffix. `text[-1]` raises IndexError on
      the empty string; a part that `float` rejects gives an error message
      instead of an exception. The reading is a parameter so that proofs
      about the suffix logic need not unfold the decimal parser. */
  function TextToNumberWith(float: string -> Option<real>, text: string): Result<Number, PyError> {
    if text == [] then Failure(IndexError)
    else match SuffixFactor(text[|text| - 1])
      case Some(factor) =>
        (match float(text[..|text| - 1])
         case Some(x) => Success(Number(x * factor))
         case None => Success(Message(NumberPartMessage)))
      case None =>
        match float(text)
        case Some(x) => Success(Number(x))
        case None => Success(Message(InputMessage))
  }

  /** `Channel.text_to_number` with Python's `float()`. */
  function TextToNumber(text: string): Result<Number, PyError> {
    TextToNumberWith(ParseFloat, text)
  }

  /** The only exception is the IndexError of the empty text: any other
      text gives a number or a message. */
  lemma TextToNumberRaisesOnlyOnEmpty(float: string -> Option<real>, text: string)
    ensures TextToNumberWith(float, text).Failure? <==> text == []
    ensures TextToNumberWith(float, text).Failure? ==> TextToNumberWith(float, text).error == IndexError
  {
  }

  /** A number part that `float` reads, followed by a suffix, is scaled by
      the suffix's factor; a part it rejects gives the number-part
      message. */
  lemma SuffixScales(float: string -> Option<real>, number: string, c: char)
    requires c in {'K', 'M', 'B', 'T'}
    ensures TextToNumberWith(float, number + [c]) == match float(number)
      case Some(x) => Success(Number(x * SuffixFactor(c).value))
      case None => Success(Message(NumberPartMessage))
  {
    var t := number + [c];
    assert t[|t| - 1] == c && t[..|t| - 1] == number;
  }

  /** Text whose last character is not a suffix is read whole. */
  lemma NoSuffixReadsWhole(float: string -> Option<real>, text: string)
    requires text != [] && text[|text| - 1] !in {'K', 'M', 'B', 'T'}
    ensures TextToNumberWith(float, text) == match float(text)
      case Some(x) => Success(Number(x))
      case None => Success(Message(InputMessage))
  {
  }

  /** "12K" reads as 12000, "3M" as 3000000. */
  lemma TextToNumberScaled(n: nat, c: char)
    requires c in {'K', 'M', 'B', 'T'}
    ensures TextToNumber(NatToString(n) + [c]) == Success(Number(n as real * SuffixFactor(c).value))
  {
    ParseFloatNat(n);
    SuffixScales(ParseFloat, NatToString(n), c);
  }

  /** "1.5K" reads as 1500: a decimal number part is scaled by the suffix. */
  lemma TextToNumberDecimalScaled(w: string, f: string, c: char)
    requires |w| > 0 && AllDigits(w) && AllDigits(f) && c in {'K', 'M', 'B', 'T'}
    ensures AllDigits(w + f)
    ensures var r := TextToNumber(w + "." + f + [c]);
      && r.Success? && r.value.Number?
      && r.value.value == (DigitsValue(w + f) as real) / (Pow10(|f|) as real) * SuffixFactor(c).value
  {
    var number := w + "." + f;
    var x := (DigitsValue(w + f) as real) / (Pow10(|f|) as real);
    assert ParseFloat(number) == Some(x) by {
      ParseFloatDecimal(w, f);
    }
    SuffixScalesBy(ParseFloat, number, c, x);
  }

  /** The suffix scales whatever value `float` gives the number part. */
  lemma SuffixScalesBy(float: string -> Option<real>, number: string, c: char, x: real)
    requires c in {'K', 'M', 'B', 'T'} && float(number) == Some(x)
    ensures var r := TextToNumberWith(float, number + [c]);
      r.Success? && r.value.Number? && r.value.value == x * SuffixFactor(c).value
  {
    SuffixScales(float, number, c);
  }

  /** A whole number without suffix is read as it is. */
  lemma TextToNumberPlain(n: nat)
    ensures TextToNumber(NatToString(n)) == Success(Number(n as real))
  {
    var t := NatToString(n);
    assert IsDigit(t[|t| - 1]);
    ParseFloatNat(n);
    NoSuffixReadsWhole(ParseFloat, t);
  }

  /** A bare suffix leaves an empty number part, which `float()` rejects. */
  lemma BareSuffixIsMessage(c: char)
    requires c in {'K', 'M', 'B', 'T'}
    ensures TextToNumber([c]) == Success(Message(NumberPartMessage))
  {
    assert Strip([]) == [];
    assert ParseFloat([]) == None;
    SuffixScales(ParseFloat, [], c);
    assert [] + [c] == [c];
  }

  const SubscriberPath: seq<Selector> :=
    [Key("header"), Key("c4TabbedHeaderRenderer"), Key("subscriberCountText"), Key("simpleText")]

  /** `Channel.subscriber_count`: the first space-separated word of the
      subscriber text, through `text_to_number`; None when anything raises
      (the bare `except` catches every exception). */
  function SubscriberCount(initialData: Json): Option<Number> {
    match Path(initialData, SubscriberPath)
    case Success(Str(text)) => TextToNumber(Before(text, " ")).ToOption()
    case _ => None
  }

  /** "12K subscribers" reads as 12000. */
  lemma SubscriberCountScaled(initialData: Json, n: nat, c: char, rest: string)
    requires c in {'K', 'M', 'B', 'T'}
    requires Path(initialData, SubscriberPath) == Success(Str(NatToString(n) + [c] + " " + rest))
    ensures SubscriberCount(initialData) == Some(Number(n as real * SuffixFactor(c).value))
  {
    var word := NatToString(n) + [c];
    assert ' ' !in word by {
      assert forall i :: 0 <= i < |word| - 1 ==> IsDigit(word[i]);
    }
    BeforeSeparator(word, " ", rest);
    TextToNumberScaled(n, c);
  }

  /** Subscriber text that starts with a space leaves an empty first word:
      `text[-1]` raises IndexError and the count is None. */
  lemma SubscriberCountLeadingSpace(initialData: Json, rest: string)
    requires Path(initialData, SubscriberPath) == Success(Str(" " + rest))
    ensures SubscriberCount(initialData) == None
  {
    BeforeSeparator([], " ", rest);
    assert [] + " " + rest == " " + rest;
  }

  /** `Channel.total_view_count`: the text before " views", commas removed,
      through `int()`. Nothing is caught: a missing key raises KeyError, a
      value that is not a string has no `split` (AttributeError), and text
      `int()` rejects raises ValueError. */
  function TotalViewCount(about: Json): (r: Result<int, PyError>)
    ensures r.Failure? && about.Obj? && "viewCountText" in about.fields ==>
      r.error == (if about.fields["viewCountText"].Str? then ValueError else AttributeError)
  {
    var text :- Item(about, "viewCountText");
    if !text.Str? then Failure(AttributeError)
    else match CountBefore(text.s, " views")
      case Some(n) => Success(n)
      case None => Failure(ValueError)
  }

  /** `Channel.video_count`: the text before " videos", commas removed,
      through `int()`; None when anything raises. */
  function VideoCount(about: Json): Option<int> {
    match Item(about, "videoCountText")
    case Success(Str(text)) => CountBefore(text, " videos")
    case _ => None
  }

  /** A grouped count followed by " views" reads as the number its digits
      spell. */
  lemma TotalViewCountGrouped(about: Json, s: string, rest: string)
    requires Grouped(s) && Item(about, "viewCountText") == Success(Str(s + " views" + rest))
    ensures var u := Replace(s, ",", "");
      AllDigits(u) && TotalViewCount(about) == Success(DigitsValue(u) as int)
  {
    GroupedCountBefore(s, " views", rest);
  }

  /** A grouped count followed by " videos" reads as the number its digits
      spell. */
  lemma VideoCountGrouped(about: Json, s: string, rest: string)
    requires Grouped(s) && Item(about, "videoCountText") == Success(Str(s + " videos" + rest))
    ensures var u := Replace(s, ",", "");
      AllDigits(u) && VideoCount(about) == Some(DigitsValue(u) as int)
  {
    GroupedCountBefore(s, " videos", rest);
  }

  /** Printing a count without grouping and reading it back gives the count. */
  lemma TotalViewCountRoundTrip(n: nat)
    ensures TotalViewCount(Obj(map["viewCountText" := Str(NatToString(n) + " views")])) == Success(n)
  {
    var s := NatToString(n);
    assert Grouped(s) by {
      assert IsDigit(s[0]);
    }
    assert s + " views" == s + " views" + "";
    TotalViewCountGrouped(Obj(map["viewCountText" := Str(s + " views")]), s, "");
    assert Replace(s, ",", "") == s by {
      assert ',' !in s by {
        assert forall i :: 0 <= i < |s| ==> IsDigit(s[i]);
      }
    }
  }

  // ---------------------------------------------------------------------
  // The public listings (Channel.recent_videos and Channel.search_videos)
  // ---------------------------------------------------------------------

  /** `Channel.recent_videos` on the parsed videos page: the records of the
      first content tab, or None when there is no content list. */
  function RecentVideos(videosJson: Json): Result<Option<seq<Record>>, PyError> {
    var contents :- FindContentList(videosJson);
    if Truthy(contents) then
      var page :- ParsedContents(contents);
      Success(Some(page.records))
    else Success(None)
  }

  /** `Channel.search_videos` on the browse response: the records and the
      continuation token, or (None, None) for an empty response or one
      without a content list. */
  function SearchVideos(response: Json): Result<(Option<seq<Record>>, Json), PyError> {
    if !Truthy(response) then Success((None, Null))
    else
      var contents :- FindSearchedContentList(response);
      if Truthy(contents) then
        var page :- ParsedContents(contents);
        Success((Some(page.records), page.token))
      else Success((None, Null))
  }

  /** A videos page listing nodes under the first tab with content gives
      the records those nodes produce. */
  lemma RecentVideosOfFirstTab(data: Json, tabs: seq<Json>, j: nat, items: seq<Json>)
    requires data.Obj? && "contents" in data.fields && Truthy(data.fields["contents"])
    requires Path(data, TabsPath) == Success(Arr(tabs))
    requires j < |tabs| && HasTabContent(tabs[j]) == Success(true)
    requires forall i :: 0 <= i < j ==> HasTabContent(tabs[i]) == Success(false)
    requires Path(tabs[j], RichGridPath) == Success(Arr(items)) && items != []
    ensures RecentVideos(data) == (match ParseItems(items)
      case Success(page) => Success(Some(page.records))
      case Failure(e) => Failure(e))
  {
    FirstContentTabIsFirst(tabs, j);
  }

  /** A continuation response with a non-empty item list gives the records
      and the token of those items. */
  lemma SearchContinuation(data: Json, actions: seq<Json>, action: map<string, Json>, items: seq<Json>)
    requires data.Obj? && ("contents" in data.fields ==> !Truthy(data.fields["contents"]))
    requires "onResponseReceivedActions" in data.fields
    requires data.fields["onResponseReceivedActions"] == Arr(actions) && actions != []
    requires actions[0].Obj? && "appendContinuationItemsAction" in actions[0].fields
    requires actions[0].fields["appendContinuationItemsAction"] == Obj(action)
    requires "continuationItems" in action && action["continuationItems"] == Arr(items) && items != []
    ensures SearchVideos(data) == (match ParseItems(items)
      case Success(page) => Success((Some(page.records), page.token))
      case Failure(e) => Failure(e))
  {
    ActionsGiveContinuationItems(data, actions, action);
  }
}
