/** The pass once more, one event at a time and on the fields of the events alone: which group an event
    joins or opens, under which key, and which field of its payload the shown text comes from. */
module EventGroupFields {
  import opened Text
  import opened Json
  import opened Events
  import opened EventGroups
  import opened EventGroupFacts
  import Leading

  /* ---- sorts and keys ---- */

  predicate IsDelta(e: Event) {
    e.kind == "message_delta"
  }

  predicate IsToolEvent(e: Event) {
    |e.kind| >= 10 && e.kind[..10] == "tool_call_"
  }

  function CallName(e: Event): string {
    match Lookup(e.payload, "tool_call_id")
    case Some(Str(s)) => s
    case _ => "event-" + Numeral(e.id)
  }

  function KeyOfTool(e: Event): string {
    "tool:" + e.turn + ":" + CallName(e)
  }

  lemma SortIs(e: Event)
    ensures Classify(e) ==
      if IsDelta(e) then Leading.Delta(e.turn)
      else if IsToolEvent(e) then Leading.Tool(KeyOfTool(e))
      else Leading.Lone
  {
    assert "tool_call_" <= e.kind <==> IsToolEvent(e);
  }

  /* ---- one event ---- */

  /** The newest group is an assistant group whose last event has the event's turn. */
  predicate Continues(gs: seq<Group>, e: Event) {
    && gs != [] && gs[|gs| - 1].kind == Assistant
    && gs[|gs| - 1].events != [] && Last(gs[|gs| - 1].events).turn == e.turn
  }

  function WithPiece(g: Group, e: Event): Group {
    g.(events := g.events + [e], text := Some((if g.text.Some? then g.text.value else "") + Piece(e)))
  }

  /** A message delta is added to the newest group if that is an assistant group of its turn, and
      opens an assistant group otherwise. */
  lemma DeltaExactly(ev: seq<Event>, k: nat)
    requires k < |ev| && IsDelta(ev[k])
    ensures var gs, e := Grouping(ev, k), ev[k];
      Grouping(ev, k + 1) ==
        if Continues(gs, e) then gs[|gs| - 1 := WithPiece(gs[|gs| - 1], e)]
        else gs + [Group("assistant:" + e.turn + ":" + Numeral(e.id), Assistant, [e], Some(Piece(e)))]
  {
    hide Grouping, Delta;
    SortIs(ev[k]);
    PieceIs(ev[k]);
    DeltaStep(ev, k);
  }

  /** Group `p` is the tool group of this key. */
  predicate ToolGroupAt(gs: seq<Group>, key: string, p: nat) {
    p < |gs| && gs[p].kind == Tool && gs[p].key == key
  }

  lemma GroupOfKey(ev: seq<Event>, k: nat, p: nat)
    requires k < |ev| && Classify(ev[k]).Tool?
    requires ToolGroupAt(Grouping(ev, k), ToolKey(ev[k]), p)
    ensures Leading.Leader(Sorts(ev), k) < k && Leading.Leaders(Sorts(ev), k)[p] == Leading.Leader(Sorts(ev), k)
  {
    hide ToolKey, Leading.Leader;
    var s := Sorts(ev);
    var l := Leading.Leaders(s, k)[p];
    assert s[l] == s[k];
    Leading.LeadersAre(s, k);
    assert l in Leading.Leaders(s, k);
    Leading.ToolsShare(s, l, k);
  }

  lemma KeyOfGroup(ev: seq<Event>, k: nat) returns (p: nat)
    requires k < |ev| && Classify(ev[k]).Tool? && Leading.Leader(Sorts(ev), k) < k
    ensures ToolGroupAt(Grouping(ev, k), ToolKey(ev[k]), p)
  {
    p := LeaderPlace(ev, k);
    Leading.LeaderFits(Sorts(ev), k);
  }

  /** A tool event is added to the tool group of its key if there is one, wherever that stands, and
      opens one otherwise; either way the group's text is that of the events it then has. */
  lemma ToolExactly(ev: seq<Event>, k: nat)
    requires k < |ev| && !IsDelta(ev[k]) && IsToolEvent(ev[k])
    ensures var gs, gs', e := Grouping(ev, k), Grouping(ev, k + 1), ev[k];
      && (forall p: nat :: ToolGroupAt(gs, KeyOfTool(e), p) ==>
            gs' == gs[p := gs[p].(events := gs[p].events + [e], text := ToolText(gs[p].events + [e]))])
      && ((forall p: nat :: !ToolGroupAt(gs, KeyOfTool(e), p)) ==> gs' == gs + [Group(KeyOfTool(e), Tool, [e], ToolText([e]))])
  {
    hide Grouping, ToolText, Leading.Leader, KeyOfTool, ToolKey;
    var gs, e := Grouping(ev, k), ev[k];
    SortIs(e);
    forall p: nat | ToolGroupAt(gs, KeyOfTool(e), p)
      ensures Grouping(ev, k + 1) == gs[p := WithToolEvent(gs[p], e)]
    {
      GroupOfKey(ev, k, p);
      PlacesFit(ev, k);
      ExtendedStep(ev, k, p);
    }
    if forall p: nat :: !ToolGroupAt(gs, KeyOfTool(e), p) {
      if Leading.Leader(Sorts(ev), k) < k {
        var p := KeyOfGroup(ev, k);
        assert false;
      }
      OpenedStep(ev, k);
    }
  }

  lemma PlacesFit(ev: seq<Event>, k: nat)
    requires k <= |ev|
    ensures |Grouping(ev, k)| == |Leading.Leaders(Sorts(ev), k)|
  {
  }

  /** Any other event opens a group of its own. */
  lemma LoneExactly(ev: seq<Event>, k: nat)
    requires k < |ev| && !IsDelta(ev[k]) && !IsToolEvent(ev[k])
    ensures var e := ev[k];
      Grouping(ev, k + 1) == Grouping(ev, k)
        + [Group("event:" + Numeral(e.id), if e.kind == "turn_failed" then Failure else Lifecycle, [e], EventText(e))]
  {
    hide Grouping, EventText;
    SortIs(ev[k]);
    OpenedStep(ev, k);
  }

  /* ---- the text of one event ---- */

  /** The value at the end of a path of keys through objects. */
  function ValueAt(es: seq<Entry>, path: seq<string>): Option<Json>
    requires path != []
    decreases |path|
  {
    match Lookup(es, path[0])
    case Some(Obj(inner)) => if |path| > 1 then ValueAt(inner, path[1..]) else Some(Obj(inner))
    case Some(v) => if |path| > 1 then None else Some(v)
    case None => None
  }

  /** The text at the end of a path: a string that is not blank. */
  function TextAt(es: seq<Entry>, path: seq<string>): Option<string>
    requires path != []
  {
    match ValueAt(es, path)
    case Some(Str(s)) => if forall i :: 0 <= i < |s| ==> IsSpace(s[i]) then None else Some(s)
    case _ => None
  }

  type Path = p: seq<string> | p != [] witness ["x"]

  /** The text at the first path that has one. */
  function FirstText(es: seq<Entry>, paths: seq<Path>): Option<string> {
    if paths == [] then None
    else if TextAt(es, paths[0]).Some? then TextAt(es, paths[0])
    else FirstText(es, paths[1..])
  }

  function Inside(key: string, paths: seq<Path>): (r: seq<Path>)
    ensures |r| == |paths| && forall i :: 0 <= i < |r| ==> r[i] == [key] + paths[i]
  {
    seq(|paths|, i requires 0 <= i < |paths| => [key] + paths[i])
  }

  /** Where an approval summary is looked for, through at most `n` objects: here, then depth-first
      under the arguments, then under the result. */
  function ApprovalPaths(n: nat): seq<Path> {
    [["approval_summary_zh"]]
      + if n == 0 then [] else Inside("arguments", ApprovalPaths(n - 1)) + Inside("result", ApprovalPaths(n - 1))
  }

  /** The payload has a string under key `j` of these, and under none before. */
  predicate FirstStringIs(es: seq<Entry>, keys: seq<string>, j: nat, s: string) {
    && j < |keys| && Lookup(es, keys[j]) == Some(Str(s))
    && forall i :: 0 <= i < j ==> Lookup(es, keys[i]).None? || !Lookup(es, keys[i]).value.Str?
  }

  lemma {:induction false} FirstStringAt(es: seq<Entry>, keys: seq<string>, j: nat, s: string)
    requires FirstStringIs(es, keys, j, s)
    ensures FirstString(es, keys) == Some(s)
  {
    if j > 0 {
      FirstStringAt(es, keys[1..], j - 1, s);
    }
  }

  lemma {:induction false} FirstStringNone(es: seq<Entry>, keys: seq<string>)
    requires forall i :: 0 <= i < |keys| ==> Lookup(es, keys[i]).None? || !Lookup(es, keys[i]).value.Str?
    ensures FirstString(es, keys) == None
  {
    if keys != [] {
      FirstStringNone(es, keys[1..]);
    }
  }

  lemma {:induction false} FirstTextAppend(es: seq<Entry>, a: seq<Path>, b: seq<Path>)
    ensures FirstText(es, a + b) == if FirstText(es, a).Some? then FirstText(es, a) else FirstText(es, b)
  {
    hide TextAt;
    if a == [] {
      assert a + b == b;
    } else {
      assert (a + b)[1..] == a[1..] + b;
      FirstTextAppend(es, a[1..], b);
    }
  }

  lemma TextInside(es: seq<Entry>, key: string, path: Path)
    ensures TextAt(es, [key] + path) == match Lookup(es, key) case Some(Obj(inner)) => TextAt(inner, path) case _ => None
  {
    assert ([key] + path)[1..] == path;
  }

  lemma {:induction false} FirstTextInside(es: seq<Entry>, key: string, paths: seq<Path>)
    ensures FirstText(es, Inside(key, paths))
         == match Lookup(es, key) case Some(Obj(inner)) => FirstText(inner, paths) case _ => None
  {
    hide TextAt;
    if paths != [] {
      TextInside(es, key, paths[0]);
      assert Inside(key, paths)[1..] == Inside(key, paths[1..]);
      FirstTextInside(es, key, paths[1..]);
    }
  }

  lemma {:induction false} SummaryIs(es: seq<Entry>, depth: nat)
    requires depth <= 4
    ensures ApprovalSummary(Some(es), depth) == FirstText(es, ApprovalPaths(4 - depth))
    decreases 4 - depth
  {
    hide FirstText, Inside, ApprovalSummary, ApprovalPaths;
    SummaryUnfolds(es, depth);
    SummaryDirect(es);
    PathsUnfold(4 - depth);
    if depth < 4 {
      var paths := ApprovalPaths(3 - depth);
      FirstTextAppend(es, [["approval_summary_zh"]] + Inside("arguments", paths), Inside("result", paths));
      FirstTextAppend(es, [["approval_summary_zh"]], Inside("arguments", paths));
      FirstTextInside(es, "arguments", paths);
      FirstTextInside(es, "result", paths);
      SummaryUnder(es, "arguments", depth);
      SummaryUnder(es, "result", depth);
    }
  }

  lemma PathsUnfold(n: nat)
    ensures ApprovalPaths(n) == if n == 0 then [["approval_summary_zh"]]
      else [["approval_summary_zh"]] + Inside("arguments", ApprovalPaths(n - 1)) + Inside("result", ApprovalPaths(n - 1))
  {
    hide Inside;
  }

  lemma SummaryUnfolds(es: seq<Entry>, depth: nat)
    requires depth <= 4
    ensures var direct, a, r := NonBlank(StringField(es, "approval_summary_zh")),
        ApprovalSummary(ObjectField(es, "arguments"), depth + 1), ApprovalSummary(ObjectField(es, "result"), depth + 1);
      && ApprovalSummary(Some(es), depth) == (if direct.Some? then direct else if a.Some? then a else r)
      && (depth == 4 ==> a == None && r == None)
  {
  }

  lemma SummaryDirect(es: seq<Entry>)
    ensures FirstText(es, [["approval_summary_zh"]]) == NonBlank(StringField(es, "approval_summary_zh"))
  {
    assert FirstText(es, [["approval_summary_zh"]][1..]) == None;
  }

  lemma {:induction false} SummaryUnder(es: seq<Entry>, key: string, depth: nat)
    requires depth < 4
    ensures ApprovalSummary(ObjectField(es, key), depth + 1)
         == match Lookup(es, key) case Some(Obj(inner)) => FirstText(inner, ApprovalPaths(3 - depth)) case _ => None
    decreases 4 - depth, 0
  {
    match Lookup(es, key)
    case Some(Obj(inner)) => SummaryIs(inner, depth + 1);
    case _ =>
  }

  const MAIN: seq<string> := ["delta", "content", "progress", "result"]

  /** Where else a text is looked for, in this order. */
  function OtherPaths(): seq<Path> {
    [["error", "message"], ["result", "error", "message"]] + ApprovalPaths(4)
  }

  lemma MessageAt(es: seq<Entry>)
    ensures ErrorMessage(ObjectField(es, "error")) == TextAt(es, ["error", "message"])
  {
    assert ["error", "message"] == ["error"] + ["message"];
    TextInside(es, "error", ["message"]);
  }

  lemma OtherText(es: seq<Entry>)
    ensures var direct, result := ErrorMessage(ObjectField(es, "error")), ObjectField(es, "result");
      var nested := if result.Some? then ErrorMessage(ObjectField(result.value, "error")) else None;
      FirstText(es, OtherPaths()) == if direct.Some? then direct else if nested.Some? then nested else ApprovalSummary(Some(es), 0)
  {
    hide FirstText, ApprovalSummary, ApprovalPaths, TextAt;
    MessageAt(es);
    assert ["result", "error", "message"] == ["result"] + ["error", "message"];
    TextInside(es, "result", ["error", "message"]);
    match Lookup(es, "result") {
      case Some(Obj(inner)) => MessageAt(inner);
      case _ =>
    }
    SummaryIs(es, 0);
    FirstTextAppend(es, [["error", "message"], ["result", "error", "message"]], ApprovalPaths(4));
    FirstOfTwo(es, ["error", "message"], ["result", "error", "message"]);
  }

  lemma FirstOfTwo(es: seq<Entry>, a: Path, b: Path)
    ensures FirstText(es, [a, b]) == if TextAt(es, a).Some? then TextAt(es, a) else TextAt(es, b)
  {
    hide TextAt;
    assert [a, b][1..] == [b] && [b][1..] == [];
    assert FirstText(es, [b]) == TextAt(es, b);
  }

  /** The text of an event: the first of delta, content, progress and result that is a string decides,
      if it is not blank; else the error's message, that of the result's error, or the first approval
      summary among the arguments and results, four deep. */
  lemma EventTextExactly(e: Event)
    ensures forall j, s :: FirstStringIs(e.payload, MAIN, j, s) ==>
      EventText(e) == if Blank(s) then FirstText(e.payload, OtherPaths()) else Some(s)
    ensures (forall j :: 0 <= j < |MAIN| ==> Lookup(e.payload, MAIN[j]).None? || !Lookup(e.payload, MAIN[j]).value.Str?) ==>
      EventText(e) == FirstText(e.payload, OtherPaths())
  {
    hide FirstString, FirstText, OtherPaths, ErrorMessage, ApprovalSummary, Blank;
    OtherText(e.payload);
    forall j, s | FirstStringIs(e.payload, MAIN, j, s)
      ensures FirstString(e.payload, MAIN) == Some(s)
    {
      FirstStringAt(e.payload, MAIN, j, s);
    }
    if forall j :: 0 <= j < |MAIN| ==> Lookup(e.payload, MAIN[j]).None? || !Lookup(e.payload, MAIN[j]).value.Str? {
      FirstStringNone(e.payload, MAIN);
    }
  }
}
