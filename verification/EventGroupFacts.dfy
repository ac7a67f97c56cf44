/** What the grouping keeps: every event once, all streamed text, stable order, distinct keys. */
module EventGroupFacts {
  import opened Text
  import opened Events
  import opened Json
  import opened EventGroups
  import Leading

  /* ---- conservation of events ---- */

  /** Before the final filter every input position lies in exactly one group, once, and each group
      lists its events in input order. */
  lemma EventsPartitioned(ev: seq<Event>, k: nat, i: nat)
    requires i < k <= |ev|
    ensures exists p :: 0 <= p < |Grouping(ev, k)| && HoldsAlone(ev, k, p, i)
    ensures forall p :: 0 <= p < |Grouping(ev, k)| ==>
      Grouping(ev, k)[p].events == Pick(ev, Positions(ev, k, p)) && Increasing(Positions(ev, k, p))
  {
    var s := Sorts(ev);
    var ls := Leading.Leaders(s, k);
    var j := Leading.Leader(s, i);
    Leading.LeaderFits(s, i);
    Leading.LeadersAre(s, k);
    Leading.LeadersAscend(s, k);
    assert j in ls;
    var p :| 0 <= p < |ls| && ls[p] == j;
    forall q | 0 <= q < |ls| ensures Holds(ev, k, q, i) <==> q == p {
      Leading.MembersAre(s, ls[q], k);
    }
    assert HoldsAlone(ev, k, p, i);
    forall q | 0 <= q < |ls| ensures Increasing(Positions(ev, k, q)) {
      Leading.MembersAre(s, ls[q], k);
    }
  }

  /** The input positions of the events in group `p`. */
  function Positions(ev: seq<Event>, k: nat, p: nat): (ms: seq<nat>)
    requires k <= |ev| && p < |Grouping(ev, k)|
    ensures forall x :: 0 <= x < |ms| ==> ms[x] < |ev|
  {
    Leading.Members(Sorts(ev), Leading.Leaders(Sorts(ev), k)[p], k)
  }

  ghost predicate Holds(ev: seq<Event>, k: nat, p: nat, i: nat)
    requires k <= |ev| && p < |Grouping(ev, k)|
  {
    i in Positions(ev, k, p)
  }

  ghost predicate HoldsAlone(ev: seq<Event>, k: nat, p: nat, i: nat)
    requires k <= |ev| && p < |Grouping(ev, k)|
  {
    && Holds(ev, k, p, i)
    && (forall q :: 0 <= q < |Grouping(ev, k)| && q != p ==> !Holds(ev, k, q, i))
  }

  ghost predicate Increasing(ms: seq<nat>) {
    forall x, y :: 0 <= x < y < |ms| ==> ms[x] < ms[y]
  }

  lemma LeaderPlace(ev: seq<Event>, k: nat) returns (p: nat)
    requires k < |ev| && Leading.Leader(Sorts(ev), k) < k
    ensures p < |Grouping(ev, k)| && Leading.Leaders(Sorts(ev), k)[p] == Leading.Leader(Sorts(ev), k)
  {
    Leading.LeaderFits(Sorts(ev), k);
    var ls := Leading.Leaders(Sorts(ev), k);
    p :| 0 <= p < |ls| && ls[p] == Leading.Leader(Sorts(ev), k);
  }

  /** Inside a group the events keep their order, the group's first event is its leader, and the
      groups are ordered by first event. */
  lemma GroupsOrdered(ev: seq<Event>, k: nat)
    requires Ascending(ev) && k <= |ev|
    ensures forall p :: 0 <= p < |Grouping(ev, k)| ==>
      Grouping(ev, k)[p].events != [] && Ascending(Grouping(ev, k)[p].events)
    ensures forall p, q :: 0 <= p < q < |Grouping(ev, k)| ==>
      Grouping(ev, k)[p].events[0].id < Grouping(ev, k)[q].events[0].id
  {
    var s, gs := Sorts(ev), Grouping(ev, k);
    var ls := Leading.Leaders(s, k);
    forall p | 0 <= p < |gs| ensures gs[p].events != [] && Ascending(gs[p].events) && gs[p].events[0] == ev[ls[p]] {
      Leading.MembersAre(s, ls[p], k);
      assert Leading.Leader(s, ls[p]) == ls[p] by {
        Leading.LeadersAre(s, k);
        assert ls[p] in ls;
      }
      Leading.MembersStart(s, ls[p], k);
    }
    Leading.LeadersAscend(s, k);
  }

  /* ---- one event more ---- */

  lemma GroupingStable(ev: seq<Event>, ev': seq<Event>, k: nat)
    requires ev <= ev' && k <= |ev|
    ensures Grouping(ev', k) == Grouping(ev, k)
  {
    hide MakeGroup, GroupEvents;
    var s, s' := Sorts(ev), Sorts(ev');
    Leading.LeadersStable(s, s', k);
    forall p | 0 <= p < |Leading.Leaders(s, k)|
      ensures Grouping(ev', k)[p] == Grouping(ev, k)[p]
    {
      GroupEventsStable(ev, ev', Leading.Leaders(s, k)[p], k);
    }
  }

  lemma GroupEventsStable(ev: seq<Event>, ev': seq<Event>, j: nat, k: nat)
    requires ev <= ev' && k <= |ev|
    ensures GroupEvents(ev', j, k) == GroupEvents(ev, j, k)
  {
    hide Leading.Leader;
    Leading.MembersStable(Sorts(ev), Sorts(ev'), j, k);
  }

  /** Adding one event appends one group or extends exactly one; every other group is unchanged. */
  lemma OneMoreEvent(ev: seq<Event>, e: Event)
    ensures var gs, gs' := Grouping(ev, |ev|), Grouping(ev + [e], |ev| + 1);
      || gs' == gs + [Opened(e)]
      || exists p :: 0 <= p < |gs| == |gs'| && gs' == gs[p := gs'[p]]
           && gs'[p].key == gs[p].key && gs'[p].kind == gs[p].kind && gs'[p].events == gs[p].events + [e]
  {
    var ev', n := ev + [e], |ev|;
    GroupingStable(ev, ev', n);
    if Leading.Leader(Sorts(ev'), n) == n {
      OpenedStep(ev', n);
    } else {
      var p := LeaderPlace(ev', n);
      GroupingExtends(ev', n, p);
      var gs := Grouping(ev, n);
      var j := Leading.Leader(Sorts(ev'), n);
      assert gs[p] == Grouping(ev', n)[p] == MakeGroup(ev'[j], gs[p].events);
    }
  }

  /* ---- conservation of text ---- */

  function TextOf(g: Group): string {
    if g.kind == Assistant && g.text.Some? then g.text.value else ""
  }

  function AssistantText(gs: seq<Group>): string {
    if gs == [] then ""
    else
      var g := gs[|gs| - 1];
      AssistantText(gs[..|gs| - 1]) + TextOf(g)
  }

  /** All message deltas, in input order. */
  function Streamed(ev: seq<Event>): string {
    if ev == [] then ""
    else
      var e := ev[|ev| - 1];
      Streamed(ev[..|ev| - 1]) + Piece(e)
  }

  /** What one event adds to the streamed text: the string a message delta has under "delta". */
  function Piece(e: Event): string {
    match Lookup(e.payload, "delta")
    case Some(Str(s)) => if e.kind == "message_delta" then s else ""
    case _ => ""
  }

  lemma PieceIs(e: Event)
    ensures Piece(e) == if Classify(e).Delta? then Delta(e) else ""
  {
  }

  lemma TextAfterDelta(ev: seq<Event>, n: nat)
    requires n < |ev| && Classify(ev[n]).Delta?
    ensures AssistantText(Grouping(ev, n + 1)) == AssistantText(Grouping(ev, n)) + Piece(ev[n])
  {
    var gs, e := Grouping(ev, n), ev[n];
    DeltaStep(ev, n);
    PieceIs(e);
    if CanJoin(gs, e) {
      TextJoins(gs, e);
    } else {
      TextSnoc(gs, Opened(e));
    }
  }

  lemma TextAfterOpening(ev: seq<Event>, n: nat)
    requires n < |ev| && !Classify(ev[n]).Delta? && Leading.Leader(Sorts(ev), n) == n
    ensures AssistantText(Grouping(ev, n + 1)) == AssistantText(Grouping(ev, n))
  {
    OpenedStep(ev, n);
    TextSnoc(Grouping(ev, n), Opened(ev[n]));
  }

  lemma TextAfterExtending(ev: seq<Event>, n: nat)
    requires n < |ev| && !Classify(ev[n]).Delta? && Leading.Leader(Sorts(ev), n) < n
    ensures AssistantText(Grouping(ev, n + 1)) == AssistantText(Grouping(ev, n))
  {
    var gs, e := Grouping(ev, n), ev[n];
    var p := LeaderPlace(ev, n);
    ExtendedStep(ev, n, p);
    Leading.LeaderFits(Sorts(ev), n);
    GroupAt(ev, n, p);
    TextElsewhere(gs, p, WithToolEvent(gs[p], e));
  }

  lemma NoText(ev: seq<Event>)
    ensures AssistantText(Grouping(ev, 0)) == "" == Streamed(ev[..0])
  {
  }

  lemma StreamedSnoc(ev: seq<Event>, n: nat)
    requires n < |ev|
    ensures Streamed(ev[..n + 1]) == Streamed(ev[..n]) + Piece(ev[n])
    ensures !Classify(ev[n]).Delta? ==> Streamed(ev[..n + 1]) == Streamed(ev[..n])
  {
    assert ev[..n + 1][..n] == ev[..n];
    PieceIs(ev[n]);
  }

  /** The unfiltered assistant texts, in group order, are all message deltas in input order. */
  lemma {:induction false} TextConserved(ev: seq<Event>, k: nat)
    requires k <= |ev|
    ensures AssistantText(Grouping(ev, k)) == Streamed(ev[..k])
  {
    hide AssistantText, Grouping, Streamed, Piece, Sorts;
    if k == 0 {
      NoText(ev);
    } else {
      var n := k - 1;
      TextConserved(ev, n);
      StreamedSnoc(ev, n);
      if Classify(ev[n]).Delta? {
        TextAfterDelta(ev, n);
      } else if Leading.Leader(Sorts(ev), n) == n {
        TextAfterOpening(ev, n);
      } else {
        TextAfterExtending(ev, n);
      }
    }
  }

  lemma TextSnoc(gs: seq<Group>, g: Group)
    ensures AssistantText(gs + [g]) == AssistantText(gs) + TextOf(g)
  {
    assert (gs + [g])[..|gs|] == gs;
  }

  lemma TextJoins(gs: seq<Group>, e: Event)
    requires CanJoin(gs, e)
    ensures AssistantText(gs[|gs| - 1 := WithDelta(gs[|gs| - 1], e)]) == AssistantText(gs) + Delta(e)
  {
    hide AssistantText;
    var n := |gs| - 1;
    var g := WithDelta(gs[n], e);
    assert gs == gs[..n] + [gs[n]] && gs[n := g] == gs[..n] + [g];
    TextSnoc(gs[..n], gs[n]);
    TextSnoc(gs[..n], g);
    assert AssistantText(gs[..n]) + (TextOf(gs[n]) + Delta(e)) == (AssistantText(gs[..n]) + TextOf(gs[n])) + Delta(e);
  }

  lemma {:induction false} TextElsewhere(gs: seq<Group>, p: nat, g: Group)
    requires p < |gs| && g.kind == gs[p].kind != Assistant
    ensures AssistantText(gs[p := g]) == AssistantText(gs)
  {
    var n := |gs| - 1;
    if p == n {
      assert gs[p := g][..n] == gs[..n];
    } else {
      TextElsewhere(gs[..n], p, g);
      assert gs[p := g][..n] == gs[..n][p := g];
    }
  }

  /** The text of an event is never blank, so the tests for an empty text never matter. */
  lemma EventTextNotBlank(e: Event)
    ensures EventText(e).Some? ==> !Blank(EventText(e).value)
  {
    SummaryNotBlank(Some(e.payload), 0);
  }

  lemma {:induction false} SummaryNotBlank(value: Option<seq<Entry>>, depth: nat)
    ensures ApprovalSummary(value, depth).Some? ==> !Blank(ApprovalSummary(value, depth).value)
    decreases 5 - depth
  {
    if value.Some? && depth <= 4 {
      SummaryNotBlank(ObjectField(value.value, "arguments"), depth + 1);
      SummaryNotBlank(ObjectField(value.value, "result"), depth + 1);
    }
  }

  /** Event `k` is the newest that has a text. */
  predicate Newest(es: seq<Event>, k: int) {
    0 <= k < |es| && EventText(es[k]).Some? && forall j :: k < j < |es| ==> EventText(es[j]).None?
  }

  lemma {:induction false} ToolTextAt(es: seq<Event>, k: nat)
    requires Newest(es, k)
    ensures ToolText(es) == EventText(es[k])
  {
    hide EventText, Blank;
    var n := |es| - 1;
    EventTextNotEmpty(es[k]);
    if k < n {
      assert forall j :: 0 <= j < n ==> es[..n][j] == es[j];
      ToolTextAt(es[..n], k);
    }
  }

  lemma EventTextNotEmpty(e: Event)
    ensures EventText(e) != Some("")
  {
    EventTextNotBlank(e);
  }

  lemma {:induction false} ToolTextNone(es: seq<Event>)
    requires forall j :: 0 <= j < |es| ==> EventText(es[j]).None?
    ensures ToolText(es) == None
  {
    hide EventText;
    if es != [] {
      ToolTextNone(es[..|es| - 1]);
    }
  }

  lemma {:induction false} NewestPlace(es: seq<Event>, j: nat) returns (k: nat)
    requires j < |es| && EventText(es[j]).Some?
    ensures Newest(es, k)
  {
    hide EventText;
    k := |es| - 1;
    if EventText(es[k]).None? {
      k := NewestPlace(es[..k], j);
    }
  }

  /** A tool group shows the text of its newest event that has one, and none exactly when none has. */
  lemma ToolTextExactly(es: seq<Event>)
    ensures ToolText(es).None? <==> forall j :: 0 <= j < |es| ==> EventText(es[j]).None?
    ensures forall k :: Newest(es, k) ==> ToolText(es) == EventText(es[k])
  {
    hide EventText, ToolText;
    forall k | Newest(es, k)
      ensures ToolText(es) == EventText(es[k])
    {
      ToolTextAt(es, k);
    }
    if j :| 0 <= j < |es| && EventText(es[j]).Some? {
      var k := NewestPlace(es, j);
    } else {
      ToolTextNone(es);
    }
  }

  /** A text without its blanks. */
  function Ink(s: string): string {
    if s == "" then "" else Ink(s[..|s| - 1]) + (if IsSpace(s[|s| - 1]) then "" else [s[|s| - 1]])
  }

  lemma {:induction false} InkAppend(a: string, b: string)
    ensures Ink(a + b) == Ink(a) + Ink(b)
  {
    if b == "" {
      assert a + b == a;
    } else {
      InkAppend(a, b[..|b| - 1]);
      assert (a + b)[..|a + b| - 1] == a + b[..|b| - 1];
    }
  }

  lemma {:induction false} InkBlank(s: string)
    requires Blank(s)
    ensures Ink(s) == ""
  {
    if s != "" {
      InkBlank(s[..|s| - 1]);
    }
  }

  function Others(gs: seq<Group>): seq<Group> {
    if gs == [] then []
    else Others(gs[..|gs| - 1]) + (if gs[|gs| - 1].kind == Assistant then [] else [gs[|gs| - 1]])
  }

  lemma OthersSnoc(gs: seq<Group>, g: Group)
    ensures Others(gs + [g]) == Others(gs) + (if g.kind == Assistant then [] else [g])
  {
    assert (gs + [g])[..|gs|] == gs;
  }

  lemma {:induction false} FilterKeepsOthers(gs: seq<Group>)
    ensures Others(Visible(gs)) == Others(gs)
  {
    if gs != [] {
      var front, g := gs[..|gs| - 1], gs[|gs| - 1];
      FilterKeepsOthers(front);
      if Shown(g) {
        OthersSnoc(Visible(front), g);
      } else {
        assert Visible(gs) == Visible(front);
      }
    }
  }

  lemma {:induction false} FilterKeepsInk(gs: seq<Group>)
    ensures Ink(AssistantText(Visible(gs))) == Ink(AssistantText(gs))
  {
    if gs != [] {
      var front, g := gs[..|gs| - 1], gs[|gs| - 1];
      FilterKeepsInk(front);
      InkAppend(AssistantText(front), TextOf(g));
      if Shown(g) {
        TextSnoc(Visible(front), g);
        InkAppend(AssistantText(Visible(front)), TextOf(g));
      } else {
        InkBlank(TextOf(g));
        assert Visible(gs) == Visible(front);
      }
    }
  }

  /** An assistant group with nothing but blanks to say. */
  predicate Silent(g: Group) {
    g.kind == Assistant && (g.text.Some? ==> forall i :: 0 <= i < |g.text.value| ==> IsSpace(g.text.value[i]))
  }

  /** `at` lists the positions of the groups that are not silent, and they are shown as they are. */
  ghost predicate Keeps(gs: seq<Group>, shown: seq<Group>, at: seq<nat>) {
    && |at| == |shown| && Increasing(at)
    && (forall i :: 0 <= i < |at| ==> at[i] < |gs| && !Silent(gs[at[i]]) && shown[i] == gs[at[i]])
    && (forall p :: 0 <= p < |gs| && !Silent(gs[p]) ==> p in at)
  }

  lemma ShownIs(g: Group)
    ensures Shown(g) <==> !Silent(g)
  {
  }

  lemma KeepsMore(gs: seq<Group>, shown: seq<Group>, at: seq<nat>, g: Group)
    requires Keeps(gs, shown, at)
    ensures Shown(g) ==> Keeps(gs + [g], shown + [g], at + [|gs|])
    ensures !Shown(g) ==> Keeps(gs + [g], shown, at)
  {
    hide Shown, Silent;
    ShownIs(g);
    if Shown(g) {
      var at' := at + [|gs|];
      assert at'[|at|] == |gs|;
      forall p | 0 <= p < |gs| && !Silent(gs[p])
        ensures p in at'
      {
        assert p in at;
      }
    }
  }

  lemma {:induction false} VisibleKeeps(gs: seq<Group>) returns (at: seq<nat>)
    ensures Keeps(gs, Visible(gs), at)
  {
    hide Keeps, Shown;
    if gs == [] {
      at := [];
      NothingKept();
    } else {
      var n := |gs| - 1;
      var front := VisibleKeeps(gs[..n]);
      KeepsMore(gs[..n], Visible(gs[..n]), front, gs[n]);
      assert gs == gs[..n] + [gs[n]];
      assert Visible(gs[..n]) + [] == Visible(gs[..n]);
      at := if Shown(gs[n]) then front + [n] else front;
    }
  }

  lemma NothingKept()
    ensures Keeps([], [], [])
  {
  }

  /** What is shown: exactly the groups that are not blank assistant groups, unchanged and in order;
      so every tool and lifecycle group, and, blanks aside, exactly the streamed text. */
  lemma ShownIsComplete(ev: seq<Event>)
    ensures exists at :: Keeps(Grouping(ev, |ev|), Visible(Grouping(ev, |ev|)), at)
    ensures Others(Visible(Grouping(ev, |ev|))) == Others(Grouping(ev, |ev|))
    ensures Ink(AssistantText(Visible(Grouping(ev, |ev|)))) == Ink(Streamed(ev))
  {
    hide AssistantText, Grouping, Streamed, Ink, Visible, Others, Keeps;
    var at := VisibleKeeps(Grouping(ev, |ev|));
    FilterKeepsOthers(Grouping(ev, |ev|));
    FilterKeepsInk(Grouping(ev, |ev|));
    TextConserved(ev, |ev|);
    assert ev[..|ev|] == ev;
  }

  /* ---- keys ---- */

  /** Numerals after the last colon can be read back. */
  lemma AfterLastColon(a: string, m: string, b: string, n: string)
    requires AllDigits(m) && AllDigits(n)
    requires a + ":" + m == b + ":" + n
    ensures m == n
  {
    var s, t := a + ":" + m, b + ":" + n;
    assert s[|a|] == ':' && t[|b|] == ':';
    assert forall i :: |a| < i < |s| ==> IsDigit(s[i]);
    assert forall i :: |b| < i < |t| ==> IsDigit(t[i]);
    assert |a| == |b|;
    assert m == s[|a| + 1..] && n == t[|b| + 1..];
  }

  /** Two leading events of a list with distinct ids open groups with different keys. */
  lemma LeaderKeysDiffer(ev: seq<Event>, i: nat, k: nat)
    requires Ascending(ev) && i < k < |ev|
    requires Leading.Leader(Sorts(ev), i) == i && Leading.Leader(Sorts(ev), k) == k
    ensures GroupKey(ev[i]) != GroupKey(ev[k])
  {
    var a, b := ev[i], ev[k];
    assert a.id < b.id;
    if Numeral(a.id) == Numeral(b.id) {
      NumeralInjective(a.id, b.id);
    }
    match (Classify(a), Classify(b)) {
      case (Delta(_), Delta(_)) =>
        if GroupKey(a) == GroupKey(b) {
          AfterLastColon("assistant:" + a.turn, Numeral(a.id), "assistant:" + b.turn, Numeral(b.id));
        }
      case (Lone, Lone) =>
        assert "event:" + Numeral(a.id) == "event" + ":" + Numeral(a.id);
        assert "event:" + Numeral(b.id) == "event" + ":" + Numeral(b.id);
        if GroupKey(a) == GroupKey(b) {
          AfterLastColon("event", Numeral(a.id), "event", Numeral(b.id));
        }
      case (Tool(x), Tool(y)) =>
        Leading.ToolsShare(Sorts(ev), i, k);
      case _ =>
        FirstLetter(a);
        FirstLetter(b);
    }
  }

  lemma FirstLetter(e: Event)
    ensures GroupKey(e) != ""
    ensures GroupKey(e)[0] == if Classify(e).Delta? then 'a' else if Classify(e).Tool? then 't' else 'e'
  {
  }

  /** The groups of a merged event list carry pairwise different keys. */
  lemma KeysDistinct(ev: seq<Event>, k: nat)
    requires Ascending(ev) && k <= |ev|
    ensures forall p, q :: 0 <= p < q < |Grouping(ev, k)| ==> Grouping(ev, k)[p].key != Grouping(ev, k)[q].key
  {
    var s := Sorts(ev);
    var ls := Leading.Leaders(s, k);
    Leading.LeadersAscend(s, k);
    forall p, q | 0 <= p < q < |ls| ensures GroupKey(ev[ls[p]]) != GroupKey(ev[ls[q]]) {
      Leading.LeadersAre(s, k);
      assert ls[p] in ls && ls[q] in ls;
      LeaderKeysDiffer(ev, ls[p], ls[q]);
    }
  }

  /** The call id an event carries, if any. */
  function CallOf(e: Event): Option<string> {
    StringField(e.payload, "tool_call_id")
  }

  /** Within one turn: the same call id, the same event without one, or a call id that spells the
      fallback of an event without one. */
  predicate SameCall(a: Event, b: Event) {
    match (CallOf(a), CallOf(b))
    case (Some(c), Some(d)) => c == d
    case (Some(c), None) => c == "event-" + Numeral(b.id)
    case (None, Some(d)) => d == "event-" + Numeral(a.id)
    case (None, None) => a.id == b.id
  }

  /** One turn id continues the other after a colon. */
  predicate TurnsClash(t: string, u: string) {
    t + ":" <= u || u + ":" <= t
  }

  lemma KeyInTurn(turn: string, c: string, d: string)
    ensures KeyFor(turn, c) == KeyFor(turn, d) <==> c == d
  {
    assert KeyFor(turn, c)[|turn| + 6..] == c && KeyFor(turn, d)[|turn| + 6..] == d;
  }

  lemma SameCallIsSameId(a: Event, b: Event)
    ensures SameCall(a, b) <==> ToolCallId(a) == ToolCallId(b)
  {
    if CallOf(a).None? && CallOf(b).None? {
      var m, n := Numeral(a.id), Numeral(b.id);
      assert ("event-" + m)[6..] == m && ("event-" + n)[6..] == n;
      if m == n {
        NumeralInjective(a.id, b.id);
      }
    }
  }

  lemma KeysAcrossTurns(t: string, c: string, u: string, d: string)
    requires KeyFor(t, c) == KeyFor(u, d)
    ensures t == u || TurnsClash(t, u)
  {
    var key := KeyFor(t, c);
    assert key[5..] == t + ":" + c == u + ":" + d;
    if |t| < |u| {
      assert (t + ":")[..] == key[5..][..|t| + 1] == u[..|t| + 1];
    } else if |u| < |t| {
      assert (u + ":")[..] == key[5..][..|u| + 1] == t[..|u| + 1];
    } else {
      assert t == key[5..][..|t|] == u;
    }
  }

  /** Two tool events share a group exactly when their key strings coincide: within a turn, when they
      are of the same call; across turns, never unless the turn ids clash. */
  lemma ToolCallsShareGroup(ev: seq<Event>, i: nat, k: nat)
    requires i < |ev| && k < |ev| && Classify(ev[i]).Tool? && Classify(ev[k]).Tool?
    ensures Leading.Leader(Sorts(ev), i) == Leading.Leader(Sorts(ev), k) <==> ToolKey(ev[i]) == ToolKey(ev[k])
    ensures ev[i].turn == ev[k].turn ==>
      (Leading.Leader(Sorts(ev), i) == Leading.Leader(Sorts(ev), k) <==> SameCall(ev[i], ev[k]))
    ensures ev[i].turn != ev[k].turn && !TurnsClash(ev[i].turn, ev[k].turn) ==>
      Leading.Leader(Sorts(ev), i) != Leading.Leader(Sorts(ev), k)
  {
    Leading.ToolsShare(Sorts(ev), i, k);
    SameCallIsSameId(ev[i], ev[k]);
    if ev[i].turn == ev[k].turn {
      KeyInTurn(ev[i].turn, ToolCallId(ev[i]), ToolCallId(ev[k]));
    } else if ToolKey(ev[i]) == ToolKey(ev[k]) {
      KeysAcrossTurns(ev[i].turn, ToolCallId(ev[i]), ev[k].turn, ToolCallId(ev[k]));
    }
  }

  /** Two tool events of a merged list, one of each turn, in one group. */
  ghost predicate Merged(ev: seq<Event>, t: string, u: string) {
    && |ev| == 2 && Ascending(ev) && ev[0].turn == t && ev[1].turn == u && Classify(ev[0]).Tool? && Classify(ev[1]).Tool?
    && |Grouping(ev, 2)| == 1
  }

  lemma OneGroup(ev: seq<Event>)
    requires |ev| == 2 && Classify(ev[0]).Tool? && Classify(ev[1]).Tool?
    ensures |Grouping(ev, 2)| == 1 <==> ToolKey(ev[0]) == ToolKey(ev[1])
  {
    var s := Sorts(ev);
    assert Leading.Leader(s, 0) == 0;
    assert Leading.Leaders(s, 1) == [0];
    Leading.ToolsShare(s, 0, 1);
  }

  function ToolEvent(id: nat, turn: string, call: Option<string>): Event {
    Event(id, "s", turn, "tool_call_started",
          if call.Some? then [Entry("tool_call_id", Str(call.value))] else [])
  }

  lemma ToolEventIs(id: nat, turn: string, call: Option<string>)
    ensures Classify(ToolEvent(id, turn, call)).Tool? && CallOf(ToolEvent(id, turn, call)) == call
  {
    assert "tool_call_" <= "tool_call_started";
  }

  /** Call ids under which the keys of two clashing turns coincide. */
  lemma ClashingCalls(t: string, u: string) returns (c: string, d: string)
    requires TurnsClash(t, u)
    ensures KeyFor(t, c) == KeyFor(u, d)
  {
    if t + ":" <= u {
      c, d := u[|t| + 1..] + ":" + "c", "c";
      assert u == t + ":" + u[|t| + 1..];
    } else {
      c, d := "c", t[|u| + 1..] + ":" + "c";
      assert t == u + ":" + t[|u| + 1..];
    }
  }

  lemma ClashMerges(t: string, u: string) returns (ev: seq<Event>)
    requires TurnsClash(t, u)
    ensures Merged(ev, t, u)
  {
    var c, d := ClashingCalls(t, u);
    ToolEventIs(1, t, Some(c));
    ToolEventIs(2, u, Some(d));
    ev := [ToolEvent(1, t, Some(c)), ToolEvent(2, u, Some(d))];
    OneGroup(ev);
  }

  /** Events of two turns can end in one group if and only if the turn ids clash. */
  lemma TurnsMergeExactly(t: string, u: string)
    requires t != u
    ensures (exists ev :: Merged(ev, t, u)) <==> TurnsClash(t, u)
  {
    if TurnsClash(t, u) {
      var ev := ClashMerges(t, u);
    }
    forall ev | Merged(ev, t, u)
      ensures TurnsClash(t, u)
    {
      OneGroup(ev);
      KeysAcrossTurns(t, ToolCallId(ev[0]), u, ToolCallId(ev[1]));
    }
  }

  /** Turn ids of one length, such as the store mints, never clash. */
  lemma MintedTurnsApart(t: string, u: string)
    requires |t| == |u|
    ensures !TurnsClash(t, u)
  {
    assert |t + ":"| == |t| + 1;
  }

  /** In one turn an event without a call id and a call named like its fallback end in one group. */
  lemma FallbackMerges(turn: string, id: nat) returns (ev: seq<Event>)
    ensures Merged(ev, turn, turn) && CallOf(ev[0]) == None && ev[0].id == id && CallOf(ev[1]).Some?
  {
    var call := "event-" + Numeral(id);
    ToolEventIs(id, turn, None);
    ToolEventIs(id + 1, turn, Some(call));
    ev := [ToolEvent(id, turn, None), ToolEvent(id + 1, turn, Some(call))];
    OneGroup(ev);
  }
}
