/** Which event opens the group that an event belongs to, on the sorts of the events alone. */
module Leading {

  datatype Sort = Delta(turn: string) | Tool(key: string) | Lone

  /** First position at or after `lo` with this sort, or `i`. */
  function FirstAt(s: seq<Sort>, sort: Sort, lo: nat, i: nat): (j: nat)
    requires lo <= i <= |s|
    ensures lo <= j <= i
    ensures j < i ==> s[j] == sort
    ensures forall x :: lo <= x < j ==> s[x] != sort
    decreases i - lo
  {
    if lo == i || s[lo] == sort then lo else FirstAt(s, sort, lo + 1, i)
  }

  /** The event whose group event `i` belongs to: for a tool event the first of its key; for a
      delta the newest group, when that is an assistant group of the same turn; else itself. */
  function Leader(s: seq<Sort>, i: nat): (j: nat)
    requires i < |s|
    ensures j <= i
    decreases i, 1
  {
    match s[i]
    case Delta(_) =>
      var ls := Leaders(s, i);
      if ls != [] && s[ls[|ls| - 1]] == s[i] then ls[|ls| - 1] else i
    case Tool(_) => FirstAt(s, s[i], 0, i)
    case Lone => i
  }

  /** The events before `k` that open a group, in order. */
  function Leaders(s: seq<Sort>, k: nat): (ls: seq<nat>)
    requires k <= |s|
    ensures forall p :: 0 <= p < |ls| ==> ls[p] < k
    decreases k, 0
  {
    if k == 0 then []
    else Leaders(s, k - 1) + (if Leader(s, k - 1) == k - 1 then [k - 1] else [])
  }

  /** The events before `k` that belong to the group opened by `j`, in order. */
  function Members(s: seq<Sort>, j: nat, k: nat): (ms: seq<nat>)
    requires k <= |s|
    ensures forall p :: 0 <= p < |ms| ==> ms[p] < k
  {
    if k == 0 then []
    else Members(s, j, k - 1) + (if Leader(s, k - 1) == j then [k - 1] else [])
  }

  lemma {:induction false} LeaderIn(s: seq<Sort>, k: nat, j: nat)
    requires k <= |s|
    ensures j in Leaders(s, k) <==> j < k && Leader(s, j) == j
  {
    if k > 0 {
      LeaderIn(s, k - 1, j);
    }
  }

  lemma LeadersAre(s: seq<Sort>, k: nat)
    requires k <= |s|
    ensures forall j :: j in Leaders(s, k) <==> 0 <= j < k && Leader(s, j) == j
  {
    forall j: nat
      ensures j in Leaders(s, k) <==> j < k && Leader(s, j) == j
    {
      LeaderIn(s, k, j);
    }
  }

  lemma {:induction false} LeadersAscend(s: seq<Sort>, k: nat)
    requires k <= |s|
    ensures forall p, q :: 0 <= p < q < |Leaders(s, k)| ==> Leaders(s, k)[p] < Leaders(s, k)[q]
  {
    if k > 0 {
      LeadersAscend(s, k - 1);
    }
  }

  /** An event is of its leader's sort, and the leader leads itself. */
  lemma LeaderFits(s: seq<Sort>, i: nat)
    requires i < |s|
    ensures Leader(s, Leader(s, i)) == Leader(s, i)
    ensures Leader(s, i) < i ==> Leader(s, i) in Leaders(s, i) && s[i] != Lone
    ensures s[Leader(s, i)] == s[i]
  {
    var j := Leader(s, i);
    LeadersAre(s, i);
    if j < i && s[i].Tool? {
      assert FirstAt(s, s[i], 0, j) == j;
    }
  }

  /** Two tool events share a group exactly when their keys are equal. */
  lemma ToolsShare(s: seq<Sort>, i: nat, k: nat)
    requires i < |s| && k < |s| && s[i].Tool? && s[k].Tool?
    ensures Leader(s, i) == Leader(s, k) <==> s[i] == s[k]
  {
    LeaderFits(s, i);
    LeaderFits(s, k);
  }

  lemma {:induction false} NoMembersYet(s: seq<Sort>, j: nat, k: nat)
    requires k <= j < |s|
    ensures Members(s, j, k) == []
  {
    if k > 0 {
      NoMembersYet(s, j, k - 1);
    }
  }

  /** The members of a group are exactly the events it leads, each once, in input order. */
  lemma {:induction false} MembersAre(s: seq<Sort>, j: nat, k: nat)
    requires k <= |s|
    ensures forall i :: i in Members(s, j, k) <==> 0 <= i < k && Leader(s, i) == j
    ensures forall p, q :: 0 <= p < q < |Members(s, j, k)| ==> Members(s, j, k)[p] < Members(s, j, k)[q]
  {
    if k > 0 {
      MembersAre(s, j, k - 1);
    }
  }

  lemma MembersStep(s: seq<Sort>, j: nat, k: nat)
    requires 0 < k <= |s|
    ensures Members(s, j, k) == Members(s, j, k - 1) + (if Leader(s, k - 1) == j then [k - 1] else [])
  {
  }

  /** A group starts with its leader; a lone event stays alone. */
  lemma {:induction false} MembersStart(s: seq<Sort>, j: nat, k: nat)
    requires j < k <= |s| && Leader(s, j) == j
    ensures [j] <= Members(s, j, k)
    ensures s[j] == Lone ==> Members(s, j, k) == [j]
    decreases k
  {
    hide Leader, Members;
    MembersStep(s, j, k);
    if k == j + 1 {
      NoMembersYet(s, j, j);
    } else {
      MembersStart(s, j, k - 1);
      LeaderFits(s, k - 1);
    }
  }

  /** A leading event opens one group at the end, holding just itself. */
  lemma StepOpens(s: seq<Sort>, k: nat)
    requires k < |s| && Leader(s, k) == k
    ensures Leaders(s, k + 1) == Leaders(s, k) + [k]
    ensures Members(s, k, k + 1) == [k]
    ensures forall p :: 0 <= p < |Leaders(s, k)| ==>
      Members(s, Leaders(s, k)[p], k + 1) == Members(s, Leaders(s, k)[p], k)
  {
    NoMembersYet(s, k, k);
  }

  /** Any other event extends the one group of its leader and leaves the rest alone. */
  lemma StepExtends(s: seq<Sort>, k: nat, p: nat)
    requires k < |s| && Leader(s, k) < k
    requires p < |Leaders(s, k)| && Leaders(s, k)[p] == Leader(s, k)
    ensures Leaders(s, k + 1) == Leaders(s, k)
    ensures Members(s, Leaders(s, k)[p], k + 1) == Members(s, Leaders(s, k)[p], k) + [k]
    ensures forall q :: 0 <= q < |Leaders(s, k)| && q != p ==>
      Members(s, Leaders(s, k)[q], k + 1) == Members(s, Leaders(s, k)[q], k)
  {
    LeadersAscend(s, k);
    var ls := Leaders(s, k);
    forall q | 0 <= q < |ls| && q != p ensures Members(s, ls[q], k + 1) == Members(s, ls[q], k) {
      assert ls[q] != ls[p];
    }
  }

  /** A delta joins exactly when the newest group is of its sort. */
  lemma DeltaJoins(s: seq<Sort>, k: nat)
    requires k < |s| && s[k].Delta?
    ensures Leader(s, k) < k <==> Leaders(s, k) != [] && s[Leaders(s, k)[|Leaders(s, k)| - 1]] == s[k]
    ensures Leader(s, k) < k ==> Leaders(s, k)[|Leaders(s, k)| - 1] == Leader(s, k)
  {
  }

  /** Every group ends with an event of its leader's sort. */
  lemma LastMember(s: seq<Sort>, k: nat, p: nat)
    requires k <= |s| && p < |Leaders(s, k)|
    ensures Members(s, Leaders(s, k)[p], k) != []
    ensures s[Members(s, Leaders(s, k)[p], k)[|Members(s, Leaders(s, k)[p], k)| - 1]] == s[Leaders(s, k)[p]]
  {
    var j := Leaders(s, k)[p];
    assert Leader(s, j) == j by {
      LeadersAre(s, k);
      assert j in Leaders(s, k);
    }
    MembersStart(s, j, k);
    var ms := Members(s, j, k);
    var i := ms[|ms| - 1];
    assert Leader(s, i) == j by {
      MembersAre(s, j, k);
      assert i in ms;
    }
    LeaderFits(s, i);
  }

  /** What an event's leader is does not depend on what comes later. */
  lemma {:induction false} LeaderStable(s: seq<Sort>, s': seq<Sort>, i: nat)
    requires s <= s' && i < |s|
    ensures Leader(s, i) == Leader(s', i)
    decreases i, 1
  {
    if s[i].Delta? {
      LeadersStable(s, s', i);
    } else if s[i].Tool? {
      var a, b := FirstAt(s, s[i], 0, i), FirstAt(s', s[i], 0, i);
      assert a == b;
    }
  }

  lemma {:induction false} LeadersStable(s: seq<Sort>, s': seq<Sort>, k: nat)
    requires s <= s' && k <= |s|
    ensures Leaders(s, k) == Leaders(s', k)
    decreases k, 0
  {
    if k > 0 {
      LeadersStable(s, s', k - 1);
      LeaderStable(s, s', k - 1);
    }
  }

  lemma {:induction false} MembersStable(s: seq<Sort>, s': seq<Sort>, j: nat, k: nat)
    requires s <= s' && k <= |s|
    ensures Members(s, j, k) == Members(s', j, k)
  {
    if k > 0 {
      MembersStable(s, s', j, k - 1);
      LeaderStable(s, s', k - 1);
    }
  }

  /* ---- the map from tool keys to group positions ---- */

  /** The map points, for every tool key seen, at the group of its first event. */
  ghost predicate IndexFits(s: seq<Sort>, k: nat, index: map<string, nat>) {
    && k <= |s|
    && (forall key :: key in index ==> index[key] < |Leaders(s, k)| && s[Leaders(s, k)[index[key]]] == Tool(key))
    && (forall i :: 0 <= i < k && s[i].Tool? ==> s[i].key in index)
  }

  /** A tool event leads exactly when its key is new; otherwise the map knows its leader. */
  lemma IndexFindsLeader(s: seq<Sort>, k: nat, index: map<string, nat>)
    requires k < |s| && IndexFits(s, k, index) && s[k].Tool?
    ensures s[k].key !in index <==> Leader(s, k) == k
    ensures s[k].key in index ==> Leaders(s, k)[index[s[k].key]] == Leader(s, k)
  {
    LeaderFits(s, k);
    if s[k].key in index {
      var l := Leaders(s, k)[index[s[k].key]];
      LeadersAre(s, k);
      assert l in Leaders(s, k);
      assert FirstAt(s, s[k], 0, l) == l;
      assert FirstAt(s, s[k], 0, k) == l;
    }
  }

  /** The map after one more event. */
  lemma IndexGrows(s: seq<Sort>, k: nat, index: map<string, nat>, index': map<string, nat>)
    requires k < |s| && IndexFits(s, k, index)
    requires index' == if s[k].Tool? && Leader(s, k) == k then index[s[k].key := |Leaders(s, k)|] else index
    ensures IndexFits(s, k + 1, index')
  {
    var ls, ls' := Leaders(s, k), Leaders(s, k + 1);
    assert ls <= ls';
    assert s[k].Tool? ==> s[k].key in index' by {
      if s[k].Tool? {
        IndexFindsLeader(s, k, index);
      }
    }
  }
}

/** `groupAgentEvents`: one pass that folds the event list into assistant, tool and lifecycle groups. */
module EventGroups {
  import opened Text
  import opened Json
  import opened Events
  import Leading

  /* ---- reading one event ---- */

  function StringField(es: seq<Entry>, key: string): Option<string> {
    match Lookup(es, key)
    case Some(Str(s)) => Some(s)
    case _ => None
  }

  function ObjectField(es: seq<Entry>, key: string): Option<seq<Entry>> {
    match Lookup(es, key)
    case Some(Obj(inner)) => Some(inner)
    case _ => None
  }

  function Delta(e: Event): string {
    match StringField(e.payload, "delta")
    case Some(s) => s
    case None => ""
  }

  /** A call without an id is keyed by its own event. */
  function ToolCallId(e: Event): string {
    match StringField(e.payload, "tool_call_id")
    case Some(s) => s
    case None => "event-" + Numeral(e.id)
  }

  function KeyFor(turn: string, call: string): string {
    "tool:" + turn + ":" + call
  }

  function ToolKey(e: Event): string {
    KeyFor(e.turn, ToolCallId(e))
  }

  function NonBlank(s: Option<string>): Option<string> {
    if s.Some? && Blank(s.value) then None else s
  }

  function FirstString(es: seq<Entry>, keys: seq<string>): Option<string> {
    if keys == [] then None
    else if StringField(es, keys[0]).Some? then StringField(es, keys[0])
    else FirstString(es, keys[1..])
  }

  function ErrorMessage(error: Option<seq<Entry>>): Option<string> {
    match error
    case Some(es) => NonBlank(StringField(es, "message"))
    case None => None
  }

  function ApprovalSummary(value: Option<seq<Entry>>, depth: nat): Option<string>
    decreases 5 - depth
  {
    if value.None? || depth > 4 then None
    else
      var direct := NonBlank(StringField(value.value, "approval_summary_zh"));
      var fromArguments := ApprovalSummary(ObjectField(value.value, "arguments"), depth + 1);
      if direct.Some? then direct
      else if fromArguments.Some? then fromArguments
      else ApprovalSummary(ObjectField(value.value, "result"), depth + 1)
  }

  /** `agentEventText`. Only the first string candidate is looked at, even when it is blank. */
  function EventText(e: Event): Option<string> {
    var text := NonBlank(FirstString(e.payload, ["delta", "content", "progress", "result"]));
    var direct := ErrorMessage(ObjectField(e.payload, "error"));
    var result := ObjectField(e.payload, "result");
    var nested := if result.Some? then ErrorMessage(ObjectField(result.value, "error")) else None;
    if text.Some? then text
    else if direct.Some? then direct
    else if nested.Some? then nested
    else ApprovalSummary(Some(e.payload), 0)
  }

  /** `toolGroupText`: the text of the newest event that has one. */
  function ToolText(es: seq<Event>): Option<string> {
    if es == [] then None
    else
      var text := EventText(es[|es| - 1]);
      if text.Some? && text.value != "" then text else ToolText(es[..|es| - 1])
  }

  function Classify(e: Event): Leading.Sort {
    if e.kind == "message_delta" then Leading.Delta(e.turn)
    else if "tool_call_" <= e.kind then Leading.Tool(ToolKey(e))
    else Leading.Lone
  }

  function Sorts(ev: seq<Event>): (s: seq<Leading.Sort>)
    ensures |s| == |ev|
    ensures forall i {:trigger s[i]} :: 0 <= i < |ev| ==> s[i] == Classify(ev[i])
  {
    seq(|ev|, i requires 0 <= i < |ev| => Classify(ev[i]))
  }

  /* ---- the groups, defined without a pass over the list ---- */

  datatype Kind = Assistant | Tool | Lifecycle | Failure

  datatype Group = Group(key: string, kind: Kind, events: seq<Event>, text: Option<string>)

  function Pick(ev: seq<Event>, at: seq<nat>): (es: seq<Event>)
    requires forall p :: 0 <= p < |at| ==> at[p] < |ev|
    ensures |es| == |at|
    ensures forall p {:trigger es[p]} :: 0 <= p < |at| ==> es[p] == ev[at[p]]
  {
    seq(|at|, p requires 0 <= p < |at| => ev[at[p]])
  }

  function DeltaText(es: seq<Event>): string {
    if es == [] then "" else DeltaText(es[..|es| - 1]) + Delta(es[|es| - 1])
  }

  function GroupKey(e: Event): string {
    match Classify(e)
    case Delta(_) => "assistant:" + e.turn + ":" + Numeral(e.id)
    case Tool(key) => key
    case Lone => "event:" + Numeral(e.id)
  }

  function GroupKind(e: Event): Kind {
    match Classify(e)
    case Delta(_) => Assistant
    case Tool(_) => Tool
    case Lone => if e.kind == "turn_failed" then Failure else Lifecycle
  }

  function GroupText(leader: Event, es: seq<Event>): Option<string> {
    match Classify(leader)
    case Delta(_) => Some(DeltaText(es))
    case Tool(_) => ToolText(es)
    case Lone => EventText(leader)
  }

  function MakeGroup(leader: Event, es: seq<Event>): Group {
    Group(GroupKey(leader), GroupKind(leader), es, GroupText(leader, es))
  }

  /** The events of the group that `j` opens, among the first `k`. */
  function GroupEvents(ev: seq<Event>, j: nat, k: nat): seq<Event>
    requires k <= |ev|
  {
    Pick(ev, Leading.Members(Sorts(ev), j, k))
  }

  function Grouping(ev: seq<Event>, k: nat): (gs: seq<Group>)
    requires k <= |ev|
    ensures |gs| == |Leading.Leaders(Sorts(ev), k)|
    ensures forall p {:trigger gs[p]} :: 0 <= p < |gs| ==>
      gs[p] == MakeGroup(ev[Leading.Leaders(Sorts(ev), k)[p]], GroupEvents(ev, Leading.Leaders(Sorts(ev), k)[p], k))
  {
    var ls := Leading.Leaders(Sorts(ev), k);
    seq(|ls|, p requires 0 <= p < |ls| => MakeGroup(ev[ls[p]], GroupEvents(ev, ls[p], k)))
  }

  predicate Shown(g: Group) {
    g.kind != Assistant || (g.text.Some? && !Blank(g.text.value))
  }

  function Visible(gs: seq<Group>): seq<Group> {
    if gs == [] then []
    else Visible(gs[..|gs| - 1]) + (if Shown(gs[|gs| - 1]) then [gs[|gs| - 1]] else [])
  }

  /* ---- one event more ---- */

  lemma DeltaTextSnoc(es: seq<Event>, e: Event)
    ensures DeltaText(es + [e]) == DeltaText(es) + Delta(e)
  {
    assert (es + [e])[..|es|] == es;
  }

  function Opened(e: Event): Group {
    match Classify(e)
    case Delta(_) => Group("assistant:" + e.turn + ":" + Numeral(e.id), Assistant, [e], Some(Delta(e)))
    case Tool(key) => Group(key, Tool, [e], ToolText([e]))
    case Lone => Group("event:" + Numeral(e.id), if e.kind == "turn_failed" then Failure else Lifecycle, [e], EventText(e))
  }

  function WithDelta(g: Group, e: Event): Group {
    g.(events := g.events + [e], text := Some((if g.text.Some? then g.text.value else "") + Delta(e)))
  }

  function WithToolEvent(g: Group, e: Event): Group {
    g.(events := g.events + [e], text := ToolText(g.events + [e]))
  }

  /** A leading event appends one group. */
  lemma GroupingOpens(ev: seq<Event>, k: nat)
    requires k < |ev| && Leading.Leader(Sorts(ev), k) == k
    ensures Grouping(ev, k + 1) == Grouping(ev, k) + [MakeGroup(ev[k], [ev[k]])]
  {
    Leading.StepOpens(Sorts(ev), k);
    assert GroupEvents(ev, k, k + 1) == [ev[k]];
  }

  lemma OpenedIs(e: Event)
    ensures Opened(e) == MakeGroup(e, [e])
  {
    DeltaTextSnoc([], e);
    assert [] + [e] == [e];
    assert DeltaText([e]) == Delta(e);
  }

  /** Any other event extends the group of its leader, and that one only. */
  lemma GroupingExtends(ev: seq<Event>, k: nat, p: nat)
    requires k < |ev| && Leading.Leader(Sorts(ev), k) < k
    requires p < |Grouping(ev, k)| && Leading.Leaders(Sorts(ev), k)[p] == Leading.Leader(Sorts(ev), k)
    ensures Grouping(ev, k + 1)
         == Grouping(ev, k)[p := MakeGroup(ev[Leading.Leader(Sorts(ev), k)], Grouping(ev, k)[p].events + [ev[k]])]
  {
    Leading.StepExtends(Sorts(ev), k, p);
    var j := Leading.Leader(Sorts(ev), k);
    assert GroupEvents(ev, j, k + 1) == GroupEvents(ev, j, k) + [ev[k]];
  }

  lemma ExtendedIs(leader: Event, es: seq<Event>, e: Event)
    requires Classify(leader) == Classify(e) != Leading.Lone
    ensures MakeGroup(leader, es + [e])
         == if Classify(e).Delta? then WithDelta(MakeGroup(leader, es), e) else WithToolEvent(MakeGroup(leader, es), e)
  {
    DeltaTextSnoc(es, e);
  }

  function Last(es: seq<Event>): Event
    requires es != []
  {
    es[|es| - 1]
  }

  /** The source looks at the newest group's kind and at the turn of its last event. */
  predicate CanJoin(groups: seq<Group>, e: Event) {
    && groups != []
    && groups[|groups| - 1].kind == Assistant
    && groups[|groups| - 1].events != []
    && Last(groups[|groups| - 1].events).turn == e.turn
  }

  lemma SameTurn(leader: Event, last: Event, e: Event)
    requires Classify(last) == Classify(leader) && Classify(e).Delta?
    ensures GroupKind(leader) == Assistant && last.turn == e.turn <==> Classify(leader) == Classify(e)
  {
  }

  /** Every group ends with an event of its leader's sort. */
  lemma LastOfGroup(ev: seq<Event>, k: nat, p: nat)
    requires k <= |ev| && p < |Grouping(ev, k)|
    ensures Grouping(ev, k)[p].events != []
    ensures Classify(Last(Grouping(ev, k)[p].events)) == Classify(ev[Leading.Leaders(Sorts(ev), k)[p]])
  {
    Leading.LastMember(Sorts(ev), k, p);
  }

  lemma GroupAt(ev: seq<Event>, k: nat, p: nat)
    requires k <= |ev| && p < |Grouping(ev, k)|
    ensures Grouping(ev, k)[p].kind == GroupKind(ev[Leading.Leaders(Sorts(ev), k)[p]])
  {
  }

  lemma NewestJoins(ev: seq<Event>, k: nat, e: Event)
    requires k <= |ev| && Classify(e).Delta? && Grouping(ev, k) != []
    ensures CanJoin(Grouping(ev, k), e)
       <==> Classify(ev[Leading.Leaders(Sorts(ev), k)[|Grouping(ev, k)| - 1]]) == Classify(e)
  {
    var gs := Grouping(ev, k);
    var n := |gs| - 1;
    GroupAt(ev, k, n);
    LastOfGroup(ev, k, n);
    var leader := ev[Leading.Leaders(Sorts(ev), k)[n]];
    SameTurn(leader, Last(gs[n].events), e);
  }

  /** A delta joins the newest group when that is an assistant group whose last event has its
      turn, and opens a group otherwise. */
  lemma DeltaStep(ev: seq<Event>, k: nat)
    requires k < |ev| && Classify(ev[k]).Delta?
    ensures Grouping(ev, k + 1)
         == if CanJoin(Grouping(ev, k), ev[k])
            then Grouping(ev, k)[|Grouping(ev, k)| - 1 := WithDelta(Grouping(ev, k)[|Grouping(ev, k)| - 1], ev[k])]
            else Grouping(ev, k) + [Opened(ev[k])]
  {
    var s, gs := Sorts(ev), Grouping(ev, k);
    if gs != [] {
      NewestJoins(ev, k, ev[k]);
    }
    Leading.DeltaJoins(s, k);
    if CanJoin(gs, ev[k]) {
      ExtendedStep(ev, k, |gs| - 1);
    } else {
      GroupingOpens(ev, k);
      OpenedIs(ev[k]);
    }
  }

  lemma ExtendedStep(ev: seq<Event>, k: nat, p: nat)
    requires k < |ev| && Leading.Leader(Sorts(ev), k) < k
    requires p < |Grouping(ev, k)| && Leading.Leaders(Sorts(ev), k)[p] == Leading.Leader(Sorts(ev), k)
    ensures Classify(ev[k]).Delta? ==> Grouping(ev, k + 1) == Grouping(ev, k)[p := WithDelta(Grouping(ev, k)[p], ev[k])]
    ensures Classify(ev[k]).Tool? ==> Grouping(ev, k + 1) == Grouping(ev, k)[p := WithToolEvent(Grouping(ev, k)[p], ev[k])]
  {
    var j := Leading.Leader(Sorts(ev), k);
    Leading.LeaderFits(Sorts(ev), k);
    GroupingExtends(ev, k, p);
    ExtendedIs(ev[j], GroupEvents(ev, j, k), ev[k]);
  }

  /** Any other event that leads opens a group. */
  lemma OpenedStep(ev: seq<Event>, k: nat)
    requires k < |ev| && Leading.Leader(Sorts(ev), k) == k
    ensures Grouping(ev, k + 1) == Grouping(ev, k) + [Opened(ev[k])]
  {
    GroupingOpens(ev, k);
    OpenedIs(ev[k]);
  }

  /* ---- the pass ---- */

  lemma SortAt(ev: seq<Event>, k: nat)
    requires k < |ev|
    ensures |Sorts(ev)| == |ev| && Sorts(ev)[k] == Classify(ev[k]) && |Grouping(ev, k)| == |Leading.Leaders(Sorts(ev), k)|
  {
  }

  lemma NoGroups(ev: seq<Event>)
    ensures Grouping(ev, 0) == [] && Leading.IndexFits(Sorts(ev), 0, map[])
  {
  }

  method GroupAgentEvents(ev: seq<Event>) returns (shown: seq<Group>)
    ensures shown == Visible(Grouping(ev, |ev|))
  {
    hide Grouping, Shown, Sorts, Classify, Leading.IndexFits, Leading.Leader;
    NoGroups(ev);
    var groups: seq<Group> := [];
    var toolGroups: map<string, nat> := map[];
    ghost var s := Sorts(ev);
    for k := 0 to |ev|
      invariant groups == Grouping(ev, k)
      invariant Leading.IndexFits(s, k, toolGroups)
    {
      ghost var before := toolGroups;
      SortAt(ev, k);
      groups, toolGroups := GroupOne(ev, k, groups, toolGroups, ev[k]);
      Leading.IndexGrows(s, k, before, toolGroups);
    }
    shown := [];
    for k := 0 to |groups|
      invariant shown == Visible(groups[..k])
    {
      assert groups[..k + 1][..k] == groups[..k];
      if Shown(groups[k]) {
        shown := shown + [groups[k]];
      }
    }
    assert groups[..|groups|] == groups;
  }

  /** The body of the pass: one event against the groups so far. */
  method GroupOne(ghost ev: seq<Event>, ghost k: nat, groups: seq<Group>, toolGroups: map<string, nat>, event: Event)
    returns (groups': seq<Group>, toolGroups': map<string, nat>)
    requires k < |ev| && event == ev[k] && groups == Grouping(ev, k) && Leading.IndexFits(Sorts(ev), k, toolGroups)
    ensures groups' == Grouping(ev, k + 1)
    ensures toolGroups' == if Classify(event).Tool? && Leading.Leader(Sorts(ev), k) == k
                           then toolGroups[Classify(event).key := |groups|] else toolGroups
  {
    groups', toolGroups' := groups, toolGroups;
    var sort := Classify(event);
    assert Sorts(ev)[k] == sort;
    match sort
    case Delta(_) =>
      DeltaStep(ev, k);
      if CanJoin(groups, event) {
        var last := |groups| - 1;
        groups' := groups[last := WithDelta(groups[last], event)];
      } else {
        groups' := groups + [Opened(event)];
      }
    case Tool(key) =>
      Leading.IndexFindsLeader(Sorts(ev), k, toolGroups);
      if key !in toolGroups {
        OpenedStep(ev, k);
        toolGroups' := toolGroups[key := |groups|];
        groups' := groups + [Opened(event)];
      } else {
        assert Leading.Leader(Sorts(ev), k) < k;
        // The index is always inside the list: the source's guard against a missing group never fires.
        var existing := toolGroups[key];
        ExtendedStep(ev, k, existing);
        groups' := groups[existing := WithToolEvent(groups[existing], event)];
      }
    case Lone =>
      OpenedStep(ev, k);
      groups' := groups + [Opened(event)];
  }
}
