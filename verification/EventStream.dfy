/** The event log as a system of steps: the server appends, a client polls with its cursor,
    and answers arrive late, repeatedly or out of order. */
module EventStream {
  import opened Text
  import opened Events
  import opened EventMerge

  /* ---- the server's page ---- */

  datatype Page = Page(items: seq<Event>, hasMore: bool, next: Option<nat>)

  /** Events past the cursor. */
  function After(es: seq<Event>, cursor: nat): seq<Event> {
    if es == [] then []
    else if es[0].id > cursor then [es[0]] + After(es[1..], cursor)
    else After(es[1..], cursor)
  }

  /** One more row than the limit is fetched to learn whether a further page exists. */
  function ServerPage(log: seq<Event>, session: string, cursor: nat, limit: nat): Page
    requires limit > 0
  {
    var rows := After(InSession(log, session), cursor);
    if |rows| > limit then Page(rows[..limit], true, Some(rows[limit - 1].id))
    else Page(rows, false, None)
  }

  /** Number of events at or before the cursor. */
  function UpTo(es: seq<Event>, cursor: nat): (k: nat)
    ensures k <= |es|
  {
    if es == [] || es[0].id > cursor then 0 else 1 + UpTo(es[1..], cursor)
  }

  lemma {:induction false} AfterIsSuffix(es: seq<Event>, cursor: nat)
    requires Ascending(es)
    ensures After(es, cursor) == es[UpTo(es, cursor)..]
  {
    if es != [] {
      AfterIsSuffix(es[1..], cursor);
      if es[0].id > cursor {
        assert es[1..] == [] || es[1..][0].id > cursor;
        assert es == [es[0]] + es[1..];
      }
    }
  }

  /** Ids start at one, so cursor zero asks for everything. */
  ghost predicate Numbered(es: seq<Event>) {
    Ascending(es) && forall i :: 0 <= i < |es| ==> es[i].id > 0
  }

  lemma {:induction false} UpToLast(es: seq<Event>, n: nat)
    requires Numbered(es) && n <= |es|
    ensures UpTo(es, LastId(es[..n])) == n
  {
    if n > 0 {
      var tail := es[1..];
      assert es[..n][1..] == tail[..n - 1];
      if n == 1 {
        assert UpTo(tail, es[0].id) == 0;
      } else {
        UpToLast(tail, n - 1);
        assert LastId(es[..n]) == es[n - 1].id == LastId(tail[..n - 1]);
      }
    }
  }

  /** At most `limit` events from position `k` on. */
  function Window(es: seq<Event>, k: nat, limit: nat): seq<Event>
    requires k <= |es|
  {
    es[k..if k + limit < |es| then k + limit else |es|]
  }

  /** The page is the contiguous run of the session's log just past the cursor. */
  lemma PageIsRun(log: seq<Event>, session: string, cursor: nat, limit: nat)
    requires Ascending(log) && limit > 0
    ensures ServerPage(log, session, cursor, limit).items
         == Window(InSession(log, session), UpTo(InSession(log, session), cursor), limit)
  {
    InSessionMembers(log, session);
    AfterIsSuffix(InSession(log, session), cursor);
  }

  /* ---- the system ---- */

  datatype Client = Client(session: string, events: seq<Event>)

  datatype Poll = Poll(session: string, cursor: nat)

  datatype Response = Response(poll: Poll, items: seq<Event>)

  /** `polls` are the requests of the current client instance; `responses` are every page the
      server ever produced, kept for ever so that each may arrive at any time, any number of times. */
  datatype State = State(log: seq<Event>, client: Client, polls: set<Poll>, responses: set<Response>)

  datatype Action =
    | Append(event: Event)
    | Ask
    | Serve(poll: Poll, limit: nat)
    | Deliver(response: Response)
    | Open(session: string)

  predicate Enabled(s: State, a: Action) {
    match a
    case Append(e) => e.id > LastId(s.log)
    case Ask => true
    case Serve(_, limit) => limit > 0
    case Deliver(r) => r in s.responses && (r.poll.session == s.client.session ==> r.poll in s.polls)
    case Open(_) => true
  }

  function Apply(s: State, a: Action): State
    requires Enabled(s, a)
  {
    match a
    case Append(e) => s.(log := s.log + [e])
    case Ask => s.(polls := s.polls + {Poll(s.client.session, LastId(s.client.events))})
    case Serve(p, limit) =>
      s.(responses := s.responses + {Response(p, ServerPage(s.log, p.session, p.cursor, limit).items)})
    case Deliver(r) =>
      if r.items == [] then s
      else s.(client := s.client.(events := Merge(s.client.events, r.items, Some(s.client.session))))
    case Open(session) => s.(client := Client(session, []), polls := {})
  }

  ghost predicate Runs(s: State, actions: seq<Action>)
    decreases |actions|
  {
    actions == [] || (Enabled(s, actions[0]) && Runs(Apply(s, actions[0]), actions[1..]))
  }

  ghost function Final(s: State, actions: seq<Action>): State
    requires Runs(s, actions)
    decreases |actions|
  {
    if actions == [] then s else Final(Apply(s, actions[0]), actions[1..])
  }

  ghost predicate Initial(s: State) {
    Numbered(s.log) && s.client.events == [] && s.polls == {} && s.responses == {}
  }

  /** What every response is: a run of its session's log, cut from some earlier moment. */
  ghost predicate IsRunOf(own: seq<Event>, r: Response) {
    var k := UpTo(own, r.poll.cursor);
    exists m :: k <= m <= |own| && r.items == own[k..m]
  }

  /** The cursor is the last id of some prefix of the list. */
  ghost predicate Reached(events: seq<Event>, cursor: nat) {
    exists n :: 0 <= n <= |events| && cursor == LastId(events[..n])
  }

  ghost predicate Inv(s: State) {
    var own := InSession(s.log, s.client.session);
    && Numbered(s.log)
    && s.client.events <= own
    && (forall p :: p in s.polls ==> p.session == s.client.session && Reached(s.client.events, p.cursor))
    && (forall r :: r in s.responses ==> r.items == [] || IsRunOf(InSession(s.log, r.poll.session), r))
  }

  lemma NumberedSession(log: seq<Event>, session: string)
    requires Numbered(log)
    ensures Numbered(InSession(log, session))
    ensures forall e :: e in InSession(log, session) ==> e.session == session
  {
    InSessionMembers(log, session);
    var own := InSession(log, session);
    forall i | 0 <= i < |own| ensures own[i].id > 0 {
      assert own[i] in own;
    }
  }

  lemma {:induction false} UpToPrefix(a: seq<Event>, b: seq<Event>, cursor: nat)
    requires a <= b && Ascending(b)
    ensures UpTo(a, cursor) <= UpTo(b, cursor)
    ensures UpTo(a, cursor) < |a| ==> UpTo(a, cursor) == UpTo(b, cursor)
  {
    if a != [] {
      UpToPrefix(a[1..], b[1..], cursor);
    }
  }

  /** A growing log keeps every earlier page a run of it. */
  lemma RunSurvives(own: seq<Event>, own': seq<Event>, r: Response)
    requires own <= own' && Ascending(own')
    requires r.items != [] && IsRunOf(own, r)
    ensures IsRunOf(own', r)
  {
    var k := UpTo(own, r.poll.cursor);
    var m :| k <= m <= |own| && r.items == own[k..m];
    UpToPrefix(own, own', r.poll.cursor);
    assert r.items == own'[k..m];
  }

  lemma {:induction false} AbsorbNone(held: seq<Event>, incoming: seq<Event>, session: string)
    requires forall e :: e in incoming ==> e.session != session
    ensures Absorb(held, incoming, Some(session)) == held
  {
    if incoming != [] {
      assert incoming[|incoming| - 1] in incoming;
      AbsorbNone(held, incoming[..|incoming| - 1], session);
    }
  }

  lemma AppendKeepsInv(s: State, e: Event)
    requires Inv(s) && Enabled(s, Append(e))
    ensures Inv(Apply(s, Append(e)))
  {
    var s' := Apply(s, Append(e));
    assert Numbered(s'.log);
    InSessionPrefix(s.log, s'.log, s.client.session);
    forall r | r in s'.responses ensures r.items == [] || IsRunOf(InSession(s'.log, r.poll.session), r) {
      InSessionPrefix(s.log, s'.log, r.poll.session);
      NumberedSession(s'.log, r.poll.session);
      if r.items != [] {
        RunSurvives(InSession(s.log, r.poll.session), InSession(s'.log, r.poll.session), r);
      }
    }
  }

  lemma ServeKeepsInv(s: State, p: Poll, limit: nat)
    requires Inv(s) && limit > 0
    ensures Inv(Apply(s, Serve(p, limit)))
  {
    PageIsRun(s.log, p.session, p.cursor, limit);
    var r := Response(p, ServerPage(s.log, p.session, p.cursor, limit).items);
    assert IsRunOf(InSession(s.log, p.session), r);
  }

  /** A page of another session, however stale, changes nothing. */
  lemma ForeignPageIgnored(own: seq<Event>, session: string, n: nat, items: seq<Event>)
    requires Ascending(own) && (forall e :: e in own ==> e.session == session) && n <= |own|
    requires forall e :: e in items ==> e.session != session
    ensures Merge(own[..n], items, Some(session)) == own[..n]
  {
    AbsorbNone(Collect(own[..n], Some(session)), items, session);
    assert own[0..0] == [];
    MergeExtends(own, session, n, 0, 0);
  }

  /** A page the client asked for extends its list, whatever the page's age. */
  lemma OwnPageExtends(own: seq<Event>, session: string, events: seq<Event>, r: Response)
    requires Numbered(own) && (forall e :: e in own ==> e.session == session)
    requires events <= own && Reached(events, r.poll.cursor) && IsRunOf(own, r)
    ensures events <= Merge(events, r.items, Some(session)) <= own
  {
    var n :| 0 <= n <= |events| && r.poll.cursor == LastId(events[..n]);
    assert own[..n] == events[..n];
    UpToLast(own, n);
    var m :| n <= m <= |own| && r.items == own[n..m];
    assert events == own[..|events|];
    MergeExtends(own, session, |events|, n, m);
  }

  /** Delivering a page keeps the list a prefix of the log and never withdraws an event. */
  lemma DeliverKeepsInv(s: State, r: Response)
    requires Inv(s) && Enabled(s, Deliver(r)) && r.items != []
    ensures Inv(Apply(s, Deliver(r)))
    ensures s.client.events <= Apply(s, Deliver(r)).client.events
  {
    var session := s.client.session;
    var own := InSession(s.log, session);
    NumberedSession(s.log, session);
    var s' := Apply(s, Deliver(r));
    if r.poll.session == session {
      OwnPageExtends(own, session, s.client.events, r);
    } else {
      NumberedSession(s.log, r.poll.session);
      forall e | e in r.items ensures e.session != session {
        assert e in InSession(s.log, r.poll.session);
      }
      assert s.client.events == own[..|s.client.events|];
      ForeignPageIgnored(own, session, |s.client.events|, r.items);
    }
    ReachedGrows(s, s');
  }

  lemma ReachedGrows(s: State, s': State)
    requires s.client.events <= s'.client.events
    ensures forall c :: Reached(s.client.events, c) ==> Reached(s'.client.events, c)
  {
    forall c | Reached(s.client.events, c) ensures Reached(s'.client.events, c) {
      var n :| 0 <= n <= |s.client.events| && c == LastId(s.client.events[..n]);
      assert s'.client.events[..n] == s.client.events[..n];
    }
  }

  lemma StepKeepsInv(s: State, a: Action)
    requires Inv(s) && Enabled(s, a)
    ensures Inv(Apply(s, a))
  {
    match a
    case Append(e) => AppendKeepsInv(s, e);
    case Ask =>
      assert s.client.events[..|s.client.events|] == s.client.events;
    case Serve(p, limit) => ServeKeepsInv(s, p, limit);
    case Deliver(r) =>
      if r.items != [] {
        DeliverKeepsInv(s, r);
      }
    case Open(session) =>
      assert [] <= InSession(s.log, session);
  }

  lemma {:induction false} RunKeepsInv(s: State, actions: seq<Action>)
    requires Inv(s) && Runs(s, actions)
    ensures Inv(Final(s, actions))
    decreases |actions|
  {
    if actions != [] {
      StepKeepsInv(s, actions[0]);
      RunKeepsInv(Apply(s, actions[0]), actions[1..]);
    }
  }

  /** In every run the client's list is a gap-free, duplicate-free, strictly increasing prefix of
      its session's durable log. */
  lemma ClientHoldsPrefix(s: State, actions: seq<Action>)
    requires Initial(s) && Runs(s, actions)
    ensures Final(s, actions).client.events <= InSession(Final(s, actions).log, Final(s, actions).client.session)
    ensures Ascending(Final(s, actions).client.events)
  {
    assert Inv(s);
    RunKeepsInv(s, actions);
    var t := Final(s, actions);
    NumberedSession(t.log, t.client.session);
  }

  /** Within one client instance nothing already shown is withdrawn or reordered. */
  lemma {:induction false} ClientNeverForgets(s: State, actions: seq<Action>)
    requires Inv(s) && Runs(s, actions)
    requires forall a :: a in actions ==> !a.Open?
    ensures s.client.events <= Final(s, actions).client.events
    ensures Final(s, actions).client.session == s.client.session
    decreases |actions|
  {
    if actions != [] {
      var a := actions[0];
      assert a in actions;
      StepKeepsInv(s, a);
      if a.Deliver? && a.response.items != [] {
        DeliverKeepsInv(s, a.response);
      }
      ClientNeverForgets(Apply(s, a), actions[1..]);
    }
  }

  /* ---- progress ---- */

  /** The page for a client that holds the first `n` events takes its list a full page on, or to the end. */
  lemma PageAdvances(log: seq<Event>, session: string, n: nat, limit: nat)
    requires Numbered(log) && limit > 0 && n <= |InSession(log, session)|
    ensures var own := InSession(log, session); var m := if n + limit < |own| then n + limit else |own|;
      var items := ServerPage(log, session, LastId(own[..n]), limit).items;
      Merge(own[..n], items, Some(session)) == own[..m] && (items == [] ==> m == n)
  {
    var own := InSession(log, session);
    NumberedSession(log, session);
    UpToLast(own, n);
    PageIsRun(log, session, LastId(own[..n]), limit);
    var m := if n + limit < |own| then n + limit else |own|;
    MergeExtends(own, session, n, n, m);
  }

  /** The client polls, the server answers the poll with the id of the last event shown, and the answer
      arrives. */
  function Round(s: State, limit: nat): seq<Action>
    requires limit > 0
  {
    var poll := Poll(s.client.session, LastId(s.client.events));
    [Ask, Serve(poll, limit), Deliver(Response(poll, ServerPage(s.log, poll.session, poll.cursor, limit).items))]
  }

  lemma RunsThree(s: State, a: Action, b: Action, c: Action)
    requires Enabled(s, a) && Enabled(Apply(s, a), b) && Enabled(Apply(Apply(s, a), b), c)
    ensures Runs(s, [a, b, c]) && Final(s, [a, b, c]) == Apply(Apply(Apply(s, a), b), c)
  {
    hide Enabled, Apply;
    assert [a, b, c][1..] == [b, c] && [b, c][1..] == [c] && [c][1..] == [];
    var s1, s2 := Apply(s, a), Apply(Apply(s, a), b);
    assert Runs(s2, [c]) && Final(s2, [c]) == Apply(s2, c);
    assert Runs(s1, [b, c]) && Final(s1, [b, c]) == Final(s2, [c]);
  }

  /** A round is a run of the system, and takes the list a full page on, or to the end of the log. */
  lemma RoundAdvances(s: State, limit: nat)
    requires Inv(s) && limit > 0
    ensures Runs(s, Round(s, limit)) && Inv(Final(s, Round(s, limit)))
    ensures var own := InSession(s.log, s.client.session); var n := |s.client.events|; var t := Final(s, Round(s, limit));
      t.log == s.log && t.client == Client(s.client.session, own[..if n + limit < |own| then n + limit else |own|])
  {
    var own, n := InSession(s.log, s.client.session), |s.client.events|;
    var round := Round(s, limit);
    assert s.client.events == own[..n];
    PageAdvances(s.log, s.client.session, n, limit);
    assert own[..|own|] == own;
    RunsThree(s, round[0], round[1], round[2]);
    RunKeepsInv(s, round);
  }

  ghost function Rounds(s: State, limit: nat, rounds: nat): seq<Action>
    requires Inv(s) && limit > 0
    decreases rounds
  {
    if rounds == 0 then []
    else
      RoundAdvances(s, limit);
      Round(s, limit) + Rounds(Final(s, Round(s, limit)), limit, rounds - 1)
  }

  lemma {:induction false} RunsAppend(s: State, a: seq<Action>, b: seq<Action>)
    requires Runs(s, a) && Runs(Final(s, a), b)
    ensures Runs(s, a + b) && Final(s, a + b) == Final(Final(s, a), b)
    decreases |a|
  {
    if a == [] {
      assert a + b == b;
    } else {
      assert (a + b)[1..] == a[1..] + b;
      RunsAppend(Apply(s, a[0]), a[1..], b);
    }
  }

  lemma {:induction false} RoundsCatchUp(s: State, limit: nat, rounds: nat)
    requires Inv(s) && limit > 0 && |InSession(s.log, s.client.session)| - |s.client.events| <= rounds
    ensures Runs(s, Rounds(s, limit, rounds))
    ensures Final(s, Rounds(s, limit, rounds)).log == s.log
    ensures Final(s, Rounds(s, limit, rounds)).client == Client(s.client.session, InSession(s.log, s.client.session))
    decreases rounds
  {
    hide InSession, Inv, Round;
    PrefixLength(s);
    if rounds > 0 {
      RoundAdvances(s, limit);
      var t := Final(s, Round(s, limit));
      WholePrefix(InSession(s.log, s.client.session));
      RoundsCatchUp(t, limit, rounds - 1);
      RunsAppend(s, Round(s, limit), Rounds(t, limit, rounds - 1));
    }
  }

  lemma WholePrefix(own: seq<Event>)
    ensures own[..|own|] == own
  {
  }

  lemma PrefixLength(s: State)
    requires Inv(s)
    ensures |s.client.events| <= |InSession(s.log, s.client.session)|
    ensures |s.client.events| == |InSession(s.log, s.client.session)| ==> s.client.events == InSession(s.log, s.client.session)
  {
  }

  /** From any state that any run reaches, once the log is quiet: as many rounds as there are missing
      events, of polls with the last id shown and pages of one size, show all of the session's log. */
  lemma PollsCatchUp(s: State, actions: seq<Action>, limit: nat, rounds: nat)
    requires Initial(s) && Runs(s, actions) && limit > 0
    requires var now := Final(s, actions); |InSession(now.log, now.client.session)| - |now.client.events| <= rounds
    ensures Inv(Final(s, actions)) && Runs(Final(s, actions), Rounds(Final(s, actions), limit, rounds))
    ensures var now := Final(s, actions);
      Final(now, Rounds(now, limit, rounds)).client == Client(now.client.session, InSession(now.log, now.client.session))
  {
    RunKeepsInv(s, actions);
    RoundsCatchUp(Final(s, actions), limit, rounds);
  }

  /* ---- reading the whole log page by page ---- */

  datatype Collected = Complete(events: seq<Event>) | CursorStuck

  /** The state of the paging loop, and what it returned or raised, if it did. */
  datatype Reading = Reading(after: nat, events: seq<Event>, ended: Option<Collected>)

  function Turn(fetch: (nat, nat) -> Page, k: nat, r: Reading): Reading {
    var p := fetch(k, r.after);
    var events := r.events + p.items;
    if !p.hasMore then Reading(r.after, events, Some(Complete(events)))
    else if p.next.None? || p.next.value <= r.after then Reading(r.after, events, Some(CursorStuck))
    else Reading(p.next.value, events, None)
  }

  /** After `k` requests, or fewer when it ended before. */
  function ReadingAt(fetch: (nat, nat) -> Page, k: nat): Reading {
    if k == 0 then Reading(0, [], None)
    else
      var r := ReadingAt(fetch, k - 1);
      if r.ended.Some? then r else Turn(fetch, k - 1, r)
  }

  lemma {:induction false} EndedStays(fetch: (nat, nat) -> Page, k: nat, n: nat)
    requires k <= n && ReadingAt(fetch, k).ended.Some?
    ensures ReadingAt(fetch, n) == ReadingAt(fetch, k)
  {
    if k < n {
      EndedStays(fetch, k, n - 1);
    }
  }

  /** The loop itself, for any server on which it ends. */
  method AllEvents(fetch: (nat, nat) -> Page, ghost n: nat) returns (r: Collected)
    requires ReadingAt(fetch, n).ended.Some?
    ensures ReadingAt(fetch, n).ended == Some(r)
  {
    var after: nat, k: nat := 0, 0;
    var events: seq<Event> := [];
    while true
      invariant k <= n && ReadingAt(fetch, k) == Reading(after, events, None)
      decreases n - k
    {
      var page := fetch(k, after);
      events := events + page.items;
      if ReadingAt(fetch, k + 1).ended.Some? {
        EndedStays(fetch, k + 1, n);
      }
      if !page.hasMore {
        return Complete(events);
      }
      if page.next.None? || page.next.value <= after {
        return CursorStuck;
      }
      after, k := page.next.value, k + 1;
    }
  }

  ghost predicate CursorsBounded(fetch: (nat, nat) -> Page, bound: nat) {
    forall k, after :: fetch(k, after).next.Some? ==> fetch(k, after).next.value <= bound
  }

  lemma {:induction false} CursorGrows(fetch: (nat, nat) -> Page, bound: nat, k: nat)
    requires CursorsBounded(fetch, bound) && ReadingAt(fetch, k).ended.None?
    ensures k <= ReadingAt(fetch, k).after <= bound
  {
    if k > 0 {
      CursorGrows(fetch, bound, k - 1);
    }
  }

  /** Because the cursor must grow, any server with bounded cursors, however odd, ends the loop. */
  lemma BoundedEnds(fetch: (nat, nat) -> Page, bound: nat)
    requires CursorsBounded(fetch, bound)
    ensures ReadingAt(fetch, bound + 1).ended.Some?
  {
    if ReadingAt(fetch, bound + 1).ended.None? {
      CursorGrows(fetch, bound, bound + 1);
    }
  }

  /** Request `k` is answered from the log as it stands then; the log only grows. */
  ghost predicate ServesGrowingLog(fetch: (nat, nat) -> Page, logs: nat -> seq<Event>, session: string, limit: nat) {
    && limit > 0
    && (forall k, after :: fetch(k, after) == ServerPage(logs(k), session, after, limit))
    && (forall k :: Numbered(logs(k)))
    && (forall j: nat, k: nat :: j <= k ==> logs(j) <= logs(k))
  }

  /** One request of the paging loop, `n` events into the log. */
  lemma PageStep(log: seq<Event>, session: string, limit: nat, n: nat)
    requires Numbered(log) && limit > 0 && n <= |InSession(log, session)|
    ensures var own := InSession(log, session); var p := ServerPage(log, session, LastId(own[..n]), limit);
      if n + limit < |own| then p == Page(own[n..n + limit], true, Some(own[n + limit - 1].id))
      else p == Page(own[n..], false, None)
    ensures n + limit < |InSession(log, session)|
        ==> LastId(InSession(log, session)[..n]) < InSession(log, session)[n + limit - 1].id
  {
    var own := InSession(log, session);
    NumberedSession(log, session);
    UpToLast(own, n);
    AfterIsSuffix(own, LastId(own[..n]));
  }

  /** Request `k` is the last one: the log no longer has a full page after it. */
  predicate Fits(logs: nat -> seq<Event>, session: string, limit: nat, k: nat) {
    |InSession(logs(k), session)| <= (k + 1) * limit
  }

  ghost predicate Outgrows(logs: nat -> seq<Event>, session: string, limit: nat, k: nat) {
    forall j :: 0 <= j < k ==> !Fits(logs, session, limit, j)
  }

  /** The cursor has read the first `n` of these events. */
  predicate HasRead(r: Reading, own: seq<Event>, n: nat) {
    n <= |own| && r == Reading(LastId(own[..n]), own[..n], None)
  }

  /** One more request against the server. */
  lemma TurnReads(log: seq<Event>, session: string, limit: nat, n: nat, fetch: (nat, nat) -> Page, k: nat, r: Reading)
    requires Numbered(log) && limit > 0 && HasRead(r, InSession(log, session), n)
    requires fetch(k, r.after) == ServerPage(log, session, r.after, limit)
    ensures var own := InSession(log, session); var r' := Turn(fetch, k, r);
      if n + limit < |own| then HasRead(r', own, n + limit) else r'.ended == Some(Complete(own))
  {
    hide InSession, ServerPage, Numbered;
    var own := InSession(log, session);
    PageStep(log, session, limit, n);
    if n + limit < |own| {
      assert own[..n] + own[n..n + limit] == own[..n + limit];
    } else {
      assert own[..n] + own[n..] == own;
    }
  }

  lemma HasReadLater(r: Reading, own: seq<Event>, own': seq<Event>, n: nat)
    requires HasRead(r, own, n) && own <= own'
    ensures HasRead(r, own', n)
  {
    assert own'[..n] == own[..n];
  }

  /** While each request leaves a full page, the loop has read exactly the pages so far. */
  lemma {:induction false} ReadsPages(fetch: (nat, nat) -> Page, logs: nat -> seq<Event>, session: string, limit: nat, k: nat)
    requires ServesGrowingLog(fetch, logs, session, limit) && Outgrows(logs, session, limit, k)
    ensures HasRead(ReadingAt(fetch, k), InSession(logs(k), session), k * limit)
  {
    hide HasRead, Turn, InSession;
    if k == 0 {
      NothingRead(InSession(logs(0), session), fetch, limit);
    } else {
      var own := InSession(logs(k - 1), session);
      ReadsPages(fetch, logs, session, limit, k - 1);
      NotEnded(ReadingAt(fetch, k - 1), own, (k - 1) * limit);
      assert !Fits(logs, session, limit, k - 1) && (k - 1) * limit + limit == k * limit;
      TurnReads(logs(k - 1), session, limit, (k - 1) * limit, fetch, k - 1, ReadingAt(fetch, k - 1));
      InSessionPrefix(logs(k - 1), logs(k), session);
      HasReadLater(ReadingAt(fetch, k), own, InSession(logs(k), session), k * limit);
    }
  }

  lemma NothingRead(own: seq<Event>, fetch: (nat, nat) -> Page, limit: nat)
    ensures HasRead(ReadingAt(fetch, 0), own, 0 * limit)
  {
    assert own[..0] == [];
  }

  lemma NotEnded(r: Reading, own: seq<Event>, n: nat)
    requires HasRead(r, own, n)
    ensures r.ended == None
  {
  }

  /** At the first request that leaves no full page the loop returns the log as it stands then. */
  lemma ReadsLog(fetch: (nat, nat) -> Page, logs: nat -> seq<Event>, session: string, limit: nat, k: nat)
    requires ServesGrowingLog(fetch, logs, session, limit)
    requires Outgrows(logs, session, limit, k) && Fits(logs, session, limit, k)
    ensures ReadingAt(fetch, k + 1).ended == Some(Complete(InSession(logs(k), session)))
  {
    hide Turn, InSession;
    ReadsPages(fetch, logs, session, limit, k);
    assert k * limit + limit == (k + 1) * limit;
    TurnReads(logs(k), session, limit, k * limit, fetch, k, ReadingAt(fetch, k));
  }

  lemma {:induction false} FirstFit(logs: nat -> seq<Event>, session: string, limit: nat, k: nat) returns (first: nat)
    requires Fits(logs, session, limit, k)
    ensures first <= k && Fits(logs, session, limit, first) && Outgrows(logs, session, limit, first)
  {
    first := k;
    if !Outgrows(logs, session, limit, k) {
      var j :| 0 <= j < k && Fits(logs, session, limit, j);
      first := FirstFit(logs, session, limit, j);
    }
  }

  /** Against a log that grows while it is read, the loop ends if and only if at some request the
      log has no more than that many pages. */
  lemma LoopEndsExactly(fetch: (nat, nat) -> Page, logs: nat -> seq<Event>, session: string, limit: nat)
    requires ServesGrowingLog(fetch, logs, session, limit)
    ensures (exists n :: ReadingAt(fetch, n).ended.Some?) <==> exists k :: Fits(logs, session, limit, k)
  {
    if k: nat :| Fits(logs, session, limit, k) {
      var first := FirstFit(logs, session, limit, k);
      ReadsLog(fetch, logs, session, limit, first);
    }
    if n: nat :| ReadingAt(fetch, n).ended.Some? {
      if Outgrows(logs, session, limit, n) {
        ReadsPages(fetch, logs, session, limit, n);
      }
    }
  }

  /** Whenever the loop ends it has not raised, and it returns exactly the session's log as it stood
      at its last request: nothing skipped, nothing twice. */
  lemma AllEventsReadsLog(fetch: (nat, nat) -> Page, logs: nat -> seq<Event>, session: string, limit: nat, n: nat)
    returns (last: nat)
    requires ServesGrowingLog(fetch, logs, session, limit) && ReadingAt(fetch, n).ended.Some?
    ensures last < n && Fits(logs, session, limit, last) && Outgrows(logs, session, limit, last)
    ensures ReadingAt(fetch, n).ended == Some(Complete(InSession(logs(last), session)))
    ensures InSession(logs(0), session) <= InSession(logs(last), session)
  {
    if Outgrows(logs, session, limit, n) {
      ReadsPages(fetch, logs, session, limit, n);
    }
    var k :| 0 <= k < n && Fits(logs, session, limit, k);
    last := FirstFit(logs, session, limit, k);
    ReadsLog(fetch, logs, session, limit, last);
    EndedStays(fetch, last + 1, n);
    InSessionPrefix(logs(0), logs(last), session);
  }
}
