/** Agent turn events and the client-side list that replays the durable log. */
module Events {
  import opened Text
  import opened Json

  datatype Event = Event(id: nat, session: string, turn: string, kind: string, payload: seq<Entry>)

  ghost predicate Ascending(es: seq<Event>) {
    forall i, j :: 0 <= i < j < |es| ==> es[i].id < es[j].id
  }

  function LastId(es: seq<Event>): nat {
    if es == [] then 0 else es[|es| - 1].id
  }

  /** The rows of one session, in log order. */
  function InSession(es: seq<Event>, session: string): seq<Event> {
    if es == [] then []
    else
      var front := InSession(es[..|es| - 1], session);
      if es[|es| - 1].session == session then front + [es[|es| - 1]] else front
  }

  lemma {:induction false} InSessionMembers(es: seq<Event>, session: string)
    ensures forall e :: e in InSession(es, session) <==> e in es && e.session == session
    ensures Ascending(es) ==> Ascending(InSession(es, session))
  {
    if es != [] {
      var front := es[..|es| - 1];
      InSessionMembers(front, session);
      assert es == front + [es[|es| - 1]];
      if Ascending(es) {
        forall e | e in front ensures e.id < es[|es| - 1].id {
          var k :| 0 <= k < |front| && front[k] == e;
          assert es[k] == e;
        }
      }
    }
  }

  lemma {:induction false} InSessionPrefix(a: seq<Event>, b: seq<Event>, session: string)
    requires a <= b
    ensures InSession(a, session) <= InSession(b, session)
    decreases |b|
  {
    if a != b {
      assert a <= b[..|b| - 1];
      InSessionPrefix(a, b[..|b| - 1], session);
    }
  }

  /** The event held under an id. */
  function Get(es: seq<Event>, id: nat): Option<Event> {
    if es == [] then None
    else if es[0].id == id then Some(es[0])
    else Get(es[1..], id)
  }

  lemma {:induction false} GetMember(es: seq<Event>, id: nat)
    ensures Get(es, id).Some? ==> Get(es, id).value in es && Get(es, id).value.id == id
    ensures Get(es, id).None? ==> forall e :: e in es ==> e.id != id
  {
    if es != [] {
      GetMember(es[1..], id);
      assert es == [es[0]] + es[1..];
    }
  }

  lemma {:induction false} GetAt(es: seq<Event>, k: nat)
    requires Ascending(es) && k < |es|
    ensures Get(es, es[k].id) == Some(es[k])
  {
    if k > 0 {
      GetAt(es[1..], k - 1);
      assert es[0].id < es[k].id;
    }
  }

  /** An ascending list is determined by what it holds under each id. */
  lemma {:induction false} AscendingUnique(a: seq<Event>, b: seq<Event>)
    requires Ascending(a) && Ascending(b)
    requires forall id :: Get(a, id) == Get(b, id)
    ensures a == b
    decreases |a|
  {
    assert b != [] ==> Get(a, b[0].id) == Get(b, b[0].id);
    if a != [] {
      var x := a[0].id;
      assert Get(a, x) == Get(b, x);
      GetMember(b, x);
      GetMember(a, b[0].id);
      assert a[0] == b[0];
      forall id ensures Get(a[1..], id) == Get(b[1..], id) {
        assert Get(a, id) == Get(b, id);
        if id == x {
          GetMember(a[1..], id);
          GetMember(b[1..], id);
        }
      }
      AscendingUnique(a[1..], b[1..]);
      assert a == [a[0]] + a[1..] && b == [b[0]] + b[1..];
    }
  }

  lemma {:induction false} GetAppend(a: seq<Event>, b: seq<Event>, id: nat)
    ensures Get(a + b, id) == if Get(a, id).Some? then Get(a, id) else Get(b, id)
  {
    if a == [] {
      assert a + b == b;
    } else {
      GetAppend(a[1..], b, id);
      assert (a + b)[1..] == a[1..] + b;
    }
  }
}

/** `mergeAgentEvents`: a map keyed by event id, filled from the held list and then from a page. */
module EventMerge {
  import opened Text
  import opened Events

  predicate Admitted(session: Option<string>, e: Event) {
    session.None? || e.session == session.value
  }

  ghost predicate DistinctIds(es: seq<Event>) {
    forall i, j :: 0 <= i < j < |es| ==> es[i].id != es[j].id
  }

  /** Assignment into an insertion-ordered map whose values carry their own key. */
  function Assign(es: seq<Event>, e: Event): seq<Event> {
    if es == [] then [e]
    else if es[0].id == e.id then [e] + es[1..]
    else [es[0]] + Assign(es[1..], e)
  }

  /** The map built from the held list: a later event replaces an earlier one. */
  function Collect(current: seq<Event>, session: Option<string>): seq<Event> {
    if current == [] then []
    else
      var byId := Collect(current[..|current| - 1], session);
      var e := current[|current| - 1];
      if Admitted(session, e) then Assign(byId, e) else byId
  }

  /** The page added to the map: an id already present is left alone. */
  function Absorb(byId: seq<Event>, incoming: seq<Event>, session: Option<string>): seq<Event> {
    if incoming == [] then byId
    else
      var held := Absorb(byId, incoming[..|incoming| - 1], session);
      var e := incoming[|incoming| - 1];
      if Admitted(session, e) && Get(held, e.id).None? then held + [e] else held
  }

  function Insert(sorted: seq<Event>, e: Event): seq<Event> {
    if sorted == [] || e.id < sorted[0].id then [e] + sorted
    else [sorted[0]] + Insert(sorted[1..], e)
  }

  function SortById(es: seq<Event>): seq<Event> {
    if es == [] then [] else Insert(SortById(es[..|es| - 1]), es[|es| - 1])
  }

  function Merge(current: seq<Event>, incoming: seq<Event>, session: Option<string>): seq<Event> {
    SortById(Absorb(Collect(current, session), incoming, session))
  }

  /** What the merge must hold under an id: the last held event, else the first incoming one. */
  function LastHeld(current: seq<Event>, session: Option<string>, id: nat): Option<Event> {
    if current == [] then None
    else
      var e := current[|current| - 1];
      if Admitted(session, e) && e.id == id then Some(e)
      else LastHeld(current[..|current| - 1], session, id)
  }

  function FirstIncoming(incoming: seq<Event>, session: Option<string>, id: nat): Option<Event> {
    if incoming == [] then None
    else if Admitted(session, incoming[0]) && incoming[0].id == id then Some(incoming[0])
    else FirstIncoming(incoming[1..], session, id)
  }

  function Winner(current: seq<Event>, incoming: seq<Event>, session: Option<string>, id: nat): Option<Event> {
    var held := LastHeld(current, session, id);
    if held.Some? then held else FirstIncoming(incoming, session, id)
  }

  lemma {:induction false} AssignGet(es: seq<Event>, e: Event, id: nat)
    ensures Get(Assign(es, e), id) == if id == e.id then Some(e) else Get(es, id)
  {
    if es == [] {
      assert [e][1..] == [];
    } else if es[0].id == e.id {
      assert ([e] + es[1..])[1..] == es[1..];
    } else {
      AssignGet(es[1..], e, id);
      assert ([es[0]] + Assign(es[1..], e))[1..] == Assign(es[1..], e);
    }
  }

  lemma {:induction false} AssignDistinct(es: seq<Event>, e: Event)
    requires DistinctIds(es)
    ensures DistinctIds(Assign(es, e))
    ensures forall x :: x in Assign(es, e) ==> x in es || x == e
  {
    if es != [] {
      AssignDistinct(es[1..], e);
      assert es == [es[0]] + es[1..];
      if es[0].id != e.id {
        forall x | x in Assign(es[1..], e) ensures x.id != es[0].id {
          if x in es[1..] {
            var k :| 0 <= k < |es[1..]| && es[1..][k] == x;
            assert es[k + 1] == x;
          }
        }
      }
    }
  }

  lemma {:induction false} CollectMeaning(current: seq<Event>, session: Option<string>)
    ensures DistinctIds(Collect(current, session))
    ensures forall id :: Get(Collect(current, session), id) == LastHeld(current, session, id)
  {
    if current != [] {
      var front := current[..|current| - 1];
      CollectMeaning(front, session);
      AssignDistinct(Collect(front, session), current[|current| - 1]);
      forall id ensures Get(Collect(current, session), id) == LastHeld(current, session, id) {
        AssignGet(Collect(front, session), current[|current| - 1], id);
      }
    }
  }

  lemma {:induction false} FirstIncomingAppend(incoming: seq<Event>, e: Event, session: Option<string>, id: nat)
    ensures FirstIncoming(incoming + [e], session, id)
         == if FirstIncoming(incoming, session, id).Some? then FirstIncoming(incoming, session, id)
            else if Admitted(session, e) && e.id == id then Some(e) else None
  {
    if incoming == [] {
      assert (incoming + [e])[1..] == [];
    } else {
      FirstIncomingAppend(incoming[1..], e, session, id);
      assert (incoming + [e])[1..] == incoming[1..] + [e];
    }
  }

  lemma {:induction false} AbsorbMeaning(byId: seq<Event>, incoming: seq<Event>, session: Option<string>)
    requires DistinctIds(byId)
    ensures DistinctIds(Absorb(byId, incoming, session))
    ensures forall id :: Get(Absorb(byId, incoming, session), id)
                      == if Get(byId, id).Some? then Get(byId, id) else FirstIncoming(incoming, session, id)
  {
    if incoming != [] {
      var front, e := incoming[..|incoming| - 1], incoming[|incoming| - 1];
      AbsorbMeaning(byId, front, session);
      var held := Absorb(byId, front, session);
      assert incoming == front + [e];
      GetMember(held, e.id);
      forall id
        ensures Get(Absorb(byId, incoming, session), id)
             == if Get(byId, id).Some? then Get(byId, id) else FirstIncoming(incoming, session, id)
      {
        GetAppend(held, [e], id);
        FirstIncomingAppend(front, e, session, id);
        assert [e][1..] == [];
        if id == e.id {
          GetMember(byId, id);
        }
      }
    }
  }

  lemma {:induction false} InsertGet(sorted: seq<Event>, e: Event, id: nat)
    requires Get(sorted, e.id).None?
    ensures Get(Insert(sorted, e), id) == if id == e.id then Some(e) else Get(sorted, id)
  {
    if sorted == [] || e.id < sorted[0].id {
      assert ([e] + sorted)[1..] == sorted;
    } else {
      InsertGet(sorted[1..], e, id);
      var rest := Insert(sorted[1..], e);
      assert ([sorted[0]] + rest)[1..] == rest;
    }
  }

  lemma {:induction false} InsertAscending(sorted: seq<Event>, e: Event)
    requires Ascending(sorted) && Get(sorted, e.id).None?
    ensures Ascending(Insert(sorted, e))
    ensures Insert(sorted, e)[0].id == if sorted == [] || e.id < sorted[0].id then e.id else sorted[0].id
  {
    if sorted != [] && e.id >= sorted[0].id {
      InsertAscending(sorted[1..], e);
      var rest := Insert(sorted[1..], e);
      assert sorted[0].id < rest[0].id;
      assert forall k :: 0 <= k < |rest| ==> rest[0].id <= rest[k].id;
    }
  }

  lemma {:induction false} SortMeaning(es: seq<Event>)
    requires DistinctIds(es)
    ensures Ascending(SortById(es))
    ensures forall id :: Get(SortById(es), id) == Get(es, id)
  {
    if es != [] {
      var front, e := es[..|es| - 1], es[|es| - 1];
      SortMeaning(front);
      assert es == front + [e];
      GetMember(front, e.id);
      assert Get(SortById(front), e.id) == Get(front, e.id);
      InsertAscending(SortById(front), e);
      forall id ensures Get(SortById(es), id) == Get(es, id) {
        GetAppend(front, [e], id);
        assert [e][1..] == [];
        assert Get(SortById(front), id) == Get(front, id);
        InsertGet(SortById(front), e, id);
      }
    }
  }

  /** The merge is ascending and holds, under every id, the winner: held events are never replaced. */
  lemma MergeMeaning(current: seq<Event>, incoming: seq<Event>, session: Option<string>)
    ensures Ascending(Merge(current, incoming, session))
    ensures forall id :: Get(Merge(current, incoming, session), id) == Winner(current, incoming, session, id)
  {
    CollectMeaning(current, session);
    AbsorbMeaning(Collect(current, session), incoming, session);
    SortMeaning(Absorb(Collect(current, session), incoming, session));
  }

  method MergeAgentEvents(current: seq<Event>, incoming: seq<Event>, session: Option<string>)
    returns (merged: seq<Event>)
    ensures merged == Merge(current, incoming, session)
    ensures Ascending(merged)
    ensures forall id :: Get(merged, id) == Winner(current, incoming, session, id)
  {
    var byId: seq<Event> := [];
    for k := 0 to |current|
      invariant byId == Collect(current[..k], session)
    {
      assert current[..k + 1][..k] == current[..k];
      if Admitted(session, current[k]) {
        byId := Assign(byId, current[k]);
      }
    }
    assert current[..|current|] == current;
    ghost var held := byId;
    for k := 0 to |incoming|
      invariant byId == Absorb(held, incoming[..k], session)
    {
      assert incoming[..k + 1][..k] == incoming[..k];
      if Admitted(session, incoming[k]) && Get(byId, incoming[k].id).None? {
        byId := byId + [incoming[k]];
      }
    }
    assert incoming[..|incoming|] == incoming;
    MergeMeaning(current, incoming, session);
    merged := SortById(byId);
  }

  /* ---- merging a page of the log into a prefix of the log ---- */

  lemma {:induction false} LastHeldAscending(es: seq<Event>, session: string, id: nat)
    requires Ascending(es) && forall e :: e in es ==> e.session == session
    ensures LastHeld(es, Some(session), id) == Get(es, id)
  {
    if es != [] {
      var n := |es| - 1;
      LastHeldAscending(es[..n], session, id);
      assert es == es[..n] + [es[n]];
      GetAppend(es[..n], [es[n]], id);
      assert [es[n]][1..] == [];
      assert es[n] in es;
      if es[n].id == id {
        GetAt(es, n);
      }
    }
  }

  lemma {:induction false} FirstIncomingAll(es: seq<Event>, session: string, id: nat)
    requires forall e :: e in es ==> e.session == session
    ensures FirstIncoming(es, Some(session), id) == Get(es, id)
  {
    if es != [] {
      assert es[0] in es;
      FirstIncomingAll(es[1..], session, id);
    }
  }

  /** Position of an id in the log, or the length when it is not there. */
  function Pos(log: seq<Event>, id: nat): (p: nat)
    ensures p <= |log|
    ensures p < |log| ==> log[p].id == id
    ensures forall i :: 0 <= i < p ==> log[i].id != id
  {
    if log == [] || log[0].id == id then 0 else 1 + Pos(log[1..], id)
  }

  lemma {:induction false} GetSlice(log: seq<Event>, a: nat, b: nat, id: nat)
    requires Ascending(log) && a <= b <= |log|
    ensures Get(log[a..b], id) == if a <= Pos(log, id) < b then Some(log[Pos(log, id)]) else None
    decreases b - a
  {
    if a < b {
      assert log[a..b][1..] == log[a + 1..b];
      GetSlice(log, a + 1, b, id);
    }
  }

  lemma WinnerSlice(log: seq<Event>, session: string, n: nat, k: nat, m: nat, id: nat)
    requires Ascending(log) && forall e :: e in log ==> e.session == session
    requires n <= |log| && k <= m <= |log|
    ensures Winner(log[..n], log[k..m], Some(session), id)
         == if Pos(log, id) < n || k <= Pos(log, id) < m then Some(log[Pos(log, id)]) else None
  {
    LastHeldAscending(log[..n], session, id);
    FirstIncomingAll(log[k..m], session, id);
    assert log[0..n] == log[..n];
    GetSlice(log, 0, n, id);
    GetSlice(log, k, m, id);
  }

  /** A page that starts at or before the end of the held prefix extends it without a gap. */
  lemma MergeExtends(log: seq<Event>, session: string, n: nat, k: nat, m: nat)
    requires Ascending(log) && forall e :: e in log ==> e.session == session
    requires k <= n <= |log| && k <= m <= |log|
    ensures Merge(log[..n], log[k..m], Some(session)) == log[..if n < m then m else n]
  {
    var top := if n < m then m else n;
    var merged := Merge(log[..n], log[k..m], Some(session));
    MergeMeaning(log[..n], log[k..m], Some(session));
    forall id ensures Get(merged, id) == Get(log[..top], id) {
      WinnerSlice(log, session, n, k, m, id);
      assert log[0..top] == log[..top];
      GetSlice(log, 0, top, id);
    }
    AscendingUnique(merged, log[..top]);
  }

  /** A non-empty page merges into a prefix of the log exactly when it does not start past the
      held prefix; otherwise the events between them are missing from the list. */
  lemma MergePrefixExactly(log: seq<Event>, session: string, n: nat, k: nat, m: nat)
    requires Ascending(log) && forall e :: e in log ==> e.session == session
    requires n <= |log| && k < m <= |log|
    ensures Merge(log[..n], log[k..m], Some(session)) <= log <==> k <= n
  {
    if k <= n {
      MergeExtends(log, session, n, k, m);
    } else {
      var merged := Merge(log[..n], log[k..m], Some(session));
      MergeMeaning(log[..n], log[k..m], Some(session));
      WinnerSlice(log, session, n, k, m, log[n].id);
      WinnerSlice(log, session, n, k, m, log[k].id);
      if merged <= log {
        var t := |merged|;
        assert merged == log[0..t];
        GetSlice(log, 0, t, log[n].id);
        GetSlice(log, 0, t, log[k].id);
      }
    }
  }
}
