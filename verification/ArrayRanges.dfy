/** Scanning an array job's outputs: which tasks miss an artifact, and their compressed array spec. */
module ArrayRanges {
  import opened Text

  /* ---- runs of consecutive numbers ---- */

  datatype Range = Range(lo: nat, hi: nat)

  /** `lo`, ..., `hi`, ascending; nothing when `hi` is below `lo`. */
  function Numbers(lo: nat, hi: nat): (r: seq<nat>)
    decreases hi
  {
    if lo > hi then [] else if lo == hi then [lo] else Numbers(lo, hi - 1) + [hi]
  }

  function Expand(rs: seq<Range>): seq<nat> {
    if rs == [] then [] else Expand(rs[..|rs| - 1]) + Numbers(rs[|rs| - 1].lo, rs[|rs| - 1].hi)
  }

  predicate Proper(rs: seq<Range>) {
    forall i :: 0 <= i < |rs| ==> rs[i].lo <= rs[i].hi
  }

  /** The runs after one more value: the last run grows, or a new one begins. */
  function Grown(rs: seq<Range>, v: nat): seq<Range> {
    if rs != [] && v == rs[|rs| - 1].hi + 1 then rs[..|rs| - 1] + [Range(rs[|rs| - 1].lo, v)]
    else rs + [Range(v, v)]
  }

  function Runs(values: seq<nat>): seq<Range> {
    if values == [] then [] else Grown(Runs(values[..|values| - 1]), values[|values| - 1])
  }

  lemma ExpandSnoc(rs: seq<Range>, r: Range)
    ensures Expand(rs + [r]) == Expand(rs) + Numbers(r.lo, r.hi)
  {
    assert (rs + [r])[..|rs|] == rs;
  }

  lemma NothingToExpand()
    ensures Runs([]) == [] && Expand([]) == []
  {
  }

  lemma RunsSnoc(values: seq<nat>, v: nat)
    ensures Runs(values + [v]) == Grown(Runs(values), v)
  {
    assert (values + [v])[..|values|] == values;
  }

  lemma ExpandGrown(rs: seq<Range>, v: nat)
    requires Proper(rs)
    ensures Proper(Grown(rs, v)) && Expand(Grown(rs, v)) == Expand(rs) + [v]
    ensures Grown(rs, v) != [] && Grown(rs, v)[|Grown(rs, v)| - 1].hi == v
  {
    if rs != [] && v == rs[|rs| - 1].hi + 1 {
      var front, last := rs[..|rs| - 1], rs[|rs| - 1];
      assert rs == front + [last];
      ExpandSnoc(front, last);
      ExpandSnoc(front, Range(last.lo, v));
      assert Numbers(last.lo, v) == Numbers(last.lo, last.hi) + [v];
    } else {
      ExpandSnoc(rs, Range(v, v));
    }
  }

  lemma {:induction false} ExpandRuns(values: seq<nat>)
    ensures Proper(Runs(values)) && Expand(Runs(values)) == values
    ensures values != [] ==> Runs(values) != [] && Runs(values)[|Runs(values)| - 1].hi == values[|values| - 1]
  {
    hide Runs, Expand, Grown;
    NothingToExpand();
    if values != [] {
      var front, v := values[..|values| - 1], values[|values| - 1];
      assert values == front + [v];
      ExpandRuns(front);
      ExpandGrown(Runs(front), v);
      RunsSnoc(front, v);
    }
  }

  /** Appending one consecutive run adds at most one run. */
  lemma {:induction false} OneRunMore(a: seq<nat>, lo: nat, hi: nat)
    requires lo <= hi
    ensures |Runs(a + Numbers(lo, hi))| <= |Runs(a)| + 1
    decreases hi
  {
    hide Runs;
    if lo == hi {
      RunsSnoc(a, lo);
    } else {
      OneRunMore(a, lo, hi - 1);
      var before := a + Numbers(lo, hi - 1);
      assert a + Numbers(lo, hi) == before + [hi];
      RunsSnoc(before, hi);
      ExpandRuns(before);
      assert before[|before| - 1] == hi - 1;
    }
  }

  /** No other way to cut the list into consecutive runs uses fewer of them. */
  lemma {:induction false} RunsFewest(values: seq<nat>, rs: seq<Range>)
    requires Proper(rs) && Expand(rs) == values
    ensures |Runs(values)| <= |rs|
    decreases |rs|
  {
    if rs != [] {
      var n := |rs| - 1;
      RunsFewest(Expand(rs[..n]), rs[..n]);
      OneRunMore(Expand(rs[..n]), rs[n].lo, rs[n].hi);
    }
  }

  /* ---- the spec as text ---- */

  function Print(r: Range): (s: string)
    ensures s != "" && ',' !in s
  {
    if r.lo == r.hi then Numeral(r.lo) else Numeral(r.lo) + "-" + Numeral(r.hi)
  }

  function PrintAll(rs: seq<Range>): (parts: seq<string>)
    ensures |parts| == |rs|
    ensures forall i :: 0 <= i < |rs| ==> parts[i] == Print(rs[i])
  {
    seq(|rs|, i requires 0 <= i < |rs| => Print(rs[i]))
  }

  function Number(s: string): Option<nat> {
    if s != "" && AllDigits(s) then Some(NumeralValue(s)) else None
  }

  /** One item of an array spec: a number, or an ascending range. */
  function ReadItem(s: string): Option<Range> {
    var k := Find(s, '-');
    if k == |s| then
      match Number(s) case None => None case Some(n) => Some(Range(n, n))
    else
      match (Number(s[..k]), Number(s[k + 1..]))
      case (Some(lo), Some(hi)) => if lo <= hi then Some(Range(lo, hi)) else None
      case _ => None
  }

  function ReadItems(items: seq<string>): Option<seq<nat>> {
    if items == [] then Some([])
    else
      match (ReadItems(items[..|items| - 1]), ReadItem(items[|items| - 1]))
      case (Some(front), Some(r)) => Some(front + Numbers(r.lo, r.hi))
      case _ => None
  }

  /** The tasks an array spec stands for. */
  function Decode(spec: string): Option<seq<nat>> {
    if spec == "" then Some([]) else ReadItems(Split(spec, ','))
  }

  lemma ReadPrinted(r: Range)
    requires r.lo <= r.hi
    ensures ReadItem(Print(r)) == Some(r)
  {
    NumeralRoundTrip(r.lo);
    NumeralRoundTrip(r.hi);
    var a, b := Numeral(r.lo), Numeral(r.hi);
    assert '-' !in a;
    if r.lo == r.hi {
      FindNone(a, '-');
    } else {
      FindAfter(a, '-', b);
      assert Print(r)[..|a|] == a && Print(r)[|a| + 1..] == b;
    }
  }

  lemma {:induction false} ReadPrintedAll(rs: seq<Range>)
    requires Proper(rs)
    ensures ReadItems(PrintAll(rs)) == Some(Expand(rs))
    decreases |rs|
  {
    if rs != [] {
      var n := |rs| - 1;
      ReadPrintedAll(rs[..n]);
      ReadPrinted(rs[n]);
      assert PrintAll(rs)[..n] == PrintAll(rs[..n]);
    }
  }

  lemma DecodeRuns(values: seq<nat>)
    ensures Decode(Join(PrintAll(Runs(values)), ',')) == Some(values)
  {
    var parts := PrintAll(Runs(values));
    ExpandRuns(values);
    if values != [] {
      JoinNonEmpty(parts);
      SplitJoin(parts, ',');
      ReadPrintedAll(Runs(values));
    }
  }

  lemma JoinNonEmpty(parts: seq<string>)
    requires parts != [] && parts[0] != ""
    ensures Join(parts, ',') != ""
  {
  }

  /** One turn of the loop: the open run goes on, or is closed and another opened. */
  lemma Turn(values: seq<nat>, i: nat, closed: seq<Range>, start: nat, previous: nat)
    requires i < |values| && Runs(values[..i]) == closed + [Range(start, previous)]
    ensures Runs(values[..i + 1]) ==
      if values[i] == previous + 1 then closed + [Range(start, values[i])]
      else closed + [Range(start, previous)] + [Range(values[i], values[i])]
  {
    hide Runs;
    assert values[..i + 1] == values[..i] + [values[i]];
    RunsSnoc(values[..i], values[i]);
    assert (closed + [Range(start, previous)])[..|closed|] == closed;
  }

  lemma PrintSnoc(rs: seq<Range>, r: Range)
    ensures PrintAll(rs + [r]) == PrintAll(rs) + [Print(r)]
  {
  }

  /** The compressed spec decodes to the very list, in order and with repetitions, for any list. */
  method CompressRanges(values: seq<nat>) returns (spec: string)
    ensures spec == Join(PrintAll(Runs(values)), ',')
    ensures Decode(spec) == Some(values)
  {
    DecodeRuns(values);
    if values == [] {
      return "";
    }
    var ranges: seq<string> := [];
    var start, previous := values[0], values[0];
    ghost var closed: seq<Range> := [];
    assert values[..1] == [] + [values[0]];
    RunsSnoc([], values[0]);
    for i := 1 to |values|
      invariant Runs(values[..i]) == closed + [Range(start, previous)]
      invariant ranges == PrintAll(closed)
    {
      var value := values[i];
      Turn(values, i, closed, start, previous);
      if value == previous + 1 {
        previous := value;
      } else {
        PrintSnoc(closed, Range(start, previous));
        ranges := ranges + [if start == previous then Numeral(start) else Numeral(start) + "-" + Numeral(previous)];
        closed := closed + [Range(start, previous)];
        start, previous := value, value;
      }
    }
    assert values[..|values|] == values;
    PrintSnoc(closed, Range(start, previous));
    ranges := ranges + [if start == previous then Numeral(start) else Numeral(start) + "-" + Numeral(previous)];
    spec := Join(ranges, ',');
  }

  /* ---- the scan ---- */

  datatype Missing = Missing(task: nat, absent: seq<string>)

  datatype Report = Report(expected: nat, complete: int, missing: seq<Missing>, spec: string)

  function Absent(patterns: seq<string>, present: (string, nat) -> bool, task: nat): (a: seq<string>)
    ensures a == [] <==> forall p :: p in patterns ==> present(p, task)
  {
    if patterns == [] then []
    else (if present(patterns[0], task) then [] else [patterns[0]]) + Absent(patterns[1..], present, task)
  }

  /** `at` lists, ascending, the places from `lo` on of the patterns whose artifact is not there. */
  ghost predicate AbsentPlaces(patterns: seq<string>, present: (string, nat) -> bool, task: nat, lo: nat, at: seq<nat>) {
    && (forall j :: 0 <= j < |at| ==> lo <= at[j] < |patterns| && !present(patterns[at[j]], task))
    && (forall j, k :: 0 <= j < k < |at| ==> at[j] < at[k])
    && (forall i :: lo <= i < |patterns| && !present(patterns[i], task) ==> i in at)
  }

  predicate StandAt(patterns: seq<string>, at: seq<nat>, listed: seq<string>) {
    |listed| == |at| && forall j :: 0 <= j < |at| ==> at[j] < |patterns| && listed[j] == patterns[at[j]]
  }

  lemma MorePlaces(patterns: seq<string>, present: (string, nat) -> bool, task: nat, lo: nat, rest: seq<nat>)
    requires lo < |patterns| && AbsentPlaces(patterns, present, task, lo + 1, rest)
    ensures AbsentPlaces(patterns, present, task, lo, if present(patterns[lo], task) then rest else [lo] + rest)
  {
    if !present(patterns[lo], task) {
      var at := [lo] + rest;
      assert at[0] == lo;
      forall i | lo <= i < |patterns| && !present(patterns[i], task)
        ensures i in at
      {
        assert i > lo ==> i in rest;
      }
    }
  }

  lemma {:induction false} AbsentFrom(patterns: seq<string>, present: (string, nat) -> bool, task: nat, lo: nat) returns (at: seq<nat>)
    requires lo <= |patterns|
    ensures AbsentPlaces(patterns, present, task, lo, at) && StandAt(patterns, at, Absent(patterns[lo..], present, task))
    decreases |patterns| - lo
  {
    hide AbsentPlaces;
    at := [];
    if lo < |patterns| {
      at := AbsentFrom(patterns, present, task, lo + 1);
      assert patterns[lo..][1..] == patterns[lo + 1..];
      MorePlaces(patterns, present, task, lo, at);
      at := if present(patterns[lo], task) then at else [lo] + at;
    } else {
      NoPlaces(patterns, present, task);
    }
  }

  lemma NoPlaces(patterns: seq<string>, present: (string, nat) -> bool, task: nat)
    ensures AbsentPlaces(patterns, present, task, |patterns|, [])
  {
  }

  /** What is listed for a task: exactly the patterns whose artifact is not there, in their order. */
  lemma AbsentExactly(patterns: seq<string>, present: (string, nat) -> bool, task: nat)
    ensures exists at :: AbsentPlaces(patterns, present, task, 0, at) && StandAt(patterns, at, Absent(patterns, present, task))
  {
    hide AbsentPlaces, StandAt;
    assert patterns[0..] == patterns;
    var at := AbsentFrom(patterns, present, task, 0);
  }

  function TasksOf(missing: seq<Missing>): (r: seq<nat>)
    ensures |r| == |missing|
    ensures forall i :: 0 <= i < |r| ==> r[i] == missing[i].task
  {
    seq(|missing|, i requires 0 <= i < |missing| => missing[i].task)
  }

  /** The incomplete tasks below `n`, ascending. */
  function Incomplete(patterns: seq<string>, present: (string, nat) -> bool, n: nat): seq<nat> {
    if n == 0 then []
    else Incomplete(patterns, present, n - 1) + if Absent(patterns, present, n - 1) == [] then [] else [n - 1]
  }

  lemma {:induction false} IncompleteMeaning(patterns: seq<string>, present: (string, nat) -> bool, n: nat, task: nat)
    ensures task in Incomplete(patterns, present, n) <==> task < n && exists p :: p in patterns && !present(p, task)
  {
    if n > 0 {
      IncompleteMeaning(patterns, present, n - 1, task);
    }
  }

  predicate Ascends(tasks: seq<nat>) {
    forall i, j :: 0 <= i < j < |tasks| ==> tasks[i] < tasks[j]
  }

  lemma {:induction false} IncompleteAscends(patterns: seq<string>, present: (string, nat) -> bool, n: nat)
    ensures Ascends(Incomplete(patterns, present, n))
    ensures forall i :: 0 <= i < |Incomplete(patterns, present, n)| ==> Incomplete(patterns, present, n)[i] < n
  {
    if n > 0 {
      IncompleteAscends(patterns, present, n - 1);
    }
  }

  lemma {:induction false} IncompleteCount(patterns: seq<string>, present: (string, nat) -> bool, n: nat)
    ensures |Incomplete(patterns, present, n)| + |Finished(patterns, present, n)| == n
  {
    if n > 0 {
      IncompleteCount(patterns, present, n - 1);
    }
  }

  /** The tasks below `n` with every artifact there. */
  function Finished(patterns: seq<string>, present: (string, nat) -> bool, n: nat): seq<nat> {
    if n == 0 then []
    else Finished(patterns, present, n - 1) + if Absent(patterns, present, n - 1) == [] then [n - 1] else []
  }

  /** `None` when the expected count is refused. The spec stands for exactly the incomplete tasks, and
      the complete count for the rest. */
  method Scan(expected: int, patterns: seq<string>, present: (string, nat) -> bool) returns (r: Option<Report>)
    ensures r.Some? <==> 1 <= expected <= 100_000
    ensures r.Some? ==>
      && Decode(r.value.spec) == Some(Incomplete(patterns, present, expected))
      && TasksOf(r.value.missing) == Incomplete(patterns, present, expected)
      && Ascends(TasksOf(r.value.missing))
      && (forall t: nat :: t in TasksOf(r.value.missing) <==> t < expected && exists p :: p in patterns && !present(p, t))
      && (forall m :: m in r.value.missing ==> m.absent == Absent(patterns, present, m.task))
      && r.value.complete == |Finished(patterns, present, expected)|
      && r.value.complete + |r.value.missing| == expected
  {
    if !(1 <= expected <= 100_000) {
      return None;
    }
    var missing: seq<Missing> := [];
    for task := 0 to expected
      invariant TasksOf(missing) == Incomplete(patterns, present, task)
      invariant forall m :: m in missing ==> m.absent == Absent(patterns, present, m.task)
    {
      var absent := Absent(patterns, present, task);
      if absent != [] {
        missing := missing + [Missing(task, absent)];
      }
    }
    IncompleteCount(patterns, present, expected);
    IncompleteAscends(patterns, present, expected);
    forall t: nat
      ensures t in TasksOf(missing) <==> t < expected && exists p :: p in patterns && !present(p, t)
    {
      IncompleteMeaning(patterns, present, expected, t);
    }
    var spec := CompressRanges(TasksOf(missing));
    return Some(Report(expected, expected - |missing|, missing, spec));
  }
}
