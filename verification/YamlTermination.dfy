/** Which documents the indentation parser accepts, rejects and never finishes on, read off the
    lines without running it: the outcome is decided by the first line that is not sound. */
module YamlTermination {
  import opened Text
  import opened SimpleYaml

  /* ---- relations between lines ---- */

  function Ind(L: seq<Line>, t: int): nat {
    if 0 <= t < |L| then L[t].indent else 0
  }

  predicate Dash(L: seq<Line>, t: int) {
    0 <= t < |L| && IsDash(L[t].text)
  }

  /** A list item that is a dict: its loop takes in deeper lines. */
  predicate ItemHead(L: seq<Line>, t: int) {
    0 <= t < |L| && IsDash(L[t].text) && HasColon(Content(L[t].text))
  }

  /** A key with nothing after its colon: a block follows. */
  predicate Opens(L: seq<Line>, t: int) {
    0 <= t < |L| &&
    var body := if IsDash(L[t].text) then Content(L[t].text) else L[t].text;
    HasColon(body) && Blank(RestOf(body))
  }

  predicate Deeper(L: seq<Line>, a: int, b: int, k: nat) {
    forall t :: a < t < b ==> Ind(L, t) > k
  }

  /** First line of a block: exactly two deeper than the line that opens it. */
  predicate BlockStart(L: seq<Line>, p: int) {
    Opens(L, p - 1) && Ind(L, p) == Ind(L, p - 1) + 2
  }

  /** `r` and `p` stand side by side in one list or one dict. */
  predicate SiblingOf(L: seq<Line>, r: int, p: int) {
    0 <= r < p && Ind(L, r) == Ind(L, p) && (Dash(L, r) <==> Dash(L, p)) && Deeper(L, r, p, Ind(L, p))
  }

  ghost predicate HasSibling(L: seq<Line>, p: int) {
    exists r :: SiblingOf(L, r, p)
  }

  /** Line `p` lies under the dict item that starts at `q`. */
  predicate Encloses(L: seq<Line>, q: int, p: int) {
    0 <= q < p && ItemHead(L, q) && Deeper(L, q, p + 1, Ind(L, q))
  }

  predicate Innermost(L: seq<Line>, q: int, p: int) {
    Encloses(L, q, p) && forall q' :: q < q' < p ==> !Encloses(L, q', p)
  }

  /** A line exactly two deeper than the innermost dict item around it. */
  ghost predicate Child(L: seq<Line>, p: int) {
    exists q :: Innermost(L, q, p) && Ind(L, p) == Ind(L, q) + 2
  }

  ghost predicate Accepted(L: seq<Line>, p: int) {
    (p == 0 && Ind(L, 0) == 0) || BlockStart(L, p) || HasSibling(L, p) || Child(L, p)
  }

  /** A list that starts where only further keys of a dict item may stand. */
  ghost predicate Nested(L: seq<Line>, p: int) {
    Dash(L, p) && Child(L, p) && !BlockStart(L, p) && !HasSibling(L, p)
  }

  predicate Continues(L: seq<Line>, p: int, t: int) {
    Ind(L, t) > Ind(L, p) || (Ind(L, t) == Ind(L, p) && Dash(L, t))
  }

  predicate OpenTo(L: seq<Line>, p: int, i: int) {
    forall t :: p < t < i ==> Continues(L, p, t)
  }

  /** The first line after a misplaced list: here the source raises. */
  ghost predicate ClosesNested(L: seq<Line>, r: int) {
    exists p :: 0 <= p < r && Nested(L, p) && OpenTo(L, p, r) && !Continues(L, p, r)
  }

  predicate Lexes(d: Doc, p: int) {
    0 <= p < |d.lines| &&
    var text := d.lines[p].text;
    if IsDash(text) then
      var content := Content(text);
      if HasColon(content) then Blank(RestOf(content)) || Scalar(d, RestOf(content)).Some?
      else Scalar(d, content).Some?
    else HasColon(text) && (Blank(RestOf(text)) || Scalar(d, RestOf(text)).Some?)
  }

  /** A line the parser consumes without complaint. */
  ghost predicate Sound(d: Doc, p: int) {
    Accepted(d.lines, p) && Lexes(d, p) && !ClosesNested(d.lines, p)
  }

  /** A line under a dict item that is not two deeper than it, starts no block and has no
      sibling, with no misplaced list open around it: here the item loop never ends. */
  ghost predicate Stray(L: seq<Line>, p: int) {
    && 0 <= p < |L| && !BlockStart(L, p) && !HasSibling(L, p)
    && exists q :: Innermost(L, q, p) && Ind(L, p) != Ind(L, q) + 2 && NoneNested(L, q, p)
  }

  ghost predicate NoneNested(L: seq<Line>, q: int, p: int) {
    forall t :: q < t < p ==> !Nested(L, t)
  }

  lemma AcceptedNotStray(L: seq<Line>, p: int)
    requires Accepted(L, p)
    ensures !Stray(L, p)
  {
    forall q, q' | Innermost(L, q, p) && Innermost(L, q', p) ensures q == q' {
    }
  }

  /* ---- what each parser's outcome says about the lines ---- */

  /** Nothing in `[i, j)` makes line `j` belong with it. */
  ghost predicate Unlinked(L: seq<Line>, i: int, j: int) {
    && (i < j ==> !BlockStart(L, j))
    && (forall r :: i <= r < j ==> !SiblingOf(L, r, j) && !Encloses(L, r, j))
  }

  /** Lines `[i, j)` were consumed at this depth or deeper, and line `j` was left. */
  ghost predicate Done(d: Doc, i: nat, j: nat, depth: nat) {
    && i <= j <= |d.lines|
    && (forall r :: i <= r < j ==> Ind(d.lines, r) >= depth && Sound(d, r))
    && (forall r :: i < r < j ==> !Nested(d.lines, r))
    && (j < |d.lines| ==> Unlinked(d.lines, i, j))
  }

  ghost predicate AllSound(d: Doc, i: int, p: int) {
    forall r :: i <= r < p ==> Sound(d, r)
  }

  /** `p` is the first line after `i` that stops the parser; the end stands for a misplaced list
      that reaches it. */
  ghost predicate Fault(d: Doc, i: nat, p: nat, hangs: bool) {
    && i <= p <= |d.lines| && AllSound(d, i, p)
    && if hangs then Stray(d.lines, p)
       else if p == |d.lines| then exists r :: 0 <= r < |d.lines| && Nested(d.lines, r)
       else !Sound(d, p) && !Stray(d.lines, p)
  }

  ghost predicate Faulty(d: Doc, i: nat, hangs: bool) {
    exists p :: Fault(d, i, p, hangs)
  }

  ghost predicate Explains(d: Doc, i: nat, depth: nat, r: Outcome) {
    match r
    case Ok(_, j) => Done(d, i, j, depth)
    case Raises(_) => Faulty(d, i, false)
    case Hangs => Faulty(d, i, true)
  }

  /** Every misplaced list still open at `i` started at less than this depth. */
  ghost predicate Outer(L: seq<Line>, i: int, bound: nat) {
    forall p :: 0 <= p < i && Nested(L, p) && OpenTo(L, p, i) ==> Ind(L, p) < bound
  }

  lemma FaultFurther(d: Doc, i: nat, i': nat, hangs: bool)
    requires i <= i' && AllSound(d, i, i')
    requires Faulty(d, i', hangs)
    ensures Faulty(d, i, hangs)
  {
    var p :| Fault(d, i', p, hangs);
    assert Fault(d, i, p, hangs);
  }

  /** A consumed line at the block's own depth closes no misplaced list. */
  lemma KeepsNestedOpen(L: seq<Line>, i: nat, depth: nat)
    requires i < |L| && Ind(L, i) == depth
    requires Outer(L, i, if Dash(L, i) then depth + 1 else depth)
    ensures !ClosesNested(L, i)
  {
  }

  lemma LexicalFault(d: Doc, i: nat)
    requires i < |d.lines| && Accepted(d.lines, i) && !Lexes(d, i)
    ensures Faulty(d, i, false)
  {
    AcceptedNotStray(d.lines, i);
    assert Fault(d, i, i, false);
  }

  lemma {:induction false} BlockOutcome(d: Doc, i: nat, depth: nat)
    requires i <= |d.lines| && Outer(d.lines, i, depth)
    requires i < |d.lines| && Ind(d.lines, i) == depth ==> Accepted(d.lines, i)
    ensures Explains(d, i, depth, ParseBlock(d, i, depth))
    ensures ParseBlock(d, i, depth).Ok? ==> (ParseBlock(d, i, depth).value.List? <==> AtItem(d, i, depth))
    ensures ParseBlock(d, i, depth).Ok? && ParseBlock(d, i, depth).next > i ==> Ind(d.lines, i) == depth
    ensures ParseBlock(d, i, depth).Ok? && AtItem(d, i, depth) ==> ListEnds(d, i, ParseBlock(d, i, depth).next, depth)
    decreases |d.lines| - i, 2
  {
    if i == |d.lines| || d.lines[i].indent < depth {
    } else if d.lines[i].indent == depth && IsDash(d.lines[i].text) {
      ListOutcome(d, i, depth, []);
    } else {
      DictOutcome(d, i, depth, []);
    }
  }

  /** All lines of `[i, j)` at the list's own depth are items, and line `j` is not. */
  ghost predicate ListEnds(d: Doc, i: nat, j: nat, depth: nat) {
    && (forall r :: i <= r < j && Ind(d.lines, r) == depth ==> Dash(d.lines, r))
    && !AtItem(d, j, depth)
  }

  lemma {:induction false} DictOutcome(d: Doc, i: nat, depth: nat, data: seq<Pair>)
    requires i <= |d.lines| && Outer(d.lines, i, depth)
    requires AtEntry(d, i, depth) ==> Accepted(d.lines, i)
    ensures Explains(d, i, depth, ParseDict(d, i, depth, data))
    decreases |d.lines| - i, 1
  {
    hide Sound, Nested, Accepted, Took, Outer, Fault, Done;
    var L := d.lines;
    NothingDone(d, i, depth);
    if AtEntry(d, i, depth) {
      EntryOutcome(d, i, depth);
      match ParseEntry(d, i, depth)
      case Ok(v, j) =>
        NextEntry(d, i, j, depth);
        DictOutcome(d, j, depth, Put(data, KeyOf(L[i].text), v));
        match ParseDict(d, j, depth, Put(data, KeyOf(L[i].text), v)) {
          case Ok(_, k) => JoinDone(d, i, j, k, depth);
          case Raises(_) => FaultFurther(d, i, j, false);
          case Hangs => FaultFurther(d, i, j, true);
        }
      case _ =>
    }
  }

  /** One consumed line and what it took in: everything after it is deeper. */
  ghost predicate Took(d: Doc, i: nat, j: nat, depth: nat) {
    && i < j <= |d.lines| && Ind(d.lines, i) == depth
    && Sound(d, i)
    && (forall r :: i < r < j ==> Ind(d.lines, r) > depth && Sound(d, r) && !Nested(d.lines, r))
    && (j < |d.lines| ==> Unlinked(d.lines, i + 1, j) && !BlockStart(d.lines, j))
    && (j < |d.lines| ==> !Encloses(d.lines, i, j))
  }

  lemma TookEntry(d: Doc, i: nat, j: nat, depth: nat)
    requires AtEntry(d, i, depth) && Sound(d, i) && i < j <= |d.lines|
    requires forall t :: i < t < j ==> Ind(d.lines, t) >= depth + 2 && Sound(d, t) && !Nested(d.lines, t)
    requires (j == i + 1 && !Opens(d.lines, i))
          || (j < |d.lines| ==> Unlinked(d.lines, i + 1, j) && !BlockStart(d.lines, j))
    ensures Took(d, i, j, depth)
  {
    hide Sound, Nested;
  }

  lemma {:induction false} EntryOutcome(d: Doc, i: nat, depth: nat)
    requires AtEntry(d, i, depth) && Accepted(d.lines, i) && Outer(d.lines, i, depth)
    ensures match ParseEntry(d, i, depth)
      case Ok(_, j) => Took(d, i, j, depth)
      case Raises(_) => Faulty(d, i, false)
      case Hangs => Faulty(d, i, true)
    decreases |d.lines| - i, 0
  {
    hide Nested, Accepted, Stray, Fault, ClosesNested, Scalar, Unlinked, Took;
    var L := d.lines;
    if !Lexes(d, i) {
      LexicalFault(d, i);
    } else {
      KeepsNestedOpen(L, i, depth);
      assert Sound(d, i);
      if Blank(RestOf(L[i].text)) {
        assert Opens(L, i);
        OuterAfter(L, i, depth);
        AcceptedStart(L, i + 1);
        BlockOutcome(d, i + 1, depth + 2);
        AfterBlock(d, i, depth, ParseBlock(d, i + 1, depth + 2));
        if ParseBlock(d, i + 1, depth + 2).Ok? {
          TookEntry(d, i, ParseBlock(d, i + 1, depth + 2).next, depth);
        }
      } else {
        TookEntry(d, i, i + 1, depth);
      }
    }
  }

  /** The lists still open inside a block opened at `i` started no deeper than line `i`. */
  lemma OuterAfter(L: seq<Line>, i: nat, depth: nat)
    requires i < |L| && Ind(L, i) == depth && Outer(L, i, depth + 1)
    ensures Outer(L, i + 1, depth + 2)
  {
  }

  lemma AcceptedStart(L: seq<Line>, p: int)
    ensures BlockStart(L, p) ==> Accepted(L, p) && !Nested(L, p)
  {
  }

  /** A block opened by line `i` was consumed: nothing is left linked to line `i`. */
  lemma AfterBlock(d: Doc, i: nat, depth: nat, r: Outcome)
    requires i < |d.lines| && Ind(d.lines, i) == depth && Opens(d.lines, i) && Sound(d, i)
    requires Explains(d, i + 1, depth + 2, r)
    requires r.Ok? && r.next == i + 1 < |d.lines| ==> Ind(d.lines, i + 1) != depth + 2
    requires !(r.Ok? && r.next > i + 1 && Nested(d.lines, i + 1))
    ensures match r
      case Ok(_, j) => i < j <= |d.lines|
        && (forall t :: i < t < j ==> Ind(d.lines, t) >= depth + 2 && Sound(d, t) && !Nested(d.lines, t))
        && (j < |d.lines| ==> Unlinked(d.lines, i + 1, j) && !BlockStart(d.lines, j))
      case Raises(_) => Faulty(d, i, false)
      case Hangs => Faulty(d, i, true)
  {
    hide Sound, Nested, Fault;
    assert AllSound(d, i, i + 1);
    match r
    case Ok(_, j) =>
    case Raises(_) => FaultFurther(d, i, i + 1, false);
    case Hangs => FaultFurther(d, i, i + 1, true);
  }

  /** After a consumed entry the loop stands at a sibling, if anywhere at its own depth. */
  lemma NextEntry(d: Doc, i: nat, j: nat, depth: nat)
    requires Took(d, i, j, depth) && Outer(d.lines, i, depth) && !Dash(d.lines, i)
    ensures Outer(d.lines, j, depth)
    ensures AtEntry(d, j, depth) ==> Accepted(d.lines, j) && !Nested(d.lines, j)
    ensures j < |d.lines| && !AtEntry(d, j, depth) ==> !SiblingOf(d.lines, i, j)
    ensures AllSound(d, i, j)
  {
    hide Sound, Lexes, ClosesNested, Stray;
    var L := d.lines;
    if AtEntry(d, j, depth) {
      assert SiblingOf(L, i, j);
    }
    forall p | 0 <= p < j && Nested(L, p) && OpenTo(L, p, j) ensures Ind(L, p) < depth {
      assert OpenTo(L, p, i);
    }
  }

  lemma NothingDone(d: Doc, i: nat, depth: nat)
    requires i <= |d.lines|
    ensures Done(d, i, i, depth)
  {
  }

  lemma JoinDone(d: Doc, i: nat, j: nat, k: nat, depth: nat)
    requires Took(d, i, j, depth) && Done(d, j, k, depth)
    requires j < k ==> Ind(d.lines, j) == depth && !Nested(d.lines, j)
    requires j == k < |d.lines| ==> !SiblingOf(d.lines, i, k)
    ensures Done(d, i, k, depth)
  {
    hide Sound, Nested, Lexes, ClosesNested, Stray, ItemHead, BlockStart, Dash;
    var L := d.lines;
    if k < |L| {
      forall r | i <= r < k ensures !SiblingOf(L, r, k) && !Encloses(L, r, k) {
        if r < j < k {
          assert Ind(L, j) == depth;
        }
      }
    }
  }

  /* ---- lists ---- */

  lemma {:induction false} ListOutcome(d: Doc, i: nat, depth: nat, items: seq<Value>)
    requires i <= |d.lines| && Outer(d.lines, i, depth + 1)
    requires AtItem(d, i, depth) ==> Accepted(d.lines, i)
    ensures Explains(d, i, depth, ParseList(d, i, depth, items))
    ensures ParseList(d, i, depth, items).Ok? ==> ListEnds(d, i, ParseList(d, i, depth, items).next, depth)
    decreases |d.lines| - i, 1
  {
    hide Sound, Nested, Accepted, Took, Outer, Fault, Done;
    var L := d.lines;
    NothingDone(d, i, depth);
    if AtItem(d, i, depth) {
      ItemOutcome(d, i, depth);
      match ParseItem(d, i, depth)
      case Ok(v, j) =>
        NextItem(d, i, j, depth);
        ListOutcome(d, j, depth, items + [v]);
        match ParseList(d, j, depth, items + [v]) {
          case Ok(_, k) =>
            JoinDone(d, i, j, k, depth);
            JoinList(d, i, j, k, depth);
          case Raises(_) => FaultFurther(d, i, j, false);
          case Hangs => FaultFurther(d, i, j, true);
        }
      case _ =>
    }
  }

  lemma JoinList(d: Doc, i: nat, j: nat, k: nat, depth: nat)
    requires Took(d, i, j, depth) && Dash(d.lines, i) && ListEnds(d, j, k, depth)
    ensures ListEnds(d, i, k, depth)
  {
  }

  lemma NextItem(d: Doc, i: nat, j: nat, depth: nat)
    requires Took(d, i, j, depth) && Outer(d.lines, i, depth + 1) && Dash(d.lines, i)
    ensures Outer(d.lines, j, depth + 1)
    ensures AtItem(d, j, depth) ==> Accepted(d.lines, j) && !Nested(d.lines, j)
    ensures !AtItem(d, j, depth) ==> !SiblingOf(d.lines, i, j)
    ensures AllSound(d, i, j)
  {
    hide Sound, Lexes, ClosesNested, Stray;
    var L := d.lines;
    if AtItem(d, j, depth) {
      assert SiblingOf(L, i, j);
    }
    forall p | 0 <= p < j && Nested(L, p) && OpenTo(L, p, j) ensures Ind(L, p) < depth + 1 {
      assert p < i ==> OpenTo(L, p, i);
    }
  }

  /** The item loop of the item at `q` stands at line `i`. */
  ghost predicate InItem(d: Doc, q: nat, i: nat, depth: nat) {
    && q < i <= |d.lines| && ItemHead(d.lines, q) && Ind(d.lines, q) == depth && Sound(d, q)
    && (forall t :: q < t < i ==> Ind(d.lines, t) >= depth + 2 && Sound(d, t) && !Nested(d.lines, t))
    && (i < |d.lines| ==> Unlinked(d.lines, q + 1, i) && !BlockStart(d.lines, i))
  }

  lemma {:induction false} ItemOutcome(d: Doc, i: nat, depth: nat)
    requires AtItem(d, i, depth) && Accepted(d.lines, i) && Outer(d.lines, i, depth + 1)
    ensures match ParseItem(d, i, depth)
      case Ok(_, j) => Took(d, i, j, depth)
      case Raises(_) => Faulty(d, i, false)
      case Hangs => Faulty(d, i, true)
    decreases |d.lines| - i, 0
  {
    hide Nested, Accepted, Stray, Fault, ClosesNested, Scalar;
    var L := d.lines;
    var content := Content(L[i].text);
    if !Lexes(d, i) {
      LexicalFault(d, i);
    } else {
      KeepsNestedOpen(L, i, depth);
      assert Sound(d, i);
      OuterAfter(L, i, depth);
      if !HasColon(content) {
        assert !Opens(L, i);
      } else {
        var key, value := KeyOf(content), RestOf(content);
        if !Blank(value) {
          assert !Opens(L, i);
          ItemRest(d, i, i + 1, depth, [Pair(key, Scalar(d, value).value)]);
        } else {
          assert Opens(L, i);
          AcceptedStart(L, i + 1);
          BlockOutcome(d, i + 1, depth + 2);
          var block := ParseBlock(d, i + 1, depth + 2);
          AfterBlock(d, i, depth, block);
          if block.Ok? {
            ItemRest(d, i, block.next, depth, [Pair(key, block.value)]);
          }
        }
      }
    }
  }

  lemma {:induction false} ItemRest(d: Doc, i: nat, j: nat, depth: nat, item: seq<Pair>)
    requires i < j <= |d.lines| && InItem(d, i, j, depth) && Outer(d.lines, i, depth + 1)
    ensures match ParseRest(d, j, depth, item)
      case Ok(_, k) => Took(d, i, k, depth)
      case Raises(_) => Faulty(d, i, false)
      case Hangs => Faulty(d, i, true)
    decreases |d.lines| - j, 4
  {
    hide Sound, Nested, Fault, InItem, Took, Outer;
    OuterInItem(d, i, j, depth);
    ItemSound(d, i, j, depth);
    RestOutcome(d, i, j, depth, item);
    match ParseRest(d, j, depth, item)
    case Ok(_, k) => WholeItem(d, i, k, depth);
    case Raises(_) => FaultFurther(d, i, j, false);
    case Hangs => FaultFurther(d, i, j, true);
  }

  lemma WholeItem(d: Doc, i: nat, k: nat, depth: nat)
    requires InItem(d, i, k, depth) && (k < |d.lines| ==> Ind(d.lines, k) <= depth)
    ensures Took(d, i, k, depth) && AllSound(d, i, k)
  {
    hide Sound, Nested, ItemHead, BlockStart, SiblingOf, Unlinked;
  }

  lemma ItemSound(d: Doc, i: nat, k: nat, depth: nat)
    requires InItem(d, i, k, depth)
    ensures AllSound(d, i, k)
  {
    hide Sound, Nested, Unlinked, ItemHead, BlockStart;
  }

  lemma OuterInItem(d: Doc, q: nat, i: nat, depth: nat)
    requires InItem(d, q, i, depth) && Outer(d.lines, q, depth + 1)
    ensures Outer(d.lines, i, depth + 1)
  {
    hide Sound, Unlinked;
    var L := d.lines;
    forall p | 0 <= p < i && Nested(L, p) && OpenTo(L, p, i) ensures Ind(L, p) < depth + 1 {
      assert p < q ==> OpenTo(L, p, q);
    }
  }

  /** A deeper line at the head of the item loop lies innermost under that item. */
  lemma InnermostHere(d: Doc, q: nat, i: nat, depth: nat)
    requires InItem(d, q, i, depth) && i < |d.lines| && Ind(d.lines, i) > depth
    ensures Innermost(d.lines, q, i) && !HasSibling(d.lines, i)
  {
    hide Sound, Nested;
    var L := d.lines;
    assert Encloses(L, q, i);
    forall r | 0 <= r < i ensures !SiblingOf(L, r, i) {
      assert r < q ==> Ind(L, q) <= Ind(L, i);
    }
  }

  lemma StrayHere(d: Doc, q: nat, i: nat, depth: nat)
    requires InItem(d, q, i, depth) && i < |d.lines| && Ind(d.lines, i) > depth && Ind(d.lines, i) != depth + 2
    ensures Faulty(d, i, true)
  {
    hide Sound;
    InnermostHere(d, q, i, depth);
    assert NoneNested(d.lines, q, i);
    assert Fault(d, i, i, true);
  }

  lemma ChildHere(d: Doc, q: nat, i: nat, depth: nat)
    requires InItem(d, q, i, depth) && i < |d.lines| && Ind(d.lines, i) == depth + 2
    ensures Accepted(d.lines, i)
  {
    hide Sound, Nested;
    InnermostHere(d, q, i, depth);
    assert Child(d.lines, i);
  }

  lemma {:induction false} RestOutcome(d: Doc, q: nat, i: nat, depth: nat, item: seq<Pair>)
    requires q < i <= |d.lines| && InItem(d, q, i, depth) && Outer(d.lines, i, depth + 1)
    ensures match ParseRest(d, i, depth, item)
      case Ok(_, k) => q < k && InItem(d, q, k, depth) && (k < |d.lines| ==> Ind(d.lines, k) <= depth)
      case Raises(_) => Faulty(d, i, false)
      case Hangs => Faulty(d, i, true)
    decreases |d.lines| - i, 3
  {
    hide Sound, Nested, Accepted, Stray, Fault, Done, ClosesNested, Scalar, InItem;
    var L := d.lines;
    if i < |L| && Ind(L, i) > depth {
      if Ind(L, i) != depth + 2 {
        StuckForEver(d, i, depth, item, 0);
        StrayHere(d, q, i, depth);
      } else {
        ChildHere(d, q, i, depth);
        BlockOutcome(d, i, depth + 2);
        match ParseBlock(d, i, depth + 2)
        case Ok(child, j) =>
          if child.List? {
            MisplacedList(d, q, i, j, depth);
          } else {
            NextChild(d, q, i, j, depth);
            RestOutcome(d, q, j, depth, Update(item, child.entries));
            match ParseRest(d, j, depth, Update(item, child.entries)) {
              case Ok(_, _) =>
              case Raises(_) => FaultFurther(d, i, j, false);
              case Hangs => FaultFurther(d, i, j, true);
            }
          }
        case _ =>
      }
    }
  }

  lemma NoDashNotNested(L: seq<Line>, i: int)
    requires !Dash(L, i)
    ensures !Nested(L, i)
  {
  }

  lemma NextChild(d: Doc, q: nat, i: nat, j: nat, depth: nat)
    requires InItem(d, q, i, depth) && Outer(d.lines, i, depth + 1)
    requires i < j && Done(d, i, j, depth + 2) && Ind(d.lines, i) == depth + 2 && !Dash(d.lines, i)
    ensures InItem(d, q, j, depth) && Outer(d.lines, j, depth + 1) && AllSound(d, i, j)
  {
    hide Sound, Nested, Accepted, Unlinked, OpenTo;
    NoDashNotNested(d.lines, i);
    StillUnlinked(d, q, i, j, depth);
    OuterDone(d, i, j, depth + 2, depth + 1);
  }

  lemma StillUnlinked(d: Doc, q: nat, i: nat, j: nat, depth: nat)
    requires InItem(d, q, i, depth)
    requires i < j && Done(d, i, j, depth + 2) && Ind(d.lines, i) == depth + 2
    ensures j < |d.lines| ==> Unlinked(d.lines, q + 1, j) && !BlockStart(d.lines, j)
  {
    hide Sound, Nested;
    var L := d.lines;
    if j < |L| {
      forall r | q + 1 <= r < j ensures !SiblingOf(L, r, j) && !Encloses(L, r, j) {
        if r < i {
          assert Ind(L, r) >= Ind(L, i);
        }
      }
    }
  }

  lemma OuterDone(d: Doc, i: nat, j: nat, depth: nat, bound: nat)
    requires Outer(d.lines, i, bound) && i < j && Done(d, i, j, depth) && !Nested(d.lines, i)
    ensures Outer(d.lines, j, bound)
  {
    hide Sound, Nested, Unlinked;
    var L := d.lines;
    forall p | 0 <= p < j && Nested(L, p) && OpenTo(L, p, j) ensures Ind(L, p) < bound {
      assert p < i;
      assert OpenTo(L, p, i);
    }
  }

  /** A list under an item where only keys may stand: the line after it is the fault. */
  lemma MisplacedList(d: Doc, q: nat, i: nat, j: nat, depth: nat)
    requires InItem(d, q, i, depth) && i < j && Ind(d.lines, i) == depth + 2 && AtItem(d, i, depth + 2)
    requires Done(d, i, j, depth + 2) && ListEnds(d, i, j, depth + 2)
    ensures Faulty(d, i, false)
  {
    var L := d.lines;
    InnermostHere(d, q, i, depth);
    assert Child(L, i);
    assert Nested(L, i);
    if j < |L| {
      OnlyOuterItems(d, q, i, j, depth);
      if Continues(L, i, j) {
        NotAccepted(d, q, i, j, depth);
      } else {
        assert OpenTo(L, i, j);
        assert ClosesNested(L, j);
      }
      assert !Stray(L, j);
    }
    assert Fault(d, i, j, false);
  }

  /** No dict item at or after the misplaced list, nor between it and its item, is open at `j`. */
  lemma OnlyOuterItems(d: Doc, q: nat, i: nat, j: nat, depth: nat)
    requires InItem(d, q, i, depth) && i < j < |d.lines| && Ind(d.lines, i) == depth + 2 && Nested(d.lines, i)
    requires Done(d, i, j, depth + 2)
    ensures forall r :: q < r < j ==> !Encloses(d.lines, r, j)
    ensures !Stray(d.lines, j)
  {
    var L := d.lines;
    forall r | q < r < j ensures !Encloses(L, r, j) {
      if r < i {
        assert Ind(L, r) >= Ind(L, i);
      }
    }
    forall q' | Innermost(L, q', j) ensures !NoneNested(L, q', j) {
      assert q' <= q < i < j && Nested(L, i);
    }
  }

  lemma NotAccepted(d: Doc, q: nat, i: nat, j: nat, depth: nat)
    requires InItem(d, q, i, depth) && i < j < |d.lines| && Ind(d.lines, i) == depth + 2 && Dash(d.lines, i)
    requires Done(d, i, j, depth + 2) && ListEnds(d, i, j, depth + 2) && Continues(d.lines, i, j)
    requires forall r :: q < r < j ==> !Encloses(d.lines, r, j)
    ensures !Accepted(d.lines, j)
  {
    hide Sound, Nested, Stray;
    var L := d.lines;
    assert Ind(L, j) > depth + 2;
    forall r | 0 <= r < j ensures !SiblingOf(L, r, j) {
      assert r < i ==> Ind(L, i) <= Ind(L, j);
    }
    assert Encloses(L, q, j);
    assert Innermost(L, q, j);
    forall q' | Innermost(L, q', j) ensures q' == q {
    }
  }

  /* ---- the theorems ---- */

  lemma ProfileOutcome(d: Doc)
    ensures Explains(d, 0, 0, ParseBlock(d, 0, 0))
    ensures ParseBlock(d, 0, 0).Ok? ==> (ParseBlock(d, 0, 0).value.List? <==> AtItem(d, 0, 0))
    ensures ParseBlock(d, 0, 0).Ok? && ParseBlock(d, 0, 0).next < |d.lines| ==>
      !Sound(d, ParseBlock(d, 0, 0).next) && !Stray(d.lines, ParseBlock(d, 0, 0).next)
  {
    BlockOutcome(d, 0, 0);
    var r := ParseBlock(d, 0, 0);
    if r.Ok? && r.next < |d.lines| {
      assert forall q :: !Encloses(d.lines, q, r.next);
    }
  }

  /** The parser runs for ever exactly when the first line that is not sound is a stray one. */
  lemma HangsExactly(d: Doc)
    ensures Parse(d).Hangs? <==> exists p :: Stray(d.lines, p) && AllSound(d, 0, p)
  {
    hide Sound, Stray, Done;
    ProfileOutcome(d);
    var r := ParseBlock(d, 0, 0);
    if r.Hangs? {
      var p: nat :| Fault(d, 0, p, true);
      assert Stray(d.lines, p) && AllSound(d, 0, p);
    } else if exists p :: Stray(d.lines, p) && AllSound(d, 0, p) {
      var p :| Stray(d.lines, p) && AllSound(d, 0, p);
      NoStray(d, p);
    }
  }

  lemma NoStray(d: Doc, p: int)
    requires Stray(d.lines, p) && AllSound(d, 0, p)
    ensures ParseBlock(d, 0, 0).Hangs?
  {
    hide Sound, Stray, Done, Fault;
    ProfileOutcome(d);
    StrayNotSound(d, p);
    StrayIsLine(d, p);
    var r := ParseBlock(d, 0, 0);
    assert !r.Ok? by {
      if r.Ok? {
        DoneBefore(d, r.next, p);
      }
    }
    assert !r.Raises? by {
      forall p': nat ensures !Fault(d, 0, p', false) {
        NoOtherFault(d, p, p');
      }
    }
  }

  lemma DoneBefore(d: Doc, j: nat, p: int)
    requires Done(d, 0, j, 0) && AllSound(d, 0, p) && !Sound(d, p) && 0 <= p < |d.lines|
    ensures j <= p && (j < p ==> Sound(d, j))
  {
    hide Sound;
  }

  lemma NoOtherFault(d: Doc, p: int, p': nat)
    requires Stray(d.lines, p) && AllSound(d, 0, p) && !Sound(d, p) && 0 <= p < |d.lines|
    ensures !Fault(d, 0, p', false)
  {
    hide Sound, Stray;
    assert p' < p ==> Sound(d, p');
  }

  lemma AllSoundNoStray(d: Doc)
    requires AllSound(d, 0, |d.lines|)
    ensures forall p :: !Stray(d.lines, p)
  {
    forall p | 0 <= p < |d.lines| ensures !Stray(d.lines, p) {
      assert Sound(d, p);
      AcceptedNotStray(d.lines, p);
    }
  }

  lemma StrayIsLine(d: Doc, p: int)
    requires Stray(d.lines, p)
    ensures 0 <= p < |d.lines|
  {
  }

  lemma StrayNotSound(d: Doc, p: int)
    requires Stray(d.lines, p)
    ensures !Sound(d, p)
  {
    if Accepted(d.lines, p) {
      AcceptedNotStray(d.lines, p);
    }
  }

  /** It returns a profile exactly when every line is sound, no list is misplaced, and the first
      line is not a list item. */
  lemma SucceedsExactly(d: Doc)
    ensures Parse(d).Ok? <==> AllSound(d, 0, |d.lines|) && (forall p :: 0 <= p < |d.lines| ==> !Nested(d.lines, p))
                              && !Dash(d.lines, 0)
  {
    ProfileOutcome(d);
    var r := ParseBlock(d, 0, 0);
    if Parse(d).Ok? {
      assert r.next == |d.lines|;
    } else if AllSound(d, 0, |d.lines|) && (forall p :: 0 <= p < |d.lines| ==> !Nested(d.lines, p)) && !Dash(d.lines, 0) {
      HangsExactly(d);
      AllSoundNoStray(d);
    }
  }

  /** `parse_block` advances exactly when the current line stands at the depth asked for. */
  lemma BlockAdvances(d: Doc, i: nat, depth: nat)
    requires i <= |d.lines| && ParseBlock(d, i, depth).Ok?
    ensures ParseBlock(d, i, depth).next > i <==> i < |d.lines| && d.lines[i].indent == depth
  {
  }

  /** A document whose every line is accepted where it stands never hangs the parser. */
  lemma AcceptedNeverHangs(d: Doc)
    requires forall p :: 0 <= p < |d.lines| ==> Accepted(d.lines, p)
    ensures !Parse(d).Hangs?
  {
    HangsExactly(d);
    forall p ensures !Stray(d.lines, p) {
      if 0 <= p < |d.lines| {
        AcceptedNotStray(d.lines, p);
      }
    }
  }

  /** Neither does one without dict items in its lists. */
  lemma NoItemsNeverHangs(d: Doc)
    requires forall q :: 0 <= q < |d.lines| ==> !ItemHead(d.lines, q)
    ensures !Parse(d).Hangs?
  {
    HangsExactly(d);
    assert forall q, p :: Innermost(d.lines, q, p) ==> ItemHead(d.lines, q);
  }

  /** A deeper line is two deeper than the line before it and follows a line that opens a block. */
  ghost predicate PlainlyNested(L: seq<Line>) {
    && Ind(L, 0) == 0
    && forall p :: 0 < p < |L| && Ind(L, p) > Ind(L, p - 1) ==> BlockStart(L, p)
  }

  ghost predicate HangingExample(d: Doc) {
    d.lines == [Line(0, "p:"), Line(2, "- a:"), Line(4, "k:"), Line(6, "- x"), Line(6, "y: 1")]
  }

  lemma ExampleList(d: Doc)
    requires HangingExample(d)
    ensures ParseBlock(d, 3, 6).Ok? && ParseBlock(d, 3, 6).next == 4
  {
    assert !HasColon("x") && Content(d.lines[3].text) == "x";
    assert "y: 1"[0] != '-';
    assert ParseItem(d, 3, 6).Ok?;
    var x := ParseItem(d, 3, 6).value;
    assert ParseList(d, 4, 6, [] + [x]) == Ok(List([] + [x]), 4);
  }

  lemma ExampleDict(d: Doc)
    requires HangingExample(d)
    ensures ParseBlock(d, 2, 4).Ok? && ParseBlock(d, 2, 4).next == 4
  {
    ExampleList(d);
    assert "k:"[0] != '-' && RestOf("k:") == "";
    assert ParseEntry(d, 2, 4) == ParseBlock(d, 3, 6);
    var y := Put([], KeyOf("k:"), ParseBlock(d, 3, 6).value);
    assert ParseDict(d, 4, 4, y) == Ok(Dict(y), 4);
  }

  lemma ExampleItem(d: Doc)
    requires HangingExample(d)
    ensures ParseBlock(d, 1, 2) == Hangs
  {
    ExampleDict(d);
    assert Content(d.lines[1].text) == "a:" && RestOf("a:") == "" && KeyOf("a:") == "a";
    StuckForEver(d, 4, 2, [Pair("a", ParseBlock(d, 2, 4).value)], 0);
    assert ParseItem(d, 1, 2) == Hangs;
  }

  /** That is not enough: after a list of scalars inside a dict item, a key at the list's own
      depth has no loop to return to. */
  lemma PlainNestingCanHang(d: Doc)
    requires HangingExample(d)
    ensures PlainlyNested(d.lines) && Parse(d).Hangs?
  {
    ExampleItem(d);
    assert "p:"[0] != '-' && HasColon("p:") && RestOf("p:") == "";
    assert AtEntry(d, 0, 0);
    assert ParseEntry(d, 0, 0) == Hangs;
    assert ParseDict(d, 0, 0, []) == Hangs;
    ExampleOpens(d.lines);
  }

  lemma ExampleOpens(L: seq<Line>)
    requires L == [Line(0, "p:"), Line(2, "- a:"), Line(4, "k:"), Line(6, "- x"), Line(6, "y: 1")]
    ensures PlainlyNested(L)
  {
    ExampleOpensAt(L, 0);
    ExampleOpensAt(L, 1);
    ExampleOpensAt(L, 2);
    hide Opens;
    assert BlockStart(L, 1) && BlockStart(L, 2) && BlockStart(L, 3);
  }

  lemma ExampleOpensAt(L: seq<Line>, t: nat)
    requires t < |L| && L[t].text in ["p:", "- a:", "k:"]
    ensures Opens(L, t)
  {
    assert "p:"[0] != '-' && RestOf("p:") == "";
    assert "k:"[0] != '-' && RestOf("k:") == "";
    assert Content("- a:") == "a:" && RestOf("a:") == "";
  }
}
