/** `_summarize_payload`: what a probe report keeps of an endpoint's answer, and what it gives away. */
module Summaries {
  import opened Text
  import opened Json
  import opened Redaction

  const MAX_ITEMS := 200

  /* ---- items ---- */

  const KNOWN: seq<string> := ["name", "partition", "state", "qos", "qos_allowed", "default", "nodes", "job_id",
    "job_state", "user_name", "user", "version", "slurm_version"]

  /** Lexicographic order on code points. */
  predicate AtMost(a: string, b: string) {
    a == "" || (b != "" && (a[0] < b[0] || (a[0] == b[0] && AtMost(a[1..], b[1..]))))
  }

  function InsertKey(k: string, sorted: seq<string>): seq<string> {
    if sorted == [] || AtMost(k, sorted[0]) then [k] + sorted else [sorted[0]] + InsertKey(k, sorted[1..])
  }

  function SortKeys(es: seq<Entry>): seq<string> {
    if es == [] then [] else InsertKey(es[0].key, SortKeys(es[1..]))
  }

  /** The entries under the given keys, in the order of the keys. */
  function Pick(es: seq<Entry>, keys: seq<string>): seq<Entry> {
    if keys == [] then []
    else
      match Lookup(es, keys[0])
      case None => Pick(es, keys[1..])
      case Some(v) => [Entry(keys[0], v)] + Pick(es, keys[1..])
  }

  function FirstTen(keys: seq<string>): seq<string> {
    if |keys| > 10 then keys[..10] else keys
  }

  function SummarizeItem(item: Json): Json {
    match item
    case Obj(es) =>
      var keep := Pick(es, KNOWN);
      if keep != [] then Obj(keep) else Obj(Pick(es, FirstTen(SortKeys(es))))
    case _ => item
  }

  function SummarizeItems(items: seq<Json>): seq<Json> {
    if items == [] then [] else [SummarizeItem(items[0])] + SummarizeItems(items[1..])
  }

  /* ---- payloads ---- */

  function ObjectPayload(payload: Json): seq<Entry> {
    match payload
    case Obj(es) => es
    case _ => [Entry("value", payload)]
  }

  predicate KeptWhole(key: string) {
    key == "warnings" || key == "errors" || key == "meta"
  }

  /** Values that are summarised as a list, with a count beside it. */
  predicate Counted(e: Entry) {
    !KeptWhole(e.key) && e.value.Arr?
  }

  function FirstItems(items: seq<Json>): seq<Json> {
    if |items| > MAX_ITEMS then items[..MAX_ITEMS] else items
  }

  function SummaryValue(e: Entry): Json {
    if KeptWhole(e.key) then e.value
    else
      match e.value
      case Arr(items) => Arr(SummarizeItems(FirstItems(items)))
      case _ => SummarizeItem(e.value)
  }

  function CountKey(key: string): string {
    key + "_count"
  }

  /** One turn of the loop over the payload's entries. */
  function Summarized(acc: seq<Entry>, e: Entry): seq<Entry> {
    var kept := Put(acc, e.key, SummaryValue(e));
    if Counted(e) then Put(kept, CountKey(e.key), Num(|e.value.items| as real)) else kept
  }

  function Summary(es: seq<Entry>): seq<Entry> {
    if es == [] then [] else Summarized(Summary(es[..|es| - 1]), es[|es| - 1])
  }

  function SummarizePayload(payload: Json): Json {
    Redact(Obj(Summary(ObjectPayload(payload))))
  }

  method KeepKnown(es: seq<Entry>) returns (keep: seq<Entry>)
    ensures keep == Pick(es, KNOWN)
  {
    keep := [];
    for i := 0 to |KNOWN|
      invariant keep + Pick(es, KNOWN[i..]) == Pick(es, KNOWN)
      invariant Keys(keep) <= KeySet(KNOWN[..i])
    {
      KnownAt(i);
      var found := Lookup(es, KNOWN[i]);
      if found.Some? {
        PutNew(keep, KNOWN[i], found.value);
        KeysAppend(keep, [Entry(KNOWN[i], found.value)]);
        assert keep + ([Entry(KNOWN[i], found.value)] + Pick(es, KNOWN[i + 1..]))
            == (keep + [Entry(KNOWN[i], found.value)]) + Pick(es, KNOWN[i + 1..]);
        keep := Put(keep, KNOWN[i], found.value);
      }
    }
  }

  function KeySet(keys: seq<string>): set<string> {
    set k | k in keys
  }

  lemma KnownAt(i: nat)
    requires i < |KNOWN|
    ensures KNOWN[i] !in KNOWN[..i]
    ensures KeySet(KNOWN[..i + 1]) == KeySet(KNOWN[..i]) + {KNOWN[i]}
  {
    assert KNOWN[..i + 1] == KNOWN[..i] + [KNOWN[i]];
  }

  method SummarizeOne(item: Json) returns (r: Json)
    ensures r == SummarizeItem(item)
  {
    match item {
      case Obj(es) =>
        var keep := KeepKnown(es);
        if keep == [] {
          keep := Pick(es, FirstTen(SortKeys(es)));
        }
        r := Obj(keep);
      case _ =>
        r := item;
    }
  }

  method SummarizeList(items: seq<Json>) returns (summaries: seq<Json>)
    ensures summaries == SummarizeItems(items)
  {
    summaries := [];
    for i := 0 to |items|
      invariant summaries + SummarizeItems(items[i..]) == SummarizeItems(items)
    {
      var item := SummarizeOne(items[i]);
      assert summaries + ([item] + SummarizeItems(items[i + 1..])) == (summaries + [item]) + SummarizeItems(items[i + 1..]);
      summaries := summaries + [item];
    }
  }

  method Summarize(payload: Json) returns (r: Json)
    ensures r == SummarizePayload(payload)
  {
    var es := ObjectPayload(payload);
    var summary: seq<Entry> := [];
    for i := 0 to |es|
      invariant summary == Summary(es[..i])
    {
      assert es[..i + 1][..i] == es[..i];
      var e := es[i];
      match e.value {
        case Arr(items) =>
          if KeptWhole(e.key) {
            summary := Put(summary, e.key, e.value);
          } else {
            var summaries := SummarizeList(FirstItems(items));
            summary := Put(summary, e.key, Arr(summaries));
            summary := Put(summary, CountKey(e.key), Num(|items| as real));
          }
        case _ =>
          if KeptWhole(e.key) {
            summary := Put(summary, e.key, e.value);
          } else {
            var item := SummarizeOne(e.value);
            summary := Put(summary, e.key, item);
          }
      }
    }
    assert es[..|es|] == es;
    r := Redact(Obj(summary));
  }

  /* ---- the key order ---- */

  lemma {:induction false} AtMostTotal(a: string, b: string)
    ensures AtMost(a, b) || AtMost(b, a)
  {
    if a != "" && b != "" {
      AtMostTotal(a[1..], b[1..]);
    }
  }

  predicate Sorted(keys: seq<string>) {
    |keys| > 1 ==> AtMost(keys[0], keys[1]) && Sorted(keys[1..])
  }

  lemma {:induction false} InsertSorted(k: string, keys: seq<string>)
    requires Sorted(keys)
    ensures Sorted(InsertKey(k, keys)) && multiset(InsertKey(k, keys)) == multiset(keys) + multiset{k}
    ensures InsertKey(k, keys)[0] == if keys == [] || AtMost(k, keys[0]) then k else keys[0]
  {
    if keys == [] || AtMost(k, keys[0]) {
      assert ([k] + keys)[1..] == keys;
    } else {
      AtMostTotal(k, keys[0]);
      InsertSorted(k, keys[1..]);
      var r := InsertKey(k, keys[1..]);
      assert ([keys[0]] + r)[1..] == r;
      assert keys == [keys[0]] + keys[1..];
    }
  }

  function KeyList(es: seq<Entry>): seq<string> {
    seq(|es|, i requires 0 <= i < |es| => es[i].key)
  }

  lemma KeyListCons(es: seq<Entry>)
    ensures es != [] ==> multiset(KeyList(es)) == multiset(KeyList(es[1..])) + multiset{es[0].key}
    ensures KeyList([]) == [] && Sorted([])
  {
    assert es != [] ==> KeyList(es) == [es[0].key] + KeyList(es[1..]);
  }

  /** The fallback sorts exactly the item's keys. */
  lemma {:induction false} SortKeysSorts(es: seq<Entry>)
    ensures Sorted(SortKeys(es)) && multiset(SortKeys(es)) == multiset(KeyList(es))
  {
    hide KeyList, Sorted, InsertKey;
    KeyListCons(es);
    if es != [] {
      SortKeysSorts(es[1..]);
      InsertSorted(es[0].key, SortKeys(es[1..]));
    }
  }

  /** The texts agree before `i`, and there `a` has the smaller character. */
  predicate SmallerAt(a: string, b: string, i: nat) {
    i < |a| && i < |b| && a[i] < b[i] && forall j :: 0 <= j < i ==> a[j] == b[j]
  }

  ghost predicate Smaller(a: string, b: string) {
    exists i: nat :: SmallerAt(a, b, i)
  }

  lemma SmallerTail(a: string, b: string)
    requires a != "" && b != "" && a[0] == b[0]
    ensures Smaller(a, b) <==> Smaller(a[1..], b[1..])
  {
    if Smaller(a, b) {
      var i: nat :| SmallerAt(a, b, i);
      assert SmallerAt(a[1..], b[1..], i - 1);
    }
    if Smaller(a[1..], b[1..]) {
      var i: nat :| SmallerAt(a[1..], b[1..], i);
      assert SmallerAt(a, b, i + 1);
    }
  }

  /** The order is that of the first place where two texts differ; a beginning comes before the whole. */
  lemma {:induction false} AtMostExactly(a: string, b: string)
    ensures AtMost(a, b) <==> a <= b || Smaller(a, b)
  {
    if a != "" && b != "" {
      if a[0] == b[0] {
        AtMostExactly(a[1..], b[1..]);
        SmallerTail(a, b);
        assert a <= b <==> a[1..] <= b[1..];
      } else {
        assert a[0] < b[0] ==> SmallerAt(a, b, 0);
      }
    }
  }

  /* ---- what an item's summary holds ---- */

  /** `at` lists the places from `lo` on in the list of known keys whose keys the item has. */
  ghost predicate KnownPlaces(es: seq<Entry>, keys: seq<string>, lo: nat, at: seq<nat>) {
    && (forall j :: 0 <= j < |at| ==> lo <= at[j] < |keys| && Lookup(es, keys[at[j]]).Some?)
    && (forall j, k :: 0 <= j < k < |at| ==> at[j] < at[k])
    && (forall i :: lo <= i < |keys| && Lookup(es, keys[i]).Some? ==> i in at)
  }

  /** The entries are the item's under the keys at these places, in that order. */
  ghost predicate EntriesAt(es: seq<Entry>, keys: seq<string>, at: seq<nat>, picked: seq<Entry>) {
    && |picked| == |at|
    && forall j :: 0 <= j < |at| ==>
         at[j] < |keys| && picked[j].key == keys[at[j]] && Lookup(es, picked[j].key) == Some(picked[j].value)
  }

  lemma MorePlaces(es: seq<Entry>, keys: seq<string>, lo: nat, rest: seq<nat>)
    requires lo < |keys| && KnownPlaces(es, keys, lo + 1, rest)
    ensures KnownPlaces(es, keys, lo, if Lookup(es, keys[lo]).Some? then [lo] + rest else rest)
  {
    hide Lookup, Keys;
    if Lookup(es, keys[lo]).Some? {
      var at := [lo] + rest;
      forall i | lo <= i < |keys| && Lookup(es, keys[i]).Some?
        ensures i in at
      {
        assert i > lo ==> i in rest;
        assert at[0] == lo;
      }
    }
  }

  lemma MoreEntries(es: seq<Entry>, keys: seq<string>, lo: nat, rest: seq<nat>, picked: seq<Entry>)
    requires lo < |keys| && EntriesAt(es, keys, rest, picked) && Lookup(es, keys[lo]).Some?
    ensures EntriesAt(es, keys, [lo] + rest, [Entry(keys[lo], Lookup(es, keys[lo]).value)] + picked)
  {
  }

  lemma NoPlaces(es: seq<Entry>, keys: seq<string>)
    ensures KnownPlaces(es, keys, |keys|, []) && EntriesAt(es, keys, [], [])
  {
  }

  lemma {:induction false} PickPlaces(es: seq<Entry>, keys: seq<string>, lo: nat) returns (at: seq<nat>)
    requires lo <= |keys|
    ensures KnownPlaces(es, keys, lo, at) && EntriesAt(es, keys, at, Pick(es, keys[lo..]))
    decreases |keys| - lo
  {
    hide KnownPlaces, EntriesAt, Lookup;
    if lo == |keys| {
      at := [];
      NoPlaces(es, keys);
    } else {
      at := PickPlaces(es, keys, lo + 1);
      assert keys[lo..][1..] == keys[lo + 1..];
      MorePlaces(es, keys, lo, at);
      if Lookup(es, keys[lo]).Some? {
        MoreEntries(es, keys, lo, at, Pick(es, keys[lo + 1..]));
        at := [lo] + at;
      }
    }
  }

  /** The entries under the first ten of the sorted keys, or under all when there are no more. */
  ghost predicate FirstSorted(es: seq<Entry>, sorted: seq<string>, picked: seq<Entry>) {
    && Sorted(sorted) && multiset(sorted) == multiset(KeyList(es))
    && |picked| == (if |es| < 10 then |es| else 10)
    && forall j :: 0 <= j < |picked| && j < |sorted| ==>
         picked[j].key == sorted[j] && Lookup(es, sorted[j]) == Some(picked[j].value)
  }

  lemma {:induction false} PickAll(es: seq<Entry>, keys: seq<string>)
    requires forall k :: k in keys ==> Lookup(es, k).Some?
    ensures |Pick(es, keys)| == |keys|
    ensures forall j :: 0 <= j < |keys| ==> Pick(es, keys)[j].key == keys[j] && Lookup(es, keys[j]) == Some(Pick(es, keys)[j].value)
  {
    if keys != [] {
      assert keys[0] in keys;
      PickAll(es, keys[1..]);
    }
  }

  lemma {:induction false} KeyListed(es: seq<Entry>, k: string)
    ensures k in KeyList(es) <==> Lookup(es, k).Some?
  {
    if es != [] {
      KeyListed(es[1..], k);
      assert KeyList(es) == [es[0].key] + KeyList(es[1..]);
    }
  }

  lemma SortedPick(es: seq<Entry>)
    ensures FirstSorted(es, SortKeys(es), Pick(es, FirstTen(SortKeys(es))))
  {
    hide Sorted, AtMost, InsertKey;
    var sorted := SortKeys(es);
    SortKeysSorts(es);
    assert |sorted| == |multiset(sorted)| == |KeyList(es)| == |es|;
    forall k | k in FirstTen(sorted)
      ensures Lookup(es, k).Some?
    {
      assert k in multiset(sorted);
      assert k in KeyList(es);
      KeyListed(es, k);
    }
    PickAll(es, FirstTen(sorted));
  }

  /** An item that has known keys keeps exactly its entries under them, in the order of the list; any
      other dictionary its entries under the first ten keys in sorted order; all else stays whole. */
  lemma ItemSummary(item: Json)
    ensures !item.Obj? ==> SummarizeItem(item) == item
    ensures item.Obj? ==> SummarizeItem(item).Obj?
    ensures item.Obj? && (forall k :: k in KNOWN ==> Lookup(item.entries, k).None?) ==>
      exists sorted :: FirstSorted(item.entries, sorted, SummarizeItem(item).entries)
    ensures item.Obj? && (exists k :: k in KNOWN && Lookup(item.entries, k).Some?) ==>
      exists at :: KnownPlaces(item.entries, KNOWN, 0, at) && EntriesAt(item.entries, KNOWN, at, SummarizeItem(item).entries)
  {
    hide KnownPlaces, EntriesAt, FirstSorted, Pick, SortKeys;
    if item.Obj? {
      var at := PickPlaces(item.entries, KNOWN, 0);
      assert KNOWN[0..] == KNOWN;
      SortedPick(item.entries);
      NothingPicked(item.entries, KNOWN, at, Pick(item.entries, KNOWN));
    }
  }

  lemma NothingPicked(es: seq<Entry>, keys: seq<string>, at: seq<nat>, picked: seq<Entry>)
    requires KnownPlaces(es, keys, 0, at) && EntriesAt(es, keys, at, picked)
    ensures picked == [] <==> forall k :: k in keys ==> Lookup(es, k).None?
  {
    if k :| k in keys && Lookup(es, k).Some? {
      var i :| 0 <= i < |keys| && keys[i] == k;
      assert i in at;
    }
    if picked != [] {
      assert keys[at[0]] in keys && Lookup(es, keys[at[0]]).Some?;
    }
  }

  /* ---- what a payload's summary holds ---- */

  lemma {:induction false} SummarizedItems(items: seq<Json>)
    ensures |SummarizeItems(items)| == |items|
    ensures forall i :: 0 <= i < |items| ==> SummarizeItems(items)[i] == SummarizeItem(items[i])
  {
    hide SummarizeItem;
    if items != [] {
      SummarizedItems(items[1..]);
    }
  }

  /** Warnings, errors and the meta entry stay whole; of a list the first two hundred items are
      summarised, and a dictionary as an item; numbers, texts and the like stay as they are. */
  lemma ValueExactly(e: Entry)
    ensures e.key in ["warnings", "errors", "meta"] ==> SummaryValue(e) == e.value
    ensures e.key !in ["warnings", "errors", "meta"] && e.value.Arr? ==>
      && SummaryValue(e).Arr? && |SummaryValue(e).items| == (if |e.value.items| < 200 then |e.value.items| else 200)
      && forall i :: 0 <= i < |SummaryValue(e).items| ==> SummaryValue(e).items[i] == SummarizeItem(e.value.items[i])
    ensures e.key !in ["warnings", "errors", "meta"] && !e.value.Arr? ==> SummaryValue(e) == SummarizeItem(e.value)
    ensures !e.value.Arr? && !e.value.Obj? ==> SummaryValue(e) == e.value
  {
    if e.value.Arr? {
      SummarizedItems(FirstItems(e.value.items));
    }
  }

  /** Entry `i` writes the key `q`: its own, or that of its count. */
  predicate Writes(es: seq<Entry>, i: int, q: string) {
    && 0 <= i < |es|
    && (q == es[i].key || (q == es[i].key + "_count" && es[i].value.Arr? && es[i].key !in ["warnings", "errors", "meta"]))
  }

  /** Entry `i` is the last that writes the key, or there is none and `i` is -1. */
  predicate LastWrites(es: seq<Entry>, i: int, q: string) {
    (i == -1 || Writes(es, i, q)) && forall j :: i < j < |es| ==> !Writes(es, j, q)
  }

  /** Under every key stands what the last entry that writes it has written: its summarised value, or
      the length of its whole list; under any other key stands nothing. */
  lemma {:induction false} SummaryExactly(es: seq<Entry>, q: string, i: int)
    requires LastWrites(es, i, q)
    ensures Lookup(Summary(es), q) ==
      if i == -1 then None
      else Some(if q == es[i].key then SummaryValue(es[i]) else Num(|es[i].value.items| as real))
  {
    hide SummaryValue, Summarized;
    if es != [] {
      var n := |es| - 1;
      LastTurn(Summary(es[..n]), es, q);
      assert i < n ==> !Writes(es, n, q);
      if i < n {
        assert forall j :: 0 <= j < n ==> (Writes(es[..n], j, q) <==> Writes(es, j, q));
        SummaryExactly(es[..n], q, i);
      }
    }
  }

  lemma LastTurn(acc: seq<Entry>, es: seq<Entry>, q: string)
    requires es != []
    ensures var n := |es| - 1;
      Lookup(Summarized(acc, es[n]), q) ==
        if !Writes(es, n, q) then Lookup(acc, q)
        else Some(if q == es[n].key then SummaryValue(es[n]) else Num(|es[n].value.items| as real))
  {
    hide SummaryValue, Summarized;
    var e := es[|es| - 1];
    SummarizedLookup(acc, e, q);
    assert |e.key + "_count"| > |e.key|;
  }

  /* ---- summaries inherit the marker guarantee ---- */

  lemma SummaryClean(payload: Json)
    ensures Clean(SummarizePayload(payload)) && SummarizePayload(payload).Obj?
    ensures Redact(SummarizePayload(payload)) == SummarizePayload(payload)
  {
    RedactedIsClean(Obj(Summary(ObjectPayload(payload))));
    RedactIdempotent(Obj(Summary(ObjectPayload(payload))));
  }

  /* ---- what a summary gives away ---- */

  lemma LowerAppend(a: string, b: string)
    ensures Lower(a + b) == Lower(a) + Lower(b)
  {
  }

  /** A word without underscore that is not in "count" is never completed by the suffix. */
  lemma ContainsCount(s: string, word: string)
    requires word != "" && '_' !in word && !Contains("count", word)
    ensures Contains(s + "_count", word) <==> Contains(s, word)
  {
    var t := s + "_count";
    if Contains(s, word) {
      var i :| 0 <= i <= |s| - |word| && s[i..][..|word|] == word;
      assert t[i..][..|word|] == s[i..][..|word|];
    }
    if Contains(t, word) {
      var i :| 0 <= i <= |t| - |word| && t[i..][..|word|] == word;
      MatchPlace(s, word, i);
    }
  }

  lemma MatchPlace(s: string, word: string, i: nat)
    requires i + |word| <= |s| + 6 && (s + "_count")[i..][..|word|] == word
    ensures Contains(s, word) || '_' in word || Contains("count", word)
  {
    var t := s + "_count";
    assert t[|s|] == '_';
    if i + |word| <= |s| {
      assert s[i..][..|word|] == t[i..][..|word|];
    } else if i <= |s| {
      assert word[|s| - i] == '_';
    } else {
      assert "count"[i - |s| - 1..][..|word|] == t[i..][..|word|];
    }
  }

  lemma NotIn(s: string, word: string)
    requires word != "" && forall i :: 0 <= i <= |s| - |word| ==> s[i] != word[0]
    ensures !Contains(s, word)
  {
    forall i | 0 <= i <= |s| - |word|
      ensures s[i..][..|word|] != word
    {
      assert s[i..][..|word|][0] == s[i];
    }
  }

  lemma SecretCount(key: string)
    ensures Secret(CountKey(key)) <==> Secret(key)
  {
    var k := Lower(key);
    LowerAppend(key, "_count");
    assert Lower("_count") == "_count";
    NotIn("count", "token");
    NotIn("count", "authorization");
    NotIn("count", "jwt");
    NotIn("count", "cookie");
    ContainsCount(k, "token");
    ContainsCount(k, "authorization");
    ContainsCount(k, "jwt");
    ContainsCount(k, "cookie");
  }

  /** A non-dictionary answer is summarised under "value", which is no secret name. */
  lemma ValueIsPublic()
    ensures !Secret("value")
  {
    assert Lower("value") == "value";
    NotIn("value", "token");
    NotIn("value", "authorization");
    NotIn("value", "jwt");
    NotIn("value", "cookie");
  }

  /* ---- noninterference ---- */

  lemma {:induction false} IndistAt(es: seq<Entry>, fs: seq<Entry>, i: nat)
    requires IndistEntries(es, fs) && i < |es|
    ensures es[i].key == fs[i].key && (Secret(es[i].key) || Indist(es[i].value, fs[i].value))
  {
    if i > 0 {
      IndistAt(es[1..], fs[1..], i - 1);
    }
  }

  predicate IndistOption(a: Option<Json>, b: Option<Json>) {
    match a
    case None => b == None
    case Some(v) => b.Some? && Indist(v, b.value)
  }

  lemma {:induction false} IndistLookup(es: seq<Entry>, fs: seq<Entry>, key: string)
    requires IndistEntries(es, fs)
    ensures Lookup(es, key).Some? <==> Lookup(fs, key).Some?
    ensures !Secret(key) ==> IndistOption(Lookup(es, key), Lookup(fs, key))
  {
    if es != [] {
      IndistLookup(es[1..], fs[1..], key);
    }
  }

  lemma {:induction false} IndistPick(es: seq<Entry>, fs: seq<Entry>, keys: seq<string>)
    requires IndistEntries(es, fs)
    ensures IndistEntries(Pick(es, keys), Pick(fs, keys))
  {
    if keys != [] {
      IndistLookup(es, fs, keys[0]);
      IndistPick(es, fs, keys[1..]);
      if Lookup(es, keys[0]).Some? {
        var a, b := Pick(es, keys), Pick(fs, keys);
        assert a[1..] == Pick(es, keys[1..]) && b[1..] == Pick(fs, keys[1..]);
      }
    }
  }

  lemma {:induction false} IndistKeys(es: seq<Entry>, fs: seq<Entry>)
    requires IndistEntries(es, fs)
    ensures SortKeys(es) == SortKeys(fs) && Keys(es) == Keys(fs)
  {
    if es != [] {
      IndistKeys(es[1..], fs[1..]);
    }
  }

  lemma IndistItem(a: Json, b: Json)
    requires Indist(a, b)
    ensures Indist(SummarizeItem(a), SummarizeItem(b))
  {
    if a.Obj? {
      var es, fs := a.entries, b.entries;
      IndistPick(es, fs, KNOWN);
      IndistKeys(es, fs);
      IndistPick(es, fs, FirstTen(SortKeys(es)));
    }
  }

  lemma {:induction false} IndistItemList(xs: seq<Json>, ys: seq<Json>, n: nat)
    requires IndistItems(xs, ys) && n <= |xs|
    ensures IndistItems(SummarizeItems(xs[..n]), SummarizeItems(ys[..n]))
  {
    if n > 0 {
      IndistItem(xs[0], ys[0]);
      IndistItemList(xs[1..], ys[1..], n - 1);
      var a, b := SummarizeItems(xs[..n]), SummarizeItems(ys[..n]);
      assert xs[..n][1..] == xs[1..][..n - 1] && ys[..n][1..] == ys[1..][..n - 1];
      assert a[1..] == SummarizeItems(xs[1..][..n - 1]) && b[1..] == SummarizeItems(ys[1..][..n - 1]);
    }
  }

  lemma IndistValue(e: Entry, f: Entry)
    requires e.key == f.key && Indist(e.value, f.value)
    ensures Indist(SummaryValue(e), SummaryValue(f)) && Counted(e) == Counted(f)
    ensures Counted(e) ==> |e.value.items| == |f.value.items|
  {
    match e.value
    case Arr(items) =>
      IndistItemList(items, f.value.items, |FirstItems(items)|);
      assert items[..|items|] == items && f.value.items[..|items|] == f.value.items;
    case _ =>
      IndistItem(e.value, f.value);
  }

  /** The lookups of a summary, one turn of the loop later. */
  lemma SummarizedLookup(acc: seq<Entry>, e: Entry, q: string)
    ensures Lookup(Summarized(acc, e), q) ==
      if Counted(e) && q == CountKey(e.key) then Some(Num(|e.value.items| as real))
      else if q == e.key then Some(SummaryValue(e))
      else Lookup(acc, q)
    ensures Keys(Summarized(acc, e)) == Keys(acc) + {e.key} + if Counted(e) then {CountKey(e.key)} else {}
  {
    assert |CountKey(e.key)| > |e.key|;
    LookupPut(acc, e.key, SummaryValue(e), q);
    if Counted(e) {
      LookupPut(Put(acc, e.key, SummaryValue(e)), CountKey(e.key), Num(|e.value.items| as real), q);
    }
  }

  lemma TurnAgrees(accE: seq<Entry>, accF: seq<Entry>, e: Entry, f: Entry, q: string)
    requires e.key == f.key && (Secret(e.key) || Indist(e.value, f.value)) && !Secret(q)
    requires IndistOption(Lookup(accE, q), Lookup(accF, q))
    ensures IndistOption(Lookup(Summarized(accE, e), q), Lookup(Summarized(accF, f), q))
  {
    hide Indist, Secret, Summarized, SummaryValue;
    SummarizedLookup(accE, e, q);
    SummarizedLookup(accF, f, q);
    SecretCount(e.key);
    NumsIndist();
    if !Secret(e.key) {
      IndistValue(e, f);
    }
  }

  lemma NumsIndist()
    ensures forall n: real :: Indist(Num(n), Num(n))
  {
  }

  /** Under names that are not secret, the summaries of indistinguishable payloads are so too. */
  lemma {:induction false} SummaryAgrees(es: seq<Entry>, fs: seq<Entry>, n: nat, q: string)
    requires IndistEntries(es, fs) && n <= |es| && !Secret(q)
    ensures IndistOption(Lookup(Summary(es[..n]), q), Lookup(Summary(fs[..n]), q))
  {
    if n > 0 {
      SummaryAgrees(es, fs, n - 1, q);
      IndistAt(es, fs, n - 1);
      assert es[..n][..n - 1] == es[..n - 1] && fs[..n][..n - 1] == fs[..n - 1];
      TurnAgrees(Summary(es[..n - 1]), Summary(fs[..n - 1]), es[n - 1], fs[n - 1], q);
    }
  }

  /** The names in a summary: the payload's own, and a count beside each list. */
  lemma {:induction false} SummaryKeys(es: seq<Entry>, q: string)
    ensures q in Keys(Summary(es)) <==>
      q in Keys(es) || exists i :: 0 <= i < |es| && Counted(es[i]) && q == CountKey(es[i].key)
  {
    if es != [] {
      var n := |es| - 1;
      SummaryKeys(es[..n], q);
      SummarizedLookup(Summary(es[..n]), es[n], q);
      assert es == es[..n] + [es[n]];
      KeysAppend(es[..n], [es[n]]);
      assert forall i :: 0 <= i < n ==> es[..n][i] == es[i];
    }
  }

  /** Equality of dictionaries, whatever the order of their keys. */
  ghost predicate SameDict(a: seq<Entry>, b: seq<Entry>) {
    forall q :: Lookup(a, q) == Lookup(b, q)
  }

  lemma {:induction false} RedactLookup(es: seq<Entry>, q: string)
    ensures Lookup(RedactEntries(es), q) ==
      match Lookup(es, q)
      case None => None
      case Some(v) => Some(if Secret(q) then MARKER else Redact(v))
  {
    if es != [] {
      RedactLookup(es[1..], q);
      assert RedactEntries(es)[1..] == RedactEntries(es[1..]);
    }
  }

  /** Wherever a secret value is a list in one payload only, its count key is there anyway. */
  predicate ListsAgree(es: seq<Entry>, fs: seq<Entry>) {
    |es| == |fs| && forall i :: 0 <= i < |es| && Secret(es[i].key) && es[i].value.Arr? != fs[i].value.Arr? ==> CountKey(es[i].key) in Keys(es)
  }

  lemma SameUnderPublic(es: seq<Entry>, fs: seq<Entry>, q: string)
    requires IndistEntries(es, fs) && !Secret(q)
    ensures Lookup(RedactEntries(Summary(es)), q) == Lookup(RedactEntries(Summary(fs)), q)
  {
    assert es[..|es|] == es && fs[..|es|] == fs;
    SummaryAgrees(es, fs, |es|, q);
    RedactLookup(Summary(es), q);
    RedactLookup(Summary(fs), q);
    if Lookup(Summary(es), q).Some? {
      RedactHides(Lookup(Summary(es), q).value, Lookup(Summary(fs), q).value);
    }
  }

  lemma SameUnderSecret(es: seq<Entry>, fs: seq<Entry>, q: string)
    requires Secret(q)
    ensures Lookup(RedactEntries(Summary(es)), q) == Lookup(RedactEntries(Summary(fs)), q)
       <==> (q in Keys(Summary(es)) <==> q in Keys(Summary(fs)))
  {
    RedactLookup(Summary(es), q);
    RedactLookup(Summary(fs), q);
  }

  /** A count key of one summary is in the other, unless list-ness disagrees and no key covers for it. */
  lemma KeysAgree(es: seq<Entry>, fs: seq<Entry>, q: string)
    requires IndistEntries(es, fs) && ListsAgree(es, fs)
    ensures q in Keys(Summary(es)) <==> q in Keys(Summary(fs))
  {
    SummaryKeys(es, q);
    SummaryKeys(fs, q);
    IndistKeys(es, fs);
    forall i | 0 <= i < |es|
      ensures es[i].key == fs[i].key && (Counted(es[i]) == Counted(fs[i]) || CountKey(es[i].key) in Keys(es))
    {
      IndistAt(es, fs, i);
      if !Secret(es[i].key) {
        IndistValue(es[i], fs[i]);
      }
    }
  }

  lemma {:induction false} DistinctKeys(es: seq<Entry>, i: nat, j: nat)
    requires Distinct(es) && i < j < |es|
    ensures es[i].key != es[j].key
  {
    DistinctAt(es, j);
    KeyIn(es[..j], i);
  }

  lemma {:induction false} KeyIn(es: seq<Entry>, i: nat)
    requires i < |es|
    ensures es[i].key in Keys(es)
  {
    if i > 0 {
      KeyIn(es[1..], i - 1);
    }
  }

  lemma WholeIsPublic(key: string)
    requires Secret(key)
    ensures !KeptWhole(key)
  {
    assert Lower("warnings") == "warnings" && Lower("errors") == "errors" && Lower("meta") == "meta";
    NotSecretWord("warnings");
    NotSecretWord("errors");
    NotSecretWord("meta");
  }

  lemma NotSecretWord(key: string)
    requires Lower(key) == key && (key == "warnings" || key == "errors" || key == "meta")
    ensures !Secret(key)
  {
    NotIn(key, "token");
    NotIn(key, "authorization");
    NotIn(key, "jwt");
    NotIn(key, "cookie");
  }

  lemma {:induction false} DistinctCarries(es: seq<Entry>, fs: seq<Entry>)
    requires IndistEntries(es, fs) && Distinct(es)
    ensures Distinct(fs)
  {
    if es != [] {
      IndistKeys(es[1..], fs[1..]);
      DistinctCarries(es[1..], fs[1..]);
    }
  }

  /** With distinct keys a count key that is no payload key stands for its own list only. */
  lemma CountKeyMeans(es: seq<Entry>, i: nat)
    requires Distinct(es) && i < |es| && CountKey(es[i].key) !in Keys(es)
    ensures CountKey(es[i].key) in Keys(Summary(es)) <==> Counted(es[i])
  {
    hide Summary, CountKey, Counted;
    var q := CountKey(es[i].key);
    SummaryKeys(es, q);
    forall j | 0 <= j < |es| && j != i
      ensures CountKey(es[j].key) != q
    {
      DistinctKeys(es, if i < j then i else j, if i < j then j else i);
      if CountKey(es[j].key) == q {
        CountKeyInjective(es[i].key, es[j].key);
      }
    }
  }

  /** Where list-ness disagrees and no key covers for it, the count key tells the summaries apart. */
  lemma CountTells(es: seq<Entry>, fs: seq<Entry>, i: nat)
    requires IndistEntries(es, fs) && Distinct(es) && i < |es|
    requires Secret(es[i].key) && es[i].value.Arr? != fs[i].value.Arr? && CountKey(es[i].key) !in Keys(es)
    ensures CountKey(es[i].key) in Keys(Summary(es)) <==> CountKey(es[i].key) !in Keys(Summary(fs))
  {
    hide Summary, CountKey, Secret, KeptWhole, Distinct;
    IndistKeys(es, fs);
    IndistAt(es, fs, i);
    DistinctCarries(es, fs);
    CountKeyMeans(es, i);
    CountKeyMeans(fs, i);
    WholeIsPublic(es[i].key);
  }

  lemma CountKeyInjective(a: string, b: string)
    requires CountKey(a) == CountKey(b)
    ensures a == b
  {
    assert CountKey(a)[..|a|] == a && CountKey(b)[..|b|] == b;
  }

  /** Redaction hides secret values; a summary hides them except for one thing, whether each was a
      list, and it hides that too exactly when the payload already has the count key. */
  lemma SummariesHide(es: seq<Entry>, fs: seq<Entry>)
    requires IndistEntries(es, fs) && Distinct(es)
    ensures SameDict(RedactEntries(Summary(es)), RedactEntries(Summary(fs))) <==> ListsAgree(es, fs)
  {
    if ListsAgree(es, fs) {
      forall q
        ensures Lookup(RedactEntries(Summary(es)), q) == Lookup(RedactEntries(Summary(fs)), q)
      {
        if Secret(q) {
          KeysAgree(es, fs, q);
          SameUnderSecret(es, fs, q);
        } else {
          SameUnderPublic(es, fs, q);
        }
      }
    } else {
      var i :| 0 <= i < |es| && Secret(es[i].key) && es[i].value.Arr? != fs[i].value.Arr? && CountKey(es[i].key) !in Keys(es);
      CountTells(es, fs, i);
      SecretCount(es[i].key);
      SameUnderSecret(es, fs, CountKey(es[i].key));
    }
  }

  /** The same for whole answers, dictionaries or not. */
  lemma PayloadSummariesHide(a: Json, b: Json)
    requires WellFormed(a) && Indist(a, b)
    ensures SameDict(SummarizePayload(a).entries, SummarizePayload(b).entries) <==>
      ListsAgree(ObjectPayload(a), ObjectPayload(b))
  {
    ValueIsPublic();
    SummariesHide(ObjectPayload(a), ObjectPayload(b));
  }

  /** Two answers that differ only under a secret name, and whose summaries differ. */
  lemma CountLeaks()
    ensures var a, b := Obj([Entry("token", Arr([]))]), Obj([Entry("token", Null)]);
      Indist(a, b) && SummarizePayload(a) != SummarizePayload(b)
  {
    var a, b := Obj([Entry("token", Arr([]))]), Obj([Entry("token", Null)]);
    assert Lower("token") == "token" && "token"[0..][..5] == "token";
    assert Keys(a.entries) == {"token"} && CountKey("token") != "token";
    assert Indist(a, b) && !ListsAgree(a.entries, b.entries);
    SummariesHide(a.entries, b.entries);
  }
}
