/** `_redact`: secret-named values are replaced by a marker at any depth, long strings are cut. */
module Redaction {
  import opened Text
  import opened Json

  const LIMIT := 4096

  const MARKER := Str("<redacted>")

  const SUFFIX := "...<truncated>"

  /* ---- secret names ---- */

  /** Lower case as far as it makes ASCII letters: of these themselves, and of the Kelvin sign. */
  function LowerChar(c: char): char {
    if 'A' <= c <= 'Z' then (c as int + 32) as char else if c == '\U{212A}' then 'k' else c
  }

  function Lower(s: string): (r: string)
    ensures |r| == |s|
  {
    seq(|s|, i requires 0 <= i < |s| => LowerChar(s[i]))
  }

  predicate Contains(s: string, sub: string) {
    exists i :: 0 <= i <= |s| - |sub| && s[i..][..|sub|] == sub
  }

  predicate Secret(key: string) {
    var k := Lower(key);
    Contains(k, "token") || Contains(k, "authorization") || Contains(k, "jwt") || Contains(k, "cookie")
  }

  const SECRETS: seq<string> := ["token", "authorization", "jwt", "cookie"]

  /** `c` is the letter `w`, in upper or lower case; the Kelvin sign counts as a `k`. */
  predicate IsLetter(c: char, w: char) {
    c == w || c as int == w as int - 32 || (w == 'k' && c == '\U{212A}')
  }

  /** The key spells the word from position `i` on. */
  predicate Spells(key: string, word: string, i: nat) {
    i + |word| <= |key| && forall j :: 0 <= j < |word| ==> IsLetter(key[i + j], word[j])
  }

  ghost predicate SpellsSome(key: string, word: string) {
    exists i :: Spells(key, word, i)
  }

  lemma SpellsIs(key: string, word: string, i: nat)
    requires i + |word| <= |key| && forall j :: 0 <= j < |word| ==> 'a' <= word[j] <= 'z'
    ensures Spells(key, word, i) <==> Lower(key)[i..][..|word|] == word
  {
    var k := Lower(key);
    assert forall j :: 0 <= j < |word| ==> k[i..][..|word|][j] == LowerChar(key[i + j]);
  }

  lemma ContainsIs(key: string, word: string)
    requires forall j :: 0 <= j < |word| ==> 'a' <= word[j] <= 'z'
    ensures SpellsSome(key, word) <==> Contains(Lower(key), word)
  {
    hide Lower, Spells;
    SameLength(key);
    if SpellsSome(key, word) {
      var i :| Spells(key, word, i);
      Fits(key, word, i);
      SpellsIs(key, word, i);
    }
    if Contains(Lower(key), word) {
      var i :| 0 <= i <= |Lower(key)| - |word| && Lower(key)[i..][..|word|] == word;
      SpellsIs(key, word, i);
    }
  }

  lemma SameLength(key: string)
    ensures |Lower(key)| == |key|
  {
  }

  lemma Fits(key: string, word: string, i: nat)
    ensures Spells(key, word, i) ==> i + |word| <= |key|
  {
  }

  /** A name is secret exactly when it spells one of the four words somewhere, in any case. */
  lemma SecretExactly(key: string)
    ensures Secret(key) <==> exists w :: 0 <= w < |SECRETS| && SpellsSome(key, SECRETS[w])
  {
    hide SpellsSome, Contains, Lower;
    ContainsIs(key, "token");
    ContainsIs(key, "authorization");
    ContainsIs(key, "jwt");
    ContainsIs(key, "cookie");
    assert SECRETS[0] == "token" && SECRETS[1] == "authorization" && SECRETS[2] == "jwt" && SECRETS[3] == "cookie";
  }

  /* ---- the redactor ---- */

  function Cut(s: string): string {
    if |s| > LIMIT then s[..LIMIT] + SUFFIX else s
  }

  function Redact(v: Json): Json
    decreases v, 1
  {
    match v
    case Obj(entries) => Obj(RedactEntries(entries))
    case Arr(items) => Arr(RedactItems(items))
    case Str(s) => Str(Cut(s))
    case _ => v
  }

  function RedactEntry(e: Entry): Entry
    decreases e.value, 2
  {
    Entry(e.key, if Secret(e.key) then MARKER else Redact(e.value))
  }

  function RedactEntries(es: seq<Entry>): seq<Entry>
    decreases es, 0
  {
    if es == [] then [] else [RedactEntry(es[0])] + RedactEntries(es[1..])
  }

  function RedactItems(items: seq<Json>): seq<Json>
    decreases items, 0
  {
    if items == [] then [] else [Redact(items[0])] + RedactItems(items[1..])
  }

  /** A dictionary at every level: no object repeats a key. */
  predicate WellFormed(v: Json)
    decreases v, 1
  {
    match v
    case Obj(entries) => Distinct(entries) && WellFormedEntries(entries)
    case Arr(items) => WellFormedItems(items)
    case _ => true
  }

  predicate WellFormedEntries(es: seq<Entry>)
    decreases es, 0
  {
    es != [] ==> WellFormed(es[0].value) && WellFormedEntries(es[1..])
  }

  predicate WellFormedItems(items: seq<Json>)
    decreases items, 0
  {
    items != [] ==> WellFormed(items[0]) && WellFormedItems(items[1..])
  }

  predicate Distinct(es: seq<Entry>) {
    es != [] ==> es[0].key !in Keys(es[1..]) && Distinct(es[1..])
  }

  lemma {:induction false} KeysAppend(a: seq<Entry>, b: seq<Entry>)
    ensures Keys(a + b) == Keys(a) + Keys(b)
  {
    if a == [] {
      assert a + b == b;
    } else {
      assert (a + b)[1..] == a[1..] + b;
      KeysAppend(a[1..], b);
    }
  }

  /** Assigning a new key appends it. */
  lemma {:induction false} PutNew(es: seq<Entry>, key: string, value: Json)
    requires key !in Keys(es)
    ensures Put(es, key, value) == es + [Entry(key, value)]
  {
    if es != [] {
      PutNew(es[1..], key, value);
      assert es == [es[0]] + es[1..];
    }
  }

  lemma {:induction false} RedactEntriesAppend(a: seq<Entry>, b: seq<Entry>)
    ensures RedactEntries(a + b) == RedactEntries(a) + RedactEntries(b)
  {
    if a == [] {
      assert a + b == b;
    } else {
      assert (a + b)[1..] == a[1..] + b;
      RedactEntriesAppend(a[1..], b);
    }
  }

  lemma {:induction false} RedactKeys(es: seq<Entry>)
    ensures Keys(RedactEntries(es)) == Keys(es)
  {
    if es != [] {
      RedactKeys(es[1..]);
      assert RedactEntries(es)[1..] == RedactEntries(es[1..]);
    }
  }

  lemma {:induction false} DistinctAt(es: seq<Entry>, i: nat)
    requires Distinct(es) && i < |es|
    ensures es[i].key !in Keys(es[..i])
  {
    if i > 0 {
      DistinctAt(es[1..], i - 1);
      assert es[..i][1..] == es[1..][..i - 1];
      assert es[1..] == es[1..][..i - 1] + es[i..];
      KeysAppend(es[1..][..i - 1], es[i..]);
    }
  }

  lemma {:induction false} WellFormedAt(es: seq<Entry>, i: nat)
    requires WellFormedEntries(es) && i < |es|
    ensures WellFormed(es[i].value)
  {
    if i > 0 {
      WellFormedAt(es[1..], i - 1);
    }
  }

  lemma {:induction false} WellFormedItemAt(items: seq<Json>, i: nat)
    requires WellFormedItems(items) && i < |items|
    ensures WellFormed(items[i])
  {
    if i > 0 {
      WellFormedItemAt(items[1..], i - 1);
    }
  }

  /** The code's recursion: dictionaries are filled key by key. */
  method RedactValue(v: Json) returns (r: Json)
    requires WellFormed(v)
    ensures r == Redact(v)
    decreases v, 1
  {
    match v {
      case Obj(entries) =>
        var redacted := RedactDict(entries);
        r := Obj(redacted);
      case Arr(items) =>
        var redacted := RedactList(items);
        r := Arr(redacted);
      case Str(s) =>
        r := if |s| > LIMIT then Str(s[..LIMIT] + SUFFIX) else v;
      case _ =>
        r := v;
    }
  }

  method RedactDict(es: seq<Entry>) returns (redacted: seq<Entry>)
    requires Distinct(es) && WellFormedEntries(es)
    ensures redacted == RedactEntries(es)
    decreases es, 0
  {
    redacted := [];
    for i := 0 to |es|
      invariant redacted == RedactEntries(es[..i])
    {
      RedactKeys(es[..i]);
      DistinctAt(es, i);
      WellFormedAt(es, i);
      RedactEntriesAppend(es[..i], [es[i]]);
      assert es[..i + 1] == es[..i] + [es[i]];
      assert RedactEntries([es[i]]) == [RedactEntry(es[i])];
      if Secret(es[i].key) {
        PutNew(redacted, es[i].key, MARKER);
        redacted := Put(redacted, es[i].key, MARKER);
      } else {
        var item := RedactValue(es[i].value);
        PutNew(redacted, es[i].key, item);
        redacted := Put(redacted, es[i].key, item);
      }
    }
    assert es[..|es|] == es;
  }

  method RedactList(items: seq<Json>) returns (redacted: seq<Json>)
    requires WellFormedItems(items)
    ensures redacted == RedactItems(items)
    decreases items, 0
  {
    redacted := [];
    for i := 0 to |items|
      invariant redacted + RedactItems(items[i..]) == RedactItems(items)
    {
      WellFormedItemAt(items, i);
      var item := RedactValue(items[i]);
      assert redacted + ([item] + RedactItems(items[i + 1..])) == (redacted + [item]) + RedactItems(items[i + 1..]);
      redacted := redacted + [item];
    }
  }

  /* ---- idempotence ---- */

  lemma CutTwice(s: string)
    ensures Cut(Cut(s)) == Cut(s)
  {
    if |s| > LIMIT {
      assert Cut(s)[..LIMIT] == s[..LIMIT];
    }
  }

  lemma {:induction false} RedactIdempotent(v: Json)
    ensures Redact(Redact(v)) == Redact(v)
    decreases v, 1
  {
    match v
    case Obj(entries) => RedactEntriesIdempotent(entries);
    case Arr(items) => RedactItemsIdempotent(items);
    case Str(s) => CutTwice(s);
    case _ =>
  }

  lemma {:induction false} RedactEntriesIdempotent(es: seq<Entry>)
    ensures RedactEntries(RedactEntries(es)) == RedactEntries(es)
    decreases es, 0
  {
    if es != [] {
      RedactIdempotent(es[0].value);
      RedactEntriesIdempotent(es[1..]);
      assert RedactEntries(es)[1..] == RedactEntries(es[1..]);
    }
  }

  lemma {:induction false} RedactItemsIdempotent(items: seq<Json>)
    ensures RedactItems(RedactItems(items)) == RedactItems(items)
    decreases items, 0
  {
    if items != [] {
      RedactIdempotent(items[0]);
      RedactItemsIdempotent(items[1..]);
      assert RedactItems(items)[1..] == RedactItems(items[1..]);
    }
  }

  /* ---- nothing secret is left ---- */

  /** At any depth a secret-named key holds the marker, and no string exceeds a cut one. */
  predicate Clean(v: Json)
    decreases v, 1
  {
    match v
    case Obj(entries) => CleanEntries(entries)
    case Arr(items) => CleanItems(items)
    case Str(s) => |s| <= 4110
    case _ => true
  }

  predicate CleanEntries(es: seq<Entry>)
    decreases es, 0
  {
    es != [] ==> (Secret(es[0].key) ==> es[0].value == Str("<redacted>")) && Clean(es[0].value) && CleanEntries(es[1..])
  }

  predicate CleanItems(items: seq<Json>)
    decreases items, 0
  {
    items != [] ==> Clean(items[0]) && CleanItems(items[1..])
  }

  lemma {:induction false} RedactedIsClean(v: Json)
    ensures Clean(Redact(v))
    decreases v, 1
  {
    match v
    case Obj(entries) => RedactedEntriesClean(entries);
    case Arr(items) => RedactedItemsClean(items);
    case _ =>
  }

  lemma {:induction false} RedactedEntriesClean(es: seq<Entry>)
    ensures CleanEntries(RedactEntries(es))
    decreases es, 0
  {
    if es != [] {
      RedactedIsClean(es[0].value);
      RedactedEntriesClean(es[1..]);
      assert RedactEntries(es)[1..] == RedactEntries(es[1..]);
    }
  }

  lemma {:induction false} RedactedItemsClean(items: seq<Json>)
    ensures CleanItems(RedactItems(items))
    decreases items, 0
  {
    if items != [] {
      RedactedIsClean(items[0]);
      RedactedItemsClean(items[1..]);
      assert RedactItems(items)[1..] == RedactItems(items[1..]);
    }
  }

  /* ---- nothing else is touched ---- */

  /** Secret names hold the marker, and a string is short, or cut and marked as cut. */
  predicate Tidy(v: Json)
    decreases v, 1
  {
    match v
    case Obj(entries) => TidyEntries(entries)
    case Arr(items) => TidyItems(items)
    case Str(s) => |s| <= 4096 || (|s| == 4110 && s[4096..] == "...<truncated>")
    case _ => true
  }

  predicate TidyEntries(es: seq<Entry>)
    decreases es, 0
  {
    es != [] ==>
      && (if Secret(es[0].key) then es[0].value == Str("<redacted>") else Tidy(es[0].value))
      && TidyEntries(es[1..])
  }

  predicate TidyItems(items: seq<Json>)
    decreases items, 0
  {
    items != [] ==> Tidy(items[0]) && TidyItems(items[1..])
  }

  lemma CutFixes(s: string)
    ensures Cut(s) == s <==> |s| <= 4096 || (|s| == 4110 && s[4096..] == "...<truncated>")
  {
    if |s| > 4096 {
      assert Cut(s)[4096..] == "...<truncated>" && Cut(s)[..4096] == s[..4096];
      assert s == s[..4096] + s[4096..];
    }
  }

  /** A value is left as it is exactly when it is tidy. */
  lemma {:induction false} RedactFixes(v: Json)
    ensures Redact(v) == v <==> Tidy(v)
    decreases v, 1
  {
    match v
    case Obj(entries) => RedactFixesEntries(entries);
    case Arr(items) => RedactFixesItems(items);
    case Str(s) => CutFixes(s);
    case _ =>
  }

  lemma {:induction false} RedactFixesEntries(es: seq<Entry>)
    ensures RedactEntries(es) == es <==> TidyEntries(es)
    decreases es, 0
  {
    if es != [] {
      RedactFixes(es[0].value);
      RedactFixesEntries(es[1..]);
      SameCons(RedactEntry(es[0]), RedactEntries(es[1..]), es[0], es[1..]);
      assert es == [es[0]] + es[1..];
    }
  }

  lemma {:induction false} RedactFixesItems(items: seq<Json>)
    ensures RedactItems(items) == items <==> TidyItems(items)
    decreases items, 0
  {
    if items != [] {
      RedactFixes(items[0]);
      RedactFixesItems(items[1..]);
      SameCons(Redact(items[0]), RedactItems(items[1..]), items[0], items[1..]);
      assert items == [items[0]] + items[1..];
    }
  }

  /* ---- noninterference ---- */

  /** Two values that differ only under secret-named keys, or beyond the cut of long strings. */
  predicate Indist(a: Json, b: Json)
    decreases a, 1
  {
    match a
    case Obj(es) => b.Obj? && IndistEntries(es, b.entries)
    case Arr(xs) => b.Arr? && IndistItems(xs, b.items)
    case Str(s) => b.Str? && (s == b.s || (|s| > 4096 && |b.s| > 4096 && s[..4096] == b.s[..4096]))
    case _ => a == b
  }

  predicate IndistEntries(es: seq<Entry>, fs: seq<Entry>)
    decreases es, 0
  {
    && |es| == |fs|
    && (es != [] ==>
          && es[0].key == fs[0].key && (Secret(es[0].key) || Indist(es[0].value, fs[0].value))
          && IndistEntries(es[1..], fs[1..]))
  }

  predicate IndistItems(xs: seq<Json>, ys: seq<Json>)
    decreases xs, 0
  {
    |xs| == |ys| && (xs != [] ==> Indist(xs[0], ys[0]) && IndistItems(xs[1..], ys[1..]))
  }

  lemma CutEqual(s: string, t: string)
    ensures Cut(s) == Cut(t) <==> s == t || (|s| > LIMIT && |t| > LIMIT && s[..LIMIT] == t[..LIMIT])
  {
    assert |s| > LIMIT ==> Cut(s)[..LIMIT] == s[..LIMIT];
    assert |t| > LIMIT ==> Cut(t)[..LIMIT] == t[..LIMIT];
  }

  /** The redacted forms agree exactly when the inputs differ only where they must not show. */
  lemma {:induction false} RedactHides(a: Json, b: Json)
    ensures Redact(a) == Redact(b) <==> Indist(a, b)
    decreases a, 1
  {
    match a
    case Obj(es) => if b.Obj? { RedactHidesEntries(es, b.entries); }
    case Arr(xs) => if b.Arr? { RedactHidesItems(xs, b.items); }
    case Str(s) => if b.Str? { CutEqual(s, b.s); }
    case _ =>
  }

  lemma SameCons<T>(x: T, xs: seq<T>, y: T, ys: seq<T>)
    ensures [x] + xs == [y] + ys <==> x == y && xs == ys
  {
    assert ([x] + xs)[0] == x && ([y] + ys)[0] == y;
    assert ([x] + xs)[1..] == xs && ([y] + ys)[1..] == ys;
  }

  lemma {:induction false} RedactHidesEntries(es: seq<Entry>, fs: seq<Entry>)
    ensures RedactEntries(es) == RedactEntries(fs) <==> IndistEntries(es, fs)
    decreases es, 0
  {
    if es != [] && fs != [] {
      RedactHides(es[0].value, fs[0].value);
      RedactHidesEntries(es[1..], fs[1..]);
      SameCons(RedactEntry(es[0]), RedactEntries(es[1..]), RedactEntry(fs[0]), RedactEntries(fs[1..]));
    }
  }

  lemma {:induction false} RedactHidesItems(xs: seq<Json>, ys: seq<Json>)
    ensures RedactItems(xs) == RedactItems(ys) <==> IndistItems(xs, ys)
    decreases xs, 0
  {
    if xs != [] && ys != [] {
      RedactHides(xs[0], ys[0]);
      RedactHidesItems(xs[1..], ys[1..]);
      SameCons(Redact(xs[0]), RedactItems(xs[1..]), Redact(ys[0]), RedactItems(ys[1..]));
    }
  }
}
