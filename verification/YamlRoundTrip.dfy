/** A printer for the indentation grammar, and the proof that the parsers read back what it prints. */
module YamlRoundTrip {
  import opened Text
  import opened SimpleYaml
  import opened YamlText

  /* ---- the printer ---- */

  predicate IsScalar(v: Value) {
    !v.List? && !v.Dict?
  }

  function PrintInt(n: int): string {
    if n < 0 then "-" + Numeral(-n) else Numeral(n)
  }

  function PrintScalar(v: Value): string {
    match v
    case Null => "null"
    case Bool(b) => if b then "true" else "false"
    case Int(n) => PrintInt(n)
    case Str(s) => s
    case Literal(s) => s
    case _ => ""
  }

  function EntryText(p: Pair): string {
    if IsScalar(p.value) then p.key + ":" + " " + PrintScalar(p.value) else p.key + ":"
  }

  function PrintBlock(v: Value, depth: nat): seq<RawLine>
    decreases v, 1
  {
    match v
    case List(items) => PrintList(items, depth)
    case Dict(entries) => PrintDict(entries, depth)
    case _ => []
  }

  function PrintDict(entries: seq<Pair>, depth: nat): seq<RawLine>
    decreases entries, 0
  {
    if entries == [] then []
    else [Line(depth, EntryText(entries[0]))] + PrintBlock(entries[0].value, depth + 2) + PrintDict(entries[1..], depth)
  }

  function PrintList(items: seq<Value>, depth: nat): seq<RawLine>
    decreases items, 0
  {
    if items == [] then [] else PrintItem(items[0], depth) + PrintList(items[1..], depth)
  }

  function PrintItem(v: Value, depth: nat): seq<RawLine>
    decreases v, 1
  {
    if v.Dict? && v.entries != [] then
      [Line(depth, "- " + EntryText(v.entries[0]))] + PrintBlock(v.entries[0].value, depth + 2)
        + PrintDict(v.entries[1..], depth + 2)
    else [Line(depth, "- " + PrintScalar(v))]
  }

  function Spacing(n: nat): string {
    if n == 0 then "" else " " + Spacing(n - 1)
  }

  function Render(lines: seq<RawLine>): seq<string> {
    if lines == [] then []
    else Render(lines[..|lines| - 1]) + [Spacing(lines[|lines| - 1].indent) + lines[|lines| - 1].text]
  }

  /* ---- what can be printed ---- */

  /** A text that is neither a keyword, nor a literal, nor an integer. */
  ghost predicate PlainText(s: string, python: Python) {
    && StrippedLine(s) && !IsKeyword(s) && !ReadsAsLiteral(s) && forall n :: !ReadsAsInteger(python, s, n)
  }

  predicate StrippedLine(s: string) {
    s != "" && s[0] !in BLANKS && s[|s| - 1] !in BLANKS && NoneIn(s, BREAKS)
  }

  ghost predicate PrintableScalar(v: Value, python: Python) {
    match v
    case Str(s) => PlainText(s, python)
    case Literal(s) => StrippedLine(s) && ReadsAsLiteral(s) && python.evaluates(s)
    case List(_) => false
    case Dict(_) => false
    case _ => true
  }

  /** A key that opens neither with a blank, nor with a comment sign, nor with a dash and a space. */
  predicate DictKey(k: string) {
    && NoneIn(k, BREAKS) && ':' !in k
    && (k != "" ==> k[0] !in BLANKS && k[0] != '#' && !(k[0] == '-' && |k| > 1 && k[1] == ' '))
  }

  predicate Distinct(entries: seq<Pair>) {
    forall i, j :: 0 <= i < j < |entries| ==> entries[i].key != entries[j].key
  }

  /** Values the grammar can express: no line break in a text, no empty list, no list directly in a
      list, no colon in a scalar list item; `PrintableItem` restricts the dict items of a list. */
  ghost predicate Printable(v: Value, python: Python)
    decreases v, 1
  {
    match v
    case List(items) => items != [] && PrintableItems(items, python)
    case Dict(entries) => Distinct(entries) && PrintableEntries(entries, python)
    case _ => PrintableScalar(v, python)
  }

  ghost predicate PrintableEntries(entries: seq<Pair>, python: Python)
    decreases entries, 0
  {
    entries == []
    || (DictKey(entries[0].key) && Printable(entries[0].value, python) && PrintableEntries(entries[1..], python))
  }

  ghost predicate PrintableItems(items: seq<Value>, python: Python)
    decreases items, 0
  {
    items == [] || (PrintableItem(items[0], python) && PrintableItems(items[1..], python))
  }

  /** A dict item is one whose first value is a scalar or a list, or that has just one key: a
      dict under the first key would take in the keys after it. */
  ghost predicate PrintableItem(v: Value, python: Python)
    decreases v, 1
  {
    match v
    case List(_) => false
    case Dict(entries) =>
      && entries != [] && Distinct(entries)
      && NoneIn(entries[0].key, BREAKS) && ':' !in entries[0].key && Printable(entries[0].value, python)
      && (entries[0].value.Dict? ==> |entries| == 1)
      && PrintableEntries(entries[1..], python)
    case _ => PrintableScalar(v, python) && ':' !in PrintScalar(v)
  }

  /* ---- scalars ---- */

  lemma NumeralIsInt(m: nat)
    ensures IsIntBody(Numeral(m)) && NumeralValue(DigitsOf(Numeral(m))) == m
    ensures !Signed(Numeral(m))
  {
    hide IsIntBody, Signed, NumeralValue, DigitsOf, Numeral;
    NumeralRoundTrip(m);
    DigitsOfDigits(Numeral(m));
    DigitsAreInt(Numeral(m));
  }

  lemma DigitsAreInt(s: string)
    requires s != "" && AllDigits(s)
    ensures IsIntBody(s) && !Signed(s)
  {
    assert IsDigit(s[0]) && IsDigit(s[|s| - 1]);
  }

  lemma IntRoundTrip(n: int, python: Python)
    ensures IntText(python, PrintInt(n)) == Some(n)
  {
    hide IsIntBody, DigitsOf, NumeralValue;
    IntAscii(n);
    var m: nat := if n < 0 then -n else n;
    NumeralIsInt(m);
    if n < 0 {
      assert PrintInt(n)[1..] == Numeral(m);
      assert PrintInt(n)[0] == '-';
    } else {
      assert IsDigit(PrintInt(n)[0]);
    }
  }

  lemma IntAscii(n: int)
    ensures Ascii(PrintInt(n))
  {
    var body := Numeral(if n < 0 then -n else n);
    assert forall i :: 0 <= i < |body| ==> IsDigit(body[i]);
    assert n < 0 ==> PrintInt(n) == ['-'] + body;
  }

  lemma StrippedIs(s: string)
    requires StrippedLine(s)
    ensures Trimmed(s) && BreakFree(s) && Strips(s, s) && Strips(" " + s, s)
  {
    BlankIs(s[0]);
    BlankIs(s[|s| - 1]);
    BreakFreeIs(s);
    assert StripsAt(s, s, 0, |s|) by {
      assert s[0..|s|] == s;
    }
    assert StripsAt(" " + s, s, 1, |s| + 1) by {
      assert (" " + s)[1..|s| + 1] == s;
    }
  }

  predicate PlainChar(c: char) {
    IsDigit(c) || c == '-' || 'a' <= c <= 'z'
  }

  lemma PlainCharIs(c: char)
    requires PlainChar(c)
    ensures c !in BLANKS && c !in BREAKS && c != '[' && c != '"' && c != '\''
  {
  }

  lemma PlainChars(s: string)
    requires s != "" && forall i :: 0 <= i < |s| ==> PlainChar(s[i])
    ensures StrippedLine(s) && !ReadsAsLiteral(s)
  {
    hide PlainChar;
    forall i | 0 <= i < |s|
      ensures s[i] !in BLANKS && s[i] !in BREAKS && s[i] != '[' && s[i] != '"' && s[i] != '\''
    {
      PlainCharIs(s[i]);
    }
  }

  lemma IntStripped(n: int)
    ensures StrippedLine(PrintInt(n)) && !IsKeyword(PrintInt(n)) && !ReadsAsLiteral(PrintInt(n))
  {
    hide StrippedLine, ReadsAsLiteral;
    var body := Numeral(if n < 0 then -n else n);
    assert forall i :: 0 <= i < |body| ==> IsDigit(body[i]);
    assert n < 0 ==> PrintInt(n) == ['-'] + body;
    PlainChars(PrintInt(n));
    assert "null"[0] == 'n' && "true"[0] == 't' && "false"[0] == 'f';
  }

  lemma ScalarShape(v: Value, python: Python)
    requires PrintableScalar(v, python)
    ensures StrippedLine(PrintScalar(v)) && (ReadsAsLiteral(PrintScalar(v)) <==> v.Literal?)
  {
    hide PrintInt, ReadsAsInteger, StrippedLine, ReadsAsLiteral;
    match v
    case Int(n) => IntStripped(n);
    case Null => PlainChars("null");
    case Bool(b) => PlainChars(if b then "true" else "false");
    case _ =>
  }

  lemma ScalarRoundTrip(v: Value, d: Doc)
    requires PrintableScalar(v, d.python)
    ensures PrintScalar(v) != "" && Trimmed(PrintScalar(v))
    ensures Scalar(d, PrintScalar(v)) == Some(v)
    ensures Scalar(d, " " + PrintScalar(v)) == Some(v)
    ensures !Blank(" " + PrintScalar(v))
  {
    hide PrintableScalar, PrintScalar, StrippedLine, Scalar, Strips;
    var s := PrintScalar(v);
    ScalarShape(v, d.python);
    StrippedIs(s);
    Stripped(s);
    ReadsPrinted(v, d, s);
    ReadsPrinted(v, d, " " + s);
    assert (" " + s)[1] == s[0];
  }

  lemma Stripped(s: string)
    requires StrippedLine(s)
    ensures s != ""
  {
  }

  lemma ReadsPrinted(v: Value, d: Doc, value: string)
    requires PrintableScalar(v, d.python) && Strips(value, PrintScalar(v))
    ensures Scalar(d, value) == Some(v)
  {
    hide Scalar, Strips, ReadsAsInteger, PrintInt, StrippedLine;
    ScalarExactly(d, value, PrintScalar(v));
    if v.Int? {
      IntStripped(v.n);
      IntRoundTrip(v.n, d.python);
      IntExactly(d.python, PrintInt(v.n), v.n);
    }
  }

  /* ---- reading one printed line ---- */

  lemma PrintableIsScalar(v: Value, python: Python)
    requires IsScalar(v) && Printable(v, python)
    ensures PrintableScalar(v, python)
  {
  }

  lemma EntryReads(p: Pair, d: Doc)
    requires ':' !in p.key && Printable(p.value, d.python)
    ensures HasColon(EntryText(p)) && KeyOf(EntryText(p)) == p.key
    ensures IsScalar(p.value) ==> !Blank(RestOf(EntryText(p))) && Scalar(d, RestOf(EntryText(p))) == Some(p.value)
    ensures !IsScalar(p.value) ==> Blank(RestOf(EntryText(p)))
  {
    hide Printable, Scalar, PrintScalar, PrintableScalar;
    var text := EntryText(p);
    if IsScalar(p.value) {
      PrintableIsScalar(p.value, d.python);
      ScalarRoundTrip(p.value, d);
      assert text == p.key + [':'] + (" " + PrintScalar(p.value));
      FindAfter(p.key, ':', " " + PrintScalar(p.value));
    } else {
      assert text == p.key + [':'] + "";
      FindAfter(p.key, ':', "");
    }
  }

  lemma EntryNoDash(p: Pair)
    requires DictKey(p.key)
    ensures !IsDash(EntryText(p))
  {
    var text := EntryText(p);
    assert text[..|p.key| + 1] == p.key + ":";
    if |p.key| >= 2 {
      assert text[0] == p.key[0] && text[1] == p.key[1];
    } else {
      assert text[|p.key|] == ':';
    }
  }

  lemma {:induction false} PutNew(data: seq<Pair>, key: string, value: Value)
    requires forall p :: p in data ==> p.key != key
    ensures Put(data, key, value) == data + [Pair(key, value)]
  {
    if data != [] {
      assert data[0] in data;
      PutNew(data[1..], key, value);
      assert data == [data[0]] + data[1..];
    }
  }

  lemma {:induction false} UpdateNew(item: seq<Pair>, child: seq<Pair>)
    requires Distinct(item + child)
    ensures Update(item, child) == item + child
  {
    if child == [] {
      assert item + child == item;
    } else {
      var n := |child| - 1;
      var front := child[..n];
      assert item + child == (item + front) + [child[n]];
      assert Distinct(item + front) by {
        assert item + front == (item + child)[..|item| + n];
      }
      UpdateNew(item, front);
      var all := item + child;
      forall p | p in item + front ensures p.key != child[n].key {
        var k :| 0 <= k < |item + front| && (item + front)[k] == p;
        assert all[k] == p && all[|all| - 1] == child[n];
      }
      PutNew(item + front, child[n].key, child[n].value);
    }
  }

  /* ---- reading printed blocks ---- */

  ghost predicate At(d: Doc, i: nat, chunk: seq<RawLine>) {
    i + |chunk| <= |d.lines| && forall k :: 0 <= k < |chunk| ==> d.lines[i + k] == chunk[k]
  }

  lemma AtSplit(d: Doc, i: nat, a: seq<RawLine>, b: seq<RawLine>)
    requires At(d, i, a + b)
    ensures At(d, i, a) && At(d, i + |a|, b)
  {
    forall k | 0 <= k < |a| ensures d.lines[i + k] == a[k] {
      assert (a + b)[k] == a[k];
    }
    forall k | 0 <= k < |b| ensures d.lines[i + |a| + k] == b[k] {
      assert (a + b)[|a| + k] == b[k];
    }
  }

  lemma AtSplit3(d: Doc, i: nat, a: seq<RawLine>, b: seq<RawLine>, c: seq<RawLine>)
    requires At(d, i, a + b + c)
    ensures At(d, i, a) && At(d, i + |a|, b) && At(d, i + |a| + |b|, c)
    ensures |a + b + c| == |a| + |b| + |c|
  {
    AtSplit(d, i, a + b, c);
    AtSplit(d, i, a, b);
  }

  /** The next line is no deeper than this. */
  predicate Within(d: Doc, j: nat, depth: nat) {
    j < |d.lines| ==> d.lines[j].indent <= depth
  }

  lemma {:induction false} BlockParses(d: Doc, i: nat, depth: nat, v: Value)
    requires !IsScalar(v) && Printable(v, d.python) && At(d, i, PrintBlock(v, depth))
    requires BlockEnds(d, i + |PrintBlock(v, depth)|, depth, v)
    ensures ParseBlock(d, i, depth) == Ok(v, i + |PrintBlock(v, depth)|)
    decreases v, 2
  {
    match v
    case List(items) => ListBlockParses(d, i, depth, items);
    case Dict(entries) => DictBlockParses(d, i, depth, entries);
  }

  lemma {:induction false} ListBlockParses(d: Doc, i: nat, depth: nat, items: seq<Value>)
    requires items != [] && PrintableItems(items, d.python) && At(d, i, PrintList(items, depth))
    requires BlockEnds(d, i + |PrintList(items, depth)|, depth, List(items))
    ensures ParseBlock(d, i, depth) == Ok(List(items), i + |PrintList(items, depth)|)
    decreases items, 2
  {
    hide PrintList, PrintableItems, ParseList;
    ListParses(d, i, depth, items, []);
    assert [] + items == items;
    FirstLineOfList(items, depth);
    assert d.lines[i + 0] == PrintList(items, depth)[0];
    ListBlock(d, i, depth, items, i + |PrintList(items, depth)|);
  }

  lemma {:induction false} DictBlockParses(d: Doc, i: nat, depth: nat, entries: seq<Pair>)
    requires Distinct(entries) && PrintableEntries(entries, d.python) && At(d, i, PrintDict(entries, depth))
    requires BlockEnds(d, i + |PrintDict(entries, depth)|, depth, Dict(entries))
    ensures ParseBlock(d, i, depth) == Ok(Dict(entries), i + |PrintDict(entries, depth)|)
    decreases entries, 2
  {
    hide PrintDict, PrintableEntries, Distinct, ParseDict;
    assert [] + entries == entries;
    DictParses(d, i, depth, entries, []);
    FirstLineOfDict(entries, depth, d.python);
    EmptyDict(depth);
    assert PrintDict(entries, depth) != [] ==> d.lines[i + 0] == PrintDict(entries, depth)[0];
    DictBlock(d, i, depth, entries, i + |PrintDict(entries, depth)|);
  }

  lemma ListBlock(d: Doc, i: nat, depth: nat, items: seq<Value>, j: nat)
    requires i <= j <= |d.lines| && AtItem(d, i, depth) && !AtItem(d, j, depth)
    requires ParseList(d, i, depth, []) == ParseList(d, j, depth, items)
    ensures ParseBlock(d, i, depth) == Ok(List(items), j)
  {
  }

  lemma DictBlock(d: Doc, i: nat, depth: nat, entries: seq<Pair>, j: nat)
    requires i <= j <= |d.lines| && !AtEntry(d, j, depth)
    requires if i == j then entries == [] && (i < |d.lines| ==> d.lines[i].indent < depth) else AtEntry(d, i, depth)
    requires ParseDict(d, i, depth, []) == ParseDict(d, j, depth, entries)
    ensures ParseBlock(d, i, depth) == Ok(Dict(entries), j)
  {
  }

  /** What may follow a block: nothing at its depth that it would take in. */
  predicate BlockEnds(d: Doc, j: nat, depth: nat, v: Value) {
    j < |d.lines| ==> d.lines[j].indent < depth || (d.lines[j].indent == depth && v.List? && !IsDash(d.lines[j].text))
  }

  lemma FirstLineOfItem(v: Value, depth: nat)
    ensures PrintItem(v, depth) != [] && PrintItem(v, depth)[0].indent == depth && IsDash(PrintItem(v, depth)[0].text)
  {
  }

  lemma FirstLineOfList(items: seq<Value>, depth: nat)
    ensures items != [] ==> PrintList(items, depth) != [] && PrintList(items, depth)[0].indent == depth
                            && IsDash(PrintList(items, depth)[0].text)
  {
    if items != [] {
      FirstLineOfItem(items[0], depth);
    }
  }

  lemma FirstLineOfDict(entries: seq<Pair>, depth: nat, python: Python)
    requires PrintableEntries(entries, python)
    ensures entries != [] ==> PrintDict(entries, depth) != [] && PrintDict(entries, depth)[0].indent == depth
                              && !IsDash(PrintDict(entries, depth)[0].text)
  {
    if entries != [] {
      EntryNoDash(entries[0]);
    }
  }

  lemma DictTurn(d: Doc, i: nat, depth: nat, before: seq<Pair>, v: Value, j: nat, p: Pair)
    requires AtEntry(d, i, depth) && ParseEntry(d, i, depth) == Ok(v, j) && KeyOf(d.lines[i].text) == p.key && p.value == v
    requires forall q :: q in before ==> q.key != p.key
    ensures ParseDict(d, i, depth, before) == ParseDict(d, j, depth, before + [p])
  {
    PutNew(before, p.key, v);
  }

  lemma ListTurn(d: Doc, i: nat, depth: nat, before: seq<Value>, v: Value, j: nat)
    requires AtItem(d, i, depth) && ParseItem(d, i, depth) == Ok(v, j)
    ensures ParseList(d, i, depth, before) == ParseList(d, j, depth, before + [v])
  {
  }

  lemma DistinctNext(before: seq<Pair>, entries: seq<Pair>)
    requires entries != [] && Distinct(before + entries)
    ensures forall q :: q in before ==> q.key != entries[0].key
    ensures before + entries == (before + [entries[0]]) + entries[1..]
  {
    var all := before + entries;
    forall q | q in before ensures q.key != entries[0].key {
      var k :| 0 <= k < |before| && before[k] == q;
      assert all[k] == q && all[|before|] == entries[0];
    }
  }

  /** After a printed chunk comes the next chunk, or what follows both. */
  lemma WithinNext(d: Doc, j: nat, tail: seq<RawLine>, depth: nat)
    requires At(d, j, tail) && (tail != [] ==> tail[0].indent <= depth) && Within(d, j + |tail|, depth)
    ensures Within(d, j, depth)
  {
    if tail != [] {
      assert d.lines[j + 0] == tail[0];
    }
  }

  lemma {:induction false} DictParses(d: Doc, i: nat, depth: nat, entries: seq<Pair>, before: seq<Pair>)
    requires PrintableEntries(entries, d.python) && Distinct(before + entries)
    requires At(d, i, PrintDict(entries, depth)) && Within(d, i + |PrintDict(entries, depth)|, depth)
    ensures ParseDict(d, i, depth, before) == ParseDict(d, i + |PrintDict(entries, depth)|, depth, before + entries)
    decreases entries, 1
  {
    hide Distinct, PrintableEntries, PrintDict, PrintBlock, At, ParseEntry, Within, EntryText;
    if entries == [] {
      assert before + entries == before;
      EmptyDict(depth);
    } else {
      var p, rest := entries[0], entries[1..];
      var j := i + 1 + |PrintBlock(p.value, depth + 2)|;
      DictHead(d, i, depth, entries);
      EntryParses(d, i, depth, p);
      DistinctNext(before, entries);
      DictTurn(d, i, depth, before, p.value, j, p);
      DictParses(d, j, depth, rest, before + [p]);
    }
  }

  /** The first entry of a printed dict, and where the rest of it stands. */
  lemma DictHead(d: Doc, i: nat, depth: nat, entries: seq<Pair>)
    requires entries != [] && PrintableEntries(entries, d.python)
    requires At(d, i, PrintDict(entries, depth)) && Within(d, i + |PrintDict(entries, depth)|, depth)
    ensures var p, rest := entries[0], entries[1..]; var j := i + 1 + |PrintBlock(p.value, depth + 2)|;
      && At(d, i, [Line(depth, EntryText(p))]) && At(d, i + 1, PrintBlock(p.value, depth + 2))
      && At(d, j, PrintDict(rest, depth)) && Within(d, j, depth)
      && i + |PrintDict(entries, depth)| == j + |PrintDict(rest, depth)|
      && DictKey(p.key) && Printable(p.value, d.python) && PrintableEntries(rest, d.python)
  {
    hide PrintableEntries, Printable, DictKey, At, PrintBlock, PrintDict, IsDash, EntryText;
    var p, rest := entries[0], entries[1..];
    var head, block, tail := [Line(depth, EntryText(p))], PrintBlock(p.value, depth + 2), PrintDict(rest, depth);
    PrintedDict(entries, depth);
    PrintableDict(entries, d.python);
    FirstLineOfDict(rest, depth, d.python);
    EmptyDict(depth);
    AtSplit3(d, i, head, block, tail);
    WithinNext(d, i + 1 + |block|, tail, depth);
  }

  lemma PrintedDict(entries: seq<Pair>, depth: nat)
    requires entries != []
    ensures PrintDict(entries, depth)
         == [Line(depth, EntryText(entries[0]))] + PrintBlock(entries[0].value, depth + 2) + PrintDict(entries[1..], depth)
  {
  }

  lemma PrintableDict(entries: seq<Pair>, python: Python)
    requires entries != [] && PrintableEntries(entries, python)
    ensures DictKey(entries[0].key) && Printable(entries[0].value, python) && PrintableEntries(entries[1..], python)
  {
  }

  lemma EmptyDict(depth: nat)
    ensures PrintDict([], depth) == []
  {
  }

  lemma {:induction false} EntryParses(d: Doc, i: nat, depth: nat, p: Pair)
    requires DictKey(p.key) && Printable(p.value, d.python)
    requires At(d, i, [Line(depth, EntryText(p))]) && At(d, i + 1, PrintBlock(p.value, depth + 2))
    requires Within(d, i + 1 + |PrintBlock(p.value, depth + 2)|, depth)
    ensures AtEntry(d, i, depth) && HasColon(d.lines[i].text) && KeyOf(d.lines[i].text) == p.key
    ensures ParseEntry(d, i, depth) == Ok(p.value, i + 1 + |PrintBlock(p.value, depth + 2)|)
    decreases p, 0
  {
    assert d.lines[i] == [Line(depth, EntryText(p))][0];
    EntryReads(p, d);
    EntryNoDash(p);
    if !IsScalar(p.value) {
      BlockParses(d, i + 1, depth + 2, p.value);
    }
  }

  lemma {:induction false} ListParses(d: Doc, i: nat, depth: nat, items: seq<Value>, before: seq<Value>)
    requires PrintableItems(items, d.python)
    requires At(d, i, PrintList(items, depth)) && Within(d, i + |PrintList(items, depth)|, depth)
    ensures ParseList(d, i, depth, before) == ParseList(d, i + |PrintList(items, depth)|, depth, before + items)
    decreases items, 1
  {
    hide PrintableItems, PrintList, PrintItem, At, ParseItem, Within;
    if items == [] {
      assert before + items == before;
      EmptyList(depth);
    } else {
      var v, rest := items[0], items[1..];
      var j := i + |PrintItem(v, depth)|;
      ListHead(d, i, depth, items);
      ItemParses(d, i, depth, v);
      ListTurn(d, i, depth, before, v, j);
      assert before + items == (before + [v]) + rest;
      ListParses(d, j, depth, rest, before + [v]);
    }
  }

  lemma EmptyList(depth: nat)
    ensures PrintList([], depth) == []
  {
  }

  lemma ListHead(d: Doc, i: nat, depth: nat, items: seq<Value>)
    requires items != [] && PrintableItems(items, d.python)
    requires At(d, i, PrintList(items, depth)) && Within(d, i + |PrintList(items, depth)|, depth)
    ensures var v, rest := items[0], items[1..]; var j := i + |PrintItem(v, depth)|;
      && At(d, i, PrintItem(v, depth)) && At(d, j, PrintList(rest, depth)) && Within(d, j, depth)
      && i + |PrintList(items, depth)| == j + |PrintList(rest, depth)|
      && PrintableItem(v, d.python) && PrintableItems(rest, d.python)
  {
    hide PrintableItem, PrintableItems, At, PrintItem, PrintList, IsDash;
    var v, rest := items[0], items[1..];
    var head, tail := PrintItem(v, depth), PrintList(rest, depth);
    PrintedList(items, depth);
    PrintableList(items, d.python);
    FirstLineOfList(rest, depth);
    EmptyList(depth);
    AtSplit(d, i, head, tail);
    WithinNext(d, i + |head|, tail, depth);
  }

  lemma PrintedList(items: seq<Value>, depth: nat)
    requires items != []
    ensures PrintList(items, depth) == PrintItem(items[0], depth) + PrintList(items[1..], depth)
  {
  }

  lemma PrintableList(items: seq<Value>, python: Python)
    requires items != [] && PrintableItems(items, python)
    ensures PrintableItem(items[0], python) && PrintableItems(items[1..], python)
  {
  }

  lemma {:induction false} ItemParses(d: Doc, i: nat, depth: nat, v: Value)
    requires PrintableItem(v, d.python) && At(d, i, PrintItem(v, depth))
    requires Within(d, i + |PrintItem(v, depth)|, depth)
    ensures AtItem(d, i, depth) && ParseItem(d, i, depth) == Ok(v, i + |PrintItem(v, depth)|)
    decreases v, 2
  {
    hide Scalar, PrintableScalar, PrintScalar, PrintBlock, PrintDict, ParseItem, PrintableEntries, Printable;
    FirstLineOfItem(v, depth);
    AtFirst(d, i, PrintItem(v, depth));
    if v.Dict? {
      DictItemParses(d, i, depth, v.entries);
    } else {
      ScalarItemParses(d, i, depth, v);
    }
  }

  lemma ScalarItemParses(d: Doc, i: nat, depth: nat, v: Value)
    requires AtItem(d, i, depth) && d.lines[i].text == "- " + PrintScalar(v)
    requires PrintableScalar(v, d.python) && ':' !in PrintScalar(v)
    ensures ParseItem(d, i, depth) == Ok(v, i + 1)
  {
    hide Scalar, PrintScalar, PrintableScalar;
    ScalarRoundTrip(v, d);
    assert Content(d.lines[i].text) == PrintScalar(v);
    FindNone(PrintScalar(v), ':');
  }

  lemma {:induction false} DictItemParses(d: Doc, i: nat, depth: nat, entries: seq<Pair>)
    requires PrintableItem(Dict(entries), d.python) && At(d, i, PrintItem(Dict(entries), depth))
    requires Within(d, i + |PrintItem(Dict(entries), depth)|, depth) && AtItem(d, i, depth)
    ensures ParseItem(d, i, depth) == Ok(Dict(entries), i + |PrintItem(Dict(entries), depth)|)
    decreases entries, 2
  {
    hide PrintableItem, PrintItem, Printable, PrintBlock, PrintableEntries, Distinct, PrintDict, At, EntryText, ParseItem, HasColon, KeyOf, RestOf, Blank, Scalar, Within, BlockEnds, AtItem;
    PrintableItemNotEmpty(entries, d.python);
    var p, rest := entries[0], entries[1..];
    var j := i + 1 + |PrintBlock(p.value, depth + 2)|;
    DictItemHead(d, i, depth, entries);
    EntryReads(p, d);
    if IsScalar(p.value) {
      NoBlock(p.value, depth + 2);
    } else {
      BlockParses(d, i + 1, depth + 2, p.value);
    }
    RestParses(d, j, depth, p, rest);
    ItemTurn(d, i, depth, p, rest, j, j + |PrintDict(rest, depth + 2)|);
    assert entries == [p] + rest;
  }

  lemma PrintableItemNotEmpty(entries: seq<Pair>, python: Python)
    requires PrintableItem(Dict(entries), python)
    ensures entries != []
  {
  }

  lemma DictItemHead(d: Doc, i: nat, depth: nat, entries: seq<Pair>)
    requires PrintableItem(Dict(entries), d.python) && At(d, i, PrintItem(Dict(entries), depth))
    requires Within(d, i + |PrintItem(Dict(entries), depth)|, depth)
    ensures var p, rest := entries[0], entries[1..]; var j := i + 1 + |PrintBlock(p.value, depth + 2)|;
      && i < |d.lines| && d.lines[i].text == "- " + EntryText(p)
      && At(d, i + 1, PrintBlock(p.value, depth + 2)) && At(d, j, PrintDict(rest, depth + 2))
      && i + |PrintItem(Dict(entries), depth)| == j + |PrintDict(rest, depth + 2)|
      && (!IsScalar(p.value) ==> BlockEnds(d, j, depth + 2, p.value))
      && ':' !in p.key && Printable(p.value, d.python) && PrintableEntries(rest, d.python)
      && Distinct([p] + rest)
  {
    hide Printable, PrintableEntries, Distinct, PrintBlock, PrintDict, EntryText;
    var p, rest := entries[0], entries[1..];
    var head, block, tail := [Line(depth, "- " + EntryText(p))], PrintBlock(p.value, depth + 2), PrintDict(rest, depth + 2);
    assert entries == [p] + rest;
    assert p.value.Dict? ==> rest == [];
    assert PrintItem(Dict(entries), depth) == head + block + tail;
    FirstLineOfDict(rest, depth + 2, d.python);
    EmptyDict(depth + 2);
    AtSplit3(d, i, head, block, tail);
    assert d.lines[i + 0] == head[0];
    assert tail != [] ==> d.lines[i + 1 + |block| + 0] == tail[0];
  }

  lemma ItemTurn(d: Doc, i: nat, depth: nat, p: Pair, rest: seq<Pair>, j: nat, k: nat)
    requires AtItem(d, i, depth) && i < j <= |d.lines| && d.lines[i].text == "- " + EntryText(p)
    requires HasColon(EntryText(p)) && KeyOf(EntryText(p)) == p.key
    requires if IsScalar(p.value)
             then j == i + 1 && !Blank(RestOf(EntryText(p))) && Scalar(d, RestOf(EntryText(p))) == Some(p.value)
             else Blank(RestOf(EntryText(p))) && ParseBlock(d, i + 1, depth + 2) == Ok(p.value, j)
    requires ParseRest(d, j, depth, [p]) == Ok(Dict([p] + rest), k)
    ensures ParseItem(d, i, depth) == Ok(Dict([p] + rest), k)
  {
    hide Scalar, Blank, HasColon, KeyOf, RestOf, EntryText, ParseRest;
    assert Content(d.lines[i].text) == EntryText(p);
  }

  lemma NoBlock(v: Value, depth: nat)
    requires IsScalar(v)
    ensures PrintBlock(v, depth) == []
  {
  }

  /** The keys after the first one of a dict item form one block two deeper. */
  lemma {:induction false} RestParses(d: Doc, j: nat, depth: nat, p: Pair, rest: seq<Pair>)
    requires PrintableEntries(rest, d.python) && Distinct([p] + rest)
    requires At(d, j, PrintDict(rest, depth + 2)) && Within(d, j + |PrintDict(rest, depth + 2)|, depth)
    ensures ParseRest(d, j, depth, [p]) == Ok(Dict([p] + rest), j + |PrintDict(rest, depth + 2)|)
    decreases rest, 4
  {
    hide PrintDict, PrintableEntries, Distinct, ParseRest;
    if rest == [] {
      assert [p] + rest == [p];
      EmptyDict(depth + 2);
      RestEnds(d, j, depth, [p]);
    } else {
      FirstLineOfDict(rest, depth + 2, d.python);
      AtFirst(d, j, PrintDict(rest, depth + 2));
      DistinctTail(p, rest);
      DictBlockParses(d, j, depth + 2, rest);
      UpdateNew([p], rest);
      RestTurn(d, j, depth, p, rest, j + |PrintDict(rest, depth + 2)|);
    }
  }

  lemma AtFirst(d: Doc, j: nat, chunk: seq<RawLine>)
    requires At(d, j, chunk) && chunk != []
    ensures j < |d.lines| && d.lines[j] == chunk[0]
  {
    assert d.lines[j + 0] == chunk[0];
  }

  lemma DistinctTail(p: Pair, rest: seq<Pair>)
    requires Distinct([p] + rest)
    ensures Distinct(rest)
  {
    assert rest == ([p] + rest)[1..];
  }

  lemma RestEnds(d: Doc, j: nat, depth: nat, item: seq<Pair>)
    requires j <= |d.lines| && Within(d, j, depth)
    ensures ParseRest(d, j, depth, item) == Ok(Dict(item), j)
  {
  }

  lemma RestTurn(d: Doc, j: nat, depth: nat, p: Pair, rest: seq<Pair>, k: nat)
    requires j < |d.lines| && d.lines[j].indent > depth && j < k
    requires ParseBlock(d, j, depth + 2) == Ok(Dict(rest), k) && Within(d, k, depth)
    requires Update([p], rest) == [p] + rest
    ensures ParseRest(d, j, depth, [p]) == Ok(Dict([p] + rest), k)
  {
  }

  /** Parsing the printed lines of a printable dict returns the dict and uses every line. */
  lemma ParsePrinted(d: Doc, entries: seq<Pair>)
    requires Distinct(entries) && PrintableEntries(entries, d.python)
    requires d.lines == PrintDict(entries, 0)
    ensures Parse(d) == Ok(Dict(entries), |d.lines|)
  {
    DictBlockParses(d, 0, 0, entries);
  }

  /* ---- from lines to text and back ---- */

  predicate Clean(l: RawLine) {
    Trimmed(l.text) && l.text != "" && l.text[0] != '#' && BreakFree(l.text)
  }

  predicate AllClean(lines: seq<RawLine>) {
    forall k :: 0 <= k < |lines| ==> Clean(lines[k])
  }

  lemma ScalarBreakFree(v: Value, python: Python)
    requires PrintableScalar(v, python)
    ensures BreakFree(PrintScalar(v))
  {
    hide PrintScalar, PrintableScalar;
    ScalarShape(v, python);
    BreakFreeIs(PrintScalar(v));
  }

  lemma EntryBreakFree(p: Pair, python: Python)
    requires BreakFree(p.key) && Printable(p.value, python)
    ensures BreakFree(EntryText(p)) && BreakFree("- " + EntryText(p))
  {
    hide PrintScalar, PrintableScalar;
    if IsScalar(p.value) {
      PrintableIsScalar(p.value, python);
      ScalarBreakFree(p.value, python);
    }
  }

  lemma EntryClean(p: Pair, depth: nat, python: Python)
    requires DictKey(p.key) && Printable(p.value, python)
    ensures Clean(Line(depth, EntryText(p)))
  {
    var text := EntryText(p);
    if IsScalar(p.value) {
      ScalarRoundTrip(p.value, Doc([], python));
      assert text[|text| - 1] == PrintScalar(p.value)[|PrintScalar(p.value)| - 1];
    }
    assert text[0] == if p.key == "" then ':' else p.key[0];
    EntryBreakFree(p, python);
  }

  /** A list item's line is clean whatever its first key, line breaks apart. */
  lemma ItemClean(p: Pair, depth: nat, python: Python)
    requires BreakFree(p.key) && Printable(p.value, python)
    ensures Clean(Line(depth, "- " + EntryText(p)))
  {
    EntryBreakFree(p, python);
    var text := "- " + EntryText(p);
    if IsScalar(p.value) {
      ScalarRoundTrip(p.value, Doc([], python));
      assert text[|text| - 1] == PrintScalar(p.value)[|PrintScalar(p.value)| - 1];
    } else {
      assert text[|text| - 1] == ':';
    }
  }

  lemma {:induction false} BlockClean(v: Value, depth: nat, python: Python)
    requires Printable(v, python)
    ensures AllClean(PrintBlock(v, depth))
    decreases v, 1
  {
    hide PrintDict, PrintList, PrintableEntries, PrintableItems, Clean;
    match v
    case List(items) => ListClean(items, depth, python);
    case Dict(entries) => DictClean(entries, depth, python);
    case _ =>
  }

  lemma {:induction false} DictClean(entries: seq<Pair>, depth: nat, python: Python)
    requires PrintableEntries(entries, python)
    ensures AllClean(PrintDict(entries, depth))
    decreases entries, 0
  {
    hide PrintDict, PrintBlock, PrintableEntries, Printable, Clean, EntryText, DictKey;
    if entries == [] {
      EmptyDict(depth);
    } else {
      PrintedDict(entries, depth);
      PrintableDict(entries, python);
      EntryClean(entries[0], depth, python);
      BlockClean(entries[0].value, depth + 2, python);
      DictClean(entries[1..], depth, python);
    }
  }

  lemma {:induction false} ListClean(items: seq<Value>, depth: nat, python: Python)
    requires PrintableItems(items, python)
    ensures AllClean(PrintList(items, depth))
    decreases items, 0
  {
    hide PrintList, PrintItem, PrintableItems, PrintableItem, Clean;
    if items == [] {
      EmptyList(depth);
    } else {
      PrintedList(items, depth);
      PrintableList(items, python);
      ItemLinesClean(items[0], depth, python);
      ListClean(items[1..], depth, python);
    }
  }

  lemma {:induction false} ItemLinesClean(v: Value, depth: nat, python: Python)
    requires PrintableItem(v, python)
    ensures AllClean(PrintItem(v, depth))
    decreases v, 1
  {
    hide PrintBlock, PrintDict, PrintableEntries, EntryText, Printable, PrintableScalar, Clean, Distinct;
    if v.Dict? {
      var p := v.entries[0];
      ItemClean(p, depth, python);
      BlockClean(p.value, depth + 2, python);
      DictClean(v.entries[1..], depth + 2, python);
    } else {
      ScalarItemClean(v, depth, python);
    }
  }

  lemma ScalarItemClean(v: Value, depth: nat, python: Python)
    requires PrintableScalar(v, python)
    ensures Clean(Line(depth, "- " + PrintScalar(v)))
  {
    hide PrintScalar, PrintableScalar;
    var text := "- " + PrintScalar(v);
    ScalarShape(v, python);
    ScalarBreakFree(v, python);
    assert text[|text| - 1] == PrintScalar(v)[|PrintScalar(v)| - 1];
  }

  lemma {:induction false} SpacedReads(n: nat, text: string)
    requires Trimmed(text) && text != ""
    ensures TrimLeft(Spacing(n) + text) == text && Spaces(Spacing(n) + text) == n
  {
    if n == 0 {
      assert Spacing(0) + text == text;
    } else {
      SpacedReads(n - 1, text);
      assert (Spacing(n) + text)[1..] == Spacing(n - 1) + text;
    }
  }

  lemma LineReads(l: RawLine)
    requires Clean(l)
    ensures var raw := Spacing(l.indent) + l.text; !Skipped(raw) && ReadLine(raw) == l
  {
    var raw := Spacing(l.indent) + l.text;
    SpacedReads(l.indent, l.text);
    TrimLeftBlank(raw);
    assert TrimRight(l.text) == l.text;
  }

  lemma {:induction false} LinesRead(lines: seq<RawLine>)
    requires AllClean(lines)
    ensures ReadLines(Render(lines)) == lines
  {
    hide Clean, Skipped, ReadLine, Spacing;
    if lines != [] {
      var n := |lines| - 1;
      LinesRead(lines[..n]);
      LineReads(lines[n]);
      var raws := Render(lines);
      assert raws[..|raws| - 1] == Render(lines[..n]);
    }
  }

  lemma RenderedLine(lines: seq<RawLine>, raw: string)
    requires AllClean(lines) && raw in Render(lines)
    ensures raw != "" && BreakFree(raw)
    decreases |lines|
  {
    hide Spacing;
    if lines != [] {
      var n := |lines| - 1;
      if raw in Render(lines[..n]) {
        RenderedLine(lines[..n], raw);
      } else {
        SpacingBreakFree(lines[n].indent);
      }
    }
  }

  lemma {:induction false} SpacingBreakFree(n: nat)
    ensures BreakFree(Spacing(n))
  {
    if n > 0 {
      SpacingBreakFree(n - 1);
    }
  }

  /** The text of the file: the printed lines, each ended by a line feed but perhaps the last. */
  function FileText(entries: seq<Pair>, end: string): string {
    Join(Render(PrintDict(entries, 0)), '\n') + end
  }

  /** Loading the text printed for any printable dict returns that dict. */
  lemma LoadPrinted(entries: seq<Pair>, end: string, python: Python)
    requires Distinct(entries) && PrintableEntries(entries, python) && (end == "" || end == "\n")
    ensures Load(FileText(entries, end), python) == Ok(Dict(entries), |PrintDict(entries, 0)|)
  {
    hide Distinct, PrintableEntries, Render, PrintDict, Parse, Join, SplitLines, ReadLines, AllClean;
    var raws := Render(PrintDict(entries, 0));
    DictClean(entries, 0, python);
    LinesRead(PrintDict(entries, 0));
    ParsePrinted(Doc(ReadLines(raws), python), entries);
    forall raw | raw in raws
      ensures raw != "" && BreakFree(raw)
    {
      RenderedLine(PrintDict(entries, 0), raw);
    }
    if raws != [] {
      assert raws[|raws| - 1] in raws;
      SplitLinesJoin(raws, end);
    } else {
      EmptyText(end);
    }
  }

  /** An empty file, or one empty line. */
  lemma EmptyText(end: string)
    requires end == "" || end == "\n"
    ensures ReadLines(SplitLines(Join([], '\n') + end)) == [] == ReadLines([])
  {
    assert Join([], '\n') + end == end;
    assert LineLength("\n") == 0 && "\n"[1..] == "" && "\n"[0..] == "\n";
    assert SplitLines("") == [];
    assert end == "\n" ==> SplitLines(end) == [""];
    assert [""][..0] == [];
  }
}
