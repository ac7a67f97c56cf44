/** What the reader makes of the characters of a file: line breaks, blanks, comments, scalars, repeated keys. */
module YamlText {
  import opened Text
  import opened SimpleYaml

  /* ---- blanks ---- */

  const BLANKS: string := " \t\n\U{0B}\U{0C}\r\U{1C}\U{1D}\U{1E}\U{1F}\U{85}\U{A0}\U{1680}\U{2000}\U{2001}\U{2002}\U{2003}\U{2004}\U{2005}\U{2006}\U{2007}\U{2008}\U{2009}\U{200A}\U{2028}\U{2029}\U{202F}\U{205F}\U{3000}"

  lemma BlankIs(c: char)
    ensures IsSpace(c) <==> c in BLANKS
  {
  }

  predicate AllIn(s: string, set': string) {
    forall i :: 0 <= i < |s| ==> s[i] in set'
  }

  /** `s` is the part of `value` between the blanks at its two ends. */
  predicate Strips(value: string, s: string) {
    exists i, j :: 0 <= i <= j <= |value| && StripsAt(value, s, i, j)
  }

  predicate StripsAt(value: string, s: string, i: nat, j: nat)
    requires i <= j <= |value|
  {
    && s == value[i..j] && AllIn(value[..i], BLANKS) && AllIn(value[j..], BLANKS)
    && (s != "" ==> s[0] !in BLANKS && s[|s| - 1] !in BLANKS)
  }

  lemma {:induction false} TrimLeftIs(value: string, i: nat)
    requires i <= |value| && AllIn(value[..i], BLANKS) && (i < |value| ==> value[i] !in BLANKS)
    ensures TrimLeft(value) == value[i..]
  {
    if i > 0 {
      assert value[..i][0] == value[0];
      BlankIs(value[0]);
      assert value[1..][..i - 1] == value[..i][1..];
      assert value[1..][i - 1..] == value[i..];
      TrimLeftIs(value[1..], i - 1);
    } else if value != "" {
      BlankIs(value[0]);
    }
  }

  lemma AllInLast(s: string, set': string)
    requires s != "" && AllIn(s, set')
    ensures s[|s| - 1] in set' && AllIn(s[..|s| - 1], set')
  {
  }

  lemma LastBlank(value: string, j: nat)
    requires j < |value| && AllIn(value[j..], BLANKS)
    ensures var front := value[..|value| - 1];
      IsSpace(value[|value| - 1]) && AllIn(front[j..], BLANKS) && front[..j] == value[..j]
  {
    hide AllIn, IsSpace;
    var n := |value| - 1;
    AllInLast(value[j..], BLANKS);
    BlankIs(value[n]);
    assert value[..n][j..] == value[j..][..n - j];
  }

  lemma {:induction false} TrimRightIs(value: string, j: nat)
    requires j <= |value| && AllIn(value[j..], BLANKS) && (j > 0 ==> value[j - 1] !in BLANKS)
    ensures TrimRight(value) == value[..j]
  {
    hide AllIn, IsSpace;
    var n := |value|;
    if j < n {
      LastBlank(value, j);
      TrimRightIs(value[..n - 1], j);
    } else if n > 0 {
      BlankIs(value[n - 1]);
    }
  }

  lemma TrimStrips(value: string, s: string)
    requires Strips(value, s)
    ensures Trim(value) == s
  {
    hide TrimLeft, TrimRight, AllIn;
    var i, j :| 0 <= i <= j <= |value| && StripsAt(value, s, i, j);
    StripAll(value, i, j);
  }

  lemma StripAll(value: string, i: nat, j: nat)
    requires i <= j <= |value| && StripsAt(value, value[i..j], i, j)
    ensures Trim(value) == value[i..j]
  {
    hide TrimLeft, TrimRight;
    if i == j {
      assert AllIn(value, BLANKS) && value[..|value|] == value;
      TrimLeftIs(value, |value|);
      TrimRightIs("", 0);
    } else {
      StripEnds(value, i, j);
    }
  }

  lemma StripEnds(value: string, i: nat, j: nat)
    requires i < j <= |value| && StripsAt(value, value[i..j], i, j)
    ensures Trim(value) == value[i..j]
  {
    hide TrimLeft, TrimRight, AllIn;
    assert value[i..j][0] == value[i] && value[i..j][j - i - 1] == value[j - 1];
    TrimLeftIs(value, i);
    assert value[i..][j - i..] == value[j..] && value[i..][..j - i] == value[i..j];
    TrimRightIs(value[i..], j - i);
  }

  lemma {:induction false} LeftEnd(value: string) returns (i: nat)
    ensures i <= |value| && AllIn(value[..i], BLANKS) && (i < |value| ==> value[i] !in BLANKS)
  {
    i := 0;
    while i < |value| && value[i] in BLANKS
      invariant i <= |value| && AllIn(value[..i], BLANKS)
    {
      i := i + 1;
    }
  }

  lemma {:induction false} RightEnd(value: string, i: nat) returns (j: nat)
    requires i <= |value| && (i < |value| ==> value[i] !in BLANKS)
    ensures i <= j <= |value| && AllIn(value[j..], BLANKS) && (i < j ==> value[j - 1] !in BLANKS)
    ensures i < |value| ==> i < j
  {
    j := |value|;
    while i < j && value[j - 1] in BLANKS
      invariant i <= j <= |value| && AllIn(value[j..], BLANKS) && (i < |value| ==> i < j)
    {
      j := j - 1;
    }
  }

  /** Every text has its stripped part. */
  lemma EveryTextStrips(value: string)
    ensures Strips(value, Trim(value))
  {
    var i := LeftEnd(value);
    var j := RightEnd(value, i);
    assert StripsAt(value, value[i..j], i, j);
    StripAll(value, i, j);
  }

  /* ---- integers ---- */

  /** Groups of digits as they stand between single underscores. */
  predicate DigitGroups(groups: seq<string>) {
    groups != [] && forall g :: g in groups ==> g != "" && AllIn(g, "0123456789")
  }

  ghost predicate IsInteger(s: string, sign: string, groups: seq<string>, n: int) {
    && (sign == "" || sign == "-" || sign == "+") && DigitGroups(groups) && s == sign + Join(groups, '_') && AllDigits(Flatten(groups))
    && n == if sign == "-" then -(NumeralValue(Flatten(groups)) as int) else NumeralValue(Flatten(groups))
  }

  ghost predicate ReadsAsInteger(python: Python, s: string, n: int) {
    if forall i :: 0 <= i < |s| ==> s[i] as int < 128 then exists sign, groups :: IsInteger(s, sign, groups, n)
    else python.foreignInt(s) == Some(n)
  }

  lemma {:induction false} DigitsOfDigits(s: string)
    requires AllDigits(s)
    ensures DigitsOf(s) == s
  {
    if s != "" {
      DigitsOfDigits(s[..|s| - 1]);
      assert s == s[..|s| - 1] + [s[|s| - 1]];
    }
  }

  lemma DigitsOfLast(s: string, c: char)
    ensures DigitsOf(s + [c]) == DigitsOf(s) + if IsDigit(c) then [c] else ""
  {
    assert (s + [c])[..|s|] == s;
  }

  lemma {:induction false} DigitsOfAppend(a: string, b: string)
    ensures DigitsOf(a + b) == DigitsOf(a) + DigitsOf(b)
  {
    hide DigitsOf;
    if b == "" {
      assert a + b == a;
      NoDigits();
    } else {
      var n := |b| - 1;
      DigitsOfAppend(a, b[..n]);
      assert a + b == (a + b[..n]) + [b[n]];
      assert b == b[..n] + [b[n]];
      DigitsOfLast(a + b[..n], b[n]);
      DigitsOfLast(b[..n], b[n]);
    }
  }

  lemma NoDigits()
    ensures DigitsOf("") == ""
  {
  }

  lemma GroupDigits(g: string)
    requires g != "" && AllIn(g, "0123456789")
    ensures AllDigits(g) && IsIntBody(g) && Ascii(g)
  {
    assert g[0] in "0123456789" && g[|g| - 1] in "0123456789";
  }

  lemma BodyCons(g: string, rest: string)
    requires g != "" && AllDigits(g) && IsIntBody(rest)
    ensures IsIntBody(g + ['_'] + rest)
  {
    var s := g + ['_'] + rest;
    var k := |g|;
    assert forall i :: 0 <= i < |g| ==> s[i] == g[i];
    assert forall i :: 0 <= i < |rest| ==> s[k + 1 + i] == rest[i];
    assert s[|s| - 1] == rest[|rest| - 1];
    forall i | 0 <= i < |s|
      ensures IsDigit(s[i]) || s[i] == '_'
    {
      if i > k {
        assert s[i] == rest[i - k - 1];
      }
    }
    forall i | 0 <= i < |s| - 1
      ensures s[i] != '_' || s[i + 1] != '_'
    {
      if i > k {
        assert s[i] == rest[i - k - 1] && s[i + 1] == rest[i - k];
      }
    }
  }

  lemma {:induction false} GroupsAreBody(groups: seq<string>)
    requires DigitGroups(groups)
    ensures IsIntBody(Join(groups, '_')) && Ascii(Join(groups, '_'))
    ensures DigitsOf(Join(groups, '_')) == Flatten(groups) && AllDigits(Flatten(groups))
  {
    hide IsIntBody, DigitsOf, AllIn, Join, Flatten, AllDigits, Ascii;
    var g, rest := groups[0], groups[1..];
    assert g in groups && groups == [g] + rest;
    GroupDigits(g);
    DigitsOfDigits(g);
    if rest == [] {
      assert groups == [g];
      FlattenOne(g);
      JoinOne(g, '_');
    } else {
      assert forall h :: h in rest ==> h in groups;
      GroupsAreBody(rest);
      JoinCons(g, rest, '_');
      FlattenAppend([g], rest);
      FlattenOne(g);
      MoreDigits(g, Join(rest, '_'));
    }
  }

  lemma MoreDigits(g: string, rest: string)
    requires g != "" && AllDigits(g) && IsIntBody(rest) && Ascii(rest)
    ensures IsIntBody(g + ['_'] + rest) && Ascii(g + ['_'] + rest)
    ensures DigitsOf(g + ['_'] + rest) == g + DigitsOf(rest) && AllDigits(g + DigitsOf(rest))
  {
    hide IsIntBody, Ascii;
    BodyCons(g, rest);
    DigitsJoined(g, rest);
    AsciiJoined(g, rest);
    assert forall i :: 0 <= i < |g| ==> IsDigit(g[i]);
  }

  lemma AsciiJoined(g: string, rest: string)
    requires AllDigits(g) && Ascii(rest)
    ensures Ascii(g + ['_'] + rest)
  {
  }

  lemma DigitsJoined(g: string, rest: string)
    requires AllDigits(g)
    ensures DigitsOf(g + ['_'] + rest) == g + DigitsOf(rest)
  {
    hide DigitsOf;
    DigitsOfDigits(g);
    DigitsOfAppend(g + ['_'], rest);
    DigitsOfLast(g, '_');
  }

  lemma {:induction false} BodyHasGroups(s: string)
    requires IsIntBody(s)
    ensures DigitGroups(Split(s, '_'))
    decreases |s|
  {
    var k := Find(s, '_');
    assert AllIn(s[..k], "0123456789");
    if k < |s| {
      assert IsIntBody(s[k + 1..]);
      BodyHasGroups(s[k + 1..]);
    } else {
      assert s[..k] == s;
    }
  }

  /** An ASCII text is an integer exactly when it is a sign or none before groups of digits with single
      underscores between them, and the number is that of the digits. */
  lemma IntExactly(python: Python, s: string, n: int)
    ensures IntText(python, s) == Some(n) <==> ReadsAsInteger(python, s, n)
  {
    hide IsIntBody, DigitsOf, NumeralValue, Join, Split, Flatten;
    if IntText(python, s) == Some(n) && Ascii(s) {
      IntegerHasGroups(python, s, n);
    }
    if Ascii(s) && ReadsAsInteger(python, s, n) {
      var sign, groups :| IsInteger(s, sign, groups, n);
      IntegerReads(python, s, sign, groups, n);
    }
  }

  lemma IntegerHasGroups(python: Python, s: string, n: int)
    requires IntText(python, s) == Some(n) && Ascii(s)
    ensures ReadsAsInteger(python, s, n)
  {
    hide DigitsOf, NumeralValue, Join, Split, Flatten;
    var sign, body := if Signed(s) then [s[0]] else "", if Signed(s) then s[1..] else s;
    BodyHasGroups(body);
    JoinSplit(body, '_');
    GroupsAreBody(Split(body, '_'));
    assert Signed(s) ==> sign == "-" || sign == "+";
    assert s == sign + body;
    assert !Signed(s) ==> s[0] != '-';
    assert IsInteger(s, sign, Split(body, '_'), n);
  }

  lemma IntegerReads(python: Python, s: string, sign: string, groups: seq<string>, n: int)
    requires IsInteger(s, sign, groups, n)
    ensures IntText(python, s) == Some(n)
  {
    hide DigitsOf, NumeralValue, Join, Flatten;
    var body := Join(groups, '_');
    GroupsAreBody(groups);
    assert body != "" && IsDigit(body[0]);
    assert s[|sign|..] == body;
    assert Signed(s) <==> sign != "";
  }

  /* ---- scalars ---- */

  /** The texts handed to the literal evaluator: those that open with a bracket, and those that begin
      and end with the same kind of quote. */
  predicate ReadsAsLiteral(s: string) {
    s != "" && (s[0] == '[' || (s[0] == '"' && s[|s| - 1] == '"') || (s[0] == '\'' && s[|s| - 1] == '\''))
  }

  predicate IsKeyword(s: string) {
    s == "null" || s == "true" || s == "false"
  }

  /** What a scalar is, read off the characters between its blanks. */
  lemma ScalarExactly(d: Doc, value: string, s: string)
    requires Strips(value, s)
    ensures s == "null" ==> Scalar(d, value) == Some(Null)
    ensures s == "true" ==> Scalar(d, value) == Some(Bool(true))
    ensures s == "false" ==> Scalar(d, value) == Some(Bool(false))
    ensures ReadsAsLiteral(s) ==> Scalar(d, value) == if d.python.evaluates(s) then Some(Literal(s)) else None
    ensures !IsKeyword(s) && !ReadsAsLiteral(s) ==>
      && (forall n :: Scalar(d, value) == Some(Int(n)) <==> ReadsAsInteger(d.python, s, n))
      && (Scalar(d, value) == Some(Str(s)) <==> forall n :: !ReadsAsInteger(d.python, s, n))
  {
    hide ReadsAsInteger, IntText, Trim;
    TrimStrips(value, s);
    assert "null"[0] == 'n' && "true"[0] == 't' && "false"[0] == 'f';
    forall n
      ensures IntText(d.python, s) == Some(n) <==> ReadsAsInteger(d.python, s, n)
    {
      IntExactly(d.python, s, n);
    }
    assert IntText(d.python, s).Some? ==> ReadsAsInteger(d.python, s, IntText(d.python, s).value);
  }

  /* ---- lines ---- */

  function Kept(raw: string): seq<Line> {
    if Skipped(raw) then [] else [ReadLine(raw)]
  }

  lemma OneMoreLine(front: seq<string>, raw: string)
    ensures ReadLines(front + [raw]) == ReadLines(front) + Kept(raw)
  {
    hide Skipped, ReadLine;
    assert (front + [raw])[..|front|] == front;
  }

  lemma {:induction false} ReadLinesAppend(a: seq<string>, b: seq<string>)
    ensures ReadLines(a + b) == ReadLines(a) + ReadLines(b)
  {
    hide ReadLines, Kept;
    if b == [] {
      assert a + b == a;
      NoLines();
    } else {
      var n := |b| - 1;
      assert a + b == (a + b[..n]) + [b[n]];
      assert b == b[..n] + [b[n]];
      ReadLinesAppend(a, b[..n]);
      OneMoreLine(a + b[..n], b[n]);
      OneMoreLine(b[..n], b[n]);
    }
  }

  lemma NoLines()
    ensures ReadLines([]) == []
  {
  }

  /** A line of blanks, or one whose first other character is the comment sign. */
  predicate Ignorable(raw: string) {
    AllIn(raw, BLANKS) || exists i :: 0 <= i < |raw| && raw[i] == '#' && AllIn(raw[..i], BLANKS)
  }

  lemma SkippedIs(raw: string)
    ensures Skipped(raw) <==> Ignorable(raw)
  {
    hide TrimLeft, AllIn;
    var i := LeftEnd(raw);
    TrimLeftIs(raw, i);
    TrimLeftBlank(raw);
    assert raw[..|raw|] == raw;
    AllOrPart(raw, i);
    if i < |raw| && Ignorable(raw) {
      var h :| 0 <= h < |raw| && raw[h] == '#' && AllIn(raw[..h], BLANKS);
      SameEnd(raw, i, h);
    }
  }

  lemma AllOrPart(raw: string, i: nat)
    requires i <= |raw| && AllIn(raw[..i], BLANKS) && (i < |raw| ==> raw[i] !in BLANKS)
    ensures AllIn(raw, BLANKS) <==> i == |raw|
  {
    assert i == |raw| ==> raw[..i] == raw;
  }

  lemma SameEnd(raw: string, i: nat, h: nat)
    requires i < |raw| && h < |raw| && AllIn(raw[..i], BLANKS) && AllIn(raw[..h], BLANKS)
    requires raw[i] !in BLANKS && raw[h] !in BLANKS
    ensures i == h
  {
  }

  lemma {:induction false} SpacesAre(raw: string, n: nat)
    requires n <= |raw| && (forall i :: 0 <= i < n ==> raw[i] == ' ') && (n < |raw| ==> raw[n] != ' ')
    ensures Spaces(raw) == n
  {
    if n > 0 {
      SpacesAre(raw[1..], n - 1);
    }
  }

  /** Blank lines and comments leave no trace; every other line counts with the number of spaces it
      begins with and its stripped text. */
  lemma LineExactly(before: seq<string>, raw: string, after: seq<string>, n: nat, text: string)
    requires n <= |raw| && (forall i :: 0 <= i < n ==> raw[i] == ' ') && (n < |raw| ==> raw[n] != ' ')
    requires Strips(raw, text)
    ensures var read := ReadLines(before + [raw] + after);
      if Ignorable(raw) then read == ReadLines(before + after)
      else Trimmed(text) && text != "" && read == ReadLines(before) + [Line(n, text)] + ReadLines(after)
  {
    hide Ignorable, Skipped, Trim, Trimmed, Spaces, Strips, ReadLines, Kept;
    SkippedIs(raw);
    ReadLinesAppend(before, after);
    ReadLinesAppend(before + [raw], after);
    OneMoreLine(before, raw);
    SpacesAre(raw, n);
    TrimStrips(raw, text);
    KeptIs(raw);
  }

  lemma KeptIs(raw: string)
    ensures Kept(raw) == if Skipped(raw) then [] else [Line(Spaces(raw), Trim(raw))]
    ensures !Skipped(raw) ==> Trimmed(Trim(raw)) && Trim(raw) != ""
  {
    TrimTrims(raw);
    TrimBlank(raw);
  }

  /* ---- line breaks ---- */

  const BREAKS: string := "\n\r\U{0B}\U{0C}\U{1C}\U{1D}\U{1E}\U{85}\U{2028}\U{2029}"

  predicate NoneIn(s: string, set': string) {
    forall i :: 0 <= i < |s| ==> s[i] !in set'
  }

  lemma BreakFreeIs(s: string)
    ensures BreakFree(s) <==> NoneIn(s, BREAKS)
  {
    assert forall c: char :: IsBreak(c) <==> c in BREAKS;
  }

  /** Each of the break characters ends a line, a carriage return together with the line feed after it;
      what follows the last break is a line only when it is not empty. */
  lemma SplitLinesExactly(line: string, end: string, rest: string)
    requires NoneIn(line, BREAKS)
    requires end == "\r\n" || (|end| == 1 && end[0] in BREAKS && !(end == "\r" && rest != "" && rest[0] == '\n'))
    ensures SplitLines(line + end + rest) == [line] + SplitLines(rest)
    ensures SplitLines(line) == if line == "" then [] else [line]
  {
    BreakFreeIs(line);
    var text := line + end + rest;
    assert IsBreak(end[0]);
    assert text == line + (end + rest);
    LineLengthIs(line, end + rest);
    assert text[..|line|] == line && text[|line|..] == end + rest && (end + rest)[|end|..] == rest;
    assert "\r\n" <= end + rest <==> end == "\r\n";
    assert line + "" == line;
    LineLengthIs(line, "");
  }

  /* ---- keys given twice ---- */

  /** The value a dict holds under a key: that of its first entry with the key. */
  function ValueOf(entries: seq<Pair>, key: string): Option<Value> {
    if entries == [] then None
    else if entries[0].key == key then Some(entries[0].value)
    else ValueOf(entries[1..], key)
  }

  function KeysOf(entries: seq<Pair>): (keys: seq<string>)
    ensures |keys| == |entries| && forall i :: 0 <= i < |keys| ==> keys[i] == entries[i].key
  {
    seq(|entries|, i requires 0 <= i < |entries| => entries[i].key)
  }

  /** Assignment: the later value wins, at the place of the earlier one if there is one. */
  lemma PutExactly(data: seq<Pair>, key: string, value: Value, k: string)
    ensures ValueOf(Put(data, key, value), k) == if k == key then Some(value) else ValueOf(data, k)
    ensures KeysOf(Put(data, key, value)) == if key in KeysOf(data) then KeysOf(data) else KeysOf(data) + [key]
  {
    PutValue(data, key, value, k);
    PutKeys(data, key, value);
  }

  lemma {:induction false} PutValue(data: seq<Pair>, key: string, value: Value, k: string)
    ensures ValueOf(Put(data, key, value), k) == if k == key then Some(value) else ValueOf(data, k)
  {
    if data != [] && data[0].key != key {
      PutValue(data[1..], key, value, k);
    }
  }

  lemma KeysCons(first: Pair, rest: seq<Pair>)
    ensures KeysOf([first] + rest) == [first.key] + KeysOf(rest)
  {
  }

  lemma {:induction false} PutKeys(data: seq<Pair>, key: string, value: Value)
    ensures KeysOf(Put(data, key, value)) == if key in KeysOf(data) then KeysOf(data) else KeysOf(data) + [key]
  {
    if data != [] {
      assert data == [data[0]] + data[1..];
      KeysCons(data[0], data[1..]);
      if data[0].key != key {
        PutKeys(data[1..], key, value);
        KeysCons(data[0], Put(data[1..], key, value));
      } else {
        KeysCons(Pair(key, value), data[1..]);
      }
    }
  }

  predicate NoRepeats(keys: seq<string>) {
    forall i, j :: 0 <= i < j < |keys| ==> keys[i] != keys[j]
  }

  /** The deeper lines of a list item: their values win over those the item has under the same keys,
      the item's own keys keep their places, and no key comes to stand twice. */
  lemma {:induction false} UpdateExactly(item: seq<Pair>, child: seq<Pair>, k: string)
    requires NoRepeats(KeysOf(child)) && NoRepeats(KeysOf(item))
    ensures ValueOf(Update(item, child), k) == if ValueOf(child, k).Some? then ValueOf(child, k) else ValueOf(item, k)
    ensures KeysOf(item) <= KeysOf(Update(item, child)) && NoRepeats(KeysOf(Update(item, child)))
  {
    hide Put;
    if child != [] {
      var n := |child| - 1;
      assert NoRepeats(KeysOf(child[..n]));
      UpdateExactly(item, child[..n], k);
      PutExactly(Update(item, child[..n]), child[n].key, child[n].value, k);
      assert forall i :: 0 <= i < n ==> KeysOf(child)[i] == child[i].key;
      ValueOfLast(child, k);
    }
  }

  lemma {:induction false} ValueOfLast(child: seq<Pair>, k: string)
    requires child != [] && NoRepeats(KeysOf(child))
    ensures var last := child[|child| - 1];
      ValueOf(child, k) == if k == last.key then Some(last.value) else ValueOf(child[..|child| - 1], k)
  {
    var n := |child| - 1;
    if n > 0 {
      assert NoRepeats(KeysOf(child[1..]));
      ValueOfLast(child[1..], k);
      assert KeysOf(child)[0] != KeysOf(child)[n];
      assert child[1..][..n - 1] == child[..n][1..];
    }
  }
}
