/** Strings shared by the models: blanks, first-occurrence splitting, decimal numerals. */
module Text {

  datatype Option<+T> = None | Some(value: T)

  /* ---- blanks ---- */

  /** The characters Python strips from the ends of a text. */
  predicate IsSpace(c: char) {
    || c == ' ' || '\t' <= c <= '\r'
    || '\U{1C}' <= c <= '\U{1F}' || c == '\U{85}' || c == '\U{A0}' || c == '\U{1680}' || '\U{2000}' <= c <= '\U{200A}'
    || c == '\U{2028}' || c == '\U{2029}' || c == '\U{202F}' || c == '\U{205F}' || c == '\U{3000}'
  }

  predicate Blank(s: string) {
    forall i :: 0 <= i < |s| ==> IsSpace(s[i])
  }

  function TrimLeft(s: string): string {
    if s != [] && IsSpace(s[0]) then TrimLeft(s[1..]) else s
  }

  function TrimRight(s: string): string {
    if s != [] && IsSpace(s[|s| - 1]) then TrimRight(s[..|s| - 1]) else s
  }

  function Trim(s: string): string {
    TrimRight(TrimLeft(s))
  }

  /** No blank at either end. */
  predicate Trimmed(s: string) {
    s != [] ==> !IsSpace(s[0]) && !IsSpace(s[|s| - 1])
  }

  lemma TrimFixes(s: string)
    requires Trimmed(s)
    ensures Trim(s) == s
  {
  }

  lemma {:induction false} TrimLeftBlank(s: string)
    ensures TrimLeft(s) == "" <==> Blank(s)
  {
    if s != [] && IsSpace(s[0]) {
      TrimLeftBlank(s[1..]);
      assert forall i :: 1 <= i < |s| ==> s[i] == s[1..][i - 1];
    }
  }

  lemma {:induction false} TrimRightKeepsHead(s: string)
    requires s != [] && !IsSpace(s[0])
    ensures TrimRight(s) != [] && TrimRight(s)[0] == s[0]
  {
    if IsSpace(s[|s| - 1]) {
      TrimRightKeepsHead(s[..|s| - 1]);
    }
  }

  lemma {:induction false} TrimLeftHead(s: string)
    ensures TrimLeft(s) != [] ==> !IsSpace(TrimLeft(s)[0])
  {
    if s != [] && IsSpace(s[0]) {
      TrimLeftHead(s[1..]);
    }
  }

  /** Python's and JavaScript's emptiness test after stripping is the blank test. */
  lemma TrimBlank(s: string)
    ensures Trim(s) == "" <==> Blank(s)
  {
    TrimLeftBlank(s);
    TrimLeftHead(s);
    if TrimLeft(s) != [] {
      TrimRightKeepsHead(TrimLeft(s));
    }
  }

  /* ---- lines ---- */

  /** The characters at which Python's `splitlines` ends a line. */
  predicate IsBreak(c: char) {
    '\n' <= c <= '\r' || '\U{1C}' <= c <= '\U{1E}' || c == '\U{85}' || c == '\U{2028}' || c == '\U{2029}'
  }

  predicate BreakFree(s: string) {
    forall i :: 0 <= i < |s| ==> !IsBreak(s[i])
  }

  /** Length of the line a text begins with. */
  function LineLength(text: string): (k: nat)
    ensures k <= |text| && BreakFree(text[..k])
    ensures k < |text| ==> IsBreak(text[k])
  {
    if text == "" || IsBreak(text[0]) then 0 else 1 + LineLength(text[1..])
  }

  /** A carriage return and the line feed after it end one line; a final break opens no line. */
  function SplitLines(text: string): seq<string>
    decreases |text|
  {
    if text == "" then []
    else
      var k := LineLength(text);
      var rest := text[k..];
      if rest == "" then [text]
      else if "\r\n" <= rest then [text[..k]] + SplitLines(rest[2..])
      else [text[..k]] + SplitLines(rest[1..])
  }

  lemma {:induction false} LineLengthIs(line: string, rest: string)
    requires BreakFree(line) && (rest == "" || IsBreak(rest[0]))
    ensures LineLength(line + rest) == |line|
  {
    if line == "" {
      assert line + rest == rest;
    } else {
      assert (line + rest)[1..] == line[1..] + rest;
      LineLengthIs(line[1..], rest);
    }
  }

  /** A text of lines: without a final line feed its last line must show. */
  predicate EndsWell(lines: seq<string>, end: string)
    requires lines != []
  {
    end == "\n" || (end == "" && lines[|lines| - 1] != "")
  }

  /** Lines joined by line feeds, with or without a final one, are the lines read back. */
  lemma {:induction false} SplitLinesJoin(lines: seq<string>, end: string)
    requires lines != [] && (forall l :: l in lines ==> BreakFree(l)) && EndsWell(lines, end)
    ensures SplitLines(Join(lines, '\n') + end) == lines
  {
    hide SplitLines, BreakFree;
    var line := lines[0];
    assert line in lines;
    if |lines| == 1 {
      LastLine(line, end);
      assert lines == [line];
    } else {
      var tail := Join(lines[1..], '\n') + end;
      assert forall l :: l in lines[1..] ==> l in lines;
      SplitLinesJoin(lines[1..], end);
      FirstLine(line, tail);
      assert Join(lines, '\n') + end == line + "\n" + tail;
      assert lines == [line] + lines[1..];
    }
  }

  lemma LastLine(line: string, end: string)
    requires BreakFree(line) && EndsWell([line], end)
    ensures SplitLines(line + end) == [line]
  {
    if end == "" {
      LineLengthIs(line, "");
      assert line + "" == line;
    } else {
      FirstLine(line, "");
      assert line + "\n" + "" == line + end && [line] + [] == [line];
    }
  }

  /** No line of a text holds a line break of any kind. */
  lemma {:induction false} SplitLinesFree(text: string, line: string)
    requires line in SplitLines(text)
    ensures BreakFree(line)
    decreases |text|
  {
    hide BreakFree, IsBreak;
    var k := LineLength(text);
    var rest := text[k..];
    if rest == "" {
      assert text[..k] == text;
    } else if line != text[..k] {
      SplitLinesFree(rest[if "\r\n" <= rest then 2 else 1..], line);
    }
  }

  lemma FirstLine(line: string, tail: string)
    requires BreakFree(line)
    ensures SplitLines(line + "\n" + tail) == [line] + SplitLines(tail)
  {
    var text := line + "\n" + tail;
    LineLengthIs(line, "\n" + tail);
    assert text == line + ("\n" + tail);
    assert text[..|line|] == line && text[|line|..] == "\n" + tail && ("\n" + tail)[1..] == tail;
  }

  /* ---- first occurrence of a character ---- */

  /** Position of the first `c`, or the length when there is none. */
  function Find(s: string, c: char): (k: nat)
    ensures k <= |s|
    ensures k < |s| ==> s[k] == c
    ensures forall i :: 0 <= i < k ==> s[i] != c
  {
    if s == [] || s[0] == c then 0 else 1 + Find(s[1..], c)
  }

  lemma FindAfter(a: string, c: char, b: string)
    requires c !in a
    ensures Find(a + [c] + b, c) == |a|
  {
    var s := a + [c] + b;
    assert s[|a|] == c;
    assert forall i :: 0 <= i < |a| ==> s[i] == a[i] && a[i] in a;
  }

  lemma FindNone(s: string, c: char)
    requires c !in s
    ensures Find(s, c) == |s|
  {
  }

  /* ---- decimal numerals ---- */

  predicate IsDigit(c: char) {
    '0' <= c <= '9'
  }

  predicate AllDigits(s: string) {
    forall i :: 0 <= i < |s| ==> IsDigit(s[i])
  }

  function Digit(n: nat): (c: char)
    requires n < 10
    ensures IsDigit(c) && c as int - '0' as int == n
  {
    ('0' as int + n) as char
  }

  function Numeral(n: nat): (s: string)
    ensures s != [] && AllDigits(s)
  {
    if n < 10 then [Digit(n)] else Numeral(n / 10) + [Digit(n % 10)]
  }

  function NumeralValue(s: string): nat
    requires AllDigits(s)
  {
    if s == [] then 0
    else NumeralValue(s[..|s| - 1]) * 10 + (s[|s| - 1] as int - '0' as int)
  }

  lemma {:induction false} NumeralRoundTrip(n: nat)
    ensures NumeralValue(Numeral(n)) == n
  {
    if n >= 10 {
      NumeralRoundTrip(n / 10);
      var s := Numeral(n);
      assert s[..|s| - 1] == Numeral(n / 10);
    }
  }

  /** A numeral without a superfluous leading zero prints back to itself. */
  predicate Canonical(s: string) {
    s != [] && AllDigits(s) && (|s| > 1 ==> s[0] != '0')
  }

  lemma {:induction false} NumeralCanonical(n: nat)
    ensures Canonical(Numeral(n))
    ensures n > 0 ==> Numeral(n)[0] != '0'
  {
    if n >= 10 {
      NumeralCanonical(n / 10);
    }
  }

  lemma {:induction false} CanonicalRoundTrip(s: string)
    requires Canonical(s)
    ensures Numeral(NumeralValue(s)) == s
    ensures |s| > 1 ==> NumeralValue(s) >= 10
    ensures s[0] != '0' ==> NumeralValue(s) > 0
  {
    if |s| > 1 {
      var a := s[..|s| - 1];
      CanonicalRoundTrip(a);
      assert s == a + [s[|s| - 1]];
    } else {
      assert s[..0] == [];
    }
  }

  lemma NumeralInjective(m: nat, n: nat)
    requires Numeral(m) == Numeral(n)
    ensures m == n
  {
    NumeralRoundTrip(m);
    NumeralRoundTrip(n);
  }

  /* ---- joining and splitting on a separator ---- */

  function Join(parts: seq<string>, sep: char): string {
    if parts == [] then ""
    else if |parts| == 1 then parts[0]
    else parts[0] + [sep] + Join(parts[1..], sep)
  }

  function Split(s: string, sep: char): (parts: seq<string>)
    ensures parts != []
    decreases |s|
  {
    var k := Find(s, sep);
    if k == |s| then [s] else [s[..k]] + Split(s[k + 1..], sep)
  }

  lemma JoinOne(s: string, sep: char)
    ensures Join([s], sep) == s
  {
  }

  lemma JoinCons(first: string, parts: seq<string>, sep: char)
    requires parts != []
    ensures Join([first] + parts, sep) == first + [sep] + Join(parts, sep)
  {
    assert ([first] + parts)[1..] == parts;
  }

  lemma SplitFirst(part: string, rest: string, sep: char)
    requires sep !in part
    ensures Split(part + [sep] + rest, sep) == [part] + Split(rest, sep)
    ensures Split(part, sep) == [part]
  {
    var s := part + [sep] + rest;
    FindAfter(part, sep, rest);
    FindNone(part, sep);
    assert s[..|part|] == part && s[|part| + 1..] == rest;
  }

  lemma {:induction false} SplitJoin(parts: seq<string>, sep: char)
    requires parts != []
    requires forall p :: p in parts ==> sep !in p
    ensures Split(Join(parts, sep), sep) == parts
  {
    hide Split, Join;
    assert parts[0] in parts;
    if |parts| == 1 {
      assert parts == [parts[0]];
      JoinOne(parts[0], sep);
      SplitFirst(parts[0], "", sep);
    } else {
      assert forall p :: p in parts[1..] ==> p in parts;
      SplitJoin(parts[1..], sep);
      assert parts == [parts[0]] + parts[1..];
      JoinCons(parts[0], parts[1..], sep);
      SplitFirst(parts[0], Join(parts[1..], sep), sep);
    }
  }

  lemma {:induction false} JoinSplit(s: string, sep: char)
    ensures Join(Split(s, sep), sep) == s
    decreases |s|
  {
    hide Join;
    JoinOne(s, sep);
    var k := Find(s, sep);
    if k < |s| {
      JoinSplit(s[k + 1..], sep);
      JoinCons(s[..k], Split(s[k + 1..], sep), sep);
      assert s == s[..k] + [sep] + s[k + 1..];
    }
  }

  lemma {:induction false} JoinSnoc(parts: seq<string>, last: string, sep: char)
    requires parts != []
    ensures Join(parts + [last], sep) == Join(parts, sep) + [sep] + last
  {
    var all := parts + [last];
    if |parts| == 1 {
      assert all[1..] == [last];
    } else {
      assert all[1..] == parts[1..] + [last];
      JoinSnoc(parts[1..], last, sep);
    }
  }

  /** Concatenation of a sequence of sequences. */
  function Flatten<T>(xss: seq<seq<T>>): seq<T> {
    if xss == [] then [] else xss[0] + Flatten(xss[1..])
  }

  lemma {:induction false} FlattenAppend<T>(a: seq<seq<T>>, b: seq<seq<T>>)
    ensures Flatten(a + b) == Flatten(a) + Flatten(b)
  {
    if a == [] {
      assert a + b == b;
    } else {
      FlattenAppend(a[1..], b);
      assert (a + b)[1..] == a[1..] + b;
      assert Flatten(a + b) == a[0] + Flatten((a + b)[1..]);
    }
  }

  lemma FlattenOne<T>(xs: seq<T>)
    ensures Flatten([xs]) == xs
  {
    assert [xs][1..] == [];
  }
}
