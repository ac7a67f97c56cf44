/** The indentation grammar of `load_simple_yaml`: its line reader and its three parsers. */
module SimpleYaml {
  import opened Text

  datatype RawLine = Line(indent: nat, text: string)

  /** A kept line: its text is stripped and not empty. */
  type Line = l: RawLine | Trimmed(l.text) && l.text != "" witness Line(0, "x")

  datatype Value =
    | Null
    | Bool(b: bool)
    | Int(n: int)
    | Str(s: string)
    | Literal(source: string)
    | List(items: seq<Value>)
    | Dict(entries: seq<Pair>)

  datatype Pair = Pair(key: string, value: Value)

  datatype Error = MissingColon | BadLiteral | NestedList | NotAProfile

  /** `Hangs` stands for a loop iteration that leaves the loop's state as it was. */
  datatype Outcome = Ok(value: Value, next: nat) | Raises(error: Error) | Hangs

  /** Parts of Python kept symbolic: which texts the literal evaluator accepts, and what `int` makes
      of a text with characters beyond ASCII, such as digits of other scripts. */
  datatype Python = Python(evaluates: string -> bool, foreignInt: string -> Option<int>)

  datatype Doc = Doc(lines: seq<Line>, python: Python)

  /* ---- reading lines ---- */

  predicate Skipped(raw: string) {
    Blank(raw) || "#" <= TrimLeft(raw)
  }

  function Spaces(raw: string): nat {
    if raw != "" && raw[0] == ' ' then 1 + Spaces(raw[1..]) else 0
  }

  lemma {:induction false} TrimRightEnd(s: string)
    ensures TrimRight(s) != "" ==> !IsSpace(TrimRight(s)[|TrimRight(s)| - 1])
  {
    if s != [] && IsSpace(s[|s| - 1]) {
      TrimRightEnd(s[..|s| - 1]);
    }
  }

  lemma TrimTrims(s: string)
    ensures Trimmed(Trim(s))
  {
    TrimLeftHead(s);
    if TrimLeft(s) != "" {
      TrimRightKeepsHead(TrimLeft(s));
      TrimRightEnd(TrimLeft(s));
    }
  }

  function ReadLine(raw: string): Line
    requires !Skipped(raw)
  {
    TrimTrims(raw);
    TrimBlank(raw);
    Line(Spaces(raw), Trim(raw))
  }

  function ReadLines(raws: seq<string>): seq<Line> {
    if raws == [] then []
    else
      var front, raw := ReadLines(raws[..|raws| - 1]), raws[|raws| - 1];
      if Skipped(raw) then front else front + [ReadLine(raw)]
  }

  method LoadLines(raws: seq<string>) returns (lines: seq<Line>)
    ensures lines == ReadLines(raws)
  {
    lines := [];
    for k := 0 to |raws|
      invariant lines == ReadLines(raws[..k])
    {
      assert raws[..k + 1][..k] == raws[..k];
      if !Skipped(raws[k]) {
        lines := lines + [ReadLine(raws[k])];
      }
    }
    assert raws[..|raws|] == raws;
  }

  /* ---- scalars ---- */

  /** Python's integer syntax: a sign, then digits with single underscores between them. */
  predicate IsIntBody(s: string) {
    && s != "" && IsDigit(s[0]) && IsDigit(s[|s| - 1])
    && (forall i :: 0 <= i < |s| ==> IsDigit(s[i]) || s[i] == '_')
    && (forall i :: 0 <= i < |s| - 1 ==> s[i] != '_' || s[i + 1] != '_')
  }

  function DigitsOf(s: string): (r: string)
    ensures AllDigits(r)
  {
    if s == "" then ""
    else DigitsOf(s[..|s| - 1]) + (if IsDigit(s[|s| - 1]) then [s[|s| - 1]] else "")
  }

  predicate Signed(s: string) {
    s != "" && (s[0] == '-' || s[0] == '+')
  }

  predicate Ascii(s: string) {
    forall i :: 0 <= i < |s| ==> s[i] < '\U{80}'
  }

  function IntText(python: Python, s: string): Option<int> {
    var body := if Signed(s) then s[1..] else s;
    if !Ascii(s) then python.foreignInt(s)
    else if !IsIntBody(body) then None
    else
      var n: int := NumeralValue(DigitsOf(body));
      Some(if s[0] == '-' then -n else n)
  }

  predicate Quoted(s: string, q: char) {
    s != "" && s[0] == q && s[|s| - 1] == q
  }

  predicate IsLiteral(s: string) {
    "[" <= s || Quoted(s, '"') || Quoted(s, '\'')
  }

  function Scalar(d: Doc, value: string): Option<Value> {
    var s := Trim(value);
    if s == "null" then Some(Null)
    else if s == "true" then Some(Bool(true))
    else if s == "false" then Some(Bool(false))
    else if IsLiteral(s) then (if d.python.evaluates(s) then Some(Literal(s)) else None)
    else if IntText(d.python, s).Some? then Some(Int(IntText(d.python, s).value))
    else Some(Str(s))
  }

  /* ---- lines ---- */

  predicate IsDash(text: string) {
    "- " <= text
  }

  predicate HasColon(text: string) {
    Find(text, ':') < |text|
  }

  function KeyOf(text: string): string
    requires HasColon(text)
  {
    text[..Find(text, ':')]
  }

  function RestOf(text: string): string
    requires HasColon(text)
  {
    text[Find(text, ':') + 1..]
  }

  function Content(text: string): string
    requires IsDash(text)
  {
    text[2..]
  }

  /** Lines are stripped, so a dash is always followed by content. */
  lemma DashHasContent(l: Line)
    requires IsDash(l.text)
    ensures Content(l.text) != ""
  {
    assert l.text[1] == ' ';
  }

  function Put(data: seq<Pair>, key: string, value: Value): seq<Pair> {
    if data == [] then [Pair(key, value)]
    else if data[0].key == key then [Pair(key, value)] + data[1..]
    else [data[0]] + Put(data[1..], key, value)
  }

  function Update(item: seq<Pair>, child: seq<Pair>): seq<Pair> {
    if child == [] then item
    else Put(Update(item, child[..|child| - 1]), child[|child| - 1].key, child[|child| - 1].value)
  }

  /* ---- the parsers ---- */

  function ParseBlock(d: Doc, i: nat, depth: nat): (r: Outcome)
    requires i <= |d.lines|
    ensures r.Ok? ==> i <= r.next <= |d.lines|
    ensures r.Ok? && r.next == i ==> r.value == Dict([])
    ensures i < |d.lines| && d.lines[i].indent == depth && r.Ok? ==> i < r.next
    decreases |d.lines| - i, 2
  {
    if i == |d.lines| || d.lines[i].indent < depth then Ok(Dict([]), i)
    else if d.lines[i].indent == depth && IsDash(d.lines[i].text) then ParseList(d, i, depth, [])
    else ParseDict(d, i, depth, [])
  }

  predicate AtItem(d: Doc, i: nat, depth: nat) {
    i < |d.lines| && d.lines[i].indent == depth && IsDash(d.lines[i].text)
  }

  predicate AtEntry(d: Doc, i: nat, depth: nat) {
    i < |d.lines| && d.lines[i].indent == depth && !IsDash(d.lines[i].text)
  }

  function ParseList(d: Doc, i: nat, depth: nat, items: seq<Value>): (r: Outcome)
    requires i <= |d.lines|
    ensures r.Ok? ==> i <= r.next <= |d.lines| && r.value.List?
    ensures r.Ok? && AtItem(d, i, depth) ==> i < r.next
    decreases |d.lines| - i, 1
  {
    if !AtItem(d, i, depth) then Ok(List(items), i)
    else
      var item := ParseItem(d, i, depth);
      match item
      case Ok(v, j) => ParseList(d, j, depth, items + [v])
      case _ => item
  }

  /** One turn of the list loop. The source's branch for an empty content is never taken. */
  function ParseItem(d: Doc, i: nat, depth: nat): (r: Outcome)
    requires AtItem(d, i, depth)
    ensures r.Ok? ==> i < r.next <= |d.lines|
    decreases |d.lines| - i, 0
  {
    var content := Content(d.lines[i].text);
    if !HasColon(content) then
      match Scalar(d, content)
      case Some(v) => Ok(v, i + 1)
      case None => Raises(BadLiteral)
    else
      var key, value := KeyOf(content), RestOf(content);
      if !Blank(value) then
        match Scalar(d, value)
        case Some(v) => ParseRest(d, i + 1, depth, [Pair(key, v)])
        case None => Raises(BadLiteral)
      else
        var block := ParseBlock(d, i + 1, depth + 2);
        match block
        case Ok(v, j) => ParseRest(d, j, depth, [Pair(key, v)])
        case _ => block
  }

  /** The loop that adds the deeper lines to a list item. */
  function ParseRest(d: Doc, i: nat, depth: nat, item: seq<Pair>): (r: Outcome)
    requires i <= |d.lines|
    ensures r.Ok? ==> i <= r.next <= |d.lines|
    decreases |d.lines| - i, 3
  {
    if i == |d.lines| || d.lines[i].indent <= depth then Ok(Dict(item), i)
    else
      var block := ParseBlock(d, i, depth + 2);
      match block
      case Ok(child, j) =>
        if !child.Dict? then Raises(NestedList)
        else if j == i then Hangs
        else ParseRest(d, j, depth, Update(item, child.entries))
      case _ => block
  }

  function ParseDict(d: Doc, i: nat, depth: nat, data: seq<Pair>): (r: Outcome)
    requires i <= |d.lines|
    ensures r.Ok? ==> i <= r.next <= |d.lines| && r.value.Dict?
    ensures r.Ok? && r.next == i ==> r.value == Dict(data)
    ensures r.Ok? && AtEntry(d, i, depth) ==> i < r.next
    decreases |d.lines| - i, 1
  {
    if !AtEntry(d, i, depth) then Ok(Dict(data), i)
    else
      var entry := ParseEntry(d, i, depth);
      match entry
      case Ok(v, j) => ParseDict(d, j, depth, Put(data, KeyOf(d.lines[i].text), v))
      case _ => entry
  }

  /** One turn of the dict loop: the value under the line's key. */
  function ParseEntry(d: Doc, i: nat, depth: nat): (r: Outcome)
    requires AtEntry(d, i, depth)
    ensures r.Ok? ==> i < r.next <= |d.lines| && HasColon(d.lines[i].text)
    decreases |d.lines| - i, 0
  {
    var text := d.lines[i].text;
    if !HasColon(text) then Raises(MissingColon)
    else if !Blank(RestOf(text)) then
      match Scalar(d, RestOf(text))
      case Some(v) => Ok(v, i + 1)
      case None => Raises(BadLiteral)
    else ParseBlock(d, i + 1, depth + 2)
  }

  /** The whole file: it must be one dict that uses every line. */
  function Parse(d: Doc): Outcome {
    var block := ParseBlock(d, 0, 0);
    if block.Ok? && (block.next != |d.lines| || !block.value.Dict?) then Raises(NotAProfile) else block
  }

  /* ---- the loops as the source writes them ---- */

  method RunBlock(d: Doc, i: nat, depth: nat) returns (r: Outcome)
    requires i <= |d.lines|
    ensures r == ParseBlock(d, i, depth)
    decreases |d.lines| - i, 2
  {
    if i >= |d.lines| || d.lines[i].indent < depth {
      return Ok(Dict([]), i);
    }
    if d.lines[i].indent == depth && IsDash(d.lines[i].text) {
      r := RunList(d, i, depth);
    } else {
      r := RunDict(d, i, depth);
    }
  }

  method RunList(d: Doc, start: nat, depth: nat) returns (r: Outcome)
    requires start <= |d.lines|
    ensures r == ParseList(d, start, depth, [])
    decreases |d.lines| - start, 1
  {
    var index, items := start, [];
    while index < |d.lines| && d.lines[index].indent == depth
      invariant start <= index <= |d.lines|
      invariant ParseList(d, start, depth, []) == ParseList(d, index, depth, items)
      decreases |d.lines| - index
    {
      if !IsDash(d.lines[index].text) {
        break;
      }
      var item := RunItem(d, index, depth);
      if !item.Ok? {
        return item;
      }
      items, index := items + [item.value], item.next;
    }
    r := Ok(List(items), index);
  }

  /** The body of the list parser's loop: one item. */
  method RunItem(d: Doc, index: nat, depth: nat) returns (r: Outcome)
    requires AtItem(d, index, depth)
    ensures r == ParseItem(d, index, depth)
    decreases |d.lines| - index, 0
  {
    var content := Content(d.lines[index].text);
    if HasColon(content) {
      var key, value := KeyOf(content), RestOf(content);
      if !Blank(value) {
        match Scalar(d, value)
        case Some(v) => r := RunRest(d, index + 1, depth, [Pair(key, v)]);
        case None => r := Raises(BadLiteral);
      } else {
        r := RunBlock(d, index + 1, depth + 2);
        if r.Ok? {
          r := RunRest(d, r.next, depth, [Pair(key, r.value)]);
        }
      }
    } else {
      match Scalar(d, content)
      case Some(v) => r := Ok(v, index + 1);
      case None => r := Raises(BadLiteral);
    }
  }

  /** The inner loop of the list parser. */
  method RunRest(d: Doc, start: nat, depth: nat, first: seq<Pair>) returns (r: Outcome)
    requires start <= |d.lines|
    ensures r == ParseRest(d, start, depth, first)
    decreases |d.lines| - start, 3
  {
    var index, item := start, first;
    while index < |d.lines| && d.lines[index].indent > depth
      invariant start <= index <= |d.lines|
      invariant ParseRest(d, start, depth, first) == ParseRest(d, index, depth, item)
      decreases |d.lines| - index
    {
      var child := RunBlock(d, index, depth + 2);
      if !child.Ok? {
        return child;
      }
      if !child.value.Dict? {
        return Raises(NestedList);
      }
      if child.next == index {
        // The child is empty: index and item stay as they are, so the loop never ends.
        return Hangs;
      }
      item, index := Update(item, child.value.entries), child.next;
    }
    r := Ok(Dict(item), index);
  }

  method RunDict(d: Doc, start: nat, depth: nat) returns (r: Outcome)
    requires start <= |d.lines|
    ensures r == ParseDict(d, start, depth, [])
    decreases |d.lines| - start, 1
  {
    hide Scalar, Blank, HasColon, KeyOf, RestOf, IsDash, Put;
    var index, data := start, [];
    while index < |d.lines| && d.lines[index].indent == depth
      invariant start <= index <= |d.lines|
      invariant ParseDict(d, start, depth, []) == ParseDict(d, index, depth, data)
      decreases |d.lines| - index
    {
      var text := d.lines[index].text;
      if IsDash(text) {
        break;
      }
      if !HasColon(text) {
        return Raises(MissingColon);
      }
      if !Blank(RestOf(text)) {
        match Scalar(d, RestOf(text))
        case Some(v) => data, index := Put(data, KeyOf(text), v), index + 1;
        case None => return Raises(BadLiteral);
      } else {
        var block := RunBlock(d, index + 1, depth + 2);
        if !block.Ok? {
          return block;
        }
        data, index := Put(data, KeyOf(text), block.value), block.next;
      }
    }
    r := Ok(Dict(data), index);
  }

  /** What loading a file of this text comes to. */
  function Load(text: string, python: Python): Outcome {
    Parse(Doc(ReadLines(SplitLines(text)), python))
  }

  method LoadSimpleYaml(text: string, python: Python) returns (r: Outcome)
    ensures r == Load(text, python)
  {
    var lines := LoadLines(SplitLines(text));
    r := RunBlock(Doc(lines, python), 0, 0);
    if r.Ok? && (r.next != |lines| || !r.value.Dict?) {
      r := Raises(NotAProfile);
    }
  }

  /* ---- what hanging means ---- */

  /** The state of the item loop after `k` turns whose child block ends where it starts. */
  function AfterTurns(d: Doc, i: nat, depth: nat, item: seq<Pair>, k: nat): (seq<Pair>, nat)
    requires i <= |d.lines|
  {
    if k == 0 then (item, i)
    else
      var (item', j) := AfterTurns(d, i, depth, item, k - 1);
      if j <= |d.lines| && ParseBlock(d, j, depth + 2).Ok? && ParseBlock(d, j, depth + 2).value.Dict?
      then (Update(item', ParseBlock(d, j, depth + 2).value.entries), ParseBlock(d, j, depth + 2).next)
      else (item', j)
  }

  /** A line deeper than the item but not by exactly two keeps the item loop where it is for any
      number of turns: `Hangs` is divergence, not an error the source raises. */
  lemma {:induction false} StuckForEver(d: Doc, i: nat, depth: nat, item: seq<Pair>, k: nat)
    requires i < |d.lines| && d.lines[i].indent > depth && d.lines[i].indent != depth + 2
    ensures AfterTurns(d, i, depth, item, k) == (item, i)
    ensures ParseRest(d, i, depth, item) == Hangs
  {
    assert ParseBlock(d, i, depth + 2) == Ok(Dict([]), i);
    if k > 0 {
      StuckForEver(d, i, depth, item, k - 1);
    }
  }
}
