/** `_created_files_from_diff`: the files a unified diff creates, read off its lines. */
module UnifiedDiff {
  import opened Text

  datatype File = File(name: string, lines: seq<string>)

  /** The dictionary being filled, in insertion order, and the file current lines belong to. */
  datatype State = State(files: seq<File>, current: Option<string>)

  predicate Header(line: string) {
    "+++ b/" <= line
  }

  /** An added line, unless it looks like a header. */
  predicate Added(line: string) {
    "+" <= line && !("+++" <= line)
  }

  predicate Named(files: seq<File>, name: string) {
    exists i :: 0 <= i < |files| && files[i].name == name
  }

  function SetDefault(files: seq<File>, name: string): seq<File> {
    if Named(files, name) then files else files + [File(name, [])]
  }

  function AddLine(files: seq<File>, name: string, line: string): seq<File> {
    if files == [] then []
    else if files[0].name == name then [File(name, files[0].lines + [line])] + files[1..]
    else [files[0]] + AddLine(files[1..], name, line)
  }

  function Step(st: State, line: string): State {
    if Header(line) then State(SetDefault(st.files, line[6..]), Some(line[6..]))
    else if st.current.Some? && Added(line) then st.(files := AddLine(st.files, st.current.value, line[1..]))
    else st
  }

  function Run(st: State, diff: seq<string>): State
    decreases |diff|
  {
    if diff == [] then st else Run(Step(st, diff[0]), diff[1..])
  }

  const START := State([], None)

  function Read(diff: seq<string>): seq<File> {
    Run(START, diff).files
  }

  /** The text of a file: its lines joined, and a final line break. */
  function FileText(f: File): string {
    Join(f.lines, '\n') + "\n"
  }

  function Texts(files: seq<File>): (r: seq<(string, string)>)
    ensures |r| == |files|
  {
    seq(|files|, i requires 0 <= i < |files| => (files[i].name, FileText(files[i])))
  }

  lemma {:induction false} RunAppend(st: State, a: seq<string>, b: seq<string>)
    ensures Run(st, a + b) == Run(Run(st, a), b)
    decreases |a|
  {
    if a == [] {
      assert a + b == b;
    } else {
      assert (a + b)[1..] == a[1..] + b;
      RunAppend(Step(st, a[0]), a[1..], b);
    }
  }

  lemma RunOne(st: State, line: string)
    ensures Run(st, [line]) == Step(st, line)
  {
    assert [line][1..] == [];
  }

  method CreatedFilesFromDiff(diff: string) returns (files: seq<(string, string)>)
    ensures files == Texts(Read(SplitLines(diff)))
  {
    var lines := SplitLines(diff);
    var read: seq<File> := [];
    var current: Option<string> := None;
    for i := 0 to |lines|
      invariant State(read, current) == Run(START, lines[..i])
    {
      var line := lines[i];
      assert lines[..i + 1] == lines[..i] + [line];
      RunAppend(START, lines[..i], [line]);
      RunOne(State(read, current), line);
      if Header(line) {
        current := Some(line[6..]);
        read := SetDefault(read, line[6..]);
      } else if current.Some? && "+" <= line && !("+++" <= line) {
        read := AddLine(read, current.value, line[1..]);
      }
    }
    assert lines[..|lines|] == lines;
    files := Texts(read);
  }

  /* ---- noise ---- */

  /** What is left of a diff without headers of old files, hunk marks, context and removed lines. */
  function Kept(diff: seq<string>): seq<string> {
    if diff == [] then []
    else (if Header(diff[0]) || Added(diff[0]) then [diff[0]] else []) + Kept(diff[1..])
  }

  /** No other line alters the result, wherever it stands. */
  lemma {:induction false} NoiseIgnored(st: State, diff: seq<string>)
    ensures Run(st, diff) == Run(st, Kept(diff))
    decreases |diff|
  {
    if diff != [] {
      NoiseIgnored(Step(st, diff[0]), diff[1..]);
      if Header(diff[0]) || Added(diff[0]) {
        assert Kept(diff)[1..] == Kept(diff[1..]);
      } else {
        assert Kept(diff) == Kept(diff[1..]);
      }
    }
  }

  /* ---- one line, on its characters ---- */

  /** The line names a new file: three plus signs, a space, and the prefix of the new side. */
  predicate NamesFile(line: string) {
    |line| >= 6 && line[..6] == ['+', '+', '+', ' ', 'b', '/']
  }

  /** The line starts with one or two plus signs, not three. */
  predicate AddsText(line: string) {
    line != "" && line[0] == '+' && !(|line| > 2 && line[1] == '+' && line[2] == '+')
  }

  /** The lines read for a name, if it was mentioned. */
  function LinesOf(files: seq<File>, name: string): Option<seq<string>> {
    if files == [] then None
    else if files[0].name == name then Some(files[0].lines)
    else LinesOf(files[1..], name)
  }

  function NamesOf(files: seq<File>): (names: seq<string>)
    ensures |names| == |files| && forall i :: 0 <= i < |files| ==> names[i] == files[i].name
  {
    seq(|files|, i requires 0 <= i < |files| => files[i].name)
  }

  lemma KindsAre(line: string)
    ensures Header(line) <==> NamesFile(line)
    ensures Added(line) <==> AddsText(line)
  {
    assert "+" <= line <==> line != "" && line[0] == '+';
    assert "+++" <= line <==> |line| > 2 && line[0] == '+' && line[1] == '+' && line[2] == '+';
  }

  lemma {:induction false} LinesOfNamed(files: seq<File>, name: string)
    ensures LinesOf(files, name).Some? <==> Named(files, name)
  {
    if files != [] {
      LinesOfNamed(files[1..], name);
      assert Named(files, name) <==> files[0].name == name || Named(files[1..], name) by {
        if i :| 1 <= i < |files| && files[i].name == name {
          assert files[1..][i - 1].name == name;
        }
      }
    }
  }

  lemma {:induction false} LinesOfLast(files: seq<File>, last: File, q: string)
    ensures LinesOf(files + [last], q) ==
      if LinesOf(files, q).Some? then LinesOf(files, q) else if q == last.name then Some(last.lines) else None
  {
    if files == [] {
      assert LinesOf([], q) == None;
    } else {
      assert (files + [last])[1..] == files[1..] + [last];
      LinesOfLast(files[1..], last, q);
    }
  }

  lemma {:induction false} LinesOfAdded(files: seq<File>, name: string, line: string, q: string)
    ensures LinesOf(AddLine(files, name, line), q) ==
      if q == name && LinesOf(files, q).Some? then Some(LinesOf(files, q).value + [line]) else LinesOf(files, q)
    ensures NamesOf(AddLine(files, name, line)) == NamesOf(files)
  {
    if files != [] {
      LinesOfAdded(files[1..], name, line, q);
      NamesCons(files[0], files[1..]);
      assert files == [files[0]] + files[1..];
      if files[0].name == name {
        NamesCons(File(name, files[0].lines + [line]), files[1..]);
      } else {
        NamesCons(files[0], AddLine(files[1..], name, line));
      }
    }
  }

  lemma NamesCons(f: File, rest: seq<File>)
    ensures NamesOf([f] + rest) == [f.name] + NamesOf(rest)
  {
  }

  /** A line that names a file makes it the current one, and adds it without lines when it is new; a
      line that adds text does so, without its first sign, to the current file and to no other; and
      any other line does nothing. */
  lemma StepExactly(st: State, line: string, q: string)
    ensures Step(st, line).current == if NamesFile(line) then Some(line[6..]) else st.current
    ensures NamesOf(Step(st, line).files) ==
      NamesOf(st.files) + if NamesFile(line) && line[6..] !in NamesOf(st.files) then [line[6..]] else []
    ensures LinesOf(Step(st, line).files, q) ==
      if NamesFile(line) && q == line[6..] && LinesOf(st.files, q) == None then Some([])
      else if !NamesFile(line) && AddsText(line) && st.current == Some(q) && LinesOf(st.files, q).Some?
        then Some(LinesOf(st.files, q).value + [line[1..]])
      else LinesOf(st.files, q)
    ensures !NamesFile(line) && !AddsText(line) ==> Step(st, line) == st
  {
    hide Header, Added, NamesFile, AddsText;
    KindsAre(line);
    LengthOf(line);
    if Header(line) {
      LinesOfNamed(st.files, line[6..]);
      LinesOfLast(st.files, File(line[6..], []), q);
    } else if st.current.Some? && Added(line) {
      LinesOfAdded(st.files, st.current.value, line[1..], q);
    }
  }

  lemma LengthOf(line: string)
    ensures NamesFile(line) ==> |line| >= 6
    ensures AddsText(line) ==> |line| >= 1
  {
  }

  /** A line that does not start with a plus sign, such as context, a removed line or a hunk mark, can
      be left out anywhere. */
  lemma UnmarkedIgnored(st: State, before: seq<string>, line: string, after: seq<string>)
    requires line == "" || line[0] != '+'
    ensures Run(st, before + [line] + after) == Run(st, before + after)
  {
    StepExactly(Run(st, before), line, "");
    RunAppend(st, before + [line], after);
    RunAppend(st, before, [line]);
    RunAppend(st, before, after);
    RunOne(Run(st, before), line);
  }

  /* ---- rendering ---- */

  function PlusLines(lines: seq<string>): (r: seq<string>)
    ensures |r| == |lines|
    ensures forall i :: 0 <= i < |lines| ==> r[i] == "+" + lines[i]
  {
    seq(|lines|, i requires 0 <= i < |lines| => "+" + lines[i])
  }

  /** The lines that create one file, and all of them. */
  function RenderFile(f: File): seq<string> {
    ["+++ b/" + f.name] + PlusLines(f.lines)
  }

  function Render(files: seq<File>): seq<string> {
    if files == [] then [] else Render(files[..|files| - 1]) + RenderFile(files[|files| - 1])
  }

  predicate DistinctNames(files: seq<File>) {
    forall i, j :: 0 <= i < j < |files| ==> files[i].name != files[j].name
  }

  predicate PlainLines(lines: seq<string>) {
    forall i :: 0 <= i < |lines| ==> !("++" <= lines[i])
  }

  predicate Plain(files: seq<File>) {
    forall i :: 0 <= i < |files| ==> PlainLines(files[i].lines)
  }

  lemma {:induction false} AddLineLast(files: seq<File>, last: File, line: string)
    requires !Named(files, last.name)
    ensures AddLine(files + [last], last.name, line) == files + [File(last.name, last.lines + [line])]
  {
    var all := files + [last];
    if files == [] {
      assert all[1..] == [];
    } else {
      assert files[0].name != last.name;
      assert all[1..] == files[1..] + [last];
      forall i | 0 <= i < |files[1..]|
        ensures files[1..][i].name != last.name
      {
        assert files[1..][i] == files[i + 1];
      }
      AddLineLast(files[1..], last, line);
    }
  }

  lemma PlusLine(line: string)
    ensures Added("+" + line) <==> !("++" <= line)
    ensures Header("+" + line) ==> "++" <= line
    ensures ("+" + line)[1..] == line
  {
    var p := "+" + line;
    assert "+" <= p;
    assert "++" <= line ==> p[..3] == "+++";
    assert "+++" <= p ==> line[..2] == p[1..3];
    assert Header(p) ==> p[..3] == "+++";
  }

  lemma {:induction false} ReadLines(files: seq<File>, name: string, lines: seq<string>)
    requires !Named(files, name) && PlainLines(lines)
    ensures Run(State(files + [File(name, [])], Some(name)), PlusLines(lines))
         == State(files + [File(name, lines)], Some(name))
    decreases |lines|
  {
    if lines != [] {
      var n := |lines| - 1;
      ReadLines(files, name, lines[..n]);
      assert PlusLines(lines) == PlusLines(lines[..n]) + ["+" + lines[n]];
      RunAppend(State(files + [File(name, [])], Some(name)), PlusLines(lines[..n]), ["+" + lines[n]]);
      RunOne(State(files + [File(name, lines[..n])], Some(name)), "+" + lines[n]);
      PlusLine(lines[n]);
      AddLineLast(files, File(name, lines[..n]), lines[n]);
      assert lines == lines[..n] + [lines[n]];
    }
  }

  lemma {:induction false} ReadRendered(files: seq<File>)
    requires DistinctNames(files) && Plain(files)
    ensures Run(START, Render(files)).files == files
    decreases |files|
  {
    if files != [] {
      var n := |files| - 1;
      var f := files[n];
      ReadRendered(files[..n]);
      var st := Run(START, Render(files[..n]));
      RunAppend(START, Render(files[..n]), RenderFile(f));
      RunAppend(st, ["+++ b/" + f.name], PlusLines(f.lines));
      RunOne(st, "+++ b/" + f.name);
      assert Header("+++ b/" + f.name) && ("+++ b/" + f.name)[6..] == f.name;
      assert !Named(files[..n], f.name);
      ReadLines(files[..n], f.name, f.lines);
      assert files == files[..n] + [f];
    }
  }

  /* ---- counting what is added ---- */

  function Size(lines: seq<string>): nat {
    if lines == [] then 0 else Size(lines[..|lines| - 1]) + |lines[|lines| - 1]|
  }

  function Total(files: seq<File>): nat {
    if files == [] then 0 else Size(files[0].lines) + Total(files[1..])
  }

  /** Characters the added lines of a diff carry after their plus sign. */
  function AddedSize(diff: seq<string>): nat {
    if diff == [] then 0 else (if Added(diff[0]) then |diff[0]| - 1 else 0) + AddedSize(diff[1..])
  }

  lemma SizeSnoc(lines: seq<string>, line: string)
    ensures Size(lines + [line]) == Size(lines) + |line|
  {
    assert (lines + [line])[..|lines|] == lines;
  }

  lemma {:induction false} TotalAppend(a: seq<File>, b: seq<File>)
    ensures Total(a + b) == Total(a) + Total(b)
  {
    if a == [] {
      assert a + b == b;
    } else {
      assert (a + b)[1..] == a[1..] + b;
      TotalAppend(a[1..], b);
    }
  }

  lemma {:induction false} AddLineTotal(files: seq<File>, name: string, line: string)
    ensures Total(AddLine(files, name, line)) <= Total(files) + |line|
  {
    if files != [] {
      AddLineTotal(files[1..], name, line);
      SizeSnoc(files[0].lines, line);
      var r := AddLine(files, name, line);
      assert r[1..] == if files[0].name == name then files[1..] else AddLine(files[1..], name, line);
    }
  }

  lemma DefaultTotal(files: seq<File>, name: string)
    ensures Total(SetDefault(files, name)) == Total(files)
  {
    TotalAppend(files, [File(name, [])]);
    assert [File(name, [])][1..] == [];
  }

  lemma StepTotal(st: State, line: string)
    ensures Total(Step(st, line).files) <= Total(st.files) + if Added(line) then |line| - 1 else 0
  {
    if Header(line) {
      DefaultTotal(st.files, line[6..]);
    } else if st.current.Some? && Added(line) {
      AddLineTotal(st.files, st.current.value, line[1..]);
    }
  }

  /** A reading holds no more characters than the diff adds. */
  lemma {:induction false} RunTotal(st: State, diff: seq<string>)
    ensures Total(Run(st, diff).files) <= Total(st.files) + AddedSize(diff)
    decreases |diff|
  {
    if diff != [] {
      StepTotal(st, diff[0]);
      RunTotal(Step(st, diff[0]), diff[1..]);
    }
  }

  lemma {:induction false} AddedAppend(a: seq<string>, b: seq<string>)
    ensures AddedSize(a + b) == AddedSize(a) + AddedSize(b)
  {
    if a == [] {
      assert a + b == b;
    } else {
      assert (a + b)[1..] == a[1..] + b;
      AddedAppend(a[1..], b);
    }
  }

  lemma AddedOne(line: string)
    ensures AddedSize(["+" + line]) <= |line|
    ensures "++" <= line ==> AddedSize(["+" + line]) < |line|
  {
    PlusLine(line);
    assert ["+" + line][1..] == [];
  }

  lemma {:induction false} PlusLinesSize(lines: seq<string>)
    ensures AddedSize(PlusLines(lines)) <= Size(lines)
    ensures !PlainLines(lines) ==> AddedSize(PlusLines(lines)) < Size(lines)
  {
    if lines != [] {
      var n := |lines| - 1;
      PlusLinesSize(lines[..n]);
      AddedOne(lines[n]);
      AddedAppend(PlusLines(lines[..n]), ["+" + lines[n]]);
      assert PlusLines(lines) == PlusLines(lines[..n]) + ["+" + lines[n]];
      assert PlainLines(lines[..n]) && !("++" <= lines[n]) ==> PlainLines(lines) by {
        assert forall i :: 0 <= i < n ==> lines[..n][i] == lines[i];
      }
    }
  }

  lemma RenderFileSize(f: File)
    ensures AddedSize(RenderFile(f)) == AddedSize(PlusLines(f.lines))
  {
    assert RenderFile(f)[1..] == PlusLines(f.lines);
    assert "+++" <= "+++ b/" + f.name;
  }

  lemma {:induction false} RenderSize(files: seq<File>)
    ensures AddedSize(Render(files)) <= Total(files)
    ensures !Plain(files) ==> AddedSize(Render(files)) < Total(files)
    decreases |files|
  {
    if files != [] {
      var n := |files| - 1;
      var f := files[n];
      RenderSize(files[..n]);
      PlusLinesSize(f.lines);
      RenderFileSize(f);
      AddedAppend(Render(files[..n]), RenderFile(f));
      assert files == files[..n] + [f];
      TotalAppend(files[..n], [f]);
      assert [f][1..] == [];
      assert Plain(files[..n]) && PlainLines(f.lines) ==> Plain(files);
    }
  }

  /* ---- the texts ---- */

  predicate OneLiners(lines: seq<string>) {
    forall l :: l in lines ==> '\n' !in l
  }

  ghost predicate AllOneLiners(files: seq<File>) {
    forall i :: 0 <= i < |files| ==> OneLiners(files[i].lines)
  }

  lemma {:induction false} AddLineOneLiners(files: seq<File>, name: string, line: string)
    requires AllOneLiners(files) && '\n' !in line
    ensures AllOneLiners(AddLine(files, name, line))
  {
    if files != [] {
      var r := AddLine(files, name, line);
      assert OneLiners(files[0].lines);
      assert forall i :: 0 <= i < |files[1..]| ==> files[1..][i] == files[i + 1];
      AddLineOneLiners(files[1..], name, line);
      assert r[1..] == if files[0].name == name then files[1..] else AddLine(files[1..], name, line);
      assert forall i :: 1 <= i < |r| ==> r[i] == r[1..][i - 1];
    }
  }

  /** Lines read off a diff of lines are lines. */
  lemma {:induction false} RunOneLiners(st: State, diff: seq<string>)
    requires AllOneLiners(st.files) && forall l :: l in diff ==> Added(l) ==> '\n' !in l
    ensures AllOneLiners(Run(st, diff).files)
    decreases |diff|
  {
    if diff != [] {
      var line := diff[0];
      assert line in diff;
      if st.current.Some? && Added(line) && !Header(line) {
        assert forall c :: c in line[1..] ==> c in line;
        AddLineOneLiners(st.files, st.current.value, line[1..]);
      }
      RunOneLiners(Step(st, line), diff[1..]);
    }
  }

  lemma {:induction false} RenderOneLiners(files: seq<File>, line: string)
    requires AllOneLiners(files) && line in Render(files) && Added(line)
    ensures '\n' !in line
    decreases |files|
  {
    var n := |files| - 1;
    if line in Render(files[..n]) {
      RenderOneLiners(files[..n], line);
    } else {
      assert OneLiners(files[n].lines);
      assert "+++" <= "+++ b/" + files[n].name;
    }
  }

  /** The text of a file splits at its line breaks into the file's lines again, unless there is none:
      a file without lines has the text of a file with one empty line. */
  lemma TextHoldsLines(f: File)
    requires OneLiners(f.lines)
    ensures Split(FileText(f), '\n') == f.lines + [""] <==> f.lines != []
    ensures f.lines == [] ==> FileText(f) == FileText(File(f.name, [""]))
  {
    if f.lines != [] {
      JoinSnoc(f.lines, "", '\n');
      assert FileText(f) == Join(f.lines + [""], '\n');
      SplitJoin(f.lines + [""], '\n');
    } else {
      var empty: seq<string> := [""];
      assert empty + [""] == ["", ""];
      JoinSnoc(empty, "", '\n');
      assert FileText(f) == "\n" == Join(["", ""], '\n');
      SplitJoin(["", ""], '\n');
    }
  }

  /** One text, one content: the lines, up to the one ambiguity. */
  lemma SameText(f: File, g: File)
    requires OneLiners(f.lines) && OneLiners(g.lines) && FileText(f) == FileText(g)
    ensures Size(f.lines) == Size(g.lines)
  {
    var a := if f.lines == [] then File(f.name, [""]) else f;
    var b := if g.lines == [] then File(g.name, [""]) else g;
    TextHoldsLines(f);
    TextHoldsLines(g);
    TextHoldsLines(a);
    TextHoldsLines(b);
    assert a.lines + [""] == b.lines + [""];
    assert a.lines == (a.lines + [""])[..|a.lines|] == (b.lines + [""])[..|b.lines|] == b.lines;
    assert Size([""]) == 0;
  }

  lemma {:induction false} SameTexts(files: seq<File>, others: seq<File>)
    requires AllOneLiners(files) && AllOneLiners(others) && Texts(files) == Texts(others)
    ensures Total(files) == Total(others)
  {
    if files != [] {
      assert Texts(files)[0] == Texts(others)[0];
      assert OneLiners(files[0].lines) && OneLiners(others[0].lines);
      SameText(files[0], others[0]);
      assert Texts(files[1..]) == Texts(files)[1..] == Texts(others)[1..] == Texts(others[1..]);
      assert forall i :: 0 <= i < |files[1..]| ==> files[1..][i] == files[i + 1];
      assert forall i :: 0 <= i < |others[1..]| ==> others[1..][i] == others[i + 1];
      SameTexts(files[1..], others[1..]);
    }
  }

  /** The lines of a diff that creates distinctly named files, with any others in between, are read
      into exactly their names and texts if and only if no line of theirs starts with two plus signs. */
  lemma LinesReadBack(files: seq<File>, diff: seq<string>)
    requires DistinctNames(files) && AllOneLiners(files) && Kept(diff) == Kept(Render(files))
    ensures Texts(Read(diff)) == Texts(files) <==> Plain(files)
    ensures Plain(files) ==> Read(diff) == files
  {
    NoiseIgnored(START, diff);
    NoiseIgnored(START, Render(files));
    if Plain(files) {
      ReadRendered(files);
    } else {
      RenderSize(files);
      RunTotal(START, Render(files));
      forall l | l in Render(files) && Added(l)
        ensures '\n' !in l
      {
        RenderOneLiners(files, l);
      }
      RunOneLiners(START, Render(files));
      if Texts(Read(diff)) == Texts(files) {
        SameTexts(Read(diff), files);
      }
    }
  }

  /* ---- from the text of the diff ---- */

  predicate LinesFree(lines: seq<string>) {
    forall l :: l in lines ==> BreakFree(l)
  }

  /** No name and no line holds a line break of any kind. */
  ghost predicate Unbroken(files: seq<File>) {
    forall i :: 0 <= i < |files| ==> BreakFree(files[i].name) && LinesFree(files[i].lines)
  }

  lemma SliceFree(s: string, k: nat)
    requires BreakFree(s) && k <= |s|
    ensures BreakFree(s[k..])
  {
  }

  lemma {:induction false} AddLineFree(files: seq<File>, name: string, line: string)
    requires Unbroken(files) && BreakFree(line)
    ensures Unbroken(AddLine(files, name, line))
  {
    if files != [] {
      hide BreakFree;
      var r := AddLine(files, name, line);
      assert BreakFree(files[0].name) && LinesFree(files[0].lines);
      assert forall i :: 0 <= i < |files[1..]| ==> files[1..][i] == files[i + 1];
      AddLineFree(files[1..], name, line);
      assert r[1..] == if files[0].name == name then files[1..] else AddLine(files[1..], name, line);
      assert forall i :: 1 <= i < |r| ==> r[i] == r[1..][i - 1];
    }
  }

  lemma StepFree(st: State, line: string)
    requires Unbroken(st.files) && BreakFree(line)
    ensures Unbroken(Step(st, line).files)
  {
    hide BreakFree;
    if Header(line) {
      SliceFree(line, 6);
    } else if st.current.Some? && Added(line) {
      SliceFree(line, 1);
      AddLineFree(st.files, st.current.value, line[1..]);
    }
  }

  /** What is read off unbroken lines is unbroken. */
  lemma {:induction false} RunFree(st: State, diff: seq<string>)
    requires Unbroken(st.files) && LinesFree(diff)
    ensures Unbroken(Run(st, diff).files)
    decreases |diff|
  {
    hide BreakFree, Step;
    if diff != [] {
      assert diff[0] in diff;
      StepFree(st, diff[0]);
      assert forall l :: l in diff[1..] ==> l in diff;
      RunFree(Step(st, diff[0]), diff[1..]);
    }
  }

  /** Breaks other than line feeds survive in a text exactly when some line holds them. */
  predicate FeedsOnly(s: string) {
    forall c :: c in s && IsBreak(c) ==> c == '\n'
  }

  lemma {:induction false} JoinFeeds(lines: seq<string>)
    requires OneLiners(lines)
    ensures FeedsOnly(Join(lines, '\n')) <==> LinesFree(lines)
  {
    hide IsBreak;
    if lines != [] {
      assert lines[0] in lines;
      FreeMeans(lines[0]);
      if |lines| == 1 {
        assert forall l :: l in lines <==> l == lines[0];
      } else {
        assert forall l :: l in lines <==> l == lines[0] || l in lines[1..];
        JoinFeeds(lines[1..]);
      }
    }
  }

  /** For a line, no break at all is the same as no break but line feeds. */
  lemma FreeMeans(l: string)
    requires '\n' !in l
    ensures BreakFree(l) <==> FeedsOnly(l)
  {
    if FeedsOnly(l) {
      forall i | 0 <= i < |l|
        ensures !IsBreak(l[i])
      {
        assert l[i] in l;
      }
    }
  }

  lemma TextFeeds(f: File)
    requires OneLiners(f.lines)
    ensures FeedsOnly(FileText(f)) <==> LinesFree(f.lines)
  {
    JoinFeeds(f.lines);
  }

  lemma FreeLinesAreOneLiners(lines: seq<string>)
    requires LinesFree(lines)
    ensures OneLiners(lines)
  {
    assert IsBreak('\n');
  }

  /** Files with the same names and texts as unbroken ones are unbroken. */
  lemma TextsUnbroken(files: seq<File>, read: seq<File>)
    requires AllOneLiners(files) && Unbroken(read) && Texts(read) == Texts(files)
    ensures Unbroken(files)
  {
    forall i | 0 <= i < |files|
      ensures BreakFree(files[i].name) && LinesFree(files[i].lines)
    {
      assert Texts(read)[i] == Texts(files)[i];
      assert LinesFree(read[i].lines) && OneLiners(files[i].lines);
      FreeLinesAreOneLiners(read[i].lines);
      TextFeeds(read[i]);
      TextFeeds(files[i]);
    }
  }

  /** The text of a diff: its lines, each ended by a line feed but perhaps the last. */
  function DiffText(diff: seq<string>, end: string): string {
    Join(diff, '\n') + end
  }

  /** A diff for these files: their lines in order, with any others in between; as a text it says what
      its lines say, unless a name or line of the files themselves breaks it. */
  ghost predicate DiffFor(files: seq<File>, diff: seq<string>, end: string) {
    && diff != [] && Kept(diff) == Kept(Render(files))
    && (Unbroken(files) ==> LinesFree(diff) && EndsWell(diff, end))
  }

  /** Reading the text of a diff that creates distinctly named files returns exactly their names and
      texts if and only if no line of theirs starts with two plus signs, and no name or line of theirs
      holds any of the characters at which Python ends a line. */
  lemma ReadsBack(files: seq<File>, diff: seq<string>, end: string)
    requires DistinctNames(files) && AllOneLiners(files) && DiffFor(files, diff, end)
    ensures Texts(Read(SplitLines(DiffText(diff, end)))) == Texts(files) <==> Plain(files) && Unbroken(files)
  {
    hide SplitLines, BreakFree, Plain, Join, Texts, Run, Unbroken;
    var lines := SplitLines(DiffText(diff, end));
    if Unbroken(files) {
      SplitLinesJoin(diff, end);
      LinesReadBack(files, diff);
    } else {
      forall l | l in lines
        ensures BreakFree(l)
      {
        SplitLinesFree(DiffText(diff, end), l);
      }
      NothingBroken();
      RunFree(START, lines);
      if Texts(Read(lines)) == Texts(files) {
        TextsUnbroken(files, Read(lines));
      }
    }
  }

  lemma NothingBroken()
    ensures Unbroken(START.files)
  {
  }

  /** The plain rendering is such a diff, with or without a final line feed. */
  lemma RenderIsDiff(files: seq<File>, end: string)
    requires files != [] && (end == "" || end == "\n")
    ensures DiffFor(files, Render(files), end)
  {
    var n := |files| - 1;
    assert Render(files) == Render(files[..n]) + RenderFile(files[n]);
    assert RenderFile(files[n]) != [];
    if Unbroken(files) {
      RenderFree(files);
    }
  }

  lemma {:induction false} RenderFree(files: seq<File>)
    requires Unbroken(files)
    ensures LinesFree(Render(files))
    decreases |files|
  {
    if files != [] {
      var n := |files| - 1;
      assert forall i :: 0 <= i < n ==> files[..n][i] == files[i];
      RenderFree(files[..n]);
      RenderFileFree(files[n]);
      assert forall l :: l in Render(files) ==> l in Render(files[..n]) || l in RenderFile(files[n]);
    }
  }

  lemma RenderFileFree(f: File)
    requires BreakFree(f.name) && LinesFree(f.lines)
    ensures LinesFree(RenderFile(f))
  {
    forall l | l in RenderFile(f)
      ensures BreakFree(l)
    {
      if l != "+++ b/" + f.name {
        var i :| 0 <= i < |f.lines| && l == "+" + f.lines[i];
        assert f.lines[i] in f.lines;
      }
    }
  }

  /** The files' lines can be recovered from what is returned. */
  ghost predicate Recovers(files: seq<File>, texts: seq<(string, string)>) {
    && |texts| == |files|
    && forall i :: 0 <= i < |files| ==> texts[i].0 == files[i].name && Split(texts[i].1, '\n') == files[i].lines + [""]
  }

  lemma TextsRecover(files: seq<File>)
    requires AllOneLiners(files)
    ensures Recovers(files, Texts(files)) <==> forall i :: 0 <= i < |files| ==> files[i].lines != []
  {
    forall i | 0 <= i < |files|
      ensures Split(Texts(files)[i].1, '\n') == files[i].lines + [""] <==> files[i].lines != []
    {
      assert OneLiners(files[i].lines);
      TextHoldsLines(files[i]);
    }
  }

  lemma RecoveredText(f: File, g: File)
    requires OneLiners(f.lines) && Split(FileText(g), '\n') == f.lines + [""]
    ensures FileText(g) == FileText(f) && f.lines != []
  {
    JoinSplit(FileText(g), '\n');
    assert f.lines == [] ==> f.lines + [""] == [""];
    if f.lines != [] {
      JoinSnoc(f.lines, "", '\n');
    }
  }

  lemma RecoveredTexts(files: seq<File>, read: seq<File>)
    requires AllOneLiners(files) && Recovers(files, Texts(read))
    ensures Texts(read) == Texts(files)
  {
    forall i | 0 <= i < |files|
      ensures Texts(read)[i] == Texts(files)[i]
    {
      assert OneLiners(files[i].lines);
      RecoveredText(files[i], read[i]);
    }
  }

  /** From what is returned every line of every file can be recovered if and only if, besides, no file
      is without lines. */
  lemma LinesRecovered(files: seq<File>, diff: seq<string>, end: string)
    requires DistinctNames(files) && AllOneLiners(files) && DiffFor(files, diff, end)
    ensures Recovers(files, Texts(Read(SplitLines(DiffText(diff, end))))) <==>
      Plain(files) && Unbroken(files) && forall i :: 0 <= i < |files| ==> files[i].lines != []
  {
    hide SplitLines, DiffText, Plain, Unbroken, DiffFor, Recovers, Run;
    ReadsBack(files, diff, end);
    TextsRecover(files);
    var read := Read(SplitLines(DiffText(diff, end)));
    if Recovers(files, Texts(read)) {
      RecoveredTexts(files, read);
    }
  }
}
