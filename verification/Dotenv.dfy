/** The `.env` provisioner of `dev/init/dotenv.py`: an operator's assignments are read out of a file, laid out again
    in the structure of a committed example, and written back. */
module Dotenv {
  import opened Options
  import opened Text

  // ---------- lines ----------

  /** Where `str.splitlines` breaks. */
  predicate IsBreak(c: char) {
    var n := c as int;
    10 <= n <= 13 || 28 <= n <= 30 || n == 0x85 || n == 0x2028 || n == 0x2029
  }

  predicate NotBreak(c: char) { !IsBreak(c) }

  predicate OneLine(s: string) { forall k :: 0 <= k < |s| ==> NotBreak(s[k]) }

  function Splitlines(text: string): (lines: seq<string>)
    ensures forall k :: 0 <= k < |lines| ==> OneLine(lines[k])
    decreases |text|
  {
    if text == "" then [] else
    var n := Span(text, NotBreak);
    var line, rest := text[..n], text[n..];
    if rest == "" then [line]
    else if |rest| >= 2 && rest[..2] == "\r\n" then [line] + Splitlines(rest[2..])
    else [line] + Splitlines(rest[1..])
  }

  /** `"\n".join(lines) + "\n"`. */
  function Joined(lines: seq<string>): string {
    if lines == [] then "\n" else if |lines| == 1 then lines[0] + "\n" else lines[0] + ("\n" + Joined(lines[1..]))
  }

  lemma BreaksAre(c: char)
    ensures IsBreak(c) <==> c in ['\n', '\U{B}', '\U{C}', '\r', '\U{1C}', '\U{1D}', '\U{1E}', '\U{85}', '\U{2028}',
                                  '\U{2029}']
  {}

  /** How a line may end: at one character, except that a line feed belongs to the carriage return before it. */
  predicate IsEnd(end: string, rest: string) {
    end == "\r\n" || (|end| == 1 && IsBreak(end[0]) && !(end == "\r" && rest != "" && rest[0] == '\n'))
  }

  /** A text is split at every line end there is and nowhere else; what follows the last one is a line if it is not
      empty. */
  lemma SplitAtEnd(line: string, end: string, rest: string)
    requires OneLine(line)
    ensures IsEnd(end, rest) ==> Splitlines(line + (end + rest)) == [line] + Splitlines(rest)
    ensures line != "" ==> Splitlines(line) == [line]
  {
    hide IsBreak;
    BreaksAre('\r');
    SpanOf(line, "", NotBreak);
    assert line + "" == line && line[..|line|] == line;
    if IsEnd(end, rest) {
      var after := end + rest;
      var text := line + after;
      assert after[0] == end[0];
      SpanOf(line, after, NotBreak);
      assert text[..|line|] == line && text[|line|..] == after;
      assert after[|end|..] == rest;
      if end == "\r\n" {
        assert after[..2] == "\r\n";
      } else if |after| >= 2 {
        assert after[..2][0] == end[0] && after[..2][1] == rest[0];
      }
    }
  }

  lemma SplitFirst(first: string, rest: string)
    requires OneLine(first)
    ensures Splitlines(first + ("\n" + rest)) == [first] + Splitlines(rest)
  {
    BreaksAre('\n');
    SplitAtEnd(first, "\n", rest);
  }

  lemma {:induction false} SplitJoined(lines: seq<string>)
    requires forall k :: 0 <= k < |lines| ==> OneLine(lines[k])
    ensures Splitlines(Joined(lines)) == if lines == [] then [""] else lines
  {
    hide Splitlines, OneLine;
    NoText();
    if |lines| == 0 {
      assert OneLine("") by { NoText(); }
      assert "" + ("\n" + "") == Joined(lines);
      SplitFirst("", "");
    } else if |lines| == 1 {
      assert lines[0] + ("\n" + "") == Joined(lines);
      SplitFirst(lines[0], "");
    } else {
      SplitFirst(lines[0], Joined(lines[1..]));
      SplitJoined(lines[1..]);
      assert lines == [lines[0]] + lines[1..];
    }
  }

  lemma NoText()
    ensures Splitlines("") == [] && OneLine("")
  {}

  // ---------- assignments ----------

  datatype Assignment = Assignment(name: string, value: string)

  predicate IsNameChar(c: char) { IsLetter(c) || IsDigit(c) || c == '_' }

  predicate IsUpperChar(c: char) { IsUpper(c) || IsDigit(c) || c == '_' }

  /** `[A-Za-z_][A-Za-z0-9_]*`. */
  predicate IsName(n: string) { n != "" && !IsDigit(n[0]) && forall k :: 0 <= k < |n| ==> IsNameChar(n[k]) }

  /** `[A-Z_][A-Z0-9_]*`. */
  predicate IsUpperName(n: string) { n != "" && !IsDigit(n[0]) && forall k :: 0 <= k < |n| ==> IsUpperChar(n[k]) }

  /** An assignment in force: `^\s*([A-Za-z_][A-Za-z0-9_]*)=(.*)$`. */
  function Live(line: string): (a: Option<Assignment>)
    ensures a.Some? ==> IsName(a.value.name)
  {
    var t := Lstrip(line);
    var n := Span(t, IsNameChar);
    if 0 < n < |t| && !IsDigit(t[0]) && t[n] == '=' then Some(Assignment(t[..n], t[n + 1..])) else None
  }

  /** An assignment the example offers, live or commented out: `^\s*#?\s*([A-Z_][A-Z0-9_]*)=(.*)$`. */
  function Declared(line: string): (name: Option<string>)
    ensures name.Some? ==> IsUpperName(name.value)
  {
    var t := Lstrip(line);
    var u := if t != "" && t[0] == '#' then Lstrip(t[1..]) else t;
    var n := Span(u, IsUpperChar);
    if 0 < n < |u| && !IsDigit(u[0]) && u[n] == '=' then Some(u[..n]) else None
  }

  /** A line that is blank or a comment. */
  predicate Skipped(line: string) {
    var t := Lstrip(line);
    t == "" || t[0] == '#'
  }

  predicate Readable(line: string) { Skipped(line) || Live(line).Some? }

  predicate AllReadable(lines: seq<string>) { forall k :: 0 <= k < |lines| ==> Readable(lines[k]) }

  function Assign(name: string, value: string): string { name + ("=" + value) }

  lemma LiveAssign(name: string, value: string)
    requires IsName(name)
    ensures Live(Assign(name, value)) == Some(Assignment(name, value)) && Assign(name, value) != ""
    ensures !IsSpace(Assign(name, value)[0])
  {
    var line := Assign(name, value);
    assert line[0] == name[0] && Span(line, IsSpace) == 0;
    assert Lstrip(line) == line;
    SpanOf(name, "=" + value, IsNameChar);
    assert line[..|name|] == name && line[|name| + 1..] == value;
  }

  /** A live line is the plain assignment, unless it is indented. */
  lemma LiveIsAssign(line: string)
    requires Live(line).Some?
    ensures line == Assign(Live(line).value.name, Live(line).value.value) || (line != "" && IsSpace(line[0]))
    ensures !Skipped(line)
  {
    var t := Lstrip(line);
    var n := Span(t, IsNameChar);
    assert t == t[..n] + ("=" + t[n + 1..]);
    if line == "" || !IsSpace(line[0]) { assert t == line; }
  }

  /** A live line with an upper-case name declares it. */
  lemma LiveUpperDeclares(line: string)
    requires Live(line).Some? && IsUpperName(Live(line).value.name)
    ensures Declared(line) == Some(Live(line).value.name)
  {
    var t := Lstrip(line);
    var n := Span(t, IsNameChar);
    var name := t[..n];
    assert t[0] == name[0];
    assert t == name + t[n..];
    SpanOf(name, t[n..], IsUpperChar);
  }

  /** The example declares a name by assigning it or by showing the assignment commented out, indented or not. */
  lemma CommentedOutDeclares(before: string, between: string, name: string, value: string)
    requires IsBlank(before) && IsBlank(between) && IsUpperName(name)
    ensures Declared(before + ("#" + (between + Assign(name, value)))) == Some(name)
    ensures Declared(before + Assign(name, value)) == Some(name)
    ensures Skipped(before + ("#" + (between + Assign(name, value)))) && !Skipped(before + Assign(name, value))
  {
    hide IsSpace, Span, Live;
    var line := Assign(name, value);
    assert !IsSpace(name[0]) && name[0] != '#' by { UpperStartsPlain(name); }
    assert !IsSpace('#') by { HashIsNotBlank(); }
    SpanOf(before, "#" + (between + line), IsSpace);
    SpanOf(before, line, IsSpace);
    SpanOf(between, line, IsSpace);
    assert (before + ("#" + (between + line)))[|before|..] == "#" + (between + line);
    assert ("#" + (between + line))[1..] == between + line && (between + line)[|between|..] == line;
    assert (before + line)[|before|..] == line;
    SpanOf(name, "=" + value, IsUpperChar);
    assert line[..|name|] == name;
  }

  lemma UpperStartsPlain(name: string)
    requires IsUpperName(name)
    ensures !IsSpace(name[0]) && name[0] != '#'
  {}

  // ---------- ordered dictionaries ----------

  /** A dictionary in insertion order. */
  type Dict = seq<Assignment>

  predicate Distinct(d: Dict) { forall a, b :: 0 <= a < b < |d| ==> d[a].name != d[b].name }

  function Get(d: Dict, name: string): (v: Option<string>)
  {
    if d == [] then None else if d[0].name == name then Some(d[0].value) else Get(d[1..], name)
  }

  /** `d[name] = value`: a name that is there keeps its place. */
  function Put(d: Dict, name: string, value: string): Dict {
    if d == [] then [Assignment(name, value)]
    else if d[0].name == name then [Assignment(name, value)] + d[1..]
    else [d[0]] + Put(d[1..], name, value)
  }

  /** The entries whose names are not among these, in order. */
  function Without(d: Dict, names: set<string>): Dict {
    if d == [] then []
    else if d[0].name in names then Without(d[1..], names)
    else [d[0]] + Without(d[1..], names)
  }

  /** What `read_values` can return: distinct live names, and values without line breaks. */
  predicate Legible(d: Dict) {
    Distinct(d) && forall k :: 0 <= k < |d| ==> IsName(d[k].name) && OneLine(d[k].value)
  }

  // ---------- reading ----------

  function ReadAll(lines: seq<string>): Dict {
    if lines == [] then [] else
    var d := ReadAll(lines[..|lines| - 1]);
    var a := Live(lines[|lines| - 1]);
    if a.Some? then Put(d, a.value.name, a.value.value) else d
  }

  /** The value of the last live line of that name, which is the one a loader reads. */
  function LastLive(lines: seq<string>, name: string): Option<string> {
    if lines == [] then None else
    var a := Live(lines[|lines| - 1]);
    if a.Some? && a.value.name == name then Some(a.value.value) else LastLive(lines[..|lines| - 1], name)
  }

  method ReadValues(text: string) returns (values: Result<Dict, nat>)
    ensures values.Ok? <==> AllReadable(Splitlines(text))
    ensures values.Ok? ==> values.value == ReadAll(Splitlines(text))
    ensures values.Err? ==> 0 < values.error <= |Splitlines(text)| && !Readable(Splitlines(text)[values.error - 1])
                            && AllReadable(Splitlines(text)[..values.error - 1])
  {
    hide Splitlines, Live, Skipped;
    var lines := Splitlines(text);
    var d: Dict := [];
    var i := 0;
    while i < |lines|
      invariant i <= |lines| && d == ReadAll(lines[..i]) && AllReadable(lines[..i])
    {
      var line := lines[i];
      assert lines[..i + 1][..i] == lines[..i];
      i := i + 1;
      if Skipped(line) {
        assert Live(line).None? by { SkippedIsNotLive(line); }
        continue;
      }
      var a := Live(line);
      if a.None? {
        return Err(i);
      }
      d := Put(d, a.value.name, a.value.value);
    }
    assert lines[..i] == lines;
    return Ok(d);
  }

  lemma SkippedIsNotLive(line: string)
    requires Skipped(line)
    ensures Live(line).None?
  {
    if Live(line).Some? { LiveIsAssign(line); }
  }

  lemma {:induction false} GetPut(d: Dict, name: string, value: string, other: string)
    ensures Get(Put(d, name, value), other) == if other == name then Some(value) else Get(d, other)
  {
    if d != [] && d[0].name != name { GetPut(d[1..], name, value, other); }
  }

  lemma {:induction false} GetReadAll(lines: seq<string>, name: string)
    ensures Get(ReadAll(lines), name) == LastLive(lines, name)
  {
    hide Live;
    if lines != [] {
      var front, a := lines[..|lines| - 1], Live(lines[|lines| - 1]);
      GetReadAll(front, name);
      if a.Some? { GetPut(ReadAll(front), a.value.name, a.value.value, name); }
    }
  }

  // ---------- rendering ----------

  function DeclaredIn(example: seq<string>): set<string> {
    set k | 0 <= k < |example| && Declared(example[k]).Some? :: Declared(example[k]).value
  }

  /** The first declaration of a name that has a value takes it, live and unindented; every other line stays. */
  function BodyLine(example: seq<string>, values: Dict, i: nat): string
    requires i < |example|
  {
    var name := Declared(example[i]);
    if name.Some? && name.value !in DeclaredIn(example[..i]) && Get(values, name.value).Some?
    then Assign(name.value, Get(values, name.value).value)
    else example[i]
  }

  function Body(example: seq<string>, values: Dict): (lines: seq<string>)
    ensures |lines| == |example| && forall i :: 0 <= i < |lines| ==> lines[i] == BodyLine(example, values, i)
  {
    seq(|example|, i requires 0 <= i < |example| => BodyLine(example, values, i))
  }

  function Then(start: string, more: string): (text: string)
    requires OneLine(start) && OneLine(more)
    ensures OneLine(text)
  {
    start + more
  }

  function Comment(text: string): (line: string)
    requires OneLine(text)
    ensures Skipped(line) && OneLine(line)
  {
    CommentIsSkipped(text);
    Then("# ", text)
  }

  lemma CommentIsSkipped(text: string)
    ensures Skipped("# " + text)
  {
    hide IsSpace;
    assert !IsSpace('#') by { HashIsNotBlank(); }
    assert ("# " + text)[0] == '#';
    assert Lstrip("# " + text) == "# " + text;
  }

  lemma HashIsNotBlank()
    ensures !IsSpace('#')
  {}

  function Rule(): (text: string)
    ensures OneLine(text)
  {
    seq(75, _ => '-')
  }

  function NotDeclared(): (text: string)
    ensures OneLine(text)
  {
    Then("Not declared in ", ".env.example")
  }

  function Kept(): (text: string)
    ensures OneLine(text)
  {
    Then("Kept so that no value ", Then("is lost. Nothing in ", Then("this repository ", "reads these")))
  }

  function Names(): (text: string)
    ensures OneLine(text)
  {
    Then("names, and they are ", Then("not copied into new ", Then("worktrees. ", "Delete them.")))
  }

  lemma NothingIsSkipped()
    ensures Skipped("") && OneLine("")
  {}

  function Banner(): seq<string> {
    ["", Comment(Rule()), Comment(NotDeclared()), Comment(Rule()), Comment(Kept()), Comment(Names())]
  }

  lemma BannerIsSkipped()
    ensures forall k :: 0 <= k < |Banner()| ==> Skipped(Banner()[k]) && OneLine(Banner()[k])
  {
    hide Rule, NotDeclared, Kept, Names, Comment, Skipped, OneLine;
    NothingIsSkipped();
  }

  function Assigns(d: Dict): (lines: seq<string>)
    ensures |lines| == |d| && forall k :: 0 <= k < |d| ==> lines[k] == Assign(d[k].name, d[k].value)
  {
    seq(|d|, k requires 0 <= k < |d| => Assign(d[k].name, d[k].value))
  }

  /** The trailing block for names the example does not declare. */
  function Block(rest: Dict): seq<string> { if rest == [] then [] else Banner() + Assigns(rest) }

  function RenderLines(example: seq<string>, values: Dict): seq<string> {
    Body(example, values) + Block(Without(values, DeclaredIn(example)))
  }

  function NamesOf(d: Dict): (names: seq<string>)
    ensures |names| == |d| && forall k :: 0 <= k < |d| ==> names[k] == d[k].name
  {
    seq(|d|, k requires 0 <= k < |d| => d[k].name)
  }

  predicate NoRepeats(names: seq<string>) { forall a, b :: 0 <= a < b < |names| ==> names[a] != names[b] }

  datatype Rendering = Rendering(text: string, placed: seq<string>, undeclared: seq<string>)

  /** Every input name is placed or undeclared, once and not both. */
  ghost predicate Partitions(r: Rendering, example: seq<string>, values: Dict) {
    && NoRepeats(r.placed) && NoRepeats(r.undeclared)
    && (forall name :: name in r.placed <==> Get(values, name).Some? && name in DeclaredIn(example))
    && (forall name :: name in r.undeclared <==> Get(values, name).Some? && name !in DeclaredIn(example))
  }

  method Render(exampleText: string, values: Dict) returns (r: Rendering)
    requires Distinct(values)
    ensures r.text == Joined(RenderLines(Splitlines(exampleText), values))
    ensures Partitions(r, Splitlines(exampleText), values)
  {
    hide Splitlines, Declared, Without, Get, Joined, Distinct, DeclaredIn, Banner, Assign, OneLine, Skipped;
    var example := Splitlines(exampleText);
    var pending := values;
    var placed: seq<string> := [];
    var lines: seq<string> := [];
    NothingDeclared(values);
    assert example[..0] == [];
    var i := 0;
    while i < |example|
      invariant i <= |example| && Distinct(pending)
      invariant pending == Without(values, DeclaredIn(example[..i]))
      invariant lines == Body(example, values)[..i]
      invariant NoRepeats(placed)
      invariant forall name :: name in placed <==> Get(values, name).Some? && name in DeclaredIn(example[..i])
    {
      var name := Declared(example[i]);
      DeclaredStep(example, i);
      if name.Some? {
        GetWithout(values, DeclaredIn(example[..i]), name.value);
        WithoutMore(values, DeclaredIn(example[..i]), name.value);
      }
      if name.Some? && Get(pending, name.value).Some? {
        lines := lines + [Assign(name.value, Get(pending, name.value).value)];
        pending := Without(pending, {name.value});
        placed := placed + [name.value];
      } else {
        lines := lines + [example[i]];
      }
      WithoutDistinct(values, DeclaredIn(example[..i + 1]));
      i := i + 1;
    }
    assert example[..i] == example;
    WithoutNames(values, DeclaredIn(example));
    DistinctNames(pending);
    if pending != [] {
      lines := lines + Banner() + Assigns(pending);
      assert lines == Body(example, values) + (Banner() + Assigns(pending));
    } else {
      assert lines == Body(example, values) + [];
    }
    r := Rendering(Joined(lines), placed, NamesOf(pending));
  }

  lemma {:induction false} NothingDeclared(values: Dict)
    ensures DeclaredIn([]) == {} && Without(values, {}) == values
  {
    if values != [] { NothingDeclared(values[1..]); }
  }

  lemma DeclaredStep(example: seq<string>, i: nat)
    requires i < |example|
    ensures Declared(example[i]).None? ==> DeclaredIn(example[..i + 1]) == DeclaredIn(example[..i])
    ensures Declared(example[i]).Some? ==>
              DeclaredIn(example[..i + 1]) == DeclaredIn(example[..i]) + {Declared(example[i]).value}
  {
    hide Declared;
    var shorter, longer := example[..i], example[..i + 1];
    assert longer[i] == example[i] && forall k :: 0 <= k < i ==> longer[k] == shorter[k];
  }

  lemma {:induction false} GetWithout(d: Dict, names: set<string>, name: string)
    ensures Get(Without(d, names), name) == if name in names then None else Get(d, name)
  {
    if d != [] { GetWithout(d[1..], names, name); }
  }

  lemma {:induction false} WithoutMore(d: Dict, names: set<string>, name: string)
    ensures Without(Without(d, names), {name}) == Without(d, names + {name})
    ensures Get(Without(d, names), name).None? ==> Without(d, names + {name}) == Without(d, names)
  {
    if d != [] { WithoutMore(d[1..], names, name); }
  }

  lemma {:induction false} WithoutDistinct(d: Dict, names: set<string>)
    requires Distinct(d)
    ensures Distinct(Without(d, names)) && |Without(d, names)| <= |d|
    ensures forall a :: a in Without(d, names) ==> a in d && a.name !in names
  {
    if d != [] {
      WithoutDistinct(d[1..], names);
      assert forall a :: a in d[1..] ==> a.name != d[0].name;
    }
  }

  lemma WithoutNames(d: Dict, names: set<string>)
    requires Distinct(d)
    ensures forall name :: name in NamesOf(Without(d, names)) <==> Get(d, name).Some? && name !in names
  {
    hide Without, Get;
    var rest := Without(d, names);
    forall name ensures name in NamesOf(rest) <==> Get(d, name).Some? && name !in names {
      GetWithout(d, names, name);
      GetNames(rest, name);
    }
  }

  lemma {:induction false} GetNames(d: Dict, name: string)
    ensures Get(d, name).Some? <==> name in NamesOf(d)
    ensures Get(d, name).Some? ==> Assignment(name, Get(d, name).value) in d
  {
    if d != [] {
      GetNames(d[1..], name);
      assert NamesOf(d) == [d[0].name] + NamesOf(d[1..]);
    }
  }

  lemma DistinctNames(d: Dict)
    requires Distinct(d)
    ensures NoRepeats(NamesOf(d))
  {}
}
