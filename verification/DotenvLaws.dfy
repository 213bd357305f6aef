/** When provisioning a `.env` keeps every value, and when doing it twice is doing it once. */
module DotenvLaws {
  import opened Options
  import opened Text
  import opened Dotenv

  // ---------- reading a rendered file ----------

  function LineValue(line: string, name: string): Option<string> {
    var a := Live(line);
    if a.Some? && a.value.name == name then Some(a.value.value) else None
  }

  lemma {:induction false} LastLiveOfBoth(a: seq<string>, b: seq<string>, name: string)
    ensures LastLive(a + b, name) == if LastLive(b, name).Some? then LastLive(b, name) else LastLive(a, name)
  {
    hide Live;
    if b == [] {
      assert a + b == a;
    } else {
      assert (a + b)[..|a + b| - 1] == a + b[..|b| - 1];
      LastLiveOfBoth(a, b[..|b| - 1], name);
    }
  }

  lemma {:induction false} LastLiveAgrees(a: seq<string>, b: seq<string>, name: string)
    requires |a| == |b| && forall k :: 0 <= k < |a| ==> LineValue(a[k], name) == LineValue(b[k], name)
    ensures LastLive(a, name) == LastLive(b, name)
  {
    hide Live;
    if a != [] { LastLiveAgrees(a[..|a| - 1], b[..|b| - 1], name); }
  }

  lemma {:induction false} LastLiveNowhere(lines: seq<string>, name: string)
    requires forall k :: 0 <= k < |lines| ==> LineValue(lines[k], name).None?
    ensures LastLive(lines, name).None?
  {
    hide Live;
    if lines != [] { LastLiveNowhere(lines[..|lines| - 1], name); }
  }

  /** The line a live value comes from: none after it is live under that name. */
  lemma {:induction false} LastLiveAt(lines: seq<string>, name: string) returns (j: nat)
    requires LastLive(lines, name).Some?
    ensures j < |lines| && LineValue(lines[j], name) == LastLive(lines, name)
    ensures forall k :: j < k < |lines| ==> LineValue(lines[k], name).None?
  {
    hide Live;
    j := |lines| - 1;
    if LineValue(lines[j], name).None? { j := LastLiveAt(lines[..j], name); }
  }

  lemma {:induction false} LastLiveAssigns(d: Dict, name: string)
    requires Distinct(d) && forall k :: 0 <= k < |d| ==> IsName(d[k].name)
    ensures LastLive(Assigns(d), name) == Get(d, name)
  {
    hide Live, IsName;
    if d != [] {
      var lines := Assigns(d);
      assert lines == [lines[0]] + Assigns(d[1..]);
      LastLiveOfBoth([lines[0]], Assigns(d[1..]), name);
      LastLiveAssigns(d[1..], name);
      LiveAssign(d[0].name, d[0].value);
      assert [lines[0]][..0] == [] && LastLive([], name) == None;
      if d[0].name == name { GetNames(d[1..], name); }
    }
  }

  lemma LastLiveBlock(rest: Dict, name: string)
    requires Distinct(rest) && forall k :: 0 <= k < |rest| ==> IsName(rest[k].name)
    ensures LastLive(Block(rest), name) == Get(rest, name)
  {
    hide Live, IsName, Skipped, Banner;
    if rest != [] {
      BannerIsSkipped();
      forall k | 0 <= k < |Banner()| ensures LineValue(Banner()[k], name).None? { SkippedIsNotLive(Banner()[k]); }
      LastLiveNowhere(Banner(), name);
      LastLiveOfBoth(Banner(), Assigns(rest), name);
      LastLiveAssigns(rest, name);
    }
  }

  /** A line cannot declare one name and be live under another. */
  lemma DeclaredIsLive(line: string)
    requires Declared(line).Some?
    ensures Readable(line)
    ensures Live(line).Some? ==> Live(line).value.name == Declared(line).value
  {
    var t := Lstrip(line);
    if t != "" && t[0] != '#' {
      var n := Span(t, IsUpperChar);
      assert t == t[..n] + t[n..];
      SpanOf(t[..n], t[n..], IsNameChar);
    } else if Live(line).Some? {
      LiveIsAssign(line);
    }
  }

  /** Rendering touches a line only for the name it declares, and leaves that name's value there. */
  lemma BodyLineValue(example: seq<string>, values: Dict, i: nat, name: string)
    requires i < |example|
    ensures Declared(example[i]) != Some(name) || Get(values, name).None? || name in DeclaredIn(example[..i]) ==>
              LineValue(BodyLine(example, values, i), name) == LineValue(example[i], name)
    ensures Declared(example[i]) == Some(name) && Get(values, name).Some? && name !in DeclaredIn(example[..i]) ==>
              LineValue(BodyLine(example, values, i), name) == Get(values, name)
  {
    hide Live, Declared, DeclaredIn;
    if Declared(example[i]).Some? {
      var declared := Declared(example[i]).value;
      DeclaredIsLive(example[i]);
      if Get(values, declared).Some? {
        UpperIsName(declared);
        LiveAssign(declared, Get(values, declared).value);
      }
    }
  }

  lemma UpperIsName(name: string)
    requires IsUpperName(name)
    ensures IsName(name)
  {}

  // ---------- conservation ----------

  /** Where a name is first declared. */
  lemma FirstDeclaration(example: seq<string>, name: string) returns (i: nat)
    requires name in DeclaredIn(example)
    ensures i < |example| && Declared(example[i]) == Some(name) && name !in DeclaredIn(example[..i])
    ensures forall k :: 0 <= k < i ==> Declared(example[k]) != Some(name)
  {
    hide Declared;
    assert example[..|example|] == example;
    i := 0;
    while Declared(example[i]) != Some(name)
      invariant i < |example| && name !in DeclaredIn(example[..i])
      invariant forall k :: 0 <= k < i ==> Declared(example[k]) != Some(name)
      decreases |example| - i
    {
      DeclaredStep(example, i);
      i := i + 1;
    }
  }

  lemma SplitAt(lines: seq<string>, i: nat)
    requires i < |lines|
    ensures lines == lines[..i] + ([lines[i]] + lines[i + 1..])
  {}

  /** After the first declaration of a name, rendering leaves its live lines as the example has them. */
  lemma BodyLastAfter(example: seq<string>, values: Dict, name: string, i: nat)
    requires i < |example| && Declared(example[i]) == Some(name)
    ensures LastLive(Body(example, values)[i + 1..], name) == LastLive(example[i + 1..], name)
  {
    hide Live, Declared, BodyLine, LineValue, LastLive, Get, DeclaredIn;
    var body := Body(example, values);
    var bodyAfter, after := body[i + 1..], example[i + 1..];
    forall k | 0 <= k < |after| ensures LineValue(bodyAfter[k], name) == LineValue(after[k], name) {
      EarlierDeclares(example, i, i + 1 + k);
      BodyLineValue(example, values, i + 1 + k, name);
    }
    LastLiveAgrees(bodyAfter, after, name);
  }

  lemma BodyLast(example: seq<string>, values: Dict, name: string, i: nat)
    requires i < |example| && Declared(example[i]) == Some(name)
    requires name !in DeclaredIn(example[..i]) && Get(values, name).Some?
    ensures var later := LastLive(example[i + 1..], name);
      LastLive(Body(example, values), name) == if later.Some? then later else Get(values, name)
  {
    hide Live, Declared, BodyLine, LineValue, LastLive, Get, DeclaredIn;
    var body := Body(example, values);
    SplitAt(body, i);
    LastLiveOfBoth(body[..i], [body[i]] + body[i + 1..], name);
    LastLiveOfBoth([body[i]], body[i + 1..], name);
    BodyLastAfter(example, values, name, i);
    BodyLineValue(example, values, i, name);
    OnlyLine(body[i], name);
  }

  /** What the rendered file gives back for a name: the last live line the example has for it after its first
      declaration, or else the value that went in. */
  lemma ReadBack(example: seq<string>, values: Dict, name: string, i: nat)
    requires Legible(values) && i < |example|
    requires Declared(example[i]) == Some(name) && name !in DeclaredIn(example[..i]) && Get(values, name).Some?
    ensures var later := LastLive(example[i + 1..], name);
      Get(ReadAll(RenderLines(example, values)), name) == if later.Some? then later else Get(values, name)
  {
    hide Live, Declared, Without, Body, Block, ReadAll, LastLive, Get, IsName;
    GetReadAll(RenderLines(example, values), name);
    WithoutDistinct(values, DeclaredIn(example));
    assert name in DeclaredIn(example);
    GetWithout(values, DeclaredIn(example), name);
    var rest := Without(values, DeclaredIn(example));
    LastLiveBlock(rest, name);
    LastLiveOfBoth(Body(example, values), Block(rest), name);
    BodyLast(example, values, name, i);
  }

  lemma OnlyLine(line: string, name: string)
    ensures LastLive([line], name) == LineValue(line, name)
  {
    assert [line][..0] == [];
    assert LastLive([], name) == None;
  }

  /** A name the example does not declare always comes back as it went in. */
  lemma ReadBackUndeclared(example: seq<string>, values: Dict, name: string)
    requires Legible(values) && Get(values, name).Some? && name !in DeclaredIn(example)
    ensures Get(ReadAll(RenderLines(example, values)), name) == Get(values, name)
  {
    hide Live, Declared, Without, IsName, Block, ReadAll, DeclaredIn;
    var rest := Without(values, DeclaredIn(example));
    GetReadAll(RenderLines(example, values), name);
    WithoutDistinct(values, DeclaredIn(example));
    GetWithout(values, DeclaredIn(example), name);
    LastLiveBlock(rest, name);
    LastLiveOfBoth(Body(example, values), Block(rest), name);
  }

  /** No example line is live under a name that an earlier line declares. */
  predicate NoneLiveLater(example: seq<string>) {
    forall i, j :: 0 <= i < j < |example| && Live(example[j]).Some? ==>
      Declared(example[i]) != Some(Live(example[j]).value.name)
  }

  ghost predicate Conserves(example: seq<string>, values: Dict) {
    forall name :: Get(values, name).Some? ==>
      Get(ReadAll(RenderLines(example, values)), name) == Get(values, name)
  }

  lemma NoneLiveLaterConserves(example: seq<string>, values: Dict)
    requires NoneLiveLater(example) && Legible(values)
    ensures Conserves(example, values)
  {
    hide Live, Declared, RenderLines, ReadAll, Legible;
    forall name | Get(values, name).Some?
      ensures Get(ReadAll(RenderLines(example, values)), name) == Get(values, name)
    {
      if name in DeclaredIn(example) {
        var i := FirstDeclaration(example, name);
        ReadBack(example, values, name, i);
        var after := example[i + 1..];
        forall k | 0 <= k < |after| ensures LineValue(after[k], name).None? {
          assert after[k] == example[i + 1 + k];
        }
        LastLiveNowhere(after, name);
      } else {
        ReadBackUndeclared(example, values, name);
      }
    }
  }

  lemma LiveLaterLoses(example: seq<string>, i: nat, j: nat) returns (values: Dict)
    requires forall k :: 0 <= k < |example| ==> OneLine(example[k])
    requires i < j < |example| && Live(example[j]).Some? && Declared(example[i]) == Some(Live(example[j]).value.name)
    ensures Legible(values) && !Conserves(example, values)
  {
    hide Declared, RenderLines, ReadAll;
    var name := Live(example[j]).value.name;
    assert name in DeclaredIn(example) by { assert Declared(example[i]) == Some(name); }
    var first := FirstDeclaration(example, name);
    var later := LastLiveLater(example, first, j, name);
    values := [Assignment(name, later + "x")];
    assert (later + "x")[..|later|] == later;
    ReadBack(example, values, name, first);
    assert Get(values, name) == Some(later + "x");
  }

  lemma LastLiveLater(example: seq<string>, first: nat, j: nat, name: string) returns (later: string)
    requires forall k :: 0 <= k < |example| ==> OneLine(example[k])
    requires first < j < |example| && LineValue(example[j], name).Some?
    ensures LastLive(example[first + 1..], name) == Some(later) && OneLine(later)
  {
    hide Live;
    var after := example[first + 1..];
    assert after[j - first - 1] == example[j];
    if LastLive(after, name).None? { LastLiveFinds(after, name, j - first - 1); }
    later := LastLive(after, name).value;
    var k := LastLiveAt(after, name);
    LiveIsOneLine(after[k]);
  }

  lemma {:induction false} LastLiveFinds(lines: seq<string>, name: string, k: nat)
    requires k < |lines| && LineValue(lines[k], name).Some?
    ensures LastLive(lines, name).Some?
  {
    hide Live;
    if k < |lines| - 1 { LastLiveFinds(lines[..|lines| - 1], name, k); }
  }

  lemma LiveIsOneLine(line: string)
    requires OneLine(line) && Live(line).Some?
    ensures OneLine(Live(line).value.value)
  {
    hide IsNameChar;
  }

  /** Every value survives a rendering, whatever the values are, exactly when the example has no line live under a name
      it has declared before. */
  lemma ConservesIff(example: seq<string>)
    requires forall k :: 0 <= k < |example| ==> OneLine(example[k])
    ensures (forall values :: Legible(values) ==> Conserves(example, values)) <==> NoneLiveLater(example)
  {
    hide Live, Declared, Conserves, Legible, OneLine;
    if NoneLiveLater(example) {
      forall values | Legible(values) ensures Conserves(example, values) { NoneLiveLaterConserves(example, values); }
    } else {
      var i, j :| 0 <= i < j < |example| && Live(example[j]).Some?
               && Declared(example[i]) == Some(Live(example[j]).value.name);
      var values := LiveLaterLoses(example, i, j);
    }
  }

  // ---------- doing it again ----------

  /** Every line the example keeps live is the plain, unindented assignment and the first declaration of its name. */
  predicate Tidy(example: seq<string>) {
    forall j :: 0 <= j < |example| && Live(example[j]).Some? ==> TidyLine(example, j)
  }

  predicate TidyLine(example: seq<string>, j: nat)
    requires j < |example| && Live(example[j]).Some?
  {
    var a := Live(example[j]).value;
    && example[j] == Assign(a.name, a.value)
    && Declared(example[j]) == Some(a.name)
    && a.name !in DeclaredIn(example[..j])
  }

  function Rerendered(example: seq<string>, values: Dict): seq<string> {
    RenderLines(example, ReadAll(RenderLines(example, values)))
  }

  lemma {:induction false} WithoutPut(d: Dict, name: string, value: string, names: set<string>)
    ensures Without(Put(d, name, value), names)
         == if name in names then Without(d, names) else Put(Without(d, names), name, value)
  {
    if d != [] && d[0].name != name { WithoutPut(d[1..], name, value, names); }
  }

  lemma {:induction false} PutNew(d: Dict, name: string, value: string)
    requires Get(d, name).None?
    ensures Put(d, name, value) == d + [Assignment(name, value)]
  {
    if d != [] {
      PutNew(d[1..], name, value);
      assert d + [Assignment(name, value)] == [d[0]] + (d[1..] + [Assignment(name, value)]);
    }
  }

  lemma {:induction false} AllNamesGone(lines: seq<string>, names: set<string>)
    requires forall k :: 0 <= k < |lines| && Live(lines[k]).Some? ==> Live(lines[k]).value.name in names
    ensures Without(ReadAll(lines), names) == []
  {
    hide Live;
    if lines != [] {
      var front, a := lines[..|lines| - 1], Live(lines[|lines| - 1]);
      AllNamesGone(front, names);
      if a.Some? { WithoutPut(ReadAll(front), a.value.name, a.value.value, names); }
    }
  }

  lemma ReadOneMore(lines: seq<string>, a: Assignment)
    requires IsName(a.name)
    ensures ReadAll(lines + [Assign(a.name, a.value)]) == Put(ReadAll(lines), a.name, a.value)
  {
    hide Live, IsName;
    assert (lines + [Assign(a.name, a.value)])[..|lines|] == lines;
    LiveAssign(a.name, a.value);
  }

  lemma NewToPrefix(rest: Dict, k: nat)
    requires Distinct(rest) && k < |rest|
    ensures Get(rest[..k], rest[k].name).None?
  {
    GetNames(rest[..k], rest[k].name);
  }

  /** A block of distinct assignments to other names reads back in its own order. */
  lemma {:induction false} BlockReads(before: seq<string>, rest: Dict, names: set<string>, k: nat)
    requires Without(ReadAll(before), names) == [] && k <= |rest|
    requires Distinct(rest) && forall i :: 0 <= i < |rest| ==> IsName(rest[i].name) && rest[i].name !in names
    ensures Without(ReadAll(before + Assigns(rest)[..k]), names) == rest[..k]
  {
    hide IsName, Get, Put, Assign, ReadAll, Without, Distinct;
    if k == 0 {
      assert before + Assigns(rest)[..0] == before;
    } else {
      BlockReads(before, rest, names, k - 1);
      var shorter, a := before + Assigns(rest)[..k - 1], rest[k - 1];
      assert before + Assigns(rest)[..k] == shorter + [Assign(a.name, a.value)];
      ReadOneMore(shorter, a);
      WithoutPut(ReadAll(shorter), a.name, a.value, names);
      NewToPrefix(rest, k - 1);
      PutNew(rest[..k - 1], a.name, a.value);
    }
  }

  lemma TidyBodyNames(example: seq<string>, values: Dict, i: nat)
    requires Tidy(example) && i < |example| && Live(BodyLine(example, values, i)).Some?
    ensures Live(BodyLine(example, values, i)).value.name in DeclaredIn(example)
  {
    hide Live, Declared;
    var name := Live(BodyLine(example, values, i)).value.name;
    BodyLineValue(example, values, i, name);
    assert Declared(example[i]) == Some(name);
  }

  lemma BannerNamesNothing(body: seq<string>, names: set<string>)
    requires Without(ReadAll(body), names) == []
    requires forall k :: 0 <= k < |body| && Live(body[k]).Some? ==> Live(body[k]).value.name in names
    ensures Without(ReadAll(body + Banner()), names) == []
  {
    hide Live, Banner, Skipped;
    var both := body + Banner();
    BannerIsSkipped();
    forall k | 0 <= k < |both| && Live(both[k]).Some? ensures Live(both[k]).value.name in names {
      if k >= |body| { SkippedIsNotLive(Banner()[k - |body|]); }
    }
    AllNamesGone(both, names);
  }

  /** The names the example does not declare read back in the order they were written. */
  lemma RestReads(example: seq<string>, values: Dict)
    requires Tidy(example) && Legible(values)
    ensures var names := DeclaredIn(example);
      Without(ReadAll(RenderLines(example, values)), names) == Without(values, names)
  {
    hide Live, Declared, DeclaredIn, Without, Tidy, ReadAll, BodyLine, IsName, Banner;
    var names, body := DeclaredIn(example), Body(example, values);
    var rest := Without(values, names);
    forall k | 0 <= k < |body| && Live(body[k]).Some? ensures Live(body[k]).value.name in names {
      TidyBodyNames(example, values, k);
    }
    AllNamesGone(body, names);
    WithoutDistinct(values, names);
    if rest == [] {
      assert RenderLines(example, values) == body;
    } else {
      BannerNamesNothing(body, names);
      BlockReads(body + Banner(), rest, names, |rest|);
      assert Assigns(rest)[..|rest|] == Assigns(rest) && rest[..|rest|] == rest;
      assert RenderLines(example, values) == body + Banner() + Assigns(rest);
    }
  }

  lemma TidyNoneLater(example: seq<string>)
    requires Tidy(example)
    ensures NoneLiveLater(example)
  {
    hide Live, Declared;
    forall i, j | 0 <= i < j < |example| && Live(example[j]).Some?
      ensures Declared(example[i]) != Some(Live(example[j]).value.name)
    {
      assert example[..j][i] == example[i];
    }
  }

  /** A name with no value of its own reads back as the example's live line has it. */
  lemma ReadBackDefault(example: seq<string>, values: Dict, name: string)
    requires Legible(values) && Get(values, name).None?
    ensures Get(ReadAll(RenderLines(example, values)), name) == LastLive(example, name)
  {
    hide Live, Declared, DeclaredIn, Without, BodyLine, LineValue, IsName, Block, ReadAll;
    GetReadAll(RenderLines(example, values), name);
    WithoutDistinct(values, DeclaredIn(example));
    GetWithout(values, DeclaredIn(example), name);
    LastLiveBlock(Without(values, DeclaredIn(example)), name);
    LastLiveOfBoth(Body(example, values), Block(Without(values, DeclaredIn(example))), name);
    var body := Body(example, values);
    forall k | 0 <= k < |body| ensures LineValue(body[k], name) == LineValue(example[k], name) {
      BodyLineValue(example, values, k, name);
    }
    LastLiveAgrees(body, example, name);
  }

  lemma TidyLineAgain(example: seq<string>, values: Dict, i: nat)
    requires Tidy(example) && Legible(values) && i < |example|
    ensures BodyLine(example, ReadAll(RenderLines(example, values)), i) == BodyLine(example, values, i)
  {
    hide Live, RenderLines, ReadAll, Get, Legible, DeclaredIn, Declared;
    var again := ReadAll(RenderLines(example, values));
    if Declared(example[i]).Some? && Declared(example[i]).value !in DeclaredIn(example[..i]) {
      var name := Declared(example[i]).value;
      if Get(values, name).Some? {
        TidyNoneLater(example);
        NoneLiveLaterConserves(example, values);
        assert Get(again, name) == Get(values, name);
      } else {
        ReadBackDefault(example, values, name);
        if LastLive(example, name).Some? {
          var j := LastLiveAt(example, name);
          assert TidyLine(example, j);
          FirstIsUnique(example, name, i, j);
        }
      }
    }
  }

  lemma EarlierDeclares(example: seq<string>, i: nat, j: nat)
    requires i < j < |example| && Declared(example[i]).Some?
    ensures Declared(example[i]).value in DeclaredIn(example[..j])
  {
    hide Declared;
    assert example[..j][i] == example[i];
  }

  lemma FirstIsUnique(example: seq<string>, name: string, i: nat, j: nat)
    requires i < |example| && Declared(example[i]) == Some(name) && name !in DeclaredIn(example[..i])
    requires j < |example| && Declared(example[j]) == Some(name) && name !in DeclaredIn(example[..j])
    ensures i == j
  {
    hide Declared, DeclaredIn;
    if i < j { EarlierDeclares(example, i, j); }
    if j < i { EarlierDeclares(example, j, i); }
  }

  lemma TidyIsStable(example: seq<string>, values: Dict)
    requires Tidy(example) && Legible(values)
    ensures Rerendered(example, values) == RenderLines(example, values)
  {
    hide Tidy, Legible, Without, ReadAll, BodyLine, DeclaredIn, Block;
    var again := ReadAll(RenderLines(example, values));
    RestReads(example, values);
    forall i | 0 <= i < |example| ensures Body(example, again)[i] == Body(example, values)[i] {
      TidyLineAgain(example, values, i);
    }
    assert Body(example, again) == Body(example, values);
  }

  lemma UntidyChanges(example: seq<string>, j: nat) returns (values: Dict)
    requires forall k :: 0 <= k < |example| ==> OneLine(example[k])
    requires j < |example| && Live(example[j]).Some? && !TidyLine(example, j)
    ensures Legible(values) && Rerendered(example, values) != RenderLines(example, values)
  {
    hide Live, Declared, DeclaredIn, OneLine, RenderLines, ReadAll;
    var a := Live(example[j]).value;
    if a.name in DeclaredIn(example[..j]) {
      values := RepeatChanges(example, j);
    } else {
      values := [];
      DefaultsChange(example, j);
    }
  }

  /** A live line under a name declared before: give that name another value, and it is lost the second time. */
  lemma RepeatChanges(example: seq<string>, j: nat) returns (values: Dict)
    requires forall k :: 0 <= k < |example| ==> OneLine(example[k])
    requires j < |example| && Live(example[j]).Some? && Live(example[j]).value.name in DeclaredIn(example[..j])
    ensures Legible(values) && Rerendered(example, values) != RenderLines(example, values)
  {
    hide Declared, ReadAll, Without, Block, Live;
    var name := Live(example[j]).value.name;
    var first := FirstDeclaration(example[..j], name);
    assert example[..j][first] == example[first] && example[..j][..first] == example[..first];
    var later := LastLiveLater(example, first, j, name);
    values := [Assignment(name, later + "x")];
    assert (later + "x")[..|later|] == later;
    LiveNames(example[j]);
    assert Legible(values);
    ReadBack(example, values, name, first);
    assert Get(values, name) == Some(later + "x");
    assert RenderLines(example, values)[first] == Assign(name, later + "x");
    assert Rerendered(example, values)[first] == Assign(name, later);
  }

  lemma LiveNames(line: string)
    requires Live(line).Some?
    ensures IsName(Live(line).value.name)
  {}

  /** An indented or lower-case default changes the file rendered from no values at all. */
  lemma DefaultsChange(example: seq<string>, j: nat)
    requires j < |example| && Live(example[j]).Some? && !TidyLine(example, j)
    requires Live(example[j]).value.name !in DeclaredIn(example[..j])
    ensures Rerendered(example, []) != RenderLines(example, [])
  {
    hide Live, Declared, ReadAll, Without, Block;
    var a, again := Live(example[j]).value, ReadAll(RenderLines(example, []));
    assert Body(example, []) == example;
    assert RenderLines(example, []) == example by { NoValues(example); }
    ReadBackDefault(example, [], a.name);
    LastLiveFinds(example, a.name, j);
    if Declared(example[j]) == Some(a.name) {
      LiveIsAssign(example[j]);
      UpperIsName(a.name);
      LiveAssign(a.name, Get(again, a.name).value);
      assert Rerendered(example, [])[j] == Assign(a.name, Get(again, a.name).value);
    } else {
      NotDeclaredAnywhere(example, j);
      GetWithout(again, DeclaredIn(example), a.name);
      BlockIsLong(Without(again, DeclaredIn(example)), a.name);
    }
  }

  lemma NoValues(example: seq<string>)
    ensures Block(Without([], DeclaredIn(example))) == []
  {}

  lemma BlockIsLong(rest: Dict, name: string)
    requires Get(rest, name).Some?
    ensures Block(rest) != []
  {
    hide Rule, NotDeclared, Kept, Comment;
  }

  lemma NotDeclaredAnywhere(example: seq<string>, j: nat)
    requires j < |example| && Live(example[j]).Some? && Declared(example[j]) != Some(Live(example[j]).value.name)
    ensures Live(example[j]).value.name !in DeclaredIn(example)
  {
    hide Live, IsUpperName;
    var name := Live(example[j]).value.name;
    if name in DeclaredIn(example) {
      LiveUpperDeclares(example[j]);
    }
  }

  /** A second provisioning changes nothing, whatever the values are, exactly when the example is tidy. */
  lemma StableIffTidy(example: seq<string>)
    requires forall k :: 0 <= k < |example| ==> OneLine(example[k])
    ensures (forall values :: Legible(values) ==> Rerendered(example, values) == RenderLines(example, values))
       <==> Tidy(example)
  {
    hide Live, TidyLine, Rerendered, RenderLines, Legible, OneLine;
    if Tidy(example) {
      forall values | Legible(values) ensures Rerendered(example, values) == RenderLines(example, values) {
        TidyIsStable(example, values);
      }
    } else {
      var j :| 0 <= j < |example| && Live(example[j]).Some? && !TidyLine(example, j);
      var values := UntidyChanges(example, j);
    }
  }

  // ---------- provisioning ----------

  /** A rendering is readable exactly when its example is. */
  lemma RenderedIsReadable(example: seq<string>, values: Dict)
    requires Legible(values)
    ensures AllReadable(RenderLines(example, values)) <==> AllReadable(example)
  {
    hide Readable, Declared, DeclaredIn, IsName, Banner, Skipped, Live, OneLine;
    var body, rest := Body(example, values), Without(values, DeclaredIn(example));
    forall i | 0 <= i < |example| ensures Readable(body[i]) <==> Readable(example[i]) {
      if body[i] != example[i] {
        DeclaredIsLive(example[i]);
        UpperIsName(Declared(example[i]).value);
        AssignIsReadable(Declared(example[i]).value, Get(values, Declared(example[i]).value).value);
      }
    }
    WithoutDistinct(values, DeclaredIn(example));
    BlockIsReadable(rest);
    var lines := RenderLines(example, values);
    assert forall i :: 0 <= i < |body| ==> lines[i] == body[i];
    assert forall i :: 0 <= i < |Block(rest)| ==> lines[|body| + i] == Block(rest)[i];
  }

  lemma AssignIsReadable(name: string, value: string)
    requires IsName(name)
    ensures Readable(Assign(name, value))
  {
    LiveAssign(name, value);
  }

  lemma BlockIsReadable(rest: Dict)
    requires forall i :: 0 <= i < |rest| ==> IsName(rest[i].name)
    ensures AllReadable(Block(rest))
  {
    hide Skipped, Live, IsName, Banner, Assign, OneLine;
    BannerIsSkipped();
    forall i | 0 <= i < |rest| ensures Readable(Assigns(rest)[i]) { AssignIsReadable(rest[i].name, rest[i].value); }
  }

  lemma {:induction false} ReadAllIsLegible(lines: seq<string>)
    requires forall k :: 0 <= k < |lines| ==> OneLine(lines[k])
    ensures Legible(ReadAll(lines))
  {
    hide Live, OneLine, IsName;
    if lines != [] {
      var line := lines[|lines| - 1];
      ReadAllIsLegible(lines[..|lines| - 1]);
      if Live(line).Some? {
        LiveIsOneLine(line);
        LiveNames(line);
        PutIsLegible(ReadAll(lines[..|lines| - 1]), Live(line).value.name, Live(line).value.value);
      }
    }
  }

  lemma {:induction false} PutIsLegible(d: Dict, name: string, value: string)
    requires Legible(d) && IsName(name) && OneLine(value)
    ensures Legible(Put(d, name, value))
    ensures forall a :: a in Put(d, name, value) ==> a.name == name || exists b :: b in d && b.name == a.name
  {
    hide IsName, OneLine;
    if d != [] && d[0].name != name {
      PutIsLegible(d[1..], name, value);
      assert Put(d, name, value)[1..] == Put(d[1..], name, value);
    }
  }

  lemma RenderedIsLines(example: seq<string>, values: Dict)
    requires Legible(values) && forall k :: 0 <= k < |example| ==> OneLine(example[k])
    ensures forall k :: 0 <= k < |RenderLines(example, values)| ==> OneLine(RenderLines(example, values)[k])
  {
    hide Declared, DeclaredIn, Banner, Skipped, OneLine, Get, Without, IsName;
    var body, rest := Body(example, values), Without(values, DeclaredIn(example));
    forall i | 0 <= i < |example| ensures OneLine(body[i]) {
      if body[i] != example[i] {
        var name := Declared(example[i]).value;
        UpperIsName(name);
        GetNames(values, name);
        AssignIsOneLine(name, Get(values, name).value);
      }
    }
    WithoutDistinct(values, DeclaredIn(example));
    BannerIsSkipped();
    forall i | 0 <= i < |rest| ensures OneLine(Assigns(rest)[i]) { AssignIsOneLine(rest[i].name, rest[i].value); }
  }

  lemma AssignIsOneLine(name: string, value: string)
    requires IsName(name) && OneLine(value)
    ensures OneLine(Assign(name, value))
  {}

  /** The values a run works with: the target's own if there is one, or else those of the seed's that the example
      declares. */
  function ValuesFor(example: seq<string>, target: Option<string>, seed: Option<string>): Dict {
    if target.Some? then ReadAll(Splitlines(target.value))
    else if seed.None? then []
    else DeclaredOnly(ReadAll(Splitlines(seed.value)), DeclaredIn(example))
  }

  function DeclaredOnly(d: Dict, names: set<string>): Dict {
    if d == [] then [] else (if d[0].name in names then [d[0]] else []) + DeclaredOnly(d[1..], names)
  }

  lemma NothingDeclaredOnly(names: set<string>)
    ensures DeclaredOnly([], names) == []
  {}

  lemma {:induction false} DeclaredOnlyIsDistinct(d: Dict, names: set<string>)
    requires Distinct(d)
    ensures Distinct(DeclaredOnly(d, names)) && forall a :: a in DeclaredOnly(d, names) ==> a in d
  {
    if d != [] {
      DeclaredOnlyIsDistinct(d[1..], names);
      assert forall a :: a in d[1..] ==> a.name != d[0].name;
    }
  }

  /** A name without a value reads as the example itself has it. */
  lemma ReadBackAbsent(example: seq<string>, values: Dict, name: string)
    requires Legible(values) && Get(values, name).None?
    ensures Get(ReadAll(RenderLines(example, values)), name) == LastLive(example, name)
  {
    hide Live, Declared, Without, IsName, Block, ReadAll, DeclaredIn, LastLive, BodyLine, LineValue, Get;
    var rest, body := Without(values, DeclaredIn(example)), Body(example, values);
    GetReadAll(RenderLines(example, values), name);
    WithoutDistinct(values, DeclaredIn(example));
    GetWithout(values, DeclaredIn(example), name);
    LastLiveBlock(rest, name);
    LastLiveOfBoth(body, Block(rest), name);
    forall k | 0 <= k < |example| ensures LineValue(body[k], name) == LineValue(example[k], name) {
      BodyLineValue(example, values, k, name);
    }
    LastLiveAgrees(body, example, name);
  }

  lemma {:induction false} GetDeclaredOnly(d: Dict, names: set<string>, name: string)
    ensures Get(DeclaredOnly(d, names), name) == if name in names then Get(d, name) else None
  {
    if d != [] {
      var rest := DeclaredOnly(d[1..], names);
      GetDeclaredOnly(d[1..], names, name);
      assert ([d[0]] + rest)[1..] == rest && [] + rest == rest;
    }
  }

  lemma Taken(example: seq<string>, seed: string, name: string)
    ensures var taken := ValuesFor(example, None, Some(seed));
      Legible(taken)
      && Get(taken, name) == if name in DeclaredIn(example) then Get(ReadAll(Splitlines(seed)), name) else None
  {
    hide DeclaredIn, ReadAll, Splitlines, IsName, OneLine;
    var values := ReadAll(Splitlines(seed));
    ReadAllIsLegible(Splitlines(seed));
    var taken := DeclaredOnly(values, DeclaredIn(example));
    DeclaredOnlyIsDistinct(values, DeclaredIn(example));
    forall k | 0 <= k < |taken| ensures IsName(taken[k].name) && OneLine(taken[k].value) {
      assert taken[k] in values;
    }
    GetDeclaredOnly(values, DeclaredIn(example), name);
  }

  /** A target that did not exist takes the seed's value for each name the example declares, unless the example has a
      live line for it after its first declaration, which is line i; every other name reads as the example has it,
      whatever the seed says. */
  lemma FreshTargetTakesTheSeed(example: seq<string>, seed: string, name: string) returns (i: nat)
    ensures var seeded := Get(ReadAll(Splitlines(seed)), name);
      var written := Get(ReadAll(RenderLines(example, ValuesFor(example, None, Some(seed)))), name);
      if name in DeclaredIn(example) && seeded.Some? then
        && i < |example| && Declared(example[i]) == Some(name) && name !in DeclaredIn(example[..i])
        && written == (var later := LastLive(example[i + 1..], name); if later.Some? then later else seeded)
      else written == LastLive(example, name)
  {
    hide Live, Declared, DeclaredIn, ReadAll, RenderLines, Splitlines, LastLive, ValuesFor, Get, Legible;
    i := 0;
    Taken(example, seed, name);
    if name in DeclaredIn(example) && Get(ReadAll(Splitlines(seed)), name).Some? {
      i := FirstDeclaration(example, name);
      ReadBack(example, ValuesFor(example, None, Some(seed)), name, i);
    } else {
      ReadBackAbsent(example, ValuesFor(example, None, Some(seed)), name);
    }
  }

  /** Without a seed it is the example on its defaults. */
  lemma FreshTargetIsTheExample(example: seq<string>, name: string)
    ensures Get(ReadAll(RenderLines(example, ValuesFor(example, None, None))), name) == LastLive(example, name)
  {
    ReadBackAbsent(example, [], name);
  }

  // ---------- the same of whole files ----------

  function TextOf(example: seq<string>, values: Dict): string { Joined(RenderLines(example, values)) }

  /** What a second run makes of the file a first run wrote. */
  function SecondText(example: seq<string>, values: Dict): string {
    TextOf(example, ReadAll(Splitlines(TextOf(example, values))))
  }

  lemma SecondTextIsRerendered(example: seq<string>, values: Dict)
    requires Legible(values) && forall k :: 0 <= k < |example| ==> OneLine(example[k])
    ensures SecondText(example, values) == Joined(Rerendered(example, values))
    ensures AllReadable(Splitlines(TextOf(example, values))) <==> AllReadable(example)
  {
    hide Splitlines, Joined, RenderLines, Legible, OneLine, Readable;
    var lines := RenderLines(example, values);
    RenderedIsLines(example, values);
    SplitJoined(lines);
    RenderedIsReadable(example, values);
    BlankReadsAsNothing();
  }

  lemma BlankReadsAsNothing()
    ensures ReadAll([""]) == ReadAll([]) && Readable("")
  {
    assert [""][..0] == [];
  }

  lemma JoinedIsInjective(a: seq<string>, b: seq<string>)
    requires forall k :: 0 <= k < |a| ==> OneLine(a[k])
    requires forall k :: 0 <= k < |b| ==> OneLine(b[k])
    requires a != [] && b != [] && Joined(a) == Joined(b)
    ensures a == b
  {
    hide OneLine, Joined, Splitlines;
    SplitJoined(a);
    SplitJoined(b);
  }

  /** A second run finds every file a first run wrote readable if every line of the example is, and leaves all of them
      byte for byte alone exactly when the example is tidy. */
  lemma SecondRunIsNoOpIff(example: seq<string>)
    requires forall k :: 0 <= k < |example| ==> OneLine(example[k])
    ensures (forall values :: Legible(values) ==> SecondText(example, values) == TextOf(example, values))
       <==> Tidy(example)
    ensures forall values :: Legible(values) ==>
              (AllReadable(Splitlines(TextOf(example, values))) <==> AllReadable(example))
  {
    hide OneLine, Legible, TidyLine, Live, Rerendered, RenderLines, SecondText, Joined, Readable, Splitlines;
    hide AllReadable;
    forall values | Legible(values)
      ensures SecondText(example, values) == Joined(Rerendered(example, values))
      ensures AllReadable(Splitlines(TextOf(example, values))) <==> AllReadable(example)
    {
      SecondTextIsRerendered(example, values);
    }
    if Tidy(example) {
      forall values | Legible(values) ensures SecondText(example, values) == TextOf(example, values) {
        TidyIsStable(example, values);
      }
    } else {
      var j :| 0 <= j < |example| && Live(example[j]).Some? && !TidyLine(example, j);
      var values := UntidyChanges(example, j);
      DifferentText(example, values);
    }
  }

  lemma DifferentText(example: seq<string>, values: Dict)
    requires Legible(values) && example != [] && forall k :: 0 <= k < |example| ==> OneLine(example[k])
    requires Rerendered(example, values) != RenderLines(example, values)
    ensures Joined(Rerendered(example, values)) != Joined(RenderLines(example, values))
  {
    hide OneLine, Legible, Joined, Block, ReadAll;
    var again := ReadAll(RenderLines(example, values));
    RenderedIsLines(example, values);
    ReadAllIsLegible(RenderLines(example, values));
    RenderedIsLines(example, again);
    if Joined(Rerendered(example, values)) == Joined(RenderLines(example, values)) {
      JoinedIsInjective(Rerendered(example, values), RenderLines(example, values));
    }
  }

  predicate Readables(text: Option<string>) { text.Some? ==> AllReadable(Splitlines(text.value)) }

  class Worktree {
    var target: Option<string>
    var writes: nat

    constructor (target: Option<string>)
      ensures this.target == target && writes == 0
    {
      this.target, writes := target, 0;
    }

    /** Exit code 0 with the target rendered, or 1 with nothing written; a target that is already right is left alone.
        */
    method Provision(example: Option<string>, seed: Option<string>) returns (code: nat)
      modifies this
      ensures code == if example.Some? && Readables(if old(target).Some? then old(target) else seed) then 0 else 1
      ensures code == 1 ==> target == old(target)
      ensures code == 0 ==>
                var lines := Splitlines(example.value);
                target == Some(Joined(RenderLines(lines, ValuesFor(lines, old(target), seed))))
      ensures writes == old(writes) + if target == old(target) then 0 else 1
    {
      hide Splitlines, AllReadable, RenderLines, Joined, DeclaredIn, ReadAll, DeclaredOnly;
      if example.None? {
        return 1;
      }
      var lines := Splitlines(example.value);
      var source := if target.Some? then target else seed;
      var values: Dict := [];
      if source.Some? {
        var read := ReadValues(source.value);
        if read.Err? {
          return 1;
        }
        values := read.value;
        ReadAllIsLegible(Splitlines(source.value));
      }
      if target.None? {
        DeclaredOnlyIsDistinct(values, DeclaredIn(lines));
        values := DeclaredOnly(values, DeclaredIn(lines));
        NothingDeclaredOnly(DeclaredIn(lines));
      }
      var rendering := Render(example.value, values);
      if target == Some(rendering.text) {
        return 0;
      }
      target, writes := Some(rendering.text), writes + 1;
      return 0;
    }
  }
}
