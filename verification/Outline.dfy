/** The command outline of `dev/generate_cli_reference.py`: a command tree is flattened to the paths of its leaves,
    and the outline is rebuilt from what consecutive paths share. */
module Outline {

  /** A command and its subcommands, in order; one without subcommands is a leaf. */
  datatype Command = Command(name: string, children: seq<Command>)

  type Path = seq<string>

  /** One line of the outline: a group, or a leaf linked by its whole path. */
  datatype Line = Group(depth: nat, name: string) | Leaf(depth: nat, path: Path)

  // ---------- flattening ----------

  function PathsOf(commands: seq<Command>, prefix: Path): seq<Path> {
    if commands == [] then [] else
    var c := commands[0];
    var path := prefix + [c.name];
    (if c.children == [] then [path] else PathsOf(c.children, path)) + PathsOf(commands[1..], prefix)
  }

  function PathsOfOne(c: Command, prefix: Path): seq<Path> {
    var path := prefix + [c.name];
    if c.children == [] then [path] else PathsOf(c.children, path)
  }

  lemma PathsFrom(commands: seq<Command>, prefix: Path, i: nat)
    requires i < |commands|
    ensures PathsOf(commands[i..], prefix) == PathsOfOne(commands[i], prefix) + PathsOf(commands[i + 1..], prefix)
  {
    assert commands[i..][0] == commands[i] && commands[i..][1..] == commands[i + 1..];
  }

  method Paths(commands: seq<Command>, prefix: Path) returns (found: seq<Path>)
    ensures found == PathsOf(commands, prefix)
    decreases commands
  {
    hide PathsOf;
    assert commands[0..] == commands;
    found := [];
    for i := 0 to |commands|
      invariant found + PathsOf(commands[i..], prefix) == PathsOf(commands, prefix)
    {
      var c := commands[i];
      PathsFrom(commands, prefix, i);
      ghost var before := found;
      if c.children != [] {
        var more := Paths(c.children, prefix + [c.name]);
        found := found + more;
      } else {
        found := found + [prefix + [c.name]];
      }
      assert found == before + PathsOfOne(c, prefix);
    }
    assert commands[|commands|..] == [];
    NoPaths(prefix);
  }

  lemma NoPaths(prefix: Path)
    ensures PathsOf([], prefix) == []
  {}

  // ---------- rebuilding ----------

  /** How many leading names two paths have in common. */
  function Shared(a: Path, b: Path): (n: nat)
    ensures n <= |a| && n <= |b| && a[..n] == b[..n]
    ensures n < |a| && n < |b| ==> a[n] != b[n]
  {
    if a == [] || b == [] || a[0] != b[0] then 0 else
    var n := 1 + Shared(a[1..], b[1..]);
    assert a[..n] == [a[0]] + a[1..][..n - 1] && b[..n] == [b[0]] + b[1..][..n - 1];
    n
  }

  /** The lines a path adds from depth k on. */
  function LinesFrom(path: Path, k: nat): seq<Line>
    decreases |path| - k
  {
    if k >= |path| then []
    else [if k == |path| - 1 then Leaf(k, path) else Group(k, path[k])] + LinesFrom(path, k + 1)
  }

  function Rebuilt(previous: Path, paths: seq<Path>): seq<Line>
    decreases |paths|
  {
    if paths == [] then []
    else LinesFrom(paths[0], Shared(previous, paths[0])) + Rebuilt(paths[0], paths[1..])
  }

  method SharedNames(previous: Path, path: Path) returns (shared: nat)
    ensures shared == Shared(previous, path)
  {
    shared := 0;
    while shared < |previous| && shared < |path| && previous[shared] == path[shared]
      invariant shared <= |previous| && shared <= |path| && previous[..shared] == path[..shared]
    {
      shared := shared + 1;
    }
    SharedIs(previous, path, shared);
  }

  method NewLines(path: Path, shared: nat) returns (lines: seq<Line>)
    requires shared <= |path|
    ensures lines == LinesFrom(path, shared)
  {
    lines := [];
    for depth := shared to |path|
      invariant lines + LinesFrom(path, depth) == LinesFrom(path, shared)
    {
      if depth == |path| - 1 {
        lines := lines + [Leaf(depth, path)];
      } else {
        lines := lines + [Group(depth, path[depth])];
      }
    }
  }

  method CommandTree(paths: seq<Path>) returns (lines: seq<Line>)
    ensures lines == Rebuilt([], paths)
  {
    hide LinesFrom, Shared;
    lines := [];
    var previous: Path := [];
    for i := 0 to |paths|
      invariant lines + Rebuilt(previous, paths[i..]) == Rebuilt([], paths)
    {
      var path := paths[i];
      var shared := SharedNames(previous, path);
      var more := NewLines(path, shared);
      assert paths[i..][0] == path && paths[i..][1..] == paths[i + 1..];
      lines := lines + more;
      previous := path;
    }
  }

  lemma {:induction false} SharedIs(a: Path, b: Path, n: nat)
    requires n <= |a| && n <= |b| && a[..n] == b[..n] && (n < |a| && n < |b| ==> a[n] != b[n])
    ensures Shared(a, b) == n
  {
    if n > 0 {
      assert a[0] == a[..n][0] && b[0] == b[..n][0];
      assert a[1..][..n - 1] == a[..n][1..] && b[1..][..n - 1] == b[..n][1..];
      SharedIs(a[1..], b[1..], n - 1);
    }
  }

  // ---------- the outline meant ----------

  /** Every command once, parents before their children and siblings in order, each at its own depth and kind. */
  function Preorder(commands: seq<Command>, prefix: Path): seq<Line> {
    if commands == [] then [] else
    var c := commands[0];
    var path := prefix + [c.name];
    (if c.children == [] then [Leaf(|prefix|, path)] else [Group(|prefix|, c.name)] + Preorder(c.children, path))
    + Preorder(commands[1..], prefix)
  }

  function Count(commands: seq<Command>): nat {
    if commands == [] then 0 else 1 + Count(commands[0].children) + Count(commands[1..])
  }

  lemma {:induction false} PreorderListsEach(commands: seq<Command>, prefix: Path)
    ensures |Preorder(commands, prefix)| == Count(commands)
    decreases commands
  {
    if commands != [] {
      PreorderListsEach(commands[0].children, prefix + [commands[0].name]);
      PreorderListsEach(commands[1..], prefix);
    }
  }

  predicate DistinctSiblings(commands: seq<Command>) {
    && (forall i, j :: 0 <= i < j < |commands| ==> commands[i].name != commands[j].name)
    && (forall i :: 0 <= i < |commands| ==> DistinctSiblings(commands[i].children))
  }

  /** No command has the name of the one before it. */
  predicate NeighboursDiffer(commands: seq<Command>) {
    && (forall i :: 0 < i < |commands| ==> commands[i - 1].name != commands[i].name)
    && (forall i :: 0 <= i < |commands| ==> NeighboursDiffer(commands[i].children))
  }

  lemma {:induction false} DistinctDiffer(commands: seq<Command>)
    requires DistinctSiblings(commands)
    ensures NeighboursDiffer(commands)
    decreases commands
  {
    forall i | 0 <= i < |commands| ensures NeighboursDiffer(commands[i].children) {
      DistinctDiffer(commands[i].children);
    }
  }

  lemma DifferStep(commands: seq<Command>)
    requires commands != []
    ensures NeighboursDiffer(commands) <==>
              && NeighboursDiffer(commands[0].children) && NeighboursDiffer(commands[1..])
              && (|commands| > 1 ==> commands[0].name != commands[1].name)
  {
    var others := commands[1..];
    if NeighboursDiffer(others) && (|commands| > 1 ==> commands[0].name != commands[1].name) {
      forall i | 0 < i < |commands| ensures commands[i - 1].name != commands[i].name {
        if i > 1 { assert others[i - 2] == commands[i - 1] && others[i - 1] == commands[i]; }
      }
      forall i | 0 < i < |commands|
        ensures NeighboursDiffer(commands[i].children)
      {
        assert others[i - 1] == commands[i];
      }
    }
    if NeighboursDiffer(commands) {
      assert forall i :: 0 <= i < |others| ==> others[i] == commands[i + 1];
    }
  }

  /** The groups of a prefix from depth k on. */
  function Groups(prefix: Path, k: nat): seq<Line>
    decreases |prefix| - k
  {
    if k >= |prefix| then [] else [Group(k, prefix[k])] + Groups(prefix, k + 1)
  }

  lemma {:induction false} LinesFromPath(prefix: Path, name: string, k: nat)
    requires k <= |prefix|
    ensures LinesFrom(prefix + [name], k) == Groups(prefix, k) + [Leaf(|prefix|, prefix + [name])]
    ensures Groups(prefix + [name], k) == Groups(prefix, k) + [Group(|prefix|, name)]
    decreases |prefix| - k
  {
    if k < |prefix| { LinesFromPath(prefix, name, k + 1); }
  }

  /** The previous path parts from `prefix` at depth k, or goes on below it under another name than this list's first.
      */
  predicate PartsAt(previous: Path, prefix: Path, k: nat, commands: seq<Command>) {
    && k == Shared(previous, prefix)
    && (k == |prefix| < |previous| && commands != [] ==> commands[0].name != previous[k])
  }

  lemma PartsBelow(previous: Path, prefix: Path, k: nat, commands: seq<Command>)
    requires PartsAt(previous, prefix, k, commands) && commands != []
    ensures Shared(previous, prefix + [commands[0].name]) == k
    ensures PartsAt(previous, prefix + [commands[0].name], k, commands[0].children)
  {
    hide Shared;
    var path := prefix + [commands[0].name];
    assert path[..k] == prefix[..k];
    SharedIs(previous, path, k);
  }

  lemma PartsBeside(prefix: Path, commands: seq<Command>, last: Path)
    requires NeighboursDiffer(commands) && commands != [] && prefix + [commands[0].name] <= last
    ensures PartsAt(last, prefix, |prefix|, commands[1..])
  {
    hide Shared;
    assert last[..|prefix|] == (prefix + [commands[0].name])[..|prefix|] == prefix;
    SharedIs(last, prefix, |prefix|);
    assert last[|prefix|] == (prefix + [commands[0].name])[|prefix|];
  }

  lemma {:induction false} PathsStart(commands: seq<Command>, prefix: Path)
    requires commands != []
    ensures PathsOf(commands, prefix) != []
    ensures forall path :: path in PathsOf(commands, prefix) ==> prefix <= path && |path| > |prefix|
    decreases commands
  {
    var c := commands[0];
    if c.children != [] { PathsStart(c.children, prefix + [c.name]); }
    if commands[1..] != [] { PathsStart(commands[1..], prefix); }
  }

  function Last(paths: seq<Path>): Path
    requires paths != []
  {
    paths[|paths| - 1]
  }

  function PreorderOfOne(c: Command, prefix: Path): seq<Line> {
    var path := prefix + [c.name];
    if c.children == [] then [Leaf(|prefix|, path)] else [Group(|prefix|, c.name)] + Preorder(c.children, path)
  }

  /** Rebuilding the paths of one command, whatever path came before and whatever paths follow. */
  lemma {:induction false} RebuildOne(commands: seq<Command>, prefix: Path, previous: Path, k: nat, rest: seq<Path>)
    requires commands != [] && NeighboursDiffer(commands) && PartsAt(previous, prefix, k, commands)
    ensures var path := prefix + [commands[0].name];
      var paths := PathsOfOne(commands[0], prefix);
      && paths != [] && path <= Last(paths)
      && Rebuilt(previous, paths + rest)
         == Groups(prefix, k) + PreorderOfOne(commands[0], prefix) + Rebuilt(Last(paths), rest)
    decreases commands, 0
  {
    hide Shared, LinesFrom, Groups, PartsAt, Rebuilt, Preorder, PathsOf;
    var c := commands[0];
    var path := prefix + [c.name];
    assert k <= |prefix| by { PartsWithin(previous, prefix, k, commands); }
    PartsBelow(previous, prefix, k, commands);
    LinesFromPath(prefix, c.name, k);
    assert NeighboursDiffer(c.children);
    hide NeighboursDiffer;
    if c.children == [] {
      RebuiltStep(previous, path, rest);
    } else {
      PathsStart(c.children, path);
      RebuildList(c.children, path, previous, k, rest);
      assert Last(PathsOf(c.children, path)) in PathsOf(c.children, path);
      assert Groups(prefix, k) + [Group(|prefix|, c.name)] + Preorder(c.children, path)
          == Groups(prefix, k) + PreorderOfOne(c, prefix);
    }
  }

  lemma RebuiltStep(previous: Path, path: Path, rest: seq<Path>)
    ensures Rebuilt(previous, [path] + rest) == LinesFrom(path, Shared(previous, path)) + Rebuilt(path, rest)
  {
    assert ([path] + rest)[1..] == rest;
  }

  lemma PartsWithin(previous: Path, prefix: Path, k: nat, commands: seq<Command>)
    requires PartsAt(previous, prefix, k, commands)
    ensures k <= |prefix|
  {}

  /** The same of a list of commands. */
  lemma {:induction false} RebuildList(commands: seq<Command>, prefix: Path, previous: Path, k: nat, rest: seq<Path>)
    requires commands != [] && NeighboursDiffer(commands) && PartsAt(previous, prefix, k, commands)
    ensures PathsOf(commands, prefix) != []
    ensures Rebuilt(previous, PathsOf(commands, prefix) + rest)
         == Groups(prefix, k) + Preorder(commands, prefix) + Rebuilt(Last(PathsOf(commands, prefix)), rest)
    decreases commands, 1
  {
    hide Rebuilt, PartsAt, Groups, Shared, LinesFrom, PathsOf, PathsOfOne, Preorder, PreorderOfOne;
    var c, others := commands[0], commands[1..];
    var first, after := PathsOfOne(c, prefix), PathsOf(others, prefix);
    DifferStep(commands);
    RebuildOne(commands, prefix, previous, k, after + rest);
    ListsStart(commands, prefix);
    assert PathsOf(commands, prefix) + rest == first + (after + rest);
    NoPaths(prefix);
    if others == [] {
      assert after + rest == rest && first + after == first;
    } else {
      PartsBeside(prefix, commands, Last(first));
      RebuildList(others, prefix, Last(first), |prefix|, rest);
      assert Groups(prefix, |prefix|) == [] by { NoGroups(prefix); }
      assert Last(PathsOf(commands, prefix)) == Last(after);
    }
  }

  lemma ListsStart(commands: seq<Command>, prefix: Path)
    requires commands != []
    ensures PathsOf(commands, prefix) == PathsOfOne(commands[0], prefix) + PathsOf(commands[1..], prefix)
    ensures Preorder(commands, prefix) == PreorderOfOne(commands[0], prefix) + Preorder(commands[1..], prefix)
    ensures Preorder([], prefix) == []
  {}

  lemma NoGroups(prefix: Path)
    ensures Groups(prefix, |prefix|) == []
  {}

  /** Flattening and rebuilding any command tree with distinct sibling names lists every command in preorder. */
  lemma RebuiltIsPreorder(commands: seq<Command>)
    requires DistinctSiblings(commands)
    ensures Rebuilt([], PathsOf(commands, [])) == Preorder(commands, [])
  {
    DistinctDiffer(commands);
    RebuiltIsPreorderIff(commands);
  }

  lemma DifferingRebuild(commands: seq<Command>)
    requires NeighboursDiffer(commands)
    ensures Rebuilt([], PathsOf(commands, [])) == Preorder(commands, [])
  {
    if commands != [] {
      RebuildList(commands, [], [], 0, []);
      assert PathsOf(commands, []) + [] == PathsOf(commands, []);
    }
  }

  method Reference(commands: seq<Command>) returns (lines: seq<Line>)
    requires DistinctSiblings(commands)
    ensures lines == Preorder(commands, []) && |lines| == Count(commands)
  {
    var paths := Paths(commands, []);
    lines := CommandTree(paths);
    RebuiltIsPreorder(commands);
    PreorderListsEach(commands, []);
  }

  // ---------- what distinct names are for ----------

  /** The previous path goes on below `prefix` under this name. */
  predicate GoesOn(previous: Path, prefix: Path, name: string) {
    Shared(previous, prefix) == |prefix| < |previous| && previous[|prefix|] == name
  }

  lemma SharedBelow(previous: Path, prefix: Path, name: string)
    ensures Shared(previous, prefix + [name])
         == Shared(previous, prefix) + if GoesOn(previous, prefix, name) then 1 else 0
  {
    hide Shared;
    var k, path := Shared(previous, prefix), prefix + [name];
    assert path[..k] == prefix[..k];
    if GoesOn(previous, prefix, name) {
      assert previous[..k + 1] == previous[..k] + [name] == path[..k + 1];
      SharedIs(previous, path, k + 1);
    } else {
      SharedIs(previous, path, k);
    }
  }

  lemma {:induction false} LinesFromCount(path: Path, k: nat)
    requires k <= |path|
    ensures |LinesFrom(path, k)| == |path| - k
    decreases |path| - k
  {
    if k < |path| { LinesFromCount(path, k + 1); }
  }

  lemma AfterFirst(prefix: Path, name: string, last: Path)
    requires prefix + [name] <= last
    ensures Shared(last, prefix) == |prefix| < |last| && last[|prefix|] == name
  {
    hide Shared;
    assert last[..|prefix|] == (prefix + [name])[..|prefix|] == prefix;
    SharedIs(last, prefix, |prefix|);
    assert last[|prefix|] == (prefix + [name])[|prefix|];
  }

  /** Whatever the names, one command adds at most the missing groups and a line for each command in it, and fewer if
      the previous path goes on under its name or two neighbours in it share one. */
  lemma {:induction false} CountOne(commands: seq<Command>, prefix: Path, previous: Path, rest: seq<Path>)
    requires commands != []
    ensures var c := commands[0];
      var paths := PathsOfOne(c, prefix);
      var most := |prefix| - Shared(previous, prefix) + 1 + Count(c.children);
      && paths != [] && prefix + [c.name] <= Last(paths)
      && |Rebuilt(previous, paths + rest)| <= most + |Rebuilt(Last(paths), rest)|
      && (GoesOn(previous, prefix, c.name) || !NeighboursDiffer(c.children) ==>
            |Rebuilt(previous, paths + rest)| < most + |Rebuilt(Last(paths), rest)|)
    decreases commands, 0
  {
    hide Shared, LinesFrom, Rebuilt, PathsOf, Count, NeighboursDiffer, GoesOn;
    var c := commands[0];
    var path := prefix + [c.name];
    SharedBelow(previous, prefix, c.name);
    if c.children == [] {
      assert NeighboursDiffer([]) by { NothingDiffers(); }
      RebuiltStep(previous, path, rest);
      LinesFromCount(path, Shared(previous, path));
    } else {
      PathsStart(c.children, path);
      CountList(c.children, path, previous, rest);
      assert Last(PathsOf(c.children, path)) in PathsOf(c.children, path);
    }
  }

  lemma NothingDiffers()
    ensures NeighboursDiffer([])
  {}

  /** The same of a list of commands. */
  lemma {:induction false} CountList(commands: seq<Command>, prefix: Path, previous: Path, rest: seq<Path>)
    requires commands != []
    ensures PathsOf(commands, prefix) != []
    ensures var most := |prefix| - Shared(previous, prefix) + Count(commands);
      var left := |Rebuilt(Last(PathsOf(commands, prefix)), rest)|;
      && |Rebuilt(previous, PathsOf(commands, prefix) + rest)| <= most + left
      && (GoesOn(previous, prefix, commands[0].name) || !NeighboursDiffer(commands) ==>
            |Rebuilt(previous, PathsOf(commands, prefix) + rest)| < most + left)
    decreases commands, 1
  {
    hide Shared, LinesFrom, Rebuilt, PathsOf, PathsOfOne, NeighboursDiffer, Preorder, PreorderOfOne;
    var c, others := commands[0], commands[1..];
    var first, after := PathsOfOne(c, prefix), PathsOf(others, prefix);
    CountOne(commands, prefix, previous, after + rest);
    ListsStart(commands, prefix);
    DifferStep(commands);
    NoPaths(prefix);
    assert PathsOf(commands, prefix) + rest == first + (after + rest);
    if others == [] {
      assert after + rest == rest && first + after == first;
      assert NeighboursDiffer([]) by { NothingDiffers(); }
    } else {
      AfterFirst(prefix, c.name, Last(first));
      CountList(others, prefix, Last(first), rest);
      assert Last(PathsOf(commands, prefix)) == Last(after);
    }
  }

  /** The outline is rebuilt exactly when no command has the name of the sibling just before it; otherwise lines are
      missing. */
  lemma RebuiltIsPreorderIff(commands: seq<Command>)
    ensures Rebuilt([], PathsOf(commands, [])) == Preorder(commands, []) <==> NeighboursDiffer(commands)
    ensures !NeighboursDiffer(commands) ==> |Rebuilt([], PathsOf(commands, []))| < Count(commands)
  {
    hide NeighboursDiffer, Rebuilt, PathsOf, Preorder, Count;
    PreorderListsEach(commands, []);
    if NeighboursDiffer(commands) {
      DifferingRebuild(commands);
    } else {
      assert NeighboursDiffer([]) by { NothingDiffers(); }
      CountList(commands, [], [], []);
      assert PathsOf(commands, []) + [] == PathsOf(commands, []);
      NothingRebuilt(Last(PathsOf(commands, [])));
    }
  }

  lemma NothingRebuilt(previous: Path)
    ensures Rebuilt(previous, []) == []
  {}

  /** Two neighbours of one name, which a dictionary of commands cannot hold, lose a group. */
  lemma RepeatedNameLosesAGroup()
    ensures var a, b := Command("a", [Command("x", [])]), Command("a", [Command("y", [])]);
      |Rebuilt([], PathsOf([a, b], []))| == 3 && Count([a, b]) == 4
  {
    var x, y := Command("x", []), Command("y", []);
    var a, b := Command("a", [x]), Command("a", [y]);
    var ax, ay: Path := ["a", "x"], ["a", "y"];
    assert [] + ["a"] == ["a"] && ["a"] + ["x"] == ax && ["a"] + ["y"] == ay;
    assert PathsOf([x], ["a"]) == [ax] && PathsOf([y], ["a"]) == [ay];
    assert [a, b][1..] == [b];
    assert PathsOf([b], []) == [ay];
    assert PathsOf([a, b], []) == [ax, ay];
    SharedIs([], ax, 0);
    SharedIs(ax, ay, 1);
    assert [ax, ay][1..] == [ay];
    assert |LinesFrom(ax, 0)| == 2 && |LinesFrom(ay, 1)| == 1;
    assert Rebuilt(ax, [ay]) == LinesFrom(ay, 1) + [];
    assert Count([x]) == 1 && Count([y]) == 1 && Count([b]) == 2;
  }
}
