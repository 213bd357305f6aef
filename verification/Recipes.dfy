/** Recipe expansion in `dev/guards/_workflows.py`: which commands a recipe finally runs, followed through a registry of
    verbs and targets that may refer to one another in circles. */
module Recipes {
  import opened Options

  type Argv = seq<string>

  /** A step of a target; the two kinds of tool step both run `tool *argv`. */
  datatype Step = Echo | Ref(target: string) | Tool(tool: string, arguments: Argv) | Cmd(argv: Argv)

  datatype Target = Target(name: string, steps: seq<Step>)

  datatype Verb = Verb(name: string, targets: seq<Target>)

  type Registry = seq<Verb>

  datatype Key = Key(verb: string, target: string)

  function FindTarget(targets: seq<Target>, name: string): (r: Option<Target>)
    ensures r.Some? ==> r.value in targets && r.value.name == name
  {
    if targets == [] then None
    else if targets[0].name == name then Some(targets[0])
    else FindTarget(targets[1..], name)
  }

  function FindVerb(registry: Registry, name: string): (r: Option<Verb>)
    ensures r.Some? ==> r.value in registry && r.value.name == name
  {
    if registry == [] then None
    else if registry[0].name == name then Some(registry[0])
    else FindVerb(registry[1..], name)
  }

  function Find(registry: Registry, key: Key): Option<Target> {
    var verb := FindVerb(registry, key.verb);
    if verb.None? then None else FindTarget(verb.value.targets, key.target)
  }

  function IndexOf(words: Argv, word: string): (i: nat)
    ensures i <= |words| && (i < |words| ==> words[i] == word) && word !in words[..i]
  {
    if words == [] || words[0] == word then 0 else
    var i := 1 + IndexOf(words[1..], word);
    assert words[..i] == [words[0]] + words[1..][..i - 1];
    i
  }

  /** The verb and target an argument vector re-enters the harness with. */
  function Reentry(argv: Argv): Option<Key> {
    var i := IndexOf(argv, "-m");
    if i == |argv| then None else
    var rest := argv[i + 1..];
    if |rest| < 3 || rest[0] != "dev" then None else Some(Key(rest[1], rest[2]))
  }

  /** A vector re-enters a target exactly when the first "-m" in it is followed by "dev", that verb and that target. */
  lemma ReentryIff(argv: Argv, key: Key)
    ensures Reentry(argv) == Some(key) <==>
              exists before, rest :: "-m" !in before && argv == before + ["-m", "dev", key.verb, key.target] + rest
  {
    var i := IndexOf(argv, "-m");
    if Reentry(argv) == Some(key) {
      var before, rest := argv[..i], argv[i + 4..];
      assert argv[i..][0] == "-m" && argv[i + 1..][0] == "dev";
      assert argv == before + ["-m", "dev", key.verb, key.target] + rest;
    }
    if before, rest :| "-m" !in before && argv == before + ["-m", "dev", key.verb, key.target] + rest {
      Reenters(before, key, rest);
    }
  }

  lemma Reenters(before: Argv, key: Key, rest: Argv)
    requires "-m" !in before
    ensures Reentry(before + ["-m", "dev", key.verb, key.target] + rest) == Some(key)
  {
    var argv := before + ["-m", "dev", key.verb, key.target] + rest;
    FirstIndex(argv, "-m", |before|);
    assert argv[|before| + 1..] == ["dev", key.verb, key.target] + rest;
  }

  lemma {:induction false} FirstIndex(words: Argv, word: string, n: nat)
    requires n < |words| && words[n] == word && word !in words[..n]
    ensures IndexOf(words, word) == n
  {
    if n > 0 {
      assert words[0] == words[..n][0];
      forall k | 0 <= k < n - 1 ensures words[1..][k] != word { assert words[1..][k] == words[..n][k + 1]; }
      FirstIndex(words[1..], word, n - 1);
    }
  }

  /** What a registry holds under a name: the first verb of that name, and in it the first target of that name. */
  lemma FindIff(registry: Registry, key: Key, target: Target)
    ensures Find(registry, key) == Some(target) <==>
              exists v: nat, t: nat ::
                && IsFirstVerb(registry, key.verb, v) && IsFirstTarget(registry[v].targets, key.target, t)
                && registry[v].targets[t] == target
  {
    FindVerbIs(registry, key.verb);
    if v: nat :| IsFirstVerb(registry, key.verb, v) { FindTargetIs(registry[v].targets, key.target); }
  }

  predicate IsFirstVerb(registry: Registry, name: string, v: nat) {
    v < |registry| && registry[v].name == name && forall k :: 0 <= k < v ==> registry[k].name != name
  }

  predicate IsFirstTarget(targets: seq<Target>, name: string, t: nat) {
    t < |targets| && targets[t].name == name && forall k :: 0 <= k < t ==> targets[k].name != name
  }

  lemma {:induction false} FindVerbIs(registry: Registry, name: string)
    ensures forall v: nat :: IsFirstVerb(registry, name, v) ==> FindVerb(registry, name) == Some(registry[v])
    ensures FindVerb(registry, name).Some? ==> exists v: nat :: IsFirstVerb(registry, name, v)
  {
    if registry == [] {
    } else if registry[0].name == name {
      assert IsFirstVerb(registry, name, 0);
    } else {
      var rest := registry[1..];
      FindVerbIs(rest, name);
      forall v: nat | IsFirstVerb(registry, name, v) ensures FindVerb(registry, name) == Some(registry[v]) {
        assert IsFirstVerb(rest, name, v - 1);
      }
      if v: nat :| IsFirstVerb(rest, name, v) { assert IsFirstVerb(registry, name, v + 1); }
    }
  }

  lemma {:induction false} FindTargetIs(targets: seq<Target>, name: string)
    ensures forall t: nat :: IsFirstTarget(targets, name, t) ==> FindTarget(targets, name) == Some(targets[t])
    ensures FindTarget(targets, name).Some? ==> exists t: nat :: IsFirstTarget(targets, name, t)
  {
    if targets == [] {
    } else if targets[0].name == name {
      assert IsFirstTarget(targets, name, 0);
    } else {
      var rest := targets[1..];
      FindTargetIs(rest, name);
      forall t: nat | IsFirstTarget(targets, name, t) ensures FindTarget(targets, name) == Some(targets[t]) {
        assert IsFirstTarget(rest, name, t - 1);
      }
      if t: nat :| IsFirstTarget(rest, name, t) { assert IsFirstTarget(targets, name, t + 1); }
    }
  }

  // ---------- the graph the registry spells ----------

  /** The target a command vector dispatches to, when it re-enters one that exists. */
  function Dispatched(registry: Registry, argv: Argv): Option<Key> {
    var key := Reentry(argv);
    if key.Some? && Find(registry, key.value).Some? then key else None
  }

  /** The target a step leads to. */
  function Leads(registry: Registry, verb: string, step: Step): (r: Option<Key>)
    ensures r.Some? ==> Find(registry, r.value).Some?
  {
    match step
    case Ref(name) => if Find(registry, Key(verb, name)).Some? then Some(Key(verb, name)) else None
    case Cmd(argv) => Dispatched(registry, argv)
    case _ => None
  }

  /** The command a step is, when it neither leads elsewhere nor only prints. */
  function CommandOf(registry: Registry, step: Step): Option<Argv> {
    match step
    case Tool(tool, arguments) => Some([tool] + arguments)
    case Cmd(argv) => if Dispatched(registry, argv).None? then Some(argv) else None
    case _ => None
  }

  function StepsOf(registry: Registry, key: Key): seq<Step> {
    var target := Find(registry, key);
    if target.None? then [] else target.value.steps
  }

  predicate Edge(registry: Registry, from: Key, to: Key) {
    exists i :: 0 <= i < |StepsOf(registry, from)| && Leads(registry, from.verb, StepsOf(registry, from)[i]) == Some(to)
  }

  predicate IsPath(registry: Registry, path: seq<Key>) {
    path != [] && forall i :: 0 <= i < |path| - 1 ==> Edge(registry, path[i], path[i + 1])
  }

  ghost predicate Reaches(registry: Registry, from: Key, to: Key) {
    exists path :: IsPath(registry, path) && path[0] == from && path[|path| - 1] == to
  }

  lemma ReachesItself(registry: Registry, key: Key)
    ensures Reaches(registry, key, key)
  {
    assert IsPath(registry, [key]);
  }

  lemma ReachesThrough(registry: Registry, from: Key, mid: Key, to: Key)
    requires Edge(registry, from, mid) && Reaches(registry, mid, to)
    ensures Reaches(registry, from, to)
  {
    hide Edge;
    var path :| IsPath(registry, path) && path[0] == mid && path[|path| - 1] == to;
    var longer := [from] + path;
    assert forall i :: 0 < i < |longer| - 1 ==> longer[i] == path[i - 1] && longer[i + 1] == path[i];
    assert IsPath(registry, longer);
  }

  ghost predicate Closed(registry: Registry, keys: set<Key>, within: set<Key>) {
    forall from, to :: from in keys && Edge(registry, from, to) ==> to in within
  }

  lemma {:induction false} PathStays(registry: Registry, keys: set<Key>, path: seq<Key>, n: nat)
    requires Closed(registry, keys, keys) && IsPath(registry, path) && path[0] in keys && n < |path|
    ensures path[n] in keys
  {
    hide Edge;
    if n > 0 {
      PathStays(registry, keys, path, n - 1);
      assert Edge(registry, path[n - 1], path[n - 1 + 1]);
    }
  }

  // ---------- what an expansion is ----------

  /** Where in the registry an emitted command stands. */
  datatype Place = Place(key: Key, step: nat)

  predicate IsCommand(registry: Registry, place: Place) {
    place.step < |StepsOf(registry, place.key)| && CommandOf(registry, StepsOf(registry, place.key)[place.step]).Some?
  }

  function CommandAt(registry: Registry, place: Place): Argv
    requires IsCommand(registry, place)
  {
    CommandOf(registry, StepsOf(registry, place.key)[place.step]).value
  }

  /** Commands of one target stand in the order of its steps; so none is there twice. */
  predicate InStepOrder(places: seq<Place>) {
    forall a, b :: 0 <= a < b < |places| && places[a].key == places[b].key ==> places[a].step < places[b].step
  }

  /** Exactly the commands of these targets, each once. */
  ghost predicate Lists(registry: Registry, places: seq<Place>, keys: set<Key>) {
    && InStepOrder(places)
    && forall place :: place in places <==> place.key in keys && IsCommand(registry, place)
  }

  predicate Spells(registry: Registry, commands: seq<Argv>, places: seq<Place>) {
    |commands| == |places| &&
    forall i :: 0 <= i < |places| ==> IsCommand(registry, places[i]) && commands[i] == CommandAt(registry, places[i])
  }

  function Keys(registry: Registry): set<Key> {
    set v, t | v in registry && t in v.targets :: Key(v.name, t.name)
  }

  lemma FoundIsKey(registry: Registry, key: Key)
    requires Find(registry, key).Some?
    ensures key in Keys(registry)
  {}

  /** What following `key` may do to the targets seen so far and what it yields: more targets are seen, all of them
      reachable from `key` and none with a reference left unfollowed, and their commands are listed. */
  ghost predicate Expansion(registry: Registry, key: Key, before: set<Key>, after: set<Key>, commands: seq<Argv>,
                            places: seq<Place>) {
    && before <= after <= Keys(registry) && key in after
    && (forall k :: k in after - before ==> Reaches(registry, key, k))
    && Closed(registry, after - before, after)
    && Lists(registry, places, after - before)
    && Spells(registry, commands, places)
  }

  /** The same with the steps of `key` itself followed only up to i. */
  ghost predicate Partial(registry: Registry, key: Key, i: nat, before: set<Key>, now: set<Key>, commands: seq<Argv>,
                          places: seq<Place>) {
    && before + {key} <= now <= Keys(registry) && key !in before
    && (forall k :: k in now - before ==> Reaches(registry, key, k))
    && Closed(registry, now - before - {key}, now)
    && (forall j :: 0 <= j < i && j < |StepsOf(registry, key)| ==>
          var to := Leads(registry, key.verb, StepsOf(registry, key)[j]); to.Some? ==> to.value in now)
    && ListsSoFar(registry, places, now - before - {key}, key, i)
    && Spells(registry, commands, places)
  }

  ghost predicate ListsSoFar(registry: Registry, places: seq<Place>, keys: set<Key>, key: Key, i: nat) {
    && InStepOrder(places)
    && forall place :: place in places <==>
         IsCommand(registry, place) && (place.key in keys || (place.key == key && place.step < i))
  }

  lemma StartPartial(registry: Registry, key: Key, before: set<Key>)
    requires before <= Keys(registry) && Find(registry, key).Some? && key !in before
    ensures Partial(registry, key, 0, before, before + {key}, [], [])
  {
    ReachesItself(registry, key);
  }

  lemma EndPartial(registry: Registry, key: Key, before: set<Key>, now: set<Key>, commands: seq<Argv>,
                   places: seq<Place>)
    requires Partial(registry, key, |StepsOf(registry, key)|, before, now, commands, places)
    ensures Expansion(registry, key, before, now, commands, places)
  {
    hide Reaches, Leads, CommandOf, InStepOrder, Spells, Keys;
    var keys := now - before;
    forall place ensures place in places <==> place.key in keys && IsCommand(registry, place) {}
  }

  /** A step that is neither a command nor a lead changes nothing. */
  lemma SkipStep(registry: Registry, key: Key, i: nat, before: set<Key>, now: set<Key>, commands: seq<Argv>,
                 places: seq<Place>)
    requires Partial(registry, key, i, before, now, commands, places) && i < |StepsOf(registry, key)|
    requires !IsCommand(registry, Place(key, i)) && Leads(registry, key.verb, StepsOf(registry, key)[i]).None?
    ensures Partial(registry, key, i + 1, before, now, commands, places)
  {
    hide Reaches, Leads, CommandOf, InStepOrder, Spells, Keys, StepsOf, IsCommand, Closed;
    forall place: Place ensures place.step < i + 1 <==> place.step < i || place.step == i {}
  }

  lemma CommandStep(registry: Registry, key: Key, i: nat, before: set<Key>, now: set<Key>, commands: seq<Argv>,
                    places: seq<Place>)
    requires Partial(registry, key, i, before, now, commands, places)
    requires IsCommand(registry, Place(key, i)) && Leads(registry, key.verb, StepsOf(registry, key)[i]).None?
    ensures Partial(registry, key, i + 1, before, now, commands + [CommandAt(registry, Place(key, i))],
                    places + [Place(key, i)])
  {
    hide Reaches, Leads, CommandOf, Keys, StepsOf, IsCommand, Closed;
    var here := Place(key, i);
    var longer := places + [here];
    forall place ensures place in longer <==> place in places || place == here {}
    forall a, b | 0 <= a < b < |longer| && longer[a].key == longer[b].key ensures longer[a].step < longer[b].step {
      if b == |places| { assert longer[a] in places; }
    }
  }

  lemma LeadStep(registry: Registry, key: Key, i: nat, before: set<Key>, now: set<Key>, commands: seq<Argv>,
                 places: seq<Place>, to: Key, after: set<Key>, more: seq<Argv>, morePlaces: seq<Place>)
    requires Partial(registry, key, i, before, now, commands, places) && i < |StepsOf(registry, key)|
    requires Leads(registry, key.verb, StepsOf(registry, key)[i]) == Some(to)
    requires Expansion(registry, to, now, after, more, morePlaces)
    ensures Partial(registry, key, i + 1, before, after, commands + more, places + morePlaces)
  {
    hide Reaches, Leads, CommandOf, Keys, StepsOf, IsCommand;
    assert !IsCommand(registry, Place(key, i)) by { LeadIsNoCommand(registry, key, i); }
    assert Edge(registry, key, to);
    forall k | k in after - before ensures Reaches(registry, key, k) {
      if k !in now { ReachesThrough(registry, key, to, k); }
    }
    var old0, new0, both := now - before - {key}, after - now, after - before - {key};
    assert both == old0 + new0;
    var all := places + morePlaces;
    forall place ensures place in all <==> place in places || place in morePlaces {}
    forall place: Place ensures place.step < i + 1 <==> place.step < i || place.step == i {}
    forall a, b | 0 <= a < b < |all| && all[a].key == all[b].key ensures all[a].step < all[b].step {
      assert a < |places| ==> all[a] in places;
      assert b >= |places| ==> all[b] in morePlaces;
    }
  }

  lemma LeadIsNoCommand(registry: Registry, key: Key, i: nat)
    requires i < |StepsOf(registry, key)| && Leads(registry, key.verb, StepsOf(registry, key)[i]).Some?
    ensures !IsCommand(registry, Place(key, i))
  {}

  /** The expansion of one recipe line; `seen` is the set shared by every call it makes. */
  class Expander {
    const registry: Registry
    var seen: set<Key>

    constructor (registry: Registry)
      ensures this.registry == registry && seen == {}
    {
      this.registry := registry;
      seen := {};
    }

    method CommandArgv(argv: Argv) returns (commands: seq<Argv>, ghost places: seq<Place>)
      requires seen <= Keys(registry)
      modifies this
      ensures Dispatched(registry, argv).None? ==> commands == [argv] && seen == old(seen)
      ensures var key := Dispatched(registry, argv);
        key.Some? ==> Expansion(registry, key.value, old(seen), seen, commands, places)
      decreases |Keys(registry) - seen|, 2
    {
      hide Expansion, Keys;
      var reentry := Reentry(argv);
      if reentry.None? {
        return [argv], [];
      }
      var target := Find(registry, reentry.value);
      if target.None? {
        return [argv], [];
      }
      commands, places := TargetCommands(reentry.value, target.value);
    }

    method TargetCommands(key: Key, target: Target) returns (commands: seq<Argv>, ghost places: seq<Place>)
      requires Find(registry, key) == Some(target) && seen <= Keys(registry)
      modifies this
      ensures Expansion(registry, key, old(seen), seen, commands, places)
      decreases |Keys(registry) - seen|, 1
    {
      hide Expansion, Partial, Keys, Find, Leads, CommandOf, IsCommand;
      commands, places := [], [];
      if key in seen {
        SeenAlready(registry, key, seen);
        return;
      }
      ghost var before := seen;
      StartPartial(registry, key, before);
      FoundIsKey(registry, key);
      SeenShrinks(Keys(registry), before, key);
      seen := seen + {key};
      ghost var measure := |Keys(registry) - seen|;
      var i := 0;
      while i < |target.steps|
        invariant i <= |target.steps|
        invariant Partial(registry, key, i, before, seen, commands, places)
        invariant seen <= Keys(registry) && |Keys(registry) - seen| <= measure
      {
        var step := target.steps[i];
        ghost var now := seen;
        StepFacts(registry, key, i);
        match step {
          case Echo =>
            SkipStep(registry, key, i, before, now, commands, places);
          case Ref(name) =>
            var referenced := Find(registry, Key(key.verb, name));
            if referenced.Some? {
              var more, morePlaces := TargetCommands(Key(key.verb, name), referenced.value);
              LeadStep(registry, key, i, before, now, commands, places, Key(key.verb, name), seen, more, morePlaces);
              SeenGrows(registry, Key(key.verb, name), now, seen, more, morePlaces);
              commands, places := commands + more, places + morePlaces;
            } else {
              SkipStep(registry, key, i, before, now, commands, places);
            }
          case Tool(tool, arguments) =>
            CommandStep(registry, key, i, before, now, commands, places);
            commands, places := commands + [[tool] + arguments], places + [Place(key, i)];
          case Cmd(argv) =>
            var more, morePlaces := CommandArgv(argv);
            var to := Dispatched(registry, argv);
            if to.Some? {
              LeadStep(registry, key, i, before, now, commands, places, to.value, seen, more, morePlaces);
              SeenGrows(registry, to.value, now, seen, more, morePlaces);
              commands, places := commands + more, places + morePlaces;
            } else {
              CommandStep(registry, key, i, before, now, commands, places);
              commands, places := commands + more, places + [Place(key, i)];
            }
        }
        i := i + 1;
      }
      EndPartial(registry, key, before, seen, commands, places);
    }
  }

  lemma StepFacts(registry: Registry, key: Key, i: nat)
    requires i < |StepsOf(registry, key)|
    ensures var step, place := StepsOf(registry, key)[i], Place(key, i);
      && (IsCommand(registry, place) <==> step.Tool? || (step.Cmd? && Dispatched(registry, step.argv).None?))
      && (step.Tool? ==> CommandAt(registry, place) == [step.tool] + step.arguments)
      && (step.Cmd? && IsCommand(registry, place) ==> CommandAt(registry, place) == step.argv)
      && Leads(registry, key.verb, step) == match step {
           case Ref(name) => if Find(registry, Key(key.verb, name)).Some? then Some(Key(key.verb, name)) else None
           case Cmd(argv) => Dispatched(registry, argv)
           case _ => None
         }
  {}

  lemma SeenAlready(registry: Registry, key: Key, seen: set<Key>)
    requires key in seen && seen <= Keys(registry)
    ensures Expansion(registry, key, seen, seen, [], [])
  {}

  lemma SeenShrinks(keys: set<Key>, seen: set<Key>, key: Key)
    requires key in keys && key !in seen
    ensures |keys - (seen + {key})| < |keys - seen|
  {
    assert keys - seen == (keys - (seen + {key})) + {key};
  }

  lemma SeenGrows(registry: Registry, key: Key, now: set<Key>, after: set<Key>, more: seq<Argv>, places: seq<Place>)
    requires Expansion(registry, key, now, after, more, places)
    ensures after <= Keys(registry) && |Keys(registry) - after| <= |Keys(registry) - now|
  {
    hide Reaches, Closed, Lists, Spells;
    var keys := Keys(registry);
    assert keys - now == (keys - after) + (after - now);
  }

  // ---------- whole recipes ----------

  /** Every command of every target reachable from this one, each exactly once, those of one target in the order of its
      steps. */
  ghost predicate ListsReachable(registry: Registry, key: Key, commands: seq<Argv>) {
    exists places, keys: set<Key> ::
      && (forall k :: k in keys <==> Reaches(registry, key, k))
      && Lists(registry, places, keys) && Spells(registry, commands, places)
  }

  /** The commands a line stands for: itself, unless it re-enters a target that exists; then all that is reachable. */
  ghost predicate Expands(registry: Registry, argv: Argv, commands: seq<Argv>) {
    var key := Dispatched(registry, argv);
    if key.None? then commands == [argv] else ListsReachable(registry, key.value, commands)
  }

  lemma WholeExpansion(registry: Registry, argv: Argv, after: set<Key>, commands: seq<Argv>, places: seq<Place>)
    requires Dispatched(registry, argv).Some?
    requires Expansion(registry, Dispatched(registry, argv).value, {}, after, commands, places)
    ensures Expands(registry, argv, commands)
  {
    hide Dispatched, Edge, Lists, Spells, Keys;
    var key := Dispatched(registry, argv).value;
    assert after - {} == after;
    forall k ensures k in after <==> Reaches(registry, key, k) {
      if Reaches(registry, key, k) {
        var path :| IsPath(registry, path) && path[0] == key && path[|path| - 1] == k;
        PathStays(registry, after, path, |path| - 1);
      }
    }
  }

  const DEV_PREFIX: Argv := ["uv", "run", "--no-sync", "python", "-m", "dev"]

  function WordsOf(token: string): Argv { if token == "{{dev}}" then DEV_PREFIX else [token] }

  function Flattened(tokens: Argv): Argv {
    if tokens == [] then [] else WordsOf(tokens[0]) + Flattened(tokens[1..])
  }

  lemma Associates(a: Argv, b: Argv, c: Argv)
    ensures a + (b + c) == (a + b) + c
  {}

  /** Each word stands on its own. */
  lemma {:induction false} FlattenedJoins(a: Argv, b: Argv)
    ensures Flattened(a + b) == Flattened(a) + Flattened(b)
  {
    if a == [] {
      assert a + b == b;
    } else {
      hide WordsOf;
      assert (a + b)[1..] == a[1..] + b && (a + b)[0] == a[0];
      FlattenedJoins(a[1..], b);
      Associates(WordsOf(a[0]), Flattened(a[1..]), Flattened(b));
    }
  }

  /** A word stands for itself, and `{{dev}}` for the harness's own command. */
  lemma {:induction false} FlattenedWords(words: Argv)
    ensures "{{dev}}" !in words ==> Flattened(words) == words
    ensures Flattened(["{{dev}}"]) == ["uv", "run", "--no-sync", "python", "-m", "dev"]
  {
    assert ["{{dev}}"][1..] == [];
    if words != [] { FlattenedWords(words[1..]); }
  }

  /** A recipe line that runs a verb and a target of the harness, whatever words follow. */
  predicate IsDevLine(line: Argv) {
    |line| >= 3 && line[0] == "{{dev}}" && line[1] != "{{dev}}" && line[2] != "{{dev}}"
  }

  lemma DevLineReenters(line: Argv)
    requires IsDevLine(line)
    ensures Reentry(Flattened(line)) == Some(Key(line[1], line[2]))
  {
    hide Reentry, Flattened;
    var named, rest := [line[1], line[2]], line[3..];
    assert line == (["{{dev}}"] + named) + rest;
    FlattenedJoins(["{{dev}}"], named);
    FlattenedJoins(["{{dev}}"] + named, rest);
    FlattenedWords(named);
    var before: Argv := ["uv", "run", "--no-sync", "python"];
    Reenters(before, Key(line[1], line[2]), Flattened(rest));
    assert Flattened(line) == before + ["-m", "dev", line[1], line[2]] + Flattened(rest);
  }

  lemma PlainLineStays(line: Argv)
    requires "{{dev}}" !in line && "-m" !in line
    ensures Flattened(line) == line && Reentry(line).None?
  {
    FlattenedWords(line);
  }

  /** What a line of a recipe stands for, by the words it is written in: one that runs a target of the harness lists all
      that target reaches, and a plain one is itself. */
  ghost predicate StandsFor(registry: Registry, line: Argv, commands: seq<Argv>) {
    && (IsDevLine(line) ==>
          if Find(registry, Key(line[1], line[2])).Some? then ListsReachable(registry, Key(line[1], line[2]), commands)
          else commands == [Flattened(line)])
    && ("{{dev}}" !in line && "-m" !in line ==> commands == [line])
  }

  function Concat(parts: seq<seq<Argv>>): seq<Argv> {
    if parts == [] then [] else Concat(parts[..|parts| - 1]) + parts[|parts| - 1]
  }

  /** Every line of a recipe body, given as its words, is expanded on its own. */
  method FinalCommands(registry: Registry, body: Option<seq<Argv>>) returns (commands: seq<Argv>,
                                                                               parts: seq<seq<Argv>>)
    ensures body.None? ==> commands == []
    ensures body.Some? ==> |parts| == |body.value| && commands == Concat(parts)
    ensures body.Some? ==>
              forall i :: 0 <= i < |parts| ==> Expands(registry, Flattened(body.value[i]), parts[i])
    ensures body.Some? ==> forall i :: 0 <= i < |parts| ==> StandsFor(registry, body.value[i], parts[i])
  {
    hide Expansion, Flattened, Dispatched, Expands, StandsFor;
    commands, parts := [], [];
    if body.None? {
      return;
    }
    var i := 0;
    while i < |body.value|
      invariant i == |parts| <= |body.value| && commands == Concat(parts)
      invariant forall j :: 0 <= j < i ==> Expands(registry, Flattened(body.value[j]), parts[j])
      invariant forall j :: 0 <= j < i ==> StandsFor(registry, body.value[j], parts[j])
    {
      var flat := Flattened(body.value[i]);
      var expander := new Expander(registry);
      var more, places := expander.CommandArgv(flat);
      if Dispatched(registry, flat).Some? {
        WholeExpansion(registry, flat, expander.seen, more, places);
      } else {
        PlainLine(registry, flat);
      }
      LineStandsFor(registry, body.value[i], more);
      assert (parts + [more])[..i] == parts;
      commands, parts := commands + more, parts + [more];
      i := i + 1;
    }
  }

  lemma LineStandsFor(registry: Registry, line: Argv, commands: seq<Argv>)
    requires Expands(registry, Flattened(line), commands)
    ensures StandsFor(registry, line, commands)
  {
    hide Flattened, ListsReachable, Reentry, Find, Reaches;
    if IsDevLine(line) { DevLineReenters(line); }
    if "{{dev}}" !in line && "-m" !in line { PlainLineStays(line); }
  }

  lemma PlainLine(registry: Registry, argv: Argv)
    requires Dispatched(registry, argv).None?
    ensures Expands(registry, argv, [argv])
  {}
}
