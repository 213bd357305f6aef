/** The dependency audit's report in `dev/audit/dependency_audit.py`: advisories that go by several names are reported
    once, and the gate passes only if each of them is accepted. */
module Advisories {
  import opened Options
  import Text

  /** An advisory accepted until the end of a day. */
  datatype Suppression = Suppression(id: string, reason: string, expires: int)

  predicate Expired(s: Suppression, today: int) { today > s.expires }

  /** What the loader insists on: an id and a reason that says something. */
  predicate Loadable(s: Suppression) { s.id != "" && !Text.IsBlank(s.reason) }

  predicate AllLoadable(suppressions: seq<Suppression>) { forall s :: s in suppressions ==> Loadable(s) }

  /** The packages each advisory was reported against. */
  type Hits = map<string, set<string>>

  /** What an advisory's record lists as its other names; nothing obliges it to be mutual. */
  type Aliases = string -> seq<string>

  datatype Finding = Finding(id: string, aliases: seq<string>, packages: set<string>, suppressedBy: Option<Suppression>)

  datatype Report = Report(findings: seq<Finding>, expired: seq<Suppression>, stale: set<Suppression>)

  function NamesOf(id: string, aliases: Aliases): seq<string> { [id] + aliases(id) }

  // ---------- what the report is ----------

  /** Later entries of one id replace earlier ones. */
  function Live(suppressions: seq<Suppression>, today: int): map<string, Suppression> {
    if suppressions == [] then map[] else
    var live, s := Live(suppressions[..|suppressions| - 1], today), suppressions[|suppressions| - 1];
    if Expired(s, today) then live else live[s.id := s]
  }

  function ExpiredOnes(suppressions: seq<Suppression>, today: int): seq<Suppression> {
    if suppressions == [] then [] else
    var e, s := ExpiredOnes(suppressions[..|suppressions| - 1], today), suppressions[|suppressions| - 1];
    if Expired(s, today) then e + [s] else e
  }

  /** The live suppression of the first of these names that has one. */
  function Covering(names: seq<string>, live: map<string, Suppression>): Option<Suppression> {
    if names == [] then None
    else if names[0] in live then Some(live[names[0]])
    else Covering(names[1..], live)
  }

  function Packages(names: seq<string>, hits: Hits): set<string> {
    if names == [] then {} else
    Packages(names[..|names| - 1], hits) + if names[|names| - 1] in hits then hits[names[|names| - 1]] else {}
  }

  function FindingFor(id: string, hits: Hits, aliases: Aliases, live: map<string, Suppression>): Finding {
    var names := NamesOf(id, aliases);
    Finding(id, aliases(id), Packages(names, hits), Covering(names, live))
  }

  /** Every name the findings so far go by. */
  function Named(findings: seq<Finding>): set<string> {
    if findings == [] then {} else
    var f := findings[|findings| - 1];
    Named(findings[..|findings| - 1]) + {f.id} + (set a | a in f.aliases)
  }

  function FindingsOf(order: seq<string>, hits: Hits, aliases: Aliases, live: map<string, Suppression>): seq<Finding> {
    if order == [] then [] else
    var before, id := FindingsOf(order[..|order| - 1], hits, aliases, live), order[|order| - 1];
    if id in Named(before) then before else before + [FindingFor(id, hits, aliases, live)]
  }

  /** The ids of the suppressions that some finding rests on. */
  function Used(findings: seq<Finding>): set<string> {
    if findings == [] then {} else
    var rests := findings[|findings| - 1].suppressedBy;
    Used(findings[..|findings| - 1]) + if rests.Some? then {rests.value.id} else {}
  }

  ghost predicate Lists(order: seq<string>, hits: Hits) { forall id :: id in order <==> id in hits }

  /** `order` is the order the hits are gone through in. */
  method BuildReport(order: seq<string>, hits: Hits, aliases: Aliases, suppressions: seq<Suppression>, today: int)
    returns (report: Report)
    ensures report.findings == FindingsOf(order, hits, aliases, Live(suppressions, today))
    ensures report.expired == ExpiredOnes(suppressions, today)
    ensures report.stale == set s | s in Live(suppressions, today).Values && s.id !in Used(report.findings)
  {
    hide Expired;
    var live := map[];
    var expired: seq<Suppression> := [];
    for i := 0 to |suppressions|
      invariant live == Live(suppressions[..i], today) && expired == ExpiredOnes(suppressions[..i], today)
    {
      var s := suppressions[i];
      assert suppressions[..i + 1][..i] == suppressions[..i];
      if Expired(s, today) {
        expired := expired + [s];
      } else {
        live := live[s.id := s];
      }
    }
    assert suppressions[..|suppressions|] == suppressions;
    var findings, used := ReportFindings(order, hits, aliases, live);
    var stale := set s | s in live.Values && s.id !in used;
    report := Report(findings, expired, stale);
  }

  lemma {:induction false} LiveById(suppressions: seq<Suppression>, today: int)
    ensures var live := Live(suppressions, today);
      forall id :: id in live ==> live[id].id == id && live[id] in suppressions && !Expired(live[id], today)
    ensures var live := Live(suppressions, today);
      forall s :: s in suppressions && !Expired(s, today) ==> s.id in live
  {
    hide Expired;
    if suppressions != [] {
      var before, last := suppressions[..|suppressions| - 1], suppressions[|suppressions| - 1];
      LiveById(before, today);
      assert forall s :: s in suppressions <==> s in before || s == last;
      var live := Live(suppressions, today);
      forall id | id in live ensures live[id].id == id && live[id] in suppressions && !Expired(live[id], today) {
        assert live[id] == last || (id in Live(before, today) && live[id] == Live(before, today)[id]);
      }
    }
  }

  /** Entry k has not lapsed, its last day being its expiry day, and no later entry for its id has either. */
  predicate Counts(suppressions: seq<Suppression>, today: int, k: nat)
    requires k < |suppressions|
  {
    today <= suppressions[k].expires &&
    forall j :: k < j < |suppressions| && suppressions[j].id == suppressions[k].id ==> suppressions[j].expires < today
  }

  lemma CountsOneMore(before: seq<Suppression>, last: Suppression, today: int, k: nat)
    requires k < |before|
    ensures Counts(before + [last], today, k)
       <==> Counts(before, today, k) && (before[k].id == last.id ==> last.expires < today)
  {
    var suppressions := before + [last];
    assert suppressions[|before|] == last && forall j :: 0 <= j < |before| ==> suppressions[j] == before[j];
  }

  /** The suppressions listed as lapsed are those past their expiry day; the live one of an id is the last that is
      not. */
  lemma {:induction false} ExpiryDay(suppressions: seq<Suppression>, today: int, s: Suppression)
    ensures s in ExpiredOnes(suppressions, today) <==> s in suppressions && s.expires < today
    ensures (s.id in Live(suppressions, today) && Live(suppressions, today)[s.id] == s)
       <==> exists k: nat :: k < |suppressions| && suppressions[k] == s && Counts(suppressions, today, k)
  {
    hide Counts;
    if suppressions != [] {
      var n := |suppressions| - 1;
      var before, last := suppressions[..n], suppressions[n];
      assert suppressions == before + [last];
      ExpiryDay(before, today, s);
      forall k: nat | k < n
        ensures Counts(suppressions, today, k)
           <==> Counts(before, today, k) && (before[k].id == last.id ==> last.expires < today)
      {
        CountsOneMore(before, last, today, k);
      }
      assert Counts(suppressions, today, n) <==> today <= last.expires by { LastCounts(suppressions, today); }
      if k: nat :| k < n && before[k] == s && Counts(before, today, k) { assert suppressions[k] == s; }
      if k: nat :| k <= n && suppressions[k] == s && Counts(suppressions, today, k) {
        if k < n { assert before[k] == s; }
      }
    }
  }

  lemma LastCounts(suppressions: seq<Suppression>, today: int)
    requires suppressions != []
    ensures var n := |suppressions| - 1; Counts(suppressions, today, n) <==> today <= suppressions[n].expires
  {}

  method ReportFindings(order: seq<string>, hits: Hits, aliases: Aliases, live: map<string, Suppression>)
    returns (findings: seq<Finding>, used: set<string>)
    ensures findings == FindingsOf(order, hits, aliases, live)
    ensures used == Used(findings)
  {
    hide Packages, Covering, FindingsOf, Named, Used;
    NoneFound(order[..0], hits, aliases, live);
    findings, used := [], {};
    var seen: set<string> := {};
    for i := 0 to |order|
      invariant findings == FindingsOf(order[..i], hits, aliases, live) && seen == Named(findings)
      invariant used == Used(findings)
    {
      var identifier := order[i];
      NextFound(order, i, hits, aliases, live);
      if identifier in seen {
        continue;
      }
      var names := NamesOf(identifier, aliases);
      seen := seen + {identifier} + set a | a in aliases(identifier);
      var covering := FindCovering(names, live);
      if covering.Some? {
        used := used + {covering.value.id};
      }
      var merged := Merge(names, hits);
      var finding := Finding(identifier, aliases(identifier), merged, covering);
      FoundOneMore(findings, finding);
      findings := findings + [finding];
    }
    assert order[..|order|] == order;
  }

  lemma NoneFound(order: seq<string>, hits: Hits, aliases: Aliases, live: map<string, Suppression>)
    requires order == []
    ensures FindingsOf(order, hits, aliases, live) == [] && Named([]) == {} && Used([]) == {}
  {}

  lemma NextFound(order: seq<string>, i: nat, hits: Hits, aliases: Aliases, live: map<string, Suppression>)
    requires i < |order|
    ensures var before := FindingsOf(order[..i], hits, aliases, live);
            FindingsOf(order[..i + 1], hits, aliases, live)
            == if order[i] in Named(before) then before else before + [FindingFor(order[i], hits, aliases, live)]
  {
    hide FindingFor, Named;
    assert order[..i + 1][..i] == order[..i];
  }

  lemma FoundOneMore(findings: seq<Finding>, f: Finding)
    ensures Named(findings + [f]) == Named(findings) + {f.id} + set a | a in f.aliases
    ensures Used(findings + [f])
         == Used(findings) + if f.suppressedBy.Some? then {f.suppressedBy.value.id} else {}
  {
    assert (findings + [f])[..|findings|] == findings;
  }

  method FindCovering(names: seq<string>, live: map<string, Suppression>) returns (covering: Option<Suppression>)
    ensures covering == Covering(names, live)
  {
    covering := None;
    for i := 0 to |names|
      invariant covering.None? && Covering(names, live) == Covering(names[i..], live)
    {
      assert names[i..][1..] == names[i + 1..];
      if names[i] in live {
        return Some(live[names[i]]);
      }
    }
  }

  method Merge(names: seq<string>, hits: Hits) returns (merged: set<string>)
    ensures merged == Packages(names, hits)
  {
    merged := {};
    for i := 0 to |names|
      invariant merged == Packages(names[..i], hits)
    {
      assert names[..i + 1][..i] == names[..i];
      merged := merged + if names[i] in hits then hits[names[i]] else {};
    }
    assert names[..|names|] == names;
  }

  // ---------- nothing is lost ----------

  predicate GoesBy(f: Finding, name: string) { f.id == name || name in f.aliases }

  lemma {:induction false} NamedIs(findings: seq<Finding>)
    ensures forall name :: name in Named(findings) <==> exists f :: f in findings && GoesBy(f, name)
  {
    if findings != [] {
      var before, last := findings[..|findings| - 1], findings[|findings| - 1];
      NamedIs(before);
      assert findings == before + [last];
      forall name ensures name in Named(findings) <==> exists f :: f in findings && GoesBy(f, name) {
        if name in Named(before) {
          var f :| f in before && GoesBy(f, name);
          assert f in findings;
        } else if name in Named(findings) {
          assert GoesBy(last, name);
        }
        if f :| f in findings && GoesBy(f, name) { assert f in before || f == last; }
      }
    }
  }

  lemma {:induction false} PackagesHold(names: seq<string>, hits: Hits, name: string)
    requires name in names && name in hits
    ensures hits[name] <= Packages(names, hits)
  {
    if names[|names| - 1] != name { PackagesHold(names[..|names| - 1], hits, name); }
  }

  lemma {:induction false} PackagesOnly(names: seq<string>, hits: Hits, package: string)
    requires package in Packages(names, hits)
    ensures exists name :: name in names && name in hits && package in hits[name]
  {
    var last := names[|names| - 1];
    if !(last in hits && package in hits[last]) {
      PackagesOnly(names[..|names| - 1], hits, package);
      var name :| name in names[..|names| - 1] && name in hits && package in hits[name];
      assert name in names;
    }
  }

  /** Each finding is one hit advisory under all its names. */
  lemma {:induction false} FindingsAre(order: seq<string>, hits: Hits, aliases: Aliases, live: map<string, Suppression>)
    ensures forall f :: f in FindingsOf(order, hits, aliases, live) ==>
              f.id in order && f == FindingFor(f.id, hits, aliases, live)
  {
    hide FindingFor, Named;
    if order != [] {
      var n := |order| - 1;
      FindingsAre(order[..n], hits, aliases, live);
      FindingHasId(order[n], hits, aliases, live);
      forall f | f in FindingsOf(order, hits, aliases, live)
        ensures f.id in order && f == FindingFor(f.id, hits, aliases, live)
      {
        assert f in FindingsOf(order[..n], hits, aliases, live) || f == FindingFor(order[n], hits, aliases, live);
      }
    }
  }

  predicate NoneAgain(findings: seq<Finding>) {
    forall i, j :: 0 <= i < j < |findings| ==> !GoesBy(findings[i], findings[j].id)
  }

  lemma OneMore(findings: seq<Finding>, f: Finding)
    requires NoneAgain(findings) && f.id !in Named(findings)
    ensures NoneAgain(findings + [f])
  {
    hide GoesBy, Named;
    NamedIs(findings);
    forall i | 0 <= i < |findings| ensures !GoesBy(findings[i], f.id) { assert findings[i] in findings; }
  }

  /** No advisory is found again under a name an earlier finding goes by. */
  lemma {:induction false} NoneFoundAgain(order: seq<string>, hits: Hits, aliases: Aliases,
                                          live: map<string, Suppression>)
    ensures NoneAgain(FindingsOf(order, hits, aliases, live))
  {
    hide FindingFor, NoneAgain;
    if order == [] {
      assert NoneAgain([]) by { NothingAgain(); }
    } else {
      var n := |order| - 1;
      NoneFoundAgain(order[..n], hits, aliases, live);
      FindingHasId(order[n], hits, aliases, live);
      if order[n] !in Named(FindingsOf(order[..n], hits, aliases, live)) {
        OneMore(FindingsOf(order[..n], hits, aliases, live), FindingFor(order[n], hits, aliases, live));
      }
    }
  }

  lemma NothingAgain()
    ensures NoneAgain([])
  {}

  lemma {:induction false} AllNamed(order: seq<string>, hits: Hits, aliases: Aliases, live: map<string, Suppression>)
    ensures forall id :: id in order ==> id in Named(FindingsOf(order, hits, aliases, live))
  {
    hide FindingFor;
    if order != [] {
      var n := |order| - 1;
      var before, f := FindingsOf(order[..n], hits, aliases, live), FindingFor(order[n], hits, aliases, live);
      AllNamed(order[..n], hits, aliases, live);
      FindingHasId(order[n], hits, aliases, live);
      assert (before + [f])[..|before|] == before;
      assert order == order[..n] + [order[n]];
    }
  }

  lemma FindingHasId(id: string, hits: Hits, aliases: Aliases, live: map<string, Suppression>)
    ensures FindingFor(id, hits, aliases, live).id == id
  {}

  lemma FindingNames(f: Finding, hits: Hits, aliases: Aliases, live: map<string, Suppression>, name: string)
    requires f == FindingFor(f.id, hits, aliases, live)
    ensures GoesBy(f, name) <==> name in NamesOf(f.id, aliases)
    ensures f.packages == Packages(NamesOf(f.id, aliases), hits)
  {}

  /** Every hit advisory is a finding's id or an alias of one, and that finding holds every package it was hit on. */
  lemma EveryHitIsReported(order: seq<string>, hits: Hits, aliases: Aliases, live: map<string, Suppression>, id: string)
    requires Lists(order, hits) && id in hits
    ensures exists f :: f in FindingsOf(order, hits, aliases, live) && GoesBy(f, id) && hits[id] <= f.packages
  {
    hide FindingsOf, Named, Covering, Packages, GoesBy;
    var findings := FindingsOf(order, hits, aliases, live);
    FindingsAre(order, hits, aliases, live);
    AllNamed(order, hits, aliases, live);
    NamedIs(findings);
    assert id in order;
    var f :| f in findings && GoesBy(f, id);
    FindingNames(f, hits, aliases, live, id);
    PackagesHold(NamesOf(f.id, aliases), hits, id);
  }

  // ---------- the gate ----------

  /** The exit code, as the property computes it. */
  predicate Passes(report: Report) {
    report.expired == [] && forall f :: f in report.findings ==> f.suppressedBy.Some?
  }

  /** Some name of the advisory is accepted and the acceptance has not lapsed. */
  predicate Accepted(id: string, aliases: Aliases, suppressions: seq<Suppression>, today: int) {
    exists s :: s in suppressions && !Expired(s, today) && s.id in NamesOf(id, aliases)
  }

  lemma {:induction false} CoveringIs(names: seq<string>, live: map<string, Suppression>)
    ensures Covering(names, live).Some? <==> exists name :: name in names && name in live
  {
    if names != [] {
      CoveringIs(names[1..], live);
      if name :| name in names && name in live { assert name == names[0] || name in names[1..]; }
    }
  }

  lemma CoveredIffAccepted(id: string, hits: Hits, aliases: Aliases, suppressions: seq<Suppression>, today: int)
    ensures FindingFor(id, hits, aliases, Live(suppressions, today)).suppressedBy.Some?
       <==> Accepted(id, aliases, suppressions, today)
  {
    hide Expired, Packages, Covering;
    var live := Live(suppressions, today);
    LiveById(suppressions, today);
    CoveringIs(NamesOf(id, aliases), live);
    if name :| name in NamesOf(id, aliases) && name in live {
      assert live[name].id == name;
      assert live[name] in suppressions;
    }
  }

  lemma {:induction false} NoneExpired(suppressions: seq<Suppression>, today: int)
    ensures ExpiredOnes(suppressions, today) == [] <==> forall s :: s in suppressions ==> !Expired(s, today)
  {
    hide Expired;
    if suppressions != [] { NoneExpired(suppressions[..|suppressions| - 1], today); }
  }

  /** What BuildReport leaves for the gate to look at. */
  predicate IsReport(report: Report, order: seq<string>, hits: Hits, aliases: Aliases, suppressions: seq<Suppression>,
                     today: int) {
    && report.findings == FindingsOf(order, hits, aliases, Live(suppressions, today))
    && report.expired == ExpiredOnes(suppressions, today)
  }

  /** The gate passes exactly when no acceptance has lapsed and every finding is accepted under one of its names. */
  lemma PassesIff(report: Report, order: seq<string>, hits: Hits, aliases: Aliases, suppressions: seq<Suppression>,
                  today: int)
    requires IsReport(report, order, hits, aliases, suppressions, today)
    ensures Passes(report) <==>
              (forall s :: s in suppressions ==> !Expired(s, today))
              && forall f :: f in report.findings ==> Accepted(f.id, aliases, suppressions, today)
  {
    hide Expired, FindingsOf, Live, Accepted, FindingFor;
    NoneExpired(suppressions, today);
    FindingsAre(order, hits, aliases, Live(suppressions, today));
    forall f | f in report.findings ensures f.suppressedBy.Some? <==> Accepted(f.id, aliases, suppressions, today) {
      CoveredIffAccepted(f.id, hits, aliases, suppressions, today);
    }
  }

  /** Each advisory's names are the names of every advisory it names. */
  ghost predicate Mutual(hits: Hits, aliases: Aliases) {
    forall a, b, name :: a in hits && b in hits && b in aliases(a) ==>
      (name in NamesOf(a, aliases) <==> name in NamesOf(b, aliases))
  }

  /** Where alias lists are mutual, the verdict is about the advisories and not the order they were met in: it passes
      exactly when no acceptance has lapsed and every hit advisory is accepted under one of its names. */
  lemma MutualAliasesDecide(report: Report, order: seq<string>, hits: Hits, aliases: Aliases,
                            suppressions: seq<Suppression>, today: int)
    requires IsReport(report, order, hits, aliases, suppressions, today)
    requires Lists(order, hits) && Mutual(hits, aliases)
    ensures Passes(report) <==>
              (forall s :: s in suppressions ==> !Expired(s, today))
              && forall id :: id in hits ==> Accepted(id, aliases, suppressions, today)
  {
    hide Expired, FindingsOf, Live, Packages, Covering, Passes;
    PassesIff(report, order, hits, aliases, suppressions, today);
    var live := Live(suppressions, today);
    FindingsAre(order, hits, aliases, live);
    if Passes(report) {
      forall id | id in hits ensures Accepted(id, aliases, suppressions, today) {
        EveryHitIsReported(order, hits, aliases, live, id);
        var f :| f in report.findings && GoesBy(f, id);
        assert f.id in hits && Accepted(f.id, aliases, suppressions, today);
        SameNames(f.id, id, hits, aliases, suppressions, today);
      }
    }
  }

  lemma SameNames(a: string, b: string, hits: Hits, aliases: Aliases, suppressions: seq<Suppression>, today: int)
    requires Mutual(hits, aliases) && a in hits && b in hits && (b == a || b in aliases(a))
    requires Accepted(a, aliases, suppressions, today)
    ensures Accepted(b, aliases, suppressions, today)
  {
    hide Expired, NamesOf;
    var s :| s in suppressions && !Expired(s, today) && s.id in NamesOf(a, aliases);
  }

  // ---------- whom the gate speaks for ----------

  ghost predicate FindingsAccepted(order: seq<string>, hits: Hits, aliases: Aliases, suppressions: seq<Suppression>,
                                   today: int) {
    forall f :: f in FindingsOf(order, hits, aliases, Live(suppressions, today)) ==>
      Accepted(f.id, aliases, suppressions, today)
  }

  ghost predicate HitsAccepted(hits: Hits, aliases: Aliases, suppressions: seq<Suppression>, today: int) {
    forall id :: id in hits ==> Accepted(id, aliases, suppressions, today)
  }

  /** Which advisories the findings are does not depend on what is accepted. */
  function Leads(order: seq<string>, hits: Hits, aliases: Aliases): seq<string> {
    IdsOf(FindingsOf(order, hits, aliases, map[]))
  }

  function IdsOf(findings: seq<Finding>): (ids: seq<string>)
    ensures |ids| == |findings| && forall k :: 0 <= k < |findings| ==> ids[k] == findings[k].id
  {
    seq(|findings|, k requires 0 <= k < |findings| => findings[k].id)
  }

  lemma {:induction false} LeadsAreTheFindings(order: seq<string>, hits: Hits, aliases: Aliases,
                                               live: map<string, Suppression>)
    ensures IdsOf(FindingsOf(order, hits, aliases, live)) == Leads(order, hits, aliases)
    ensures Named(FindingsOf(order, hits, aliases, live)) == Named(FindingsOf(order, hits, aliases, map[]))
  {
    hide Packages, Covering;
    if order != [] {
      var n := |order| - 1;
      LeadsAreTheFindings(order[..n], hits, aliases, live);
      NamedOneMore(FindingsOf(order[..n], hits, aliases, live), FindingFor(order[n], hits, aliases, live));
      NamedOneMore(FindingsOf(order[..n], hits, aliases, map[]), FindingFor(order[n], hits, aliases, map[]));
    }
  }

  lemma NamedOneMore(findings: seq<Finding>, f: Finding)
    ensures Named(findings + [f]) == Named(findings) + {f.id} + set a | a in f.aliases
    ensures IdsOf(findings + [f]) == IdsOf(findings) + [f.id]
  {
    FoundOneMore(findings, f);
  }

  /** All names of one advisory are names of the other; an empty one no loaded suppression has. */
  predicate NamesWithin(inner: string, outer: string, aliases: Aliases) {
    forall name :: name in NamesOf(inner, aliases) && name != "" ==> name in NamesOf(outer, aliases)
  }

  /** Every hit has a finding that goes by no name the hit does not list itself. */
  ghost predicate EveryHitIsLed(order: seq<string>, hits: Hits, aliases: Aliases) {
    forall h :: h in hits ==> exists id :: id in Leads(order, hits, aliases) && NamesWithin(id, h, aliases)
  }

  lemma WithinIsAccepted(inner: string, outer: string, aliases: Aliases, suppressions: seq<Suppression>, today: int)
    requires NamesWithin(inner, outer, aliases) && Accepted(inner, aliases, suppressions, today)
    requires AllLoadable(suppressions)
    ensures Accepted(outer, aliases, suppressions, today)
  {
    hide Expired, NamesOf;
    var s :| s in suppressions && !Expired(s, today) && s.id in NamesOf(inner, aliases);
    assert Loadable(s) && s.id in NamesOf(outer, aliases);
  }

  lemma Says()
    ensures !Text.IsBlank("accepted")
  {
    assert !Text.IsSpace("accepted"[0]);
  }

  /** Accepting, of each of these advisories, one name that h does not list accepts them all and not h. */
  lemma {:induction false} AcceptAround(ids: seq<string>, h: string, aliases: Aliases, today: int)
    returns (suppressions: seq<Suppression>)
    requires forall id :: id in ids ==> !NamesWithin(id, h, aliases)
    ensures forall id :: id in ids ==> Accepted(id, aliases, suppressions, today)
    ensures forall s :: s in suppressions ==> Loadable(s) && !Expired(s, today) && s.id !in NamesOf(h, aliases)
  {
    hide NamesOf;
    if ids == [] {
      suppressions := [];
    } else {
      var rest := AcceptAround(ids[1..], h, aliases, today);
      assert ids[0] in ids;
      var name :| name in NamesOf(ids[0], aliases) && name != "" && name !in NamesOf(h, aliases);
      var s := Suppression(name, "accepted", today);
      assert Loadable(s) by { Says(); }
      suppressions := [s] + rest;
      assert s in suppressions && forall r :: r in rest ==> r in suppressions;
      forall id | id in ids ensures Accepted(id, aliases, suppressions, today) {
        if id != ids[0] {
          assert id in ids[1..];
          var r :| r in rest && !Expired(r, today) && r.id in NamesOf(id, aliases);
          assert r in suppressions;
        }
      }
    }
  }

  lemma LeadsAreAccepted(order: seq<string>, hits: Hits, aliases: Aliases, suppressions: seq<Suppression>, today: int)
    ensures FindingsAccepted(order, hits, aliases, suppressions, today)
       <==> forall id :: id in Leads(order, hits, aliases) ==> Accepted(id, aliases, suppressions, today)
  {
    hide Accepted, FindingsOf, Live;
    var findings := FindingsOf(order, hits, aliases, Live(suppressions, today));
    LeadsAreTheFindings(order, hits, aliases, Live(suppressions, today));
    forall id ensures id in Leads(order, hits, aliases) <==> exists f :: f in findings && f.id == id {
      if f :| f in findings && f.id == id {
        var k :| 0 <= k < |findings| && findings[k] == f;
        assert IdsOf(findings)[k] == id;
      }
    }
  }

  lemma LeadsAreHits(order: seq<string>, hits: Hits, aliases: Aliases)
    requires Lists(order, hits)
    ensures forall id :: id in Leads(order, hits, aliases) ==> id in hits
  {
    hide FindingsOf;
    FindingsAre(order, hits, aliases, map[]);
  }

  /** Whatever the loaded list accepts, accepting every finding is accepting every hit advisory under a name it lists
      itself, exactly when every hit has a finding that goes by no other names. */
  lemma GateSpeaksForHitsIff(order: seq<string>, hits: Hits, aliases: Aliases, today: int)
    requires Lists(order, hits)
    ensures (forall suppressions :: AllLoadable(suppressions) ==>
               (FindingsAccepted(order, hits, aliases, suppressions, today)
                <==> HitsAccepted(hits, aliases, suppressions, today)))
       <==> EveryHitIsLed(order, hits, aliases)
  {
    hide Accepted, FindingsAccepted, Leads, NamesWithin;
    LeadsAreHits(order, hits, aliases);
    forall suppressions
      ensures FindingsAccepted(order, hits, aliases, suppressions, today)
         <==> forall id :: id in Leads(order, hits, aliases) ==> Accepted(id, aliases, suppressions, today)
    {
      LeadsAreAccepted(order, hits, aliases, suppressions, today);
    }
    if EveryHitIsLed(order, hits, aliases) {
      forall suppressions |
          AllLoadable(suppressions) && FindingsAccepted(order, hits, aliases, suppressions, today)
        ensures HitsAccepted(hits, aliases, suppressions, today)
      {
        forall h | h in hits ensures Accepted(h, aliases, suppressions, today) {
          var id :| id in Leads(order, hits, aliases) && NamesWithin(id, h, aliases);
          WithinIsAccepted(id, h, aliases, suppressions, today);
        }
      }
    } else {
      var h :| h in hits && forall id :: id in Leads(order, hits, aliases) ==> !NamesWithin(id, h, aliases);
      var suppressions := AcceptAround(Leads(order, hits, aliases), h, aliases, today);
      assert !Accepted(h, aliases, suppressions, today) by { NoneAccepts(h, aliases, suppressions, today); }
      assert FindingsAccepted(order, hits, aliases, suppressions, today);
    }
  }

  lemma NoneAccepts(h: string, aliases: Aliases, suppressions: seq<Suppression>, today: int)
    requires forall s :: s in suppressions ==> s.id !in NamesOf(h, aliases)
    ensures !Accepted(h, aliases, suppressions, today)
  {}

  /** The order `sorted` gives names in, by code points. */
  predicate Before(a: string, b: string) {
    b != "" && (a == "" || a[0] < b[0] || (a[0] == b[0] && Before(a[1..], b[1..])))
  }

  predicate Ascending(order: seq<string>) {
    forall i, j :: 0 <= i < j < |order| ==> Before(order[i], order[j])
  }

  function AsNamesB(id: string): seq<string> { if id == "A" then ["B"] else [] }

  /** An input the code does meet: A lists B as an alias and B lists nothing. Accepting A passes the gate, though B was
      hit and no name B lists is accepted. */
  lemma OneSidedAliasMasksAHit()
    ensures var hits := map["A" := {"p"}, "B" := {"q"}];
      var accepted := [Suppression("A", "accepted", 1)];
      && AllLoadable(accepted) && Ascending(["A", "B"]) && Lists(["A", "B"], hits)
      && Passes(Report(FindingsOf(["A", "B"], hits, AsNamesB, Live(accepted, 0)), ExpiredOnes(accepted, 0), {}))
      && !Accepted("B", AsNamesB, accepted, 0)
  {
    var hits: Hits := map["A" := {"p"}, "B" := {"q"}];
    var a := Suppression("A", "accepted", 1);
    Says();
    assert [a][..0] == [] && Live([], 0) == map[] && ExpiredOnes([], 0) == [];
    var live := Live([a], 0);
    assert live == map["A" := a];
    TwoFindings("A", "B", hits, AsNamesB, live);
    assert Covering(NamesOf("A", AsNamesB), live) == Some(a);
    assert NamesOf("B", AsNamesB) == ["B"];
    assert forall id :: id in ["A", "B"] <==> id in hits;
  }

  lemma TwoFindings(x: string, y: string, hits: Hits, aliases: Aliases, live: map<string, Suppression>)
    requires x != y
    ensures FindingsOf([x, y], hits, aliases, live)
         == [FindingFor(x, hits, aliases, live)]
            + if y in aliases(x) then [] else [FindingFor(y, hits, aliases, live)]
  {
    hide FindingsOf, Named, Used, Packages, Covering;
    var f := FindingFor(x, hits, aliases, live);
    var order := [x, y];
    NoneFound(order[..0], hits, aliases, live);
    NextFound(order, 0, hits, aliases, live);
    NextFound(order, 1, hits, aliases, live);
    assert order[..2] == order && [] + [f] == [f];
    FoundOneMore([], f);
  }

  // ---------- what the stale list is worth ----------

  /** The first of these names that a live suppression has. */
  predicate IsFirstLive(names: seq<string>, live: map<string, Suppression>, name: string) {
    exists k :: 0 <= k < |names| && names[k] == name && name in live && forall j :: 0 <= j < k ==> names[j] !in live
  }

  lemma {:induction false} CoveringIsFirst(names: seq<string>, live: map<string, Suppression>, name: string)
    ensures IsFirstLive(names, live, name) ==> Covering(names, live) == Some(live[name])
    ensures Covering(names, live).Some? ==>
              exists n :: n in live && IsFirstLive(names, live, n) && Covering(names, live).value == live[n]
  {
    if names != [] {
      var rest := names[1..];
      CoveringIsFirst(rest, live, name);
      if names[0] in live {
        assert IsFirstLive(names, live, names[0]);
      } else {
        if k :| 0 <= k < |names| && names[k] == name && name in live && forall j :: 0 <= j < k ==> names[j] !in live {
          assert rest[k - 1] == name && forall j :: 0 <= j < k - 1 ==> rest[j] == names[j + 1];
          assert IsFirstLive(rest, live, name);
        }
        if Covering(names, live).Some? {
          var n :| n in live && IsFirstLive(rest, live, n) && Covering(rest, live).value == live[n];
          var k :| 0 <= k < |rest| && rest[k] == n && n in live && forall j :: 0 <= j < k ==> rest[j] !in live;
          assert names[k + 1] == n && forall j :: 0 < j < k + 1 ==> names[j] == rest[j - 1];
          assert IsFirstLive(names, live, n);
        }
      }
    }
  }

  lemma {:induction false} UsedIs(findings: seq<Finding>, id: string)
    ensures id in Used(findings)
       <==> exists f :: f in findings && f.suppressedBy.Some? && f.suppressedBy.value.id == id
  {
    if findings != [] {
      var before, last := findings[..|findings| - 1], findings[|findings| - 1];
      UsedIs(before, id);
      assert forall f :: f in findings <==> f in before || f == last;
    }
  }

  /** An id is used exactly when it is the first live name of some finding. */
  lemma UsedIsFirstLive(order: seq<string>, hits: Hits, aliases: Aliases, live: map<string, Suppression>, id: string)
    requires forall name :: name in live ==> live[name].id == name
    ensures var findings := FindingsOf(order, hits, aliases, live);
      id in Used(findings) <==> exists f :: f in findings && IsFirstLive(NamesOf(f.id, aliases), live, id)
  {
    hide FindingsOf, Packages, IsFirstLive, Covering, NamesOf;
    var findings := FindingsOf(order, hits, aliases, live);
    UsedIs(findings, id);
    FindingsAre(order, hits, aliases, live);
    forall f | f in findings
      ensures f.suppressedBy.Some? && f.suppressedBy.value.id == id <==> IsFirstLive(NamesOf(f.id, aliases), live, id)
    {
      assert f.suppressedBy == Covering(NamesOf(f.id, aliases), live);
      CoveringIsFirst(NamesOf(f.id, aliases), live, id);
      if IsFirstLive(NamesOf(f.id, aliases), live, id) { FirstLiveIsLive(f.id, aliases, live, id); }
    }
  }

  lemma FirstLiveIsLive(id: string, aliases: Aliases, live: map<string, Suppression>, name: string)
    requires IsFirstLive(NamesOf(id, aliases), live, name)
    ensures name in live
  {}

  /** "Matches nothing in the tree" is true of every suppression listed as stale, for all the names each hit lists,
      exactly when each live one of those names is the first live name of some finding. */
  lemma StaleMatchesNothingIff(order: seq<string>, hits: Hits, aliases: Aliases, suppressions: seq<Suppression>,
                               today: int)
    ensures var live := Live(suppressions, today);
      var findings := FindingsOf(order, hits, aliases, live);
      (forall s :: s in live.Values && s.id !in Used(findings) ==>
         forall h :: h in hits ==> s.id !in NamesOf(h, aliases))
      <==> (forall h, name :: h in hits && name in NamesOf(h, aliases) && name in live ==>
              exists g :: g in findings && IsFirstLive(NamesOf(g.id, aliases), live, name))
  {
    hide FindingsOf, Used, IsFirstLive, Expired, NamesOf;
    var live := Live(suppressions, today);
    var findings := FindingsOf(order, hits, aliases, live);
    LiveById(suppressions, today);
    forall s | s in live.Values
      ensures s.id in live && live[s.id] == s
      ensures s.id in Used(findings) <==> exists g :: g in findings && IsFirstLive(NamesOf(g.id, aliases), live, s.id)
    {
      var id :| id in live && live[id] == s;
      UsedIsFirstLive(order, hits, aliases, live, s.id);
    }
    forall name | name in live ensures live[name] in live.Values && live[name].id == name {}
  }

  /** A suppression listed as matching nothing may still match: only the first name with one counts as used. */
  lemma StaleMayMatch()
    ensures var aliases := AsNamesB;
      var a, b := Suppression("A", "accepted", 1), Suppression("B", "accepted", 1);
      var findings := FindingsOf(["A"], map["A" := {"p"}], aliases, Live([a, b], 0));
      && AllLoadable([a, b]) && b in Live([a, b], 0).Values && b.id !in Used(findings)
      && b.id in NamesOf("A", aliases)
      && exists f :: f in findings && GoesBy(f, b.id)
  {
    Says();
    var hits: Hits := map["A" := {"p"}];
    var aliases := AsNamesB;
    var a, b := Suppression("A", "accepted", 1), Suppression("B", "accepted", 1);
    assert [a][..0] == [] && [a, b][..1] == [a] && Live([], 0) == map[];
    assert Live([a], 0) == map["A" := a];
    var live := Live([a, b], 0);
    assert live == map["A" := a]["B" := b];
    assert live["B"] == b;
    assert ["A"][..0] == [];
    var f := FindingFor("A", hits, aliases, live);
    assert FindingsOf(["A"], hits, aliases, live) == [f];
    assert [f][..0] == [] && f.suppressedBy == Some(a);
    assert Used([f]) == {"A"};
    assert f in FindingsOf(["A"], hits, aliases, live) && GoesBy(f, "B");
  }
}
