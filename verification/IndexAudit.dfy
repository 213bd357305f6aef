/** The exact index audit of `_index_integrity.py`: a paged scan of a backend keeps nine counters, and seven comparisons
    of counts then claim that the backend holds the published proof's points and nothing else. */
module IndexAudit {
  import opened Options
  import opened Sets

  /** What a well-formed row says of itself; only some sources carry a content identity. */
  datatype Identity = Identity(pointId: string, relPath: string, content: Option<string>)

  /** A row whose payload or physical id was refused says nothing. */
  datatype Row = Bad | Good(identity: Identity)

  datatype Evidence = Evidence(pointIds: set<string>, content: string)

  /** The proof's evidence, by path. */
  type Proof = map<string, Evidence>

  function Retained(p: Proof): set<string> {
    set path, id | path in p && id in p[path].pointIds :: id
  }

  /** What a published proof is: no path without points, and no point under two paths. */
  predicate WellFormed(p: Proof) {
    && (forall path :: path in p ==> p[path].pointIds != {})
    && (forall a, b :: a in p && b in p && a != b ==> p[a].pointIds !! p[b].pointIds)
  }

  // ---------- ledger lookups ----------

  function PointIdsFor(p: Proof, candidates: seq<string>): set<string> {
    set id | id in candidates && id in Retained(p)
  }

  function EvidenceFor(p: Proof, paths: seq<string>): Proof {
    map path | path in paths && path in p :: p[path]
  }

  datatype Kind = Matched | Extra | Foreign | Incompatible

  function KindOf(i: Identity, retained: set<string>, evidence: Proof): Kind {
    if i.pointId !in retained then Extra
    else if i.relPath !in evidence || i.pointId !in evidence[i.relPath].pointIds then Foreign
    else if i.content.Some? && i.content.value != evidence[i.relPath].content then Incompatible
    else Matched
  }

  // ---------- what the counters count ----------

  /** The identities of the rows that are well formed and the first to bear their point id. */
  function Fresh(rows: seq<Row>): (f: seq<Identity>)
    ensures |f| <= |rows|
  {
    if rows == [] then [] else
    var f := Fresh(rows[..|rows| - 1]);
    var row := rows[|rows| - 1];
    if row.Good? && row.identity.pointId !in Ids(f) then f + [row.identity] else f
  }

  function Ids(f: seq<Identity>): set<string> {
    set k | 0 <= k < |f| :: f[k].pointId
  }

  function Paths(f: seq<Identity>): set<string> {
    set k | 0 <= k < |f| :: f[k].relPath
  }

  function Observed(rows: seq<Row>): set<string> {
    set k | 0 <= k < |rows| && rows[k].Good? :: rows[k].identity.relPath
  }

  function Select(f: seq<Identity>, p: Proof, kind: Kind): (s: seq<Identity>)
    ensures |s| <= |f|
  {
    if f == [] then [] else
    var s := Select(f[..|f| - 1], p, kind);
    if KindOf(f[|f| - 1], Retained(p), p) == kind then s + [f[|f| - 1]] else s
  }

  /** Point ids by path, filled as `setdefault(path, set()).add(id)` fills it. */
  function Group(f: seq<Identity>): map<string, set<string>> {
    if f == [] then map[] else Added(Group(f[..|f| - 1]), f[|f| - 1])
  }

  function Added(g: map<string, set<string>>, i: Identity): map<string, set<string>> {
    g[i.relPath := (if i.relPath in g then g[i.relPath] else {}) + {i.pointId}]
  }

  function Sizes(f: seq<Identity>, p: Proof): map<string, nat> {
    map path | path in Paths(f) && path in p :: |p[path].pointIds|
  }

  datatype Tally = Tally(scanned: nat, matched: set<string>, byPath: map<string, set<string>>, observed: set<string>,
                         seen: set<string>, sizes: map<string, nat>, extra: nat, foreign: nat, incompatible: nat)

  /** The counters once all these rows were looked at and the fresh identities f judged. */
  function TotalsSoFar(rows: seq<Row>, f: seq<Identity>, p: Proof): Tally {
    var matched := Select(f, p, Matched);
    var firsts := Fresh(rows);
    Tally(|rows|, Ids(matched), Group(matched), Observed(rows), Ids(firsts), Sizes(firsts, p), |Select(f, p, Extra)|,
          |Select(f, p, Foreign)|, |rows| - |firsts| + |Select(f, p, Incompatible)|)
  }

  /** The counters after these rows, whatever pages they came in. */
  function Totals(rows: seq<Row>, p: Proof): Tally { TotalsSoFar(rows, Fresh(rows), p) }

  /** What holds of the counters after any page, whatever the ledger answered: each scanned point is in exactly one of
      four counts, and the size of every matched path is known. */
  predicate Sound(t: Tally, done: seq<Row>) {
    && t.scanned == |done| == |t.matched| + t.extra + t.foreign + t.incompatible
    && t.observed == Observed(done)
    && t.seen == Ids(Fresh(done))
    && t.matched <= t.seen
    && SizesKnown(t)
  }

  lemma FreshStep(done: seq<Row>, rows: seq<Row>, i: nat)
    requires i < |rows|
    ensures var f := Fresh(done + rows[..i]); var row := rows[i];
      && Fresh(done + rows[..i + 1])
         == (if row.Good? && row.identity.pointId !in Ids(f) then f + [row.identity] else f)
      && Observed(done + rows[..i + 1])
         == Observed(done + rows[..i]) + (if row.Good? then {row.identity.relPath} else {})
      && (row.Good? ==> Ids(f + [row.identity]) == Ids(f) + {row.identity.pointId})
  {
    var before, after := done + rows[..i], done + rows[..i + 1];
    assert after[..|after| - 1] == before && after[|after| - 1] == rows[i];
    if rows[i].Good? { IdsStep(Fresh(before), rows[i].identity); }
  }

  lemma IdsStep(f: seq<Identity>, x: Identity)
    ensures Ids(f + [x]) == Ids(f) + {x.pointId}
    ensures Paths(f + [x]) == Paths(f) + {x.relPath}
  {
    var g := f + [x];
    assert g[|f|] == x;
    assert forall k :: 0 <= k < |f| ==> g[k] == f[k];
  }

  lemma {:induction false} FreshDistinct(rows: seq<Row>)
    ensures forall a, b :: 0 <= a < b < |Fresh(rows)| ==> Fresh(rows)[a].pointId != Fresh(rows)[b].pointId
  {
    if rows != [] { FreshDistinct(rows[..|rows| - 1]); }
  }

  lemma SelectStep(f: seq<Identity>, x: Identity, p: Proof, kind: Kind)
    ensures Select(f + [x], p, kind)
         == if KindOf(x, Retained(p), p) == kind then Select(f, p, kind) + [x] else Select(f, p, kind)
  {
    assert (f + [x])[..|f|] == f;
  }

  lemma GroupStep(f: seq<Identity>, x: Identity)
    ensures Group(f + [x]) == Added(Group(f), x)
  {
    assert (f + [x])[..|f|] == f;
  }

  /** Judging one identity moves one count. */
  function Judged(t: Tally, x: Identity, kind: Kind): Tally {
    match kind
    case Extra => t.(extra := t.extra + 1)
    case Foreign => t.(foreign := t.foreign + 1)
    case Incompatible => t.(incompatible := t.incompatible + 1)
    case Matched => t.(matched := t.matched + {x.pointId}, byPath := Added(t.byPath, x))
  }

  lemma JudgeStep(rows: seq<Row>, f: seq<Identity>, x: Identity, p: Proof)
    ensures TotalsSoFar(rows, f + [x], p) == Judged(TotalsSoFar(rows, f, p), x, KindOf(x, Retained(p), p))
  {
    hide Fresh, Select, Group, Retained, KindOf, Ids, Observed, Sizes;
    SelectStep(f, x, p, Matched);
    SelectStep(f, x, p, Extra);
    SelectStep(f, x, p, Foreign);
    SelectStep(f, x, p, Incompatible);
    GroupStep(Select(f, p, Matched), x);
    IdsStep(Select(f, p, Matched), x);
  }

  /** The counters between two judgements: `left` of the scanned points are in none of the four counts yet. */
  predicate Pending(t: Tally, f: seq<Identity>, left: nat) {
    && t.scanned == |t.matched| + t.extra + t.foreign + t.incompatible + left
    && t.matched <= Ids(f)
    && SizesKnown(t)
  }

  lemma JudgedPending(t: Tally, f: seq<Identity>, x: Identity, kind: Kind, left: nat)
    requires left > 0 && Pending(t, f, left) && x.pointId !in Ids(f) && (kind == Matched ==> x.relPath in t.sizes)
    ensures Pending(Judged(t, x, kind), f + [x], left - 1)
    ensures var u := Judged(t, x, kind);
      u.scanned == t.scanned && u.observed == t.observed && u.seen == t.seen && u.sizes == t.sizes
  {
    hide Ids;
    IdsStep(f, x);
  }

  lemma LookupsSuffice(x: Identity, p: Proof, candidates: seq<string>, paths: seq<string>)
    requires x.pointId in candidates && x.relPath in paths
    ensures KindOf(x, PointIdsFor(p, candidates), EvidenceFor(p, paths)) == KindOf(x, Retained(p), p)
  {
    hide Retained;
  }

  lemma SizesOfTotals(rows: seq<Row>, f: seq<Identity>, p: Proof)
    ensures TotalsSoFar(rows, f, p).sizes == Sizes(Fresh(rows), p)
  {}

  function PointIds(f: seq<Identity>): (s: seq<string>)
    ensures |s| == |f| && forall k :: 0 <= k < |f| ==> s[k] == f[k].pointId
  {
    seq(|f|, k requires 0 <= k < |f| => f[k].pointId)
  }

  function RelPaths(f: seq<Identity>): (s: seq<string>)
    ensures |s| == |f| && forall k :: 0 <= k < |f| ==> s[k] == f[k].relPath
  {
    seq(|f|, k requires 0 <= k < |f| => f[k].relPath)
  }

  lemma SizesStep(f: seq<Identity>, more: seq<Identity>, p: Proof)
    ensures var e := EvidenceFor(p, RelPaths(more));
      Sizes(f + more, p) == Sizes(f, p) + map path | path in e :: |e[path].pointIds|
  {
    var e := EvidenceFor(p, RelPaths(more));
    var both := f + more;
    forall path ensures path in Paths(both) <==> path in Paths(f) || path in RelPaths(more) {
      if path in RelPaths(more) {
        var k :| 0 <= k < |more| && RelPaths(more)[k] == path;
        assert both[|f| + k].relPath == path;
      }
      if path in Paths(f) {
        var k :| 0 <= k < |f| && f[k].relPath == path;
        assert both[k].relPath == path;
      }
      if path in Paths(both) {
        var k :| 0 <= k < |both| && both[k].relPath == path;
        if k < |f| { assert f[k].relPath == path; } else { assert RelPaths(more)[k - |f|] == path; }
      }
    }
  }

  // ---------- the verdict ----------

  datatype Aggregate = Aggregate(identities: nat, points: nat)

  function AggregateOf(p: Proof): Aggregate { Aggregate(|p|, |Retained(p)|) }

  datatype Verdict = Consistent | Drift

  datatype Report = Report(verdict: Verdict, expected: Aggregate, observedIdentities: nat, scanned: nat, matched: nat,
                           missingPoints: nat, missingIdentities: nat, extra: nat, foreign: nat, incompatible: nat,
                           partial: nat)

  /** Every matched path has a recorded evidence size, so no lookup of one can fail. */
  predicate SizesKnown(t: Tally) { t.byPath.Keys <= t.sizes.Keys }

  function PartialPaths(t: Tally): set<string>
    requires SizesKnown(t)
  {
    set path | path in t.byPath && |t.byPath[path]| < t.sizes[path]
  }

  function AuditResult(expected: Aggregate, t: Tally): Report
    requires SizesKnown(t)
  {
    var matched := |t.matched|;
    var partial := |PartialPaths(t)|;
    var consistent :=
      && t.scanned == expected.points
      && matched == expected.points
      && |t.byPath| == expected.identities
      && t.extra == 0
      && t.foreign == 0
      && t.incompatible == 0
      && partial == 0;
    Report(if consistent then Consistent else Drift, expected, |t.observed|, t.scanned, matched,
           if expected.points > matched then expected.points - matched else 0,
           if expected.identities > |t.byPath| then expected.identities - |t.byPath| else 0,
           t.extra, t.foreign, t.incompatible, partial)
  }

  // ---------- the scan ----------

  /** The ledger at one instant, as its readers see it; `revision` is what a read token remembers. */
  datatype Snapshot = Snapshot(revision: nat, proof: Proof)

  /** A ledger over time: it never goes back to an earlier revision, and no revision names two proofs. */
  type Ledger = nat -> Snapshot

  ghost predicate Versioned(ledger: Ledger) {
    forall i: nat, j: nat :: i <= j ==>
      && ledger(i).revision <= ledger(j).revision
      && (ledger(i).revision == ledger(j).revision ==> ledger(i) == ledger(j))
  }

  datatype Page<Offset> = Page(rows: seq<Row>, next: Option<Offset>)

  datatype AuditFault = Oversized | DidNotAdvance | ReadConflict | StillScanning

  const AUDIT_PAGE_SIZE := 256

  class AuditCounters {
    var scannedPoints: nat
    var matchedIds: set<string>
    var matchedByPath: map<string, set<string>>
    var observedPaths: set<string>
    var seenIds: set<string>
    var evidenceSizes: map<string, nat>
    var extraPoints: nat
    var foreignPoints: nat
    var incompatiblePoints: nat

    constructor ()
      ensures Value() == Tally(0, {}, map[], {}, {}, map[], 0, 0, 0)
    {
      scannedPoints, extraPoints, foreignPoints, incompatiblePoints := 0, 0, 0, 0;
      matchedIds, observedPaths, seenIds := {}, {}, {};
      matchedByPath, evidenceSizes := map[], map[];
    }

    function Value(): Tally
      reads this
    {
      Tally(scannedPoints, matchedIds, matchedByPath, observedPaths, seenIds, evidenceSizes, extraPoints, foreignPoints,
            incompatiblePoints)
    }

    /** One page. The two lookups are separate transactions, so the ledger may have moved on between them. */
    method ClassifyPage(rows: seq<Row>, forIds: Proof, forPaths: Proof, ghost done: seq<Row>)
      requires Sound(Value(), done)
      modifies this
      ensures Sound(Value(), done + rows)
      ensures forIds == forPaths && old(Value()) == Totals(done, forIds) ==> Value() == Totals(done + rows, forIds)
    {
      hide Fresh, Ids, Paths, Observed, Select, Group, Retained, KindOf, Sizes;
      var identities := GatherIdentities(rows, done);
      ClassifyIdentities(identities, forIds, forPaths, done, done + rows);
    }

    /** The first half of a page: the identities of the rows that are well formed and new. */
    method GatherIdentities(rows: seq<Row>, ghost done: seq<Row>) returns (identities: seq<Identity>)
      requires observedPaths == Observed(done) && seenIds == Ids(Fresh(done))
      modifies this
      ensures Fresh(done + rows) == Fresh(done) + identities && |identities| <= |rows|
      ensures Value() == old(Value()).(scanned := old(scannedPoints) + |rows|, observed := Observed(done + rows),
                                       seen := Ids(Fresh(done + rows)),
                                       incompatible := old(incompatiblePoints) + |rows| - |identities|)
    {
      hide Fresh, Ids, Observed;
      ghost var before := Value();
      assert done + rows[..0] == done;
      scannedPoints := scannedPoints + |rows|;
      identities := [];
      var i := 0;
      while i < |rows|
        invariant 0 <= i <= |rows|
        invariant Fresh(done) + identities == Fresh(done + rows[..i])
        invariant |identities| <= i
        invariant Value() == before.(scanned := before.scanned + |rows|, observed := Observed(done + rows[..i]),
                                     seen := Ids(Fresh(done + rows[..i])),
                                     incompatible := before.incompatible + i - |identities|)
      {
        var row := rows[i];
        FreshStep(done, rows, i);
        i := i + 1;
        if row.Bad? {
          incompatiblePoints := incompatiblePoints + 1;
          continue;
        }
        observedPaths := observedPaths + {row.identity.relPath};
        if row.identity.pointId in seenIds {
          incompatiblePoints := incompatiblePoints + 1;
          continue;
        }
        seenIds := seenIds + {row.identity.pointId};
        identities := identities + [row.identity];
      }
      assert done + rows[..i] == done + rows;
    }

    method Judge(identity: Identity, retained: set<string>, evidence: Proof)
      modifies this
      ensures Value() == Judged(old(Value()), identity, KindOf(identity, retained, evidence))
    {
      if identity.pointId !in retained {
        extraPoints := extraPoints + 1;
      } else if identity.relPath !in evidence || identity.pointId !in evidence[identity.relPath].pointIds {
        foreignPoints := foreignPoints + 1;
      } else if identity.content.Some? && identity.content.value != evidence[identity.relPath].content {
        incompatiblePoints := incompatiblePoints + 1;
      } else {
        matchedIds := matchedIds + {identity.pointId};
        matchedByPath := Added(matchedByPath, identity);
      }
    }

    /** The second half of a page: the identities it gathered, against the ledger. */
    method ClassifyIdentities(identities: seq<Identity>, forIds: Proof, forPaths: Proof, ghost done: seq<Row>,
                              ghost all: seq<Row>)
      requires Fresh(all) == Fresh(done) + identities
      requires SizesKnown(Value()) && matchedIds <= Ids(Fresh(done))
      requires observedPaths == Observed(all) && seenIds == Ids(Fresh(all))
      requires scannedPoints == |all|
            == |matchedIds| + extraPoints + foreignPoints + incompatiblePoints + |identities|
      modifies this
      ensures Sound(Value(), all)
      ensures forIds == forPaths
              && old(Value()) == TotalsSoFar(all, Fresh(done), forIds).(sizes := Sizes(Fresh(done), forIds)) ==>
                Value() == Totals(all, forIds)
    {
      hide Fresh, Ids, Paths, Observed, Select, Group, Retained, Sizes, TotalsSoFar, PointIdsFor, EvidenceFor, Added,
           Judged;
      ghost var head, p := Fresh(done), forIds;
      ghost var steady := forIds == forPaths && Value() == TotalsSoFar(all, head, p).(sizes := Sizes(head, p));
      var candidates, paths := PointIds(identities), RelPaths(identities);
      var retained := PointIdsFor(forIds, candidates);
      var evidence := EvidenceFor(forPaths, paths);
      evidenceSizes := evidenceSizes + map path | path in evidence :: |evidence[path].pointIds|;
      SizesStep(head, identities, forPaths);
      SizesOfTotals(all, head, p);
      assert head + identities[..0] == head;
      ghost var now := Value();
      var j := 0;
      while j < |identities|
        invariant 0 <= j <= |identities|
        invariant scannedPoints == now.scanned && observedPaths == now.observed && seenIds == now.seen
        invariant evidenceSizes == now.sizes
        invariant Pending(Value(), head + identities[..j], |identities| - j)
        invariant steady ==> Value() == TotalsSoFar(all, head + identities[..j], p)
      {
        hide Pending, SizesKnown;
        var identity := identities[j];
        ghost var was, kind := Value(), KindOf(identity, retained, evidence);
        Judge(identity, retained, evidence);
        j := j + 1;
        assert kind == Matched ==> identity.relPath in was.sizes;
        hide KindOf;
        NextIdentity(all, head, identities, j - 1);
        JudgedPending(was, head + identities[..j - 1], identity, kind, |identities| - (j - 1));
        if steady {
          LookupsSuffice(identity, p, candidates, paths);
          JudgeStep(all, head + identities[..j - 1], identity, p);
        }
      }
      assert head + identities[..j] == Fresh(all);
    }
  }

  /** The next identity is new to all before it. */
  lemma NextIdentity(all: seq<Row>, head: seq<Identity>, identities: seq<Identity>, j: nat)
    requires Fresh(all) == head + identities && j < |identities|
    ensures head + identities[..j + 1] == head + identities[..j] + [identities[j]]
    ensures identities[j].pointId !in Ids(head + identities[..j])
    ensures Ids(head + identities[..j + 1]) == Ids(head + identities[..j]) + {identities[j].pointId}
  {
    hide Fresh;
    FreshDistinct(all);
    assert Fresh(all)[|head| + j] == identities[j];
    assert head + identities[..j] == Fresh(all)[..|head| + j];
    assert head + identities[..j + 1] == head + identities[..j] + [identities[j]];
    IdsStep(head + identities[..j], identities[j]);
  }

  // ---------- the audit ----------

  function Flatten<Offset>(pages: seq<Page<Offset>>): seq<Row> {
    if pages == [] then [] else Flatten(pages[..|pages| - 1]) + pages[|pages| - 1].rows
  }

  /** The cursor that asks for page n. */
  function OffsetOf<Offset>(pages: seq<Page<Offset>>, n: nat): Option<Offset>
    requires n <= |pages|
  {
    if n == 0 then None else pages[n - 1].next
  }

  /** Every answer so far named a page of lawful size and a new cursor. */
  ghost predicate GoesOn<Offset>(pages: seq<Page<Offset>>, n: nat)
    requires n <= |pages|
  {
    forall k :: 0 <= k < n ==>
      |pages[k].rows| <= AUDIT_PAGE_SIZE && pages[k].next.Some? && pages[k].next != OffsetOf(pages, k)
  }

  /** `pages` is what the backend would answer, one scroll after another; `ledger` is read twice for each of them, and
      once more at the end to see whether its revision is still the one the proof was taken at. */
  method AuditIndex<Offset(==)>(ledger: Ledger, pages: seq<Page<Offset>>) returns (result: Result<Report, AuditFault>,
                                                                                   n: nat)
    requires Versioned(ledger)
    ensures n <= |pages| && (result.Err? && !result.error.ReadConflict? ==> GoesOn(pages, n))
    ensures result.Ok? || result.error.ReadConflict? ==>
              n > 0 && GoesOn(pages, n - 1) && |pages[n - 1].rows| <= 256 && pages[n - 1].next == None
    // whatever the ledger did meanwhile, an answer is the one its first proof gives for the rows scanned
    ensures result.Ok? ==> result.value == ReportOn(Flatten(pages[..n]), ledger(0).proof)
    ensures result == Err(ReadConflict) ==> ledger(2 * n + 1).revision != ledger(0).revision
    ensures result == Err(Oversized) ==> n < |pages| && |pages[n].rows| > 256
    ensures result == Err(DidNotAdvance) ==>
              n < |pages| && pages[n].next.Some? && pages[n].next == OffsetOf(pages, n)
    ensures result == Err(StillScanning) ==> n == |pages|
  {
    hide Fresh, Ids, Observed, SizesKnown, AuditResult, Totals, Versioned, Sound, GoesOn, Flatten, Retained;
    var proof, token := ledger(0).proof, ledger(0).revision;
    var counters := new AuditCounters();
    var offset: Option<Offset> := None;
    n := 0;
    EmptyTotals(proof);
    assert Flatten(pages[..0]) == [] && GoesOn(pages, 0) by { NothingScanned(pages); }
    while true
      invariant n <= |pages| && GoesOn(pages, n) && offset == OffsetOf(pages, n) && fresh(counters)
      invariant Sound(counters.Value(), Flatten(pages[..n]))
      invariant ledger(2 * n).revision == token ==> counters.Value() == Totals(Flatten(pages[..n]), proof)
      decreases |pages| - n
    {
      if n == |pages| {
        return Err(StillScanning), n;
      }
      var page := pages[n];
      if |page.rows| > AUDIT_PAGE_SIZE {
        return Err(Oversized), n;
      }
      ghost var done := Flatten(pages[..n]);
      PageUnmoved(ledger, n);
      counters.ClassifyPage(page.rows, ledger(2 * n + 1).proof, ledger(2 * n + 2).proof, done);
      FlattenStep(pages, n);
      if page.next.None? {
        n := n + 1;
        break;
      }
      if page.next == offset {
        return Err(DidNotAdvance), n;
      }
      GoesOnStep(pages, n);
      offset := page.next;
      n := n + 1;
    }
    if ledger(2 * n + 1).revision != token {
      return Err(ReadConflict), n;
    }
    Unmoved(ledger, 2 * n, 2 * n + 1);
    SoundKnowsSizes(counters.Value(), Flatten(pages[..n]));
    result := Ok(AuditResult(AggregateOf(proof), counters.Value()));
  }

  lemma NothingScanned<Offset>(pages: seq<Page<Offset>>)
    ensures Flatten(pages[..0]) == [] && GoesOn(pages, 0)
  {}

  lemma FlattenStep<Offset>(pages: seq<Page<Offset>>, n: nat)
    requires n < |pages|
    ensures Flatten(pages[..n + 1]) == Flatten(pages[..n]) + pages[n].rows
  {
    assert pages[..n + 1][..n] == pages[..n];
  }

  lemma GoesOnStep<Offset>(pages: seq<Page<Offset>>, n: nat)
    requires n < |pages| && GoesOn(pages, n) && |pages[n].rows| <= AUDIT_PAGE_SIZE
    requires pages[n].next.Some? && pages[n].next != OffsetOf(pages, n)
    ensures GoesOn(pages, n + 1)
  {}

  /** A token that is still good at the end was good at every lookup. */
  lemma Unmoved(ledger: Ledger, k: nat, end: nat)
    requires Versioned(ledger) && k <= end && ledger(end).revision == ledger(0).revision
    ensures ledger(k) == ledger(0)
  {}

  /** A revision found unmoved after a page was unmoved before and between its two looks. */
  lemma PageUnmoved(ledger: Ledger, n: nat)
    requires Versioned(ledger)
    ensures ledger(2 * n + 2).revision == ledger(0).revision ==>
              ledger(2 * n) == ledger(2 * n + 1) == ledger(2 * n + 2) == ledger(0)
  {
    if ledger(2 * n + 2).revision == ledger(0).revision {
      Unmoved(ledger, 2 * n, 2 * n + 2);
      Unmoved(ledger, 2 * n + 1, 2 * n + 2);
      Unmoved(ledger, 2 * n + 2, 2 * n + 2);
    }
  }

  lemma SoundKnowsSizes(t: Tally, done: seq<Row>)
    requires Sound(t, done)
    ensures SizesKnown(t)
  {}

  lemma EmptyTotals(p: Proof)
    ensures Totals([], p) == Tally(0, {}, map[], {}, {}, map[], 0, 0, 0)
    ensures Sound(Totals([], p), [])
  {}

  function ReportOn(rows: seq<Row>, p: Proof): Report {
    TotalsAreSound(rows, p);
    AuditResult(AggregateOf(p), Totals(rows, p))
  }

  lemma {:induction false} TotalsPending(rows: seq<Row>, p: Proof, n: nat)
    requires n <= |Fresh(rows)|
    ensures Pending(TotalsSoFar(rows, Fresh(rows)[..n], p), Fresh(rows)[..n], |Fresh(rows)| - n)
  {
    hide *;
    var f := Fresh(rows);
    if n == 0 {
      NothingJudged(rows, p);
    } else {
      TotalsPending(rows, p, n - 1);
      assert f == [] + f;
      NextIdentity(rows, [], f, n - 1);
      assert [] + f[..n - 1] == f[..n - 1] && [] + f[..n] == f[..n];
      JudgeStep(rows, f[..n - 1], f[n - 1], p);
      SizesOfTotals(rows, f[..n - 1], p);
      var x := f[n - 1];
      assert KindOf(x, Retained(p), p) == Matched ==> x.relPath in Sizes(f, p) by { MatchedIsSized(f, n - 1, p); }
      JudgedPending(TotalsSoFar(rows, f[..n - 1], p), f[..n - 1], x, KindOf(x, Retained(p), p), |f| - n + 1);
    }
  }

  lemma NothingJudged(rows: seq<Row>, p: Proof)
    ensures Pending(TotalsSoFar(rows, [], p), [], |Fresh(rows)|)
  {
    hide Fresh, Observed;
  }

  lemma MatchedIsSized(f: seq<Identity>, k: nat, p: Proof)
    requires k < |f|
    ensures KindOf(f[k], Retained(p), p) == Matched ==> f[k].relPath in Sizes(f, p)
  {}

  /** Each scanned row is counted once; every matched path has its evidence size. */
  lemma TotalsAreSound(rows: seq<Row>, p: Proof)
    ensures Sound(Totals(rows, p), rows)
  {
    hide Fresh, Ids, Select, Observed, Group, Sizes;
    assert Fresh(rows)[..|Fresh(rows)|] == Fresh(rows);
    TotalsPending(rows, p, |Fresh(rows)|);
  }

  // ---------- counting is enough ----------

  predicate Proven(x: Identity, p: Proof) {
    && x.relPath in p
    && x.pointId in p[x.relPath].pointIds
    && (x.content.Some? ==> x.content.value == p[x.relPath].content)
  }

  predicate AllProven(rows: seq<Row>, p: Proof) {
    forall k :: 0 <= k < |rows| ==> rows[k].Good? && Proven(rows[k].identity, p)
  }

  predicate HoldsPoint(rows: seq<Row>, path: string, id: string) {
    exists k :: 0 <= k < |rows| && rows[k].Good? && rows[k].identity.relPath == path && rows[k].identity.pointId == id
  }

  predicate Covers(rows: seq<Row>, p: Proof) {
    forall path, id :: path in p && id in p[path].pointIds ==> HoldsPoint(rows, path, id)
  }

  /** The rows are in bijection with the proof's points: each row is a point at its own path with the content the proof
      records, no two rows are one point, and every point has its row. */
  predicate Exact(rows: seq<Row>, p: Proof) {
    && AllProven(rows, p)
    && Covers(rows, p)
    && forall a, b :: 0 <= a < b < |rows| && rows[a].Good? && rows[b].Good? ==>
         rows[a].identity.pointId != rows[b].identity.pointId
  }

  lemma {:induction false} IdsSize(f: seq<Identity>)
    ensures |Ids(f)| <= |f|
    ensures (forall a, b :: 0 <= a < b < |f| ==> f[a].pointId != f[b].pointId) ==> |Ids(f)| == |f|
  {
    if f != [] {
      var g, x := f[..|f| - 1], f[|f| - 1];
      assert f == g + [x];
      IdsStep(g, x);
      IdsSize(g);
    }
  }

  lemma {:induction false} SelectedIn(f: seq<Identity>, p: Proof, kind: Kind)
    ensures forall k :: 0 <= k < |Select(f, p, kind)| ==>
              KindOf(Select(f, p, kind)[k], Retained(p), p) == kind && Select(f, p, kind)[k] in f
    ensures |Select(f, p, kind)| == |f| ==> Select(f, p, kind) == f
    ensures (forall k :: 0 <= k < |f| ==> KindOf(f[k], Retained(p), p) == kind) ==> Select(f, p, kind) == f
    ensures (forall k :: 0 <= k < |f| ==> KindOf(f[k], Retained(p), p) != kind) ==> Select(f, p, kind) == []
  {
    hide KindOf, Retained;
    if f != [] { SelectedIn(f[..|f| - 1], p, kind); }
  }

  lemma {:induction false} FreshFrom(rows: seq<Row>)
    ensures forall x :: x in Fresh(rows) ==> Good(x) in rows
    ensures forall k :: 0 <= k < |rows| && rows[k].Good? ==> rows[k].identity.pointId in Ids(Fresh(rows))
    ensures |Fresh(rows)| == |rows| ==> forall k :: 0 <= k < |rows| ==> rows[k] == Good(Fresh(rows)[k])
  {
    if rows != [] {
      var before, row := rows[..|rows| - 1], rows[|rows| - 1];
      FreshFrom(before);
      if row.Good? { IdsStep(Fresh(before), row.identity); }
    }
  }

  lemma ProvenIsMatched(x: Identity, p: Proof)
    ensures Proven(x, p) <==> KindOf(x, Retained(p), p) == Matched
  {}

  lemma MatchedAreRetained(rows: seq<Row>, p: Proof)
    ensures Totals(rows, p).matched <= Retained(p)
    ensures |Totals(rows, p).matched| <= |Select(Fresh(rows), p, Matched)| <= |Fresh(rows)| <= |rows|
  {
    hide Fresh, Select, Group, Observed, Sizes;
    SelectedIn(Fresh(rows), p, Matched);
    IdsSize(Select(Fresh(rows), p, Matched));
  }

  lemma CountsMatchAll(rows: seq<Row>, p: Proof)
    requires |rows| == |Totals(rows, p).matched| == |Retained(p)|
    ensures Ids(Fresh(rows)) == Retained(p) && |Fresh(rows)| == |rows|
    ensures forall k :: 0 <= k < |rows| ==> rows[k] == Good(Fresh(rows)[k]) && Proven(Fresh(rows)[k], p)
  {
    hide Fresh, Select, Group, Observed, Sizes, KindOf, Retained, Proven, Ids;
    MatchedAreRetained(rows, p);
    SameSize(Totals(rows, p).matched, Retained(p));
    var f := Fresh(rows);
    SelectedIn(f, p, Matched);
    FreshFrom(rows);
    forall k | 0 <= k < |rows| ensures rows[k] == Good(f[k]) && Proven(f[k], p) { ProvenIsMatched(f[k], p); }
  }

  /** Two of the seven comparisons already force the bijection. */
  lemma CountsForceExact(rows: seq<Row>, p: Proof)
    requires WellFormed(p)
    requires |rows| == |Totals(rows, p).matched| == |Retained(p)|
    ensures Exact(rows, p)
  {
    hide Fresh, Totals;
    CountsMatchAll(rows, p);
    FreshDistinct(rows);
    var f := Fresh(rows);
    forall path, id | path in p && id in p[path].pointIds ensures HoldsPoint(rows, path, id) {
      assert id in Retained(p);
      var k :| 0 <= k < |f| && f[k].pointId == id;
      assert Proven(f[k], p);
      assert f[k].relPath == path;
    }
  }

  lemma ProvenRowsMatch(rows: seq<Row>, p: Proof)
    requires AllProven(rows, p) && Covers(rows, p)
    ensures Select(Fresh(rows), p, Matched) == Fresh(rows) && Totals(rows, p).matched == Retained(p)
  {
    hide Fresh, Select, Group, Observed, Sizes, KindOf;
    var f := Fresh(rows);
    FreshFrom(rows);
    forall k | 0 <= k < |f| ensures KindOf(f[k], Retained(p), p) == Matched {
      assert Good(f[k]) in rows;
      ProvenIsMatched(f[k], p);
    }
    SelectedIn(f, p, Matched);
    MatchedAreRetained(rows, p);
    forall id | id in Retained(p) ensures id in Ids(f) {
      var path :| path in p && id in p[path].pointIds;
      assert HoldsPoint(rows, path, id);
    }
  }

  lemma {:induction false} Grouped(f: seq<Identity>)
    ensures Group(f).Keys == Paths(f)
    ensures forall path, id :: path in Group(f) ==>
              (id in Group(f)[path] <==> exists k :: 0 <= k < |f| && f[k].relPath == path && f[k].pointId == id)
  {
    if f != [] {
      var g, x := f[..|f| - 1], f[|f| - 1];
      assert f == g + [x];
      Grouped(g);
      IdsStep(g, x);
      forall path, id | path in Group(f)
        ensures id in Group(f)[path] <==> exists k :: 0 <= k < |f| && f[k].relPath == path && f[k].pointId == id
      {
        if k :| 0 <= k < |f| && f[k].relPath == path && f[k].pointId == id {
          if k < |g| { assert g[k] == f[k]; }
        }
        if path in Group(g) && id in Group(g)[path] {
          var k :| 0 <= k < |g| && g[k].relPath == path && g[k].pointId == id;
          assert f[k] == g[k];
        }
      }
    }
  }

  lemma ExactIsConsistent(rows: seq<Row>, p: Proof)
    requires WellFormed(p) && Exact(rows, p)
    ensures ReportOn(rows, p).verdict.Consistent?
    ensures |rows| == |Totals(rows, p).matched| == |Retained(p)|
  {
    hide Fresh, Select, Group, Observed, KindOf;
    var f := Fresh(rows);
    AllFresh(rows);
    ProvenRowsMatch(rows, p);
    FreshDistinct(rows);
    IdsSize(f);
    forall k | 0 <= k < |f| ensures KindOf(f[k], Retained(p), p) == Matched { ProvenIsMatched(f[k], p); }
    SelectedIn(f, p, Extra);
    SelectedIn(f, p, Foreign);
    SelectedIn(f, p, Incompatible);
    ExactGroups(rows, p);
    TotalsAreSound(rows, p);
  }

  lemma {:induction false} AllFresh(rows: seq<Row>)
    requires forall k :: 0 <= k < |rows| ==> rows[k].Good?
    requires forall a, b :: 0 <= a < b < |rows| ==> rows[a].identity.pointId != rows[b].identity.pointId
    ensures |Fresh(rows)| == |rows| && forall k :: 0 <= k < |rows| ==> rows[k] == Good(Fresh(rows)[k])
  {
    if rows != [] { AllFresh(rows[..|rows| - 1]); }
  }

  lemma ExactGroup(rows: seq<Row>, p: Proof, path: string)
    requires WellFormed(p) && Exact(rows, p) && |Fresh(rows)| == |rows|
    requires forall k :: 0 <= k < |rows| ==> rows[k] == Good(Fresh(rows)[k])
    ensures path in p <==> path in Group(Fresh(rows))
    ensures path in p ==> Group(Fresh(rows))[path] == p[path].pointIds
  {
    hide Fresh, Group;
    var f := Fresh(rows);
    Grouped(f);
    if path in p {
      var one :| one in p[path].pointIds;
      assert HoldsPoint(rows, path, one);
      forall id ensures id in Group(f)[path] <==> id in p[path].pointIds {
        if id in p[path].pointIds { assert HoldsPoint(rows, path, id); }
      }
    }
  }

  lemma ExactGroups(rows: seq<Row>, p: Proof)
    requires WellFormed(p) && Exact(rows, p)
    ensures var t := Totals(rows, p); |t.byPath| == |p| && SizesKnown(t) && PartialPaths(t) == {}
  {
    hide Fresh, Select, Group, Observed, Retained, WellFormed, Exact, Sizes;
    var t, f := Totals(rows, p), Fresh(rows);
    assert |f| == |rows| && forall k :: 0 <= k < |rows| ==> rows[k] == Good(f[k]) by { ExactAllFresh(rows, p); }
    assert t.byPath == Group(f) by { ExactMatches(rows, p); }
    TotalsAreSound(rows, p);
    forall path ensures (path in p <==> path in t.byPath) && (path in p ==> t.byPath[path] == p[path].pointIds) {
      ExactGroup(rows, p, path);
    }
    assert t.byPath.Keys == p.Keys;
    assert |t.byPath| == |t.byPath.Keys| && |p| == |p.Keys|;
    SizesAreEvidence(f, p);
  }

  lemma SizesAreEvidence(f: seq<Identity>, p: Proof)
    ensures forall path :: path in Sizes(f, p) ==> path in p && Sizes(f, p)[path] == |p[path].pointIds|
  {}

  lemma ExactAllFresh(rows: seq<Row>, p: Proof)
    requires Exact(rows, p)
    ensures |Fresh(rows)| == |rows| && forall k :: 0 <= k < |rows| ==> rows[k] == Good(Fresh(rows)[k])
  {
    hide Fresh;
    AllFresh(rows);
  }

  lemma ExactMatches(rows: seq<Row>, p: Proof)
    requires Exact(rows, p)
    ensures Select(Fresh(rows), p, Matched) == Fresh(rows)
  {
    hide Fresh, Select;
    ProvenRowsMatch(rows, p);
  }

  /** The audit says CONSISTENT exactly when the scanned rows are in bijection with the proof's points. */
  lemma ConsistentIffExact(rows: seq<Row>, p: Proof)
    requires WellFormed(p)
    ensures ReportOn(rows, p).verdict.Consistent? <==> Exact(rows, p)
  {
    hide Fresh, Select, Group, Observed, KindOf, Retained, Exact, Sizes;
    if ReportOn(rows, p).verdict.Consistent? { CountsForceExact(rows, p); }
    if Exact(rows, p) { ExactIsConsistent(rows, p); }
  }

  /** Of a well-formed proof two counts decide; the other five comparisons never change the verdict. */
  lemma TwoCountsDecide(rows: seq<Row>, p: Proof)
    requires WellFormed(p)
    ensures var report := ReportOn(rows, p);
      report.verdict.Consistent? <==> report.scanned == report.matched == report.expected.points
  {
    hide Fresh, Select, Group, Observed, KindOf, Retained, Exact, Sizes;
    if |rows| == |Totals(rows, p).matched| == |Retained(p)| {
      CountsForceExact(rows, p);
      ExactIsConsistent(rows, p);
    }
  }

  /** The verdict does not depend on the order of the rows. */
  lemma OrderIsIrrelevant(a: seq<Row>, b: seq<Row>, p: Proof)
    requires WellFormed(p) && multiset(a) == multiset(b)
    ensures ReportOn(a, p).verdict == ReportOn(b, p).verdict
  {
    hide ReportOn;
    ConsistentIffExact(a, p);
    ConsistentIffExact(b, p);
    if Exact(a, p) { ExactInAnyOrder(a, b, p); }
    if Exact(b, p) { ExactInAnyOrder(b, a, p); }
  }

  lemma ExactInAnyOrder(a: seq<Row>, b: seq<Row>, p: Proof)
    requires WellFormed(p) && multiset(a) == multiset(b) && Exact(a, p)
    ensures Exact(b, p)
  {
    hide Fresh, Select, Group, Observed, KindOf, Retained, Sizes, ReportOn;
    ExactIsConsistent(a, p);
    assert |a| == |multiset(a)| == |multiset(b)| == |b|;
    forall row | row in b ensures row in a { assert row in multiset(b); }
    forall row | row in a ensures row in b { assert row in multiset(a); }
    forall k | 0 <= k < |b| ensures b[k].Good? && Proven(b[k].identity, p) { assert b[k] in a; }
    forall path, id | path in p && id in p[path].pointIds ensures HoldsPoint(b, path, id) {
      assert HoldsPoint(a, path, id);
      var k :| 0 <= k < |a| && a[k].Good? && a[k].identity.relPath == path && a[k].identity.pointId == id;
      assert a[k] in b;
    }
    ProvenRowsMatch(b, p);
    CountsForceExact(b, p);
  }

  /** The counters themselves do: of two rows for one point the first is judged and the second is refused. */
  lemma CountersDependOnOrder()
    ensures var p: Proof := map["a.md" := Evidence({"1"}, "h")];
      var mine, stray := Good(Identity("1", "a.md", None)), Good(Identity("1", "b.md", None));
      && WellFormed(p)
      && Totals([mine, stray], p).foreign == 0 && |Totals([mine, stray], p).matched| == 1
      && Totals([stray, mine], p).foreign == 1 && Totals([stray, mine], p).matched == {}
  {
    hide Fresh, Select, Observed, Sizes, Group, Ids, KindOf;
    var p: Proof := map["a.md" := Evidence({"1"}, "h")];
    var i, j := Identity("1", "a.md", None), Identity("1", "b.md", None);
    assert "a.md" in p && "1" in p["a.md"].pointIds && "1" in Retained(p);
    ProvenIsMatched(i, p);
    StrayIsForeign(j, p);
    FirstOfTwo(i, j, p, Matched);
    FirstOfTwo(i, j, p, Foreign);
    FirstOfTwo(j, i, p, Matched);
    FirstOfTwo(j, i, p, Foreign);
  }

  lemma StrayIsForeign(x: Identity, p: Proof)
    requires x.pointId in Retained(p) && x.relPath !in p
    ensures KindOf(x, Retained(p), p) == Foreign
  {}

  lemma FirstOfTwo(i: Identity, j: Identity, p: Proof, kind: Kind)
    requires i.pointId == j.pointId
    ensures var judged := Select(Fresh([Good(i), Good(j)]), p, kind);
      if KindOf(i, Retained(p), p) == kind then judged == [i] && |Ids(judged)| == 1
      else judged == [] && Ids(judged) == {}
  {
    hide KindOf, Retained;
    var rows := [Good(i), Good(j)];
    assert rows[..1] == [Good(i)] && [Good(i)][..0] == [];
    assert Fresh([Good(i)]) == [] + [i] == [i];
    IdsStep([], i);
    assert [] + [i] == [i] && Ids([]) == {};
    assert Fresh(rows) == [i];
    SelectStep([], i, p, kind);
    assert Ids([i]) == {i.pointId};
  }
}
