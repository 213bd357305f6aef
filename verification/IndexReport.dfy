/** What each number of an index audit's report says of the scanned rows and the proof, without the counters. */
module IndexReport {
  import opened Options
  import opened Sets
  import opened IndexAudit

  // ---------- rows and points ----------

  /** Row k is well formed and the first well-formed one to bear its point. */
  predicate First(rows: seq<Row>, k: nat)
    requires k < |rows|
  {
    rows[k].Good? &&
    forall j :: 0 <= j < k && rows[j].Good? ==> rows[j].identity.pointId != rows[k].identity.pointId
  }

  predicate UnderOwn(x: Identity, p: Proof) { x.relPath in p && x.pointId in p[x.relPath].pointIds }

  predicate UnderSome(x: Identity, p: Proof) { exists path :: path in p && x.pointId in p[path].pointIds }

  function FirstRows(rows: seq<Row>): set<nat> { set k: nat | k < |rows| && First(rows, k) }

  /** The points that have their row: first, under its own path, with the content the proof records if it carries
      any. */
  function ProvenRows(rows: seq<Row>, p: Proof): set<nat> {
    set k | k in FirstRows(rows) && Proven(rows[k].identity, p)
  }

  /** Points under no path of the proof. */
  function ExtraRows(rows: seq<Row>, p: Proof): set<nat> {
    set k | k in FirstRows(rows) && !UnderSome(rows[k].identity, p)
  }

  /** Points under some path of the proof, and not under the row's own. */
  function ForeignRows(rows: seq<Row>, p: Proof): set<nat> {
    set k | k in FirstRows(rows) && UnderSome(rows[k].identity, p) && !UnderOwn(rows[k].identity, p)
  }

  /** All the rest: malformed rows, further rows for one point, and content that is not the proof's. */
  function IncompatibleRows(rows: seq<Row>, p: Proof): set<nat> {
    set k: nat | k < |rows| &&
      (!First(rows, k) || (UnderOwn(rows[k].identity, p) && !Proven(rows[k].identity, p)))
  }

  predicate HasRow(rows: seq<Row>, p: Proof, path: string, id: string) {
    exists k :: k in ProvenRows(rows, p) && rows[k].identity == Identity(id, path, rows[k].identity.content)
  }

  function MissingPoints(rows: seq<Row>, p: Proof): set<string> {
    set path, id | path in p && id in p[path].pointIds && (forall q :: q in p ==> !HasRow(rows, p, q, id)) :: id
  }

  function MissingPaths(rows: seq<Row>, p: Proof): set<string> {
    set path | path in p && forall id :: id in p[path].pointIds ==> !HasRow(rows, p, path, id)
  }

  /** Paths of which some points have their row and some have not. */
  function PartlyThere(rows: seq<Row>, p: Proof): set<string> {
    set path | path in p
      && (exists id :: id in p[path].pointIds && HasRow(rows, p, path, id))
      && (exists id :: id in p[path].pointIds && !HasRow(rows, p, path, id))
  }

  // ---------- the counters and these rows ----------

  function KindRows(rows: seq<Row>, p: Proof, kind: Kind): set<nat> {
    set k | k in FirstRows(rows) && KindOf(rows[k].identity, Retained(p), p) == kind
  }

  lemma FirstOneMore(before: seq<Row>, row: Row)
    ensures var n := |before|;
      FirstRows(before + [row])
      == FirstRows(before) + if row.Good? && row.identity.pointId !in Ids(Fresh(before)) then {n} else {}
    ensures |before| !in FirstRows(before)
  {
    hide *;
    var n, rows := |before|, before + [row];
    var more := if row.Good? && row.identity.pointId !in Ids(Fresh(before)) then {n} else {};
    LastIsFirst(before, row);
    forall k: nat ensures k in FirstRows(rows) <==> k in FirstRows(before) + more {
      IsFirstRow(rows, k);
      IsFirstRow(before, k);
      if k < n { FirstStays(before, row, k); }
    }
    IsFirstRow(before, n);
  }

  lemma IsFirstRow(rows: seq<Row>, k: nat)
    ensures k in FirstRows(rows) <==> k < |rows| && First(rows, k)
  {}

  lemma FirstStays(before: seq<Row>, row: Row, k: nat)
    requires k < |before|
    ensures First(before + [row], k) <==> First(before, k)
  {
    assert forall j :: 0 <= j <= k ==> (before + [row])[j] == before[j];
  }

  lemma LastIsFirst(before: seq<Row>, row: Row)
    ensures First(before + [row], |before|) <==> row.Good? && row.identity.pointId !in Ids(Fresh(before))
  {
    hide Fresh, Ids;
    var rows := before + [row];
    assert rows[|before|] == row && forall j :: 0 <= j < |before| ==> rows[j] == before[j];
    if row.Good? { FreshIds(before, row.identity.pointId); }
  }

  lemma FreshIds(rows: seq<Row>, id: string)
    ensures id in Ids(Fresh(rows)) <==> exists k :: 0 <= k < |rows| && rows[k].Good? && rows[k].identity.pointId == id
  {
    hide Fresh;
    FreshFrom(rows);
    if id in Ids(Fresh(rows)) {
      var j :| 0 <= j < |Fresh(rows)| && Fresh(rows)[j].pointId == id;
      assert Good(Fresh(rows)[j]) in rows;
    }
  }

  lemma {:induction false} FirstsAreFresh(rows: seq<Row>)
    ensures |Fresh(rows)| == |FirstRows(rows)|
    ensures forall x :: x in Fresh(rows) <==> exists k :: k in FirstRows(rows) && rows[k].identity == x
  {
    hide Ids, First, FirstRows;
    if rows == [] {
      assert FirstRows([]) == {} by { NoneFirst(); }
    } else {
      var n := |rows| - 1;
      var before, row := rows[..n], rows[n];
      assert rows == before + [row];
      FirstsAreFresh(before);
      FirstOneMore(before, row);
      InRange(before);
      forall x ensures x in Fresh(rows) <==> exists k :: k in FirstRows(rows) && rows[k].identity == x {
        if x in Fresh(before) {
          var k :| k in FirstRows(before) && before[k].identity == x;
          assert rows[k] == before[k];
        }
        if k :| k in FirstRows(rows) && rows[k].identity == x {
          if k < n { assert rows[k] == before[k]; }
        }
      }
    }
  }

  lemma NoneFirst()
    ensures FirstRows([]) == {}
  {}

  lemma InRange(rows: seq<Row>)
    ensures forall k :: k in FirstRows(rows) ==> k < |rows| && rows[k].Good?
  {}

  lemma KindOneMore(before: seq<Row>, row: Row, p: Proof, kind: Kind)
    ensures var n, rows := |before|, before + [row];
      && n !in KindRows(before, p, kind)
      && KindRows(rows, p, kind)
         == KindRows(before, p, kind)
            + if row.Good? && row.identity.pointId !in Ids(Fresh(before))
                 && KindOf(row.identity, Retained(p), p) == kind then {n} else {}
  {
    hide Ids, FirstRows, KindOf, Retained, Fresh;
    var rows := before + [row];
    FirstOneMore(before, row);
    InRange(before);
    assert forall k :: 0 <= k < |before| ==> rows[k] == before[k];
  }

  lemma {:induction false} KindsAreSelected(rows: seq<Row>, p: Proof, kind: Kind)
    ensures |Select(Fresh(rows), p, kind)| == |KindRows(rows, p, kind)|
  {
    hide Ids, FirstRows, KindOf, Retained, Fresh, Select, KindRows;
    if rows == [] {
      NoneSelected(p, kind);
    } else {
      var n := |rows| - 1;
      var before, row := rows[..n], rows[n];
      assert rows == before + [row];
      KindsAreSelected(before, p, kind);
      KindOneMore(before, row, p, kind);
      FreshOneMore(before, row);
      if row.Good? { SelectStep(Fresh(before), row.identity, p, kind); }
    }
  }

  lemma NoneSelected(p: Proof, kind: Kind)
    ensures Select(Fresh([]), p, kind) == [] && KindRows([], p, kind) == {}
  {}

  lemma FreshOneMore(before: seq<Row>, row: Row)
    ensures Fresh(before + [row])
         == if row.Good? && row.identity.pointId !in Ids(Fresh(before)) then Fresh(before) + [row.identity]
            else Fresh(before)
  {
    assert (before + [row])[..|before|] == before;
  }

  lemma KindsMean(x: Identity, p: Proof)
    ensures KindOf(x, Retained(p), p) ==
            if !UnderSome(x, p) then Extra
            else if !UnderOwn(x, p) then Foreign
            else if Proven(x, p) then Matched else Incompatible
  {}

  lemma {:induction false} SelectedIff(f: seq<Identity>, p: Proof, kind: Kind, x: Identity)
    ensures x in Select(f, p, kind) <==> x in f && KindOf(x, Retained(p), p) == kind
  {
    hide KindOf, Retained;
    if f != [] {
      SelectedIff(f[..|f| - 1], p, kind, x);
      assert f == f[..|f| - 1] + [f[|f| - 1]];
    }
  }

  lemma {:induction false} SelectedDistinct(f: seq<Identity>, p: Proof, kind: Kind)
    requires forall a, b :: 0 <= a < b < |f| ==> f[a].pointId != f[b].pointId
    ensures forall a, b :: 0 <= a < b < |Select(f, p, kind)| ==>
              Select(f, p, kind)[a].pointId != Select(f, p, kind)[b].pointId
  {
    hide KindOf, Retained;
    if f != [] {
      var g, x := f[..|f| - 1], f[|f| - 1];
      SelectedDistinct(g, p, kind);
      SelectedIn(g, p, kind);
    }
  }

  /** The matched identities are those of the rows that are proven. */
  lemma MatchedRows(rows: seq<Row>, p: Proof, x: Identity)
    ensures x in Select(Fresh(rows), p, Matched) <==> exists k :: k in ProvenRows(rows, p) && rows[k].identity == x
  {
    hide Fresh, Select, KindOf, Retained, FirstRows, Proven;
    FirstsAreFresh(rows);
    SelectedIff(Fresh(rows), p, Matched, x);
    ProvenIsMatched(x, p);
  }

  lemma MatchedIds(rows: seq<Row>, p: Proof, path: string, id: string)
    ensures HasRow(rows, p, path, id)
       <==> exists x :: x in Select(Fresh(rows), p, Matched) && x.relPath == path && x.pointId == id
  {
    hide Fresh, Select, FirstRows, Proven;
    InRange(rows);
    if k :| k in ProvenRows(rows, p) && rows[k].identity == Identity(id, path, rows[k].identity.content) {
      MatchedRows(rows, p, rows[k].identity);
    }
    if x :| x in Select(Fresh(rows), p, Matched) && x.relPath == path && x.pointId == id {
      MatchedRows(rows, p, x);
    }
  }

  // ---------- what the report says ----------

  lemma PlacesCounted(rows: seq<Row>, p: Proof)
    ensures var r := ReportOn(rows, p);
      && r.scanned == |rows| && r.matched == |ProvenRows(rows, p)| && r.extra == |ExtraRows(rows, p)|
      && r.foreign == |ForeignRows(rows, p)|
      && r.incompatible == |rows| - |FirstRows(rows)| + |KindRows(rows, p, Incompatible)|
  {
    hide Fresh, Select, Group, Observed, Retained, Sizes, Ids, FirstRows, KindOf, Proven, UnderSome, UnderOwn;
    KindsAreSelected(rows, p, Matched);
    KindsAreSelected(rows, p, Extra);
    KindsAreSelected(rows, p, Foreign);
    KindsAreSelected(rows, p, Incompatible);
    FirstsAreFresh(rows);
    InRange(rows);
    forall k | k in FirstRows(rows)
      ensures KindOf(rows[k].identity, Retained(p), p) ==
              if !UnderSome(rows[k].identity, p) then Extra
              else if !UnderOwn(rows[k].identity, p) then Foreign
              else if Proven(rows[k].identity, p) then Matched else Incompatible
      ensures Proven(rows[k].identity, p) ==> UnderOwn(rows[k].identity, p)
      ensures UnderOwn(rows[k].identity, p) ==> UnderSome(rows[k].identity, p)
    {
      KindsMean(rows[k].identity, p);
      ProvenIsUnder(rows[k].identity, p);
    }
    assert KindRows(rows, p, Matched) == ProvenRows(rows, p);
    assert KindRows(rows, p, Extra) == ExtraRows(rows, p);
    assert KindRows(rows, p, Foreign) == ForeignRows(rows, p);
    FreshDistinct(rows);
    SelectedDistinct(Fresh(rows), p, Matched);
    IdsSize(Select(Fresh(rows), p, Matched));
  }

  lemma ProvenIsUnder(x: Identity, p: Proof)
    ensures Proven(x, p) ==> UnderOwn(x, p)
    ensures UnderOwn(x, p) ==> UnderSome(x, p)
  {}

  function UpTo(n: nat): (s: set<nat>)
    ensures forall k: nat :: k in s <==> k < n
    ensures |s| == n
  {
    if n == 0 then {} else UpTo(n - 1) + {n - 1}
  }

  lemma IncompatibleCounted(rows: seq<Row>, p: Proof)
    ensures |IncompatibleRows(rows, p)| == |rows| - |FirstRows(rows)| + |KindRows(rows, p, Incompatible)|
  {
    hide KindOf, Retained, Proven, UnderSome, UnderOwn, First;
    var all, firsts, kind := UpTo(|rows|), FirstRows(rows), KindRows(rows, p, Incompatible);
    assert firsts <= all && all == (all - firsts) + firsts;
    InRange(rows);
    forall k | k in all ensures k in IncompatibleRows(rows, p) <==> k in (all - firsts) + kind {
      if k in firsts {
        KindsMean(rows[k].identity, p);
        ProvenIsUnder(rows[k].identity, p);
      }
    }
    assert IncompatibleRows(rows, p) == (all - firsts) + kind;
  }

  lemma MissingCounted(rows: seq<Row>, p: Proof)
    ensures ReportOn(rows, p).missingPoints == |MissingPoints(rows, p)|
  {
    hide Fresh, Select, Group, Observed, Sizes, HasRow, KindOf;
    var chosen, matched := Select(Fresh(rows), p, Matched), Totals(rows, p).matched;
    MatchedAreRetained(rows, p);
    forall id | id in Retained(p) ensures id in MissingPoints(rows, p) <==> id !in matched {
      var path :| path in p && id in p[path].pointIds;
      if k :| 0 <= k < |chosen| && chosen[k].pointId == id {
        SelectedIn(Fresh(rows), p, Matched);
        ProvenIsMatched(chosen[k], p);
        MatchedIds(rows, p, chosen[k].relPath, id);
      }
      if q :| q in p && HasRow(rows, p, q, id) {
        MatchedIds(rows, p, q, id);
        var x :| x in chosen && x.relPath == q && x.pointId == id;
        assert x.pointId in Ids(chosen);
      }
    }
    assert MissingPoints(rows, p) <= Retained(p);
    assert MissingPoints(rows, p) == Retained(p) - matched;
    Remaining(matched, Retained(p));
  }

  /** The points filed under a path are those of its rows that are proven. */
  lemma FiledIff(rows: seq<Row>, p: Proof, path: string)
    ensures var g := Totals(rows, p).byPath;
      && (path in g <==> exists id :: HasRow(rows, p, path, id))
      && (path in g ==> path in p && g[path] <= p[path].pointIds
                        && forall id :: id in g[path] <==> HasRow(rows, p, path, id))
  {
    hide Fresh, Select, Group, Observed, Sizes, HasRow, KindOf, Retained;
    var chosen, g := Select(Fresh(rows), p, Matched), Totals(rows, p).byPath;
    Grouped(chosen);
    SelectedIn(Fresh(rows), p, Matched);
    forall k | 0 <= k < |chosen| ensures Proven(chosen[k], p) { ProvenIsMatched(chosen[k], p); }
    forall id ensures HasRow(rows, p, path, id)
                 <==> exists k :: 0 <= k < |chosen| && chosen[k].relPath == path && chosen[k].pointId == id {
      MatchedIds(rows, p, path, id);
    }
    if path in g {
      var k :| 0 <= k < |chosen| && chosen[k].relPath == path;
      assert HasRow(rows, p, path, chosen[k].pointId);
    }
    if id :| HasRow(rows, p, path, id) {
      var k :| 0 <= k < |chosen| && chosen[k].relPath == path && chosen[k].pointId == id;
      assert path in Paths(chosen);
    }
  }

  lemma MissingPathIff(rows: seq<Row>, p: Proof, path: string)
    ensures path in MissingPaths(rows, p) <==> path in p && path !in Totals(rows, p).byPath
    ensures path in Totals(rows, p).byPath ==> path in p
  {
    hide HasRow, Totals;
    FiledIff(rows, p, path);
    forall id | HasRow(rows, p, path, id) ensures path in p && id in p[path].pointIds {
      RowsAreProven(rows, p, path, id);
    }
  }

  lemma MissingPathsAre(rows: seq<Row>, p: Proof)
    ensures var filed := Totals(rows, p).byPath.Keys;
            MissingPaths(rows, p) == p.Keys - filed && filed <= p.Keys
  {
    hide Totals, MissingPaths;
    forall path
      ensures path in MissingPaths(rows, p) <==> path in p && path !in Totals(rows, p).byPath
      ensures path in Totals(rows, p).byPath ==> path in p
    {
      MissingPathIff(rows, p, path);
    }
  }

  lemma Remaining(part: set<string>, whole: set<string>)
    requires part <= whole
    ensures |whole - part| == |whole| - |part|
  {
    assert whole == (whole - part) + part;
  }

  lemma MissingPathsCounted(rows: seq<Row>, p: Proof)
    ensures ReportOn(rows, p).missingIdentities == |MissingPaths(rows, p)|
  {
    hide Totals, MissingPaths, PartialPaths, Retained;
    var g := Totals(rows, p).byPath;
    MissingPathsAre(rows, p);
    Remaining(g.Keys, p.Keys);
    TotalsAreSound(rows, p);
    assert |g| == |g.Keys| && |p| == |p.Keys|;
  }

  lemma RowsAreProven(rows: seq<Row>, p: Proof, path: string, id: string)
    requires HasRow(rows, p, path, id)
    ensures path in p && id in p[path].pointIds
  {
    hide FirstRows;
    InRange(rows);
  }

  lemma PartialCounted(rows: seq<Row>, p: Proof)
    ensures ReportOn(rows, p).partial == |PartlyThere(rows, p)|
  {
    hide Fresh, Select, Group, Observed, HasRow, KindOf, Retained, Sizes;
    var t := Totals(rows, p);
    TotalsAreSound(rows, p);
    SizesAreEvidence(Fresh(rows), p);
    forall path ensures path in PartialPaths(t) <==> path in PartlyThere(rows, p) {
      FiledIff(rows, p, path);
      if path in t.byPath {
        SubsetSize(t.byPath[path], p[path].pointIds);
        if |t.byPath[path]| == |p[path].pointIds| { SameSize(t.byPath[path], p[path].pointIds); }
        else if t.byPath[path] == p[path].pointIds { assert false; }
      }
    }
    assert PartialPaths(t) == PartlyThere(rows, p);
  }

  /** The verdict is what the numbers of the report say, of any proof. */
  lemma VerdictIsTheNumbers(rows: seq<Row>, p: Proof)
    ensures var r := ReportOn(rows, p);
      r.verdict.Consistent? <==>
        && r.scanned == r.expected.points == r.matched && r.missingIdentities == 0
        && r.extra == 0 && r.foreign == 0 && r.incompatible == 0 && r.partial == 0
  {
    hide Totals, MissingPaths, PartialPaths, Retained;
    var g := Totals(rows, p).byPath;
    MissingPathsAre(rows, p);
    SubsetSize(g.Keys, p.Keys);
    TotalsAreSound(rows, p);
    assert |g| == |g.Keys| && |p| == |p.Keys|;
  }

  /** Every number of the report, in rows and points. */
  lemma ReportCounts(rows: seq<Row>, p: Proof)
    ensures var r := ReportOn(rows, p);
      && r.scanned == |rows|
      && r.matched == |ProvenRows(rows, p)|
      && r.extra == |ExtraRows(rows, p)|
      && r.foreign == |ForeignRows(rows, p)|
      && r.incompatible == |IncompatibleRows(rows, p)|
      && r.missingPoints == |MissingPoints(rows, p)|
      && r.missingIdentities == |MissingPaths(rows, p)|
      && r.partial == |PartlyThere(rows, p)|
      && r.observedIdentities == |set k: nat | k < |rows| && rows[k].Good? :: rows[k].identity.relPath|
      && r.expected.identities == |p.Keys|
      && r.expected.points == |set path, id | path in p && id in p[path].pointIds :: id|
  {
    hide Fresh, Select, Group, Sizes, KindOf, HasRow, ProvenRows, ExtraRows, ForeignRows, IncompatibleRows,
         MissingPoints, MissingPaths, PartlyThere, FirstRows, KindRows;
    PlacesCounted(rows, p);
    IncompatibleCounted(rows, p);
    MissingCounted(rows, p);
    MissingPathsCounted(rows, p);
    PartialCounted(rows, p);
    assert Observed(rows) == set k: nat | k < |rows| && rows[k].Good? :: rows[k].identity.relPath;
    assert |p| == |p.Keys|;
  }
}
