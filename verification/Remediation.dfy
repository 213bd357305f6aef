/** The observation registry of `_integrity_remediation.py`: what it remembers of shrunken collections, and how it
    spaces the repairs it asks for. */
module Remediation {
  import opened Options
  import opened Sets

  datatype Key = Key(root: string, source: string)

  datatype Verdict = Consistent | Shrunken | Unverifiable

  datatype Observation = Observation(observedAt: real, requestedAt: Option<real>, repairJobId: Option<string>)

  type Observations = map<Key, Observation>

  const SHRUNKEN_OBSERVATION_TTL_SECONDS := 900.0
  const REPAIR_REQUEST_MIN_INTERVAL_SECONDS := 600.0
  const MAX_OBSERVATIONS := 256

  datatype Event =
    | Note(key: Key, verdict: Verdict, now: real, enabled: bool)
    | Admitted(key: Key, job: string)
    | Look(now: real)

  // ---------- one step ----------

  predicate MayRequest(entry: Observation, now: real, enabled: bool) {
    enabled && (entry.requestedAt.None? || now - entry.requestedAt.value >= REPAIR_REQUEST_MIN_INTERVAL_SECONDS)
  }

  /** Noting a shrink of a key that is not remembered drops every memory when there is no room for one more. */
  predicate Overflows(o: Observations, e: Event) {
    e.Note? && e.verdict.Shrunken? && e.key !in o && |o| >= MAX_OBSERVATIONS
  }

  function EntryFor(o: Observations, key: Key, now: real): Observation {
    if key in o then o[key].(observedAt := now) else Observation(now, None, None)
  }

  /** Whether this step asks for a repair. */
  predicate Requests(o: Observations, e: Event) {
    e.Note? && e.verdict.Shrunken? && MayRequest(EntryFor(o, e.key, e.now), e.now, e.enabled)
  }

  predicate Expired(entry: Observation, now: real) { now - entry.observedAt >= SHRUNKEN_OBSERVATION_TTL_SECONDS }

  function Step(o: Observations, e: Event): Observations {
    match e
    case Note(key, verdict, now, enabled) =>
      if verdict.Consistent? then o - {key}
      else if verdict.Unverifiable? then o
      else
        var kept: Observations := if Overflows(o, e) then map[] else o;
        var entry := EntryFor(o, key, now);
        kept[key := if MayRequest(entry, now, enabled) then entry.(requestedAt := Some(now)) else entry]
    case Admitted(key, job) => if key in o then o[key := o[key].(repairJobId := Some(job))] else o
    case Look(now) => map key | key in o && !Expired(o[key], now) :: o[key]
  }

  function Run(events: seq<Event>): Observations {
    if events == [] then map[] else Step(Run(events[..|events| - 1]), events[|events| - 1])
  }

  // ---------- the registry ----------

  class Registry {
    var observations: Observations

    constructor ()
      ensures observations == map[]
    {
      observations := map[];
    }

    method RecordVerdict(key: Key, verdict: Verdict, now: real, enabled: bool) returns (request: bool,
                                                                                     job: Option<string>)
      modifies this
      ensures observations == Step(old(observations), Note(key, verdict, now, enabled))
      ensures request == Requests(old(observations), Note(key, verdict, now, enabled))
      ensures job == if verdict.Shrunken? && key in old(observations) then old(observations)[key].repairJobId else None
    {
      if verdict.Consistent? {
        observations := observations - {key};
        return false, None;
      }
      if verdict != Shrunken {
        return false, None;
      }
      request := false;
      var entry: Observation;
      if key !in observations {
        if |observations| >= MAX_OBSERVATIONS {
          observations := map[];
        }
        entry := Observation(now, None, None);
      } else {
        entry := observations[key].(observedAt := now);
      }
      if enabled && (entry.requestedAt.None?
                     || now - entry.requestedAt.value >= REPAIR_REQUEST_MIN_INTERVAL_SECONDS) {
        request := true;
        entry := entry.(requestedAt := Some(now));
      }
      observations := observations[key := entry];
      job := entry.repairJobId;
    }

    method RecordJob(key: Key, job: string)
      modifies this
      ensures observations == Step(old(observations), Admitted(key, job))
    {
      if key in observations {
        observations := observations[key := observations[key].(repairJobId := Some(job))];
      }
    }

    method DropExpired(now: real)
      modifies this
      ensures observations == Step(old(observations), Look(now))
    {
      hide Expired;
      var expired := set key | key in observations && Expired(observations[key], now);
      var left := expired;
      while left != {}
        invariant left <= expired
        invariant observations == old(observations) - (expired - left)
        decreases |left|
      {
        var key :| key in left;
        assert expired - (left - {key}) == (expired - left) + {key};
        observations := observations - {key};
        left := left - {key};
      }
      assert expired - left == expired;
    }

    /** Expired entries are dropped on read; what is left for the root is reported by source. */
    method ShrunkenObservations(root: string, now: real) returns (result: map<string, Option<string>>)
      modifies this
      ensures observations == Step(old(observations), Look(now))
      ensures forall source :: source in result <==> Key(root, source) in observations
      ensures forall source :: source in result ==> result[source] == observations[Key(root, source)].repairJobId
    {
      hide Step;
      DropExpired(now);
      result := map[];
      var left := observations.Keys;
      while left != {}
        invariant left <= observations.Keys
        invariant forall source :: source in result <==> Key(root, source) in observations && Key(root, source) !in left
        invariant forall source :: source in result ==> result[source] == observations[Key(root, source)].repairJobId
        decreases |left|
      {
        var key :| key in left;
        if key.root == root {
          result := result[key.source := observations[key].repairJobId];
        }
        left := left - {key};
      }
    }
  }

  // ---------- spacing ----------

  predicate Timed(e: Event) { e.Note? || e.Look? }

  function TimeOf(e: Event): real
    requires Timed(e)
  {
    e.now
  }

  /** Clocks are read before the registry's lock is taken, so a step may carry a time up to `skew` behind that of an
      earlier step. */
  predicate TimeOrdered(events: seq<Event>, skew: real) {
    forall i, j :: 0 <= i <= j < |events| && Timed(events[i]) && Timed(events[j]) ==>
      TimeOf(events[j]) >= TimeOf(events[i]) - skew
  }

  /** Step k proves the key's collection whole, or drops every memory. */
  predicate Clears(events: seq<Event>, k: nat, key: Key)
    requires k < |events|
  {
    (events[k].Note? && events[k].key == key && events[k].verdict.Consistent?) || Overflows(Run(events[..k]), events[k])
  }

  predicate RequestsAt(events: seq<Event>, i: nat, key: Key)
    requires i < |events|
  {
    Requests(Run(events[..i]), events[i]) && events[i].key == key
  }

  /** While no step clears it, a request at time t is remembered, or the registry has been looked at some 900 s later.
      */
  ghost predicate Remembered(events: seq<Event>, i: nat, n: nat, key: Key, t: real, skew: real)
    requires i < n <= |events|
  {
    var o := Run(events[..n]);
    || (key in o && o[key].requestedAt.Some? && o[key].requestedAt.value >= t && o[key].observedAt >= t - skew)
    || (exists r :: i < r < n && events[r].Look? && events[r].now >= t + SHRUNKEN_OBSERVATION_TTL_SECONDS - skew)
  }

  lemma {:induction false} RequestIsRemembered(events: seq<Event>, i: nat, n: nat, key: Key, skew: real)
    requires skew >= 0.0 && TimeOrdered(events, skew) && i < n <= |events| && RequestsAt(events, i, key)
    requires forall k :: i < k < n ==> !Clears(events, k, key)
    ensures Remembered(events, i, n, key, events[i].now, skew)
  {
    hide Step, Overflows, MayRequest;
    var t := events[i].now;
    assert events[..n][..n - 1] == events[..n - 1];
    if n == i + 1 {
      RequestIsStored(Run(events[..i]), events[i]);
    } else {
      RequestIsRemembered(events, i, n - 1, key, skew);
      assert !Clears(events, n - 1, key);
      if Timed(events[n - 1]) { assert TimeOf(events[n - 1]) >= TimeOf(events[i]) - skew; }
      if !exists r :: i < r < n - 1 && events[r].Look? && events[r].now >= t + SHRUNKEN_OBSERVATION_TTL_SECONDS - skew {
        RememberedStep(Run(events[..n - 1]), events[n - 1], key, t, skew);
      }
    }
  }

  lemma RequestIsStored(o: Observations, e: Event)
    requires Requests(o, e)
    ensures e.key in Step(o, e) && Step(o, e)[e.key].requestedAt == Some(e.now) && Step(o, e)[e.key].observedAt == e.now
  {}

  lemma RememberedStep(o: Observations, e: Event, key: Key, t: real, skew: real)
    requires key in o && o[key].requestedAt.Some? && o[key].requestedAt.value >= t && o[key].observedAt >= t - skew
    requires !Overflows(o, e) && !(e.Note? && e.key == key && e.verdict.Consistent?)
    requires Timed(e) ==> TimeOf(e) >= t - skew
    ensures var u := Step(o, e);
      || (key in u && u[key].requestedAt.Some? && u[key].requestedAt.value >= t && u[key].observedAt >= t - skew)
      || (e.Look? && e.now >= t + SHRUNKEN_OBSERVATION_TTL_SECONDS - skew)
  {}

  /** Two requests for one root and domain are at least 600 s apart, unless between them the collection was proven
      whole or the registry overflowed. Expiry cannot bring them closer, and the clocks may even disagree by up to 150
      s. */
  lemma RequestsAreSpaced(events: seq<Event>, i: nat, j: nat, key: Key, skew: real)
    requires 0.0 <= skew <= 150.0 && TimeOrdered(events, skew)
    requires i < j < |events| && RequestsAt(events, i, key) && RequestsAt(events, j, key)
    requires forall k :: i < k <= j ==> !Clears(events, k, key)
    ensures events[j].now - events[i].now >= 600.0
  {
    hide Run;
    RequestIsRemembered(events, i, j, key, skew);
    var t := events[i].now;
    if r :| i < r < j && events[r].Look? && events[r].now >= t + SHRUNKEN_OBSERVATION_TTL_SECONDS - skew {
      assert TimeOf(events[j]) >= TimeOf(events[r]) - skew;
    }
  }

  /** Any larger disagreement lets two requests come closer: a late note ages the entry, a look drops it. */
  lemma LargerSkewBreaksSpacing(key: Key, skew: real) returns (events: seq<Event>)
    requires skew > 150.0
    ensures |events| == 4 && TimeOrdered(events, skew) && RequestsAt(events, 0, key) && RequestsAt(events, 3, key)
    ensures forall k :: 0 < k <= 3 ==> !Clears(events, k, key)
    ensures events[3].now - events[0].now < 600.0
  {
    var d := if skew > 300.0 then 300.0 else skew;
    events := [Note(key, Shrunken, d, true), Note(key, Shrunken, 0.0, true), Look(900.0),
               Note(key, Shrunken, 900.0 - d, true)];
    var o0: Observations := map[];
    assert |o0| == 0;
    var o1 := o0[key := Observation(d, Some(d), None)];
    assert events[..0] == [] && Run(events[..0]) == o0;
    assert events[..1][..0] == [] && Run(events[..1]) == o1;
    assert |o1| == 1;
    assert events[..2][..1] == events[..1] && events[..3][..2] == events[..2];
    assert Run(events[..2]) == o1[key := Observation(0.0, Some(d), None)];
    assert Run(events[..3]) == o0;
  }

  // ---------- what is remembered, over a run ----------

  predicate Shrinks(e: Event, key: Key) { e.Note? && e.key == key && e.verdict.Shrunken? }

  /** Step k is the last to find the key's collection shrunken, and nothing has cleared the key since, nor any look
      found it 900 s old. */
  ghost predicate Stands(events: seq<Event>, key: Key, k: nat)
    requires k < |events|
  {
    Shrinks(events[k], key) && forall j :: k < j < |events| ==> LeavesStanding(events, key, k, j)
  }

  predicate LeavesStanding(events: seq<Event>, key: Key, k: nat, j: nat)
    requires k < j < |events| && events[k].Note?
  {
    && !Shrinks(events[j], key) && !Clears(events, j, key)
    && (events[j].Look? ==> events[j].now - events[k].now < 900.0)
  }

  lemma StandsOneMore(events: seq<Event>, key: Key, k: nat)
    requires k < |events|
    ensures var n := |events| - 1;
      Stands(events, key, k)
      <==> if k == n then Shrinks(events[n], key)
           else Stands(events[..n], key, k) && LeavesStanding(events, key, k, n)
  {
    hide Run, Overflows;
    var before := events[..|events| - 1];
    assert forall j :: 0 <= j < |events| ==> before[..j] == events[..j];
    if k < |before| && events[k].Note? {
      assert forall j :: k < j < |before| ==>
        (LeavesStanding(events, key, k, j) <==> LeavesStanding(before, key, k, j));
    }
  }

  /** What one step does to the memory of one key. */
  lemma StepRemembers(o: Observations, e: Event, key: Key)
    ensures var u := Step(o, e);
      && (Shrinks(e, key) ==> key in u && u[key].observedAt == e.now)
      && (!Shrinks(e, key) ==>
            && (key in u <==> key in o && !(e.Note? && e.key == key && e.verdict.Consistent?) && !Overflows(o, e)
                              && (e.Look? ==> e.now - o[key].observedAt < 900.0))
            && (key in u ==> u[key].observedAt == o[key].observedAt))
    ensures var u := Step(o, e);
      key in u ==>
        && u[key].repairJobId == (if e.Admitted? && e.key == key then Some(e.job)
                                  else if key in o then o[key].repairJobId else None)
        && u[key].requestedAt == (if Requests(o, e) && e.key == key then Some(e.now)
                                  else if key in o then o[key].requestedAt else None)
  {}

  /** A key is remembered exactly when such a step stands, and with that step's time. */
  lemma {:induction false} RememberedIff(events: seq<Event>, key: Key)
    ensures key in Run(events) <==> exists k: nat :: k < |events| && Stands(events, key, k)
    ensures forall k: nat :: k < |events| && Stands(events, key, k) ==>
              key in Run(events) && Run(events)[key].observedAt == events[k].now
  {
    hide Step, Stands, Overflows;
    if events != [] {
      var n := |events| - 1;
      var before := events[..n];
      RememberedIff(before, key);
      StepRemembers(Run(before), events[n], key);
      StandsOneMore(events, key, n);
      forall k: nat | k < n
        ensures Stands(events, key, k)
           <==> Stands(before, key, k) && events[k].Note? && LeavesStanding(events, key, k, n)
        ensures Stands(events, key, k) ==>
                  key in Run(events) && Run(events)[key].observedAt == events[k].now
      {
        StandsOneMore(events, key, k);
        StandingIsNote(before, key, k);
      }
      if k: nat :| k < n && Stands(before, key, k) { StandingIsNote(before, key, k); }
    }
  }

  lemma StandingIsNote(events: seq<Event>, key: Key, k: nat)
    requires k < |events|
    ensures Stands(events, key, k) ==> events[k].Note?
  {}

  /** The key has been remembered ever since step a. */
  ghost predicate KeptSince(events: seq<Event>, key: Key, a: nat) {
    forall j :: a < j <= |events| ==> key in Run(events[..j])
  }

  /** Step a is the last to admit a repair for the key, which has been remembered since. */
  ghost predicate LastAdmitted(events: seq<Event>, key: Key, a: nat)
    requires a < |events|
  {
    && events[a].Admitted? && events[a].key == key && key in Run(events[..a]) && KeptSince(events, key, a)
    && forall j :: a < j < |events| ==> !(events[j].Admitted? && events[j].key == key)
  }

  /** Step a is the last to ask for a repair of the key, which has been remembered since. */
  ghost predicate LastRequest(events: seq<Event>, key: Key, a: nat)
    requires a < |events|
  {
    && RequestsAt(events, a, key) && KeptSince(events, key, a)
    && forall j :: a < j < |events| ==> !RequestsAt(events, j, key)
  }

  lemma LastOnesOneMore(events: seq<Event>, key: Key, a: nat)
    requires a < |events|
    ensures var n := |events| - 1; var before, e := events[..n], events[n];
      && (LastAdmitted(events, key, a)
          <==> key in Run(events)
               && if a == n then e.Admitted? && e.key == key && key in Run(before)
                  else LastAdmitted(before, key, a) && !(e.Admitted? && e.key == key))
      && (LastRequest(events, key, a)
          <==> key in Run(events)
               && if a == n then RequestsAt(events, n, key)
                  else LastRequest(before, key, a) && !RequestsAt(events, n, key))
  {
    hide Run, Requests;
    var n := |events| - 1;
    var before := events[..n];
    assert events[..|events|] == events;
    assert forall j :: 0 <= j <= n ==> before[..j] == events[..j];
    assert forall j :: 0 <= j < n ==> (RequestsAt(events, j, key) <==> RequestsAt(before, j, key));
  }

  /** A remembered key answers with the job last admitted for it, and knows when a repair was last asked for. */
  lemma {:induction false} JobAndRequestIff(events: seq<Event>, key: Key)
    requires key in Run(events)
    ensures forall job :: Run(events)[key].repairJobId == Some(job)
                     <==> exists a: nat :: a < |events| && LastAdmitted(events, key, a) && events[a].job == job
    ensures forall t :: Run(events)[key].requestedAt == Some(t)
                   <==> exists a: nat :: a < |events| && LastRequest(events, key, a) && events[a].now == t
  {
    hide Step, KeptSince, LastAdmitted, LastRequest, Requests;
    if events == [] {
    } else {
      var n := |events| - 1;
      var before, e := events[..n], events[n];
      StepRemembers(Run(before), e, key);
      forall a: nat | a <= n
        ensures LastAdmitted(events, key, a)
           <==> if a == n then e.Admitted? && e.key == key && key in Run(before)
                else LastAdmitted(before, key, a) && !(e.Admitted? && e.key == key)
        ensures LastRequest(events, key, a)
           <==> if a == n then RequestsAt(events, n, key)
                else LastRequest(before, key, a) && !RequestsAt(events, n, key)
        ensures a < n && (LastAdmitted(before, key, a) || LastRequest(before, key, a)) ==> key in Run(before)
      {
        LastOnesOneMore(events, key, a);
        if a < n { LastIsKept(before, key, a); }
      }
      assert events[..n] == before;
      if key in Run(before) { JobAndRequestIff(before, key); }
    }
  }

  lemma LastIsKept(events: seq<Event>, key: Key, a: nat)
    requires a < |events|
    ensures LastAdmitted(events, key, a) || LastRequest(events, key, a) ==> key in Run(events)
    ensures LastRequest(events, key, a) ==> events[a].Note?
  {
    hide Run, MayRequest;
    assert events[..|events|] == events;
  }

  /** A shrink asks for a repair exactly when repairs are enabled and the last request, if the key has been remembered
      since it, is 600 s old. */
  lemma RequestIff(events: seq<Event>, key: Key, now: real, enabled: bool)
    ensures Requests(Run(events), Note(key, Shrunken, now, enabled))
       <==> enabled && forall a: nat :: a < |events| && LastRequest(events, key, a) ==> now - events[a].now >= 600.0
  {
    hide Run, LastRequest;
    forall a: nat | a < |events| && LastRequest(events, key, a) ensures key in Run(events) && events[a].Note? {
      LastIsKept(events, key, a);
    }
    if key in Run(events) {
      JobAndRequestIff(events, key);
      if Run(events)[key].requestedAt.Some? {
        var t := Run(events)[key].requestedAt.value;
        assert Run(events)[key].requestedAt == Some(t);
        var a: nat :| a < |events| && LastRequest(events, key, a) && events[a].now == t;
      }
      forall a: nat | a < |events| && LastRequest(events, key, a)
        ensures Run(events)[key].requestedAt == Some(events[a].now)
      {
      }
    }
  }

  // ---------- bounds ----------

  lemma {:induction false} RegistryIsBounded(events: seq<Event>)
    ensures |Run(events)| <= 256
  {
    hide Step;
    if events != [] {
      RegistryIsBounded(events[..|events| - 1]);
      StepIsBounded(Run(events[..|events| - 1]), events[|events| - 1]);
    }
  }

  lemma StepIsBounded(o: Observations, e: Event)
    requires |o| <= MAX_OBSERVATIONS
    ensures |Step(o, e)| <= MAX_OBSERVATIONS
  {
    match e
    case Note(key, verdict, now, enabled) =>
      if verdict.Consistent? { SubsetSize((o - {key}).Keys, o.Keys); }
    case Admitted(key, job) =>
      if key in o { assert Step(o, e).Keys == o.Keys; }
    case Look(now) => SubsetSize(Step(o, e).Keys, o.Keys);
  }

  /** With times in order, no entry was requested after it was last observed. */
  lemma {:induction false} RequestedBeforeObserved(events: seq<Event>, key: Key)
    requires TimeOrdered(events, 0.0) && key in Run(events)
    ensures exists k :: 0 <= k < |events| && events[k].Note? && events[k].now == Run(events)[key].observedAt
    ensures Run(events)[key].requestedAt.Some? ==> Run(events)[key].requestedAt.value <= Run(events)[key].observedAt
  {
    hide MayRequest, Expired, Overflows;
    var n := |events| - 1;
    var before := events[..n];
    if key in Run(before) {
      RequestedBeforeObserved(before, key);
      var k :| 0 <= k < |before| && before[k].Note? && before[k].now == Run(before)[key].observedAt;
      assert events[k] == before[k];
      if Timed(events[n]) { assert TimeOf(events[n]) >= TimeOf(events[k]); }
    }
  }
}
