/** `admit_accelerator_load` as every thread of every process on the machine runs it at once: a latch read twice, a
    guard per process, one load window for the machine. Any step of any thread may come next. */
module AdmissionProtocol {
  import opened Options
  import opened Admission

  datatype Thread = Thread(process: nat, id: nat)

  datatype Phase =
    | Idle
    | Wanting                                     // read the latch unset; wants the guard
    | Entering                                    // has the guard, found the latch still unset
    | Judging(locked: bool)                       // in the window, with its lock unless that was unavailable
    | Loading(verdict: Verdict, locked: bool)     // running a load the latch did not cover
    | Leaving(verdict: Verdict)                   // loaded and out of the window, the guard still held
    | Riding(guarded: bool)                       // running a load the latch covers

  /** A thread that is nowhere in the map is idle. */
  datatype State = State(phases: map<Thread, Phase>, guards: map<nat, Thread>, window: Option<Thread>,
                         admitted: set<nat>, streaks: map<nat, nat>)

  datatype Event =
    | Call(thread: Thread)
    | TakeGuard(thread: Thread)
    | ClaimWindow(thread: Thread, available: bool)
    | Judge(thread: Thread, probe: Probe, floor: int)
    | LoadEnds(thread: Thread, returned: bool)
    | Settle(thread: Thread)
    | RideEnds(thread: Thread)
    | Observe(process: nat, reading: Reading)
    | ClearLatch(process: nat)
    | Die(process: nat)

  function Start(): State { State(map[], map[], None, {}, map[]) }

  function PhaseOf(s: State, t: Thread): Phase { if t in s.phases then s.phases[t] else Idle }

  function StreakOf(s: State, p: nat): nat { if p in s.streaks then s.streaks[p] else 0 }

  function Moved(s: State, t: Thread, phase: Phase): State { s.(phases := s.phases[t := phase]) }

  /** Back to idle, giving back the guard and, where it is held, the window. */
  function Left(s: State, t: Thread): State {
    Moved(s, t, Idle).(guards := s.guards - {t.process}, window := if s.window == Some(t) then None else s.window)
  }

  function Counted(s: State, p: nat, reading: Reading): State {
    s.(streaks := s.streaks[p := NextStreak(StreakOf(s, p), reading)])
  }

  function VerdictOf(s: State, p: nat, probe: Probe, floor: int): Verdict {
    VerdictFor(probe, floor, if probe.Measured? then NextStreak(StreakOf(s, p), probe.reading) else StreakOf(s, p))
  }

  function Judged(s: State, t: Thread, locked: bool, probe: Probe, floor: int): State {
    var v := VerdictOf(s, t.process, probe, floor);
    var counted := if probe.Measured? then Counted(s, t.process, probe.reading) else s;
    if Refuses(v) then Left(counted, t) else Moved(counted, t, Loading(v, locked))
  }

  function Dead(s: State, p: nat): State {
    State(map t | t in s.phases && t.process != p :: s.phases[t], s.guards - {p},
          if s.window.Some? && s.window.value.process == p then None else s.window, s.admitted - {p}, s.streaks - {p})
  }

  /** One step; an event that cannot happen now changes nothing. */
  function Step(s: State, e: Event): State {
    match e
    case Call(t) =>
      if !PhaseOf(s, t).Idle? then s
      else Moved(s, t, if t.process in s.admitted then Riding(false) else Wanting)
    case TakeGuard(t) =>
      if !PhaseOf(s, t).Wanting? || t.process in s.guards then s
      else Moved(s, t, if t.process in s.admitted then Riding(true) else Entering).(guards := s.guards[t.process := t])
    case ClaimWindow(t, available) =>
      if !PhaseOf(s, t).Entering? then s
      else if !available then Moved(s, t, Judging(false))
      else if s.window.Some? then Left(s, t)
      else Moved(s, t, Judging(true)).(window := Some(t))
    case Judge(t, probe, floor) =>
      if !PhaseOf(s, t).Judging? then s else Judged(s, t, PhaseOf(s, t).locked, probe, floor)
    case LoadEnds(t, returned) =>
      if !PhaseOf(s, t).Loading? then s
      else if !returned then Left(s, t)
      else Moved(s, t, Leaving(PhaseOf(s, t).verdict)).(window := if s.window == Some(t) then None else s.window)
    case Settle(t) =>
      if !PhaseOf(s, t).Leaving? then s
      else if FloorWasEvaluated(PhaseOf(s, t).verdict) then Left(s, t).(admitted := s.admitted + {t.process})
      else Left(s, t)
    case RideEnds(t) =>
      if !PhaseOf(s, t).Riding? then s
      else if PhaseOf(s, t).guarded then Left(s, t) else Moved(s, t, Idle)
    case Observe(p, reading) => Counted(s, p, reading)
    case ClearLatch(p) => if p in s.guards then s else s.(admitted := s.admitted - {p})
    case Die(p) => Dead(s, p)
  }

  function Run(events: seq<Event>): State {
    if events == [] then Start() else Step(Run(events[..|events| - 1]), events[|events| - 1])
  }

  // ---------- what every step keeps ----------

  predicate Guarded(phase: Phase) {
    phase.Entering? || phase.Judging? || phase.Loading? || phase.Leaving? || (phase.Riding? && phase.guarded)
  }

  predicate Locked(phase: Phase) { (phase.Judging? && phase.locked) || (phase.Loading? && phase.locked) }

  /** A verdict a load may run under: no cause but an absent torch or device, which are the loader's to report, and with
      a figure only if the figure met the floor. */
  predicate Admits(v: Verdict) {
    && v.reason in {NoReason, TorchMissing, NoDevice}
    && (v.free.Some? ==> v.free.value + OrZero(v.own) >= v.floor)
  }

  predicate Sanctioned(phase: Phase) {
    (phase.Loading? ==> Admits(phase.verdict)) && (phase.Leaving? ==> Admits(phase.verdict))
  }

  ghost predicate InvAt(s: State, t: Thread) {
    && (Guarded(PhaseOf(s, t)) <==> t.process in s.guards && s.guards[t.process] == t)
    && (Locked(PhaseOf(s, t)) <==> s.window == Some(t))
    && Sanctioned(PhaseOf(s, t))
  }

  ghost predicate Inv(s: State) {
    && (forall t :: InvAt(s, t))
    && (forall p :: p in s.guards ==> s.guards[p].process == p)
  }

  predicate ByThread(e: Event) {
    e.Call? || e.TakeGuard? || e.ClaimWindow? || e.Judge? || e.LoadEnds? || e.Settle? || e.RideEnds?
  }

  /** A thread that goes in, towards its load. */
  lemma GoingInKeepsInvAt(s: State, e: Event, t: Thread)
    requires Inv(s) && (e.Call? || e.TakeGuard? || e.ClaimWindow? || e.Judge?)
    ensures InvAt(Step(s, e), t)
  {
    hide VerdictOf, NextStreak, Admits, Refuses;
    assert InvAt(s, t) && InvAt(s, e.thread);
    if e.Judge? { VerdictsAdmit(s, e.thread.process, e.probe, e.floor); }
  }

  /** A thread that comes out, from its load. */
  lemma ComingOutKeepsInvAt(s: State, e: Event, t: Thread)
    requires Inv(s) && (e.LoadEnds? || e.Settle? || e.RideEnds?)
    ensures InvAt(Step(s, e), t)
  {
    hide Admits, FloorWasEvaluated;
    assert InvAt(s, t) && InvAt(s, e.thread);
  }

  lemma StepKeepsInvAt(s: State, e: Event, t: Thread)
    requires Inv(s)
    ensures InvAt(Step(s, e), t)
  {
    hide Admits, NextStreak;
    if e.LoadEnds? || e.Settle? || e.RideEnds? {
      ComingOutKeepsInvAt(s, e, t);
    } else if ByThread(e) {
      GoingInKeepsInvAt(s, e, t);
    } else {
      assert InvAt(s, t);
    }
  }

  lemma VerdictsAdmit(s: State, p: nat, probe: Probe, floor: int)
    ensures var v := VerdictOf(s, p, probe, floor); !Refuses(v) ==> Admits(v)
  {
    hide Truncated;
  }

  lemma StepKeepsInv(s: State, e: Event)
    requires Inv(s)
    ensures Inv(Step(s, e))
  {
    forall t ensures InvAt(Step(s, e), t) { StepKeepsInvAt(s, e, t); }
    hide InvAt, VerdictOf, Counted;
  }

  lemma {:induction false} RunKeepsInv(events: seq<Event>)
    ensures Inv(Run(events))
  {
    hide Step, Inv;
    if events == [] {
      assert Inv(Start()) by { StartIsInv(); }
    } else {
      RunKeepsInv(events[..|events| - 1]);
      StepKeepsInv(Run(events[..|events| - 1]), events[|events| - 1]);
    }
  }

  lemma StartIsInv()
    ensures Inv(Start())
  {}

  // ---------- who may be loading ----------

  /** Whatever fails, one process never runs two loads its latch does not cover, and only one such load on the machine
      has the window's lock. */
  lemma LoadsExclude(events: seq<Event>, t: Thread, u: Thread)
    requires PhaseOf(Run(events), t).Loading? && PhaseOf(Run(events), u).Loading?
    requires t.process == u.process || (PhaseOf(Run(events), t).locked && PhaseOf(Run(events), u).locked)
    ensures t == u
  {
    hide Run;
    RunKeepsInv(events);
    assert InvAt(Run(events), t) && InvAt(Run(events), u);
  }

  predicate AllClaimsWork(events: seq<Event>) {
    forall i :: 0 <= i < |events| && events[i].ClaimWindow? ==> events[i].available
  }

  ghost predicate AllLocked(s: State) {
    forall t :: PhaseOf(s, t).Judging? || PhaseOf(s, t).Loading? ==> PhaseOf(s, t).locked
  }

  lemma {:induction false} RunKeepsLocked(events: seq<Event>)
    requires AllClaimsWork(events)
    ensures AllLocked(Run(events))
  {
    hide VerdictOf;
    if events != [] {
      RunKeepsLocked(events[..|events| - 1]);
      StepKeepsLocked(Run(events[..|events| - 1]), events[|events| - 1]);
    }
  }

  lemma StepKeepsLocked(s: State, e: Event)
    requires AllLocked(s) && (e.ClaimWindow? ==> e.available)
    ensures AllLocked(Step(s, e))
  {
    hide VerdictOf, StreakOf, NextStreak;
    forall t | PhaseOf(Step(s, e), t).Judging? || PhaseOf(Step(s, e), t).Loading?
      ensures PhaseOf(Step(s, e), t).locked
    {
      if PhaseOf(s, t).Judging? || PhaseOf(s, t).Loading? { assert PhaseOf(s, t).locked; }
    }
  }

  /** While the window can always be claimed or found held, at most one thread on the machine is running a load that no
      latch covers. */
  lemma OneUnlatchedLoad(events: seq<Event>, t: Thread, u: Thread)
    requires AllClaimsWork(events)
    requires PhaseOf(Run(events), t).Loading? && PhaseOf(Run(events), u).Loading?
    ensures t == u
  {
    hide Run;
    RunKeepsLocked(events);
    LoadsExclude(events, t, u);
  }

  /** With the window's lock out of order for one of them, two processes load at once. */
  lemma UnavailableWindowAdmitsTwo()
    ensures var t, u := Thread(1, 1), Thread(2, 1);
      var events := [Call(t), TakeGuard(t), ClaimWindow(t, true), Judge(t, Capability, 0),
                     Call(u), TakeGuard(u), ClaimWindow(u, false), Judge(u, Capability, 0)];
      PhaseOf(Run(events), t).Loading? && PhaseOf(Run(events), u).Loading?
  {
    var t, u := Thread(1, 1), Thread(2, 1);
    var v := CapabilityVerdict();
    var events := [Call(t), TakeGuard(t), ClaimWindow(t, true), Judge(t, Capability, 0),
                   Call(u), TakeGuard(u), ClaimWindow(u, false), Judge(u, Capability, 0)];
    var s0 := Start();
    var s1 := Moved(s0, t, Wanting);
    var s2 := Moved(s1, t, Entering).(guards := map[1 := t]);
    var s3 := Moved(s2, t, Judging(true)).(window := Some(t));
    var s4 := Moved(s3, t, Loading(v, true));
    var s5 := Moved(s4, u, Wanting);
    var s6 := Moved(s5, u, Entering).(guards := map[1 := t][2 := u]);
    var s7 := Moved(s6, u, Judging(false));
    var s8 := Moved(s7, u, Loading(v, false));
    assert Step(s0, events[0]) == s1 && Step(s1, events[1]) == s2 && Step(s2, events[2]) == s3;
    assert Step(s3, events[3]) == s4 && Step(s4, events[4]) == s5 && Step(s5, events[5]) == s6;
    assert Step(s6, events[6]) == s7 && Step(s7, events[7]) == s8;
    Chain(events, [s0, s1, s2, s3, s4, s5, s6, s7, s8], 8);
    assert events[..8] == events;
  }

  lemma {:induction false} Chain(events: seq<Event>, states: seq<State>, n: nat)
    requires |states| == |events| + 1 && n <= |events| && states[0] == Start()
    requires forall i :: 0 <= i < |events| ==> Step(states[i], events[i]) == states[i + 1]
    ensures Run(events[..n]) == states[n]
  {
    hide Step;
    if n > 0 {
      Chain(events, states, n - 1);
      assert events[..n][..n - 1] == events[..n - 1];
    }
  }

  /** A thread that finds the window held was refused by another process, never by its own. */
  lemma ContentionIsForeign(events: seq<Event>, t: Thread)
    requires PhaseOf(Run(events), t).Entering? && Run(events).window.Some?
    ensures Run(events).window.value.process != t.process
  {
    hide Run;
    RunKeepsInv(events);
    assert InvAt(Run(events), t) && InvAt(Run(events), Run(events).window.value);
  }

  /** A load that no latch covers runs under a verdict that met the floor, if it got as far as a figure. */
  lemma LoadsAreAdmitted(events: seq<Event>, t: Thread)
    requires PhaseOf(Run(events), t).Loading?
    ensures Admits(PhaseOf(Run(events), t).verdict)
  {
    hide Run, Admits;
    RunKeepsInv(events);
    assert InvAt(Run(events), t);
  }

  // ---------- what a load was judged by ----------

  /** Event k takes a reading on behalf of process p. */
  predicate Reads(events: seq<Event>, k: nat, p: nat)
    requires k < |events|
  {
    var e := events[k];
    || (e.Observe? && e.process == p)
    || (e.Judge? && e.thread.process == p && e.probe.Measured? && PhaseOf(Run(events[..k]), e.thread).Judging?)
  }

  /** The readings process p has taken since it began, oldest first. */
  function Readings(events: seq<Event>, p: nat): seq<Reading> {
    if events == [] then [] else
    var n := |events| - 1;
    var before, e := Readings(events[..n], p), events[n];
    if e == Die(p) then []
    else if Reads(events, n, p) then before + [if e.Observe? then e.reading else e.probe.reading]
    else before
  }

  lemma StreakSteps(s: State, e: Event, p: nat)
    ensures StreakOf(Step(s, e), p) ==
            if e == Die(p) then 0
            else if e.Observe? && e.process == p then NextStreak(StreakOf(s, p), e.reading)
            else if e.Judge? && e.thread.process == p && e.probe.Measured? && PhaseOf(s, e.thread).Judging?
            then NextStreak(StreakOf(s, p), e.probe.reading)
            else StreakOf(s, p)
  {
    hide NextStreak, VerdictOf, Refuses;
  }

  /** The count each process keeps is the streak of its own readings. */
  lemma {:induction false} StreakIsOfReadings(events: seq<Event>, p: nat)
    ensures StreakOf(Run(events), p) == Streak(Readings(events, p))
  {
    hide Step, NextStreak;
    if events == [] {
    } else {
      var n := |events| - 1;
      StreakIsOfReadings(events[..n], p);
      StreakSteps(Run(events[..n]), events[n], p);
      var before, after := Readings(events[..n], p), Readings(events, p);
      if events[n] != Die(p) && Reads(events, n, p) { assert after[..|before|] == before; }
    }
  }

  /** Whatever interleaves, a thread that judges a reading goes on to its load exactly when the reading is not one the
      gate must refuse, after all the readings its process took before; otherwise it gives everything up. */
  lemma JudgedByReadings(events: seq<Event>, t: Thread, r: Reading, floor: int)
    requires PhaseOf(Run(events), t).Judging?
    ensures var history := Readings(events, t.process) + [r];
      var after := PhaseOf(Step(Run(events), Judge(t, Measured(r), floor)), t);
      if MustRefuse(history, floor) then after.Idle?
      else after.Loading? && (FloorWasEvaluated(after.verdict) <==> Compares(r))
  {
    hide Run, AdmissionFromReading, NextStreak, MustRefuse, Compares, FloorWasEvaluated, Refuses;
    var before := Readings(events, t.process);
    var history := before + [r];
    StreakIsOfReadings(events, t.process);
    assert history[..|before|] == before && history[|before|] == r;
    RefusesIff(history, floor);
  }

  /** What the undisturbed call comes to, in the readings of its process. */
  lemma OutcomeByReadings(events: seq<Event>, p: nat, claim: Claim, probe: Probe, floor: int, loads: bool)
    requires !claim.Contended?
    ensures var outcome := OutcomeOf(false, claim, VerdictOf(Run(events), p, probe, floor), floor, loads);
      if probe.Measured? && MustRefuse(Readings(events, p) + [probe.reading], floor)
      then outcome.Refused?
           && outcome.verdict.reason == if MissesFloor(probe.reading, floor) then BelowFloor else DeviceUnreadable
      else outcome == if loads then Loaded else LoadFailed
  {
    hide Run, AdmissionFromReading, NextStreak, MustRefuse, MissesFloor, Compares;
    if probe.Measured? {
      var before := Readings(events, p);
      var history := before + [probe.reading];
      StreakIsOfReadings(events, p);
      assert history[..|before|] == before && history[|before|] == probe.reading;
      RefusesIff(history, floor);
    }
  }

  // ---------- what the latch rests on ----------

  /** Step k took the latch of p away, or the process with it. */
  predicate Retires(events: seq<Event>, k: nat, p: nat)
    requires k < |events|
  {
    (events[k] == ClearLatch(p) && p !in Run(events[..k]).guards) || events[k] == Die(p)
  }

  /** At step i a load of process p, run inside the window under a verdict that met the floor or had none to meet,
      returned; and nothing has retired the admission since. */
  predicate Warrants(events: seq<Event>, i: nat, p: nat)
    requires i < |events|
  {
    && events[i].LoadEnds? && events[i].returned && events[i].thread.process == p
    && (var phase := PhaseOf(Run(events[..i]), events[i].thread);
        phase.Loading? && FloorWasEvaluated(phase.verdict) && Admits(phase.verdict))
    && forall k :: i < k < |events| ==> !Retires(events, k, p)
  }

  ghost predicate Warranted(events: seq<Event>, p: nat) { exists i :: 0 <= i < |events| && Warrants(events, i, p) }

  lemma WarrantLasts(events: seq<Event>, p: nat)
    requires events != [] && Warranted(events[..|events| - 1], p) && !Retires(events, |events| - 1, p)
    ensures Warranted(events, p)
  {
    hide Run, Step, Admits, FloorWasEvaluated;
    var before := events[..|events| - 1];
    var i :| 0 <= i < |before| && Warrants(before, i, p);
    assert before[..i] == events[..i];
    forall k | i < k < |events| ensures !Retires(events, k, p) {
      if k < |before| { assert before[..k] == events[..k] && !Retires(before, k, p); }
    }
    assert Warrants(events, i, p);
  }

  ghost predicate LatchesRest(events: seq<Event>) {
    && (forall p :: p in Run(events).admitted ==> Warranted(events, p))
    && (forall t :: PhaseOf(Run(events), t).Leaving? && FloorWasEvaluated(PhaseOf(Run(events), t).verdict) ==>
          Warranted(events, t.process))
  }

  /** What one step can do to the latch of p or to a load of t on its way out. */
  lemma LatchSteps(s: State, e: Event, p: nat)
    requires p in Step(s, e).admitted
    ensures p in s.admitted || (e.Settle? && e.thread.process == p && PhaseOf(s, e.thread).Leaving?
                                && FloorWasEvaluated(PhaseOf(s, e.thread).verdict))
    ensures e != Die(p) && (e == ClearLatch(p) ==> p in s.guards)
  {
    hide VerdictOf, NextStreak;
  }

  lemma LeavingSteps(s: State, e: Event, t: Thread)
    requires PhaseOf(Step(s, e), t).Leaving?
    ensures PhaseOf(s, t) == PhaseOf(Step(s, e), t)
         || (e == LoadEnds(t, true) && PhaseOf(s, t).Loading?
             && PhaseOf(s, t).verdict == PhaseOf(Step(s, e), t).verdict)
    ensures e != Die(t.process)
  {
    hide VerdictOf, NextStreak;
  }

  /** The latch is set only if, since it was last cleared or the process began, some load of that process returned
      inside the window under a verdict that met the floor or was the capability verdict. */
  lemma {:induction false} LatchIsWarranted(events: seq<Event>)
    ensures LatchesRest(events)
  {
    hide Step, Warranted, Retires, Inv, FloorWasEvaluated, Admits;
    if events == [] {
      assert LatchesRest([]) by { NothingLatched(); }
    } else {
      var n := |events| - 1;
      var before, e := events[..n], events[n];
      var s := Run(before);
      LatchIsWarranted(before);
      forall p | p in Run(events).admitted ensures Warranted(events, p) { LatchStep(events, p); }
      forall t | PhaseOf(Run(events), t).Leaving? && FloorWasEvaluated(PhaseOf(Run(events), t).verdict)
        ensures Warranted(events, t.process)
      {
        LeavingStep(events, t);
      }
    }
  }

  lemma NothingLatched()
    ensures LatchesRest([])
  {}

  lemma LatchStep(events: seq<Event>, p: nat)
    requires events != [] && LatchesRest(events[..|events| - 1]) && p in Run(events).admitted
    ensures Warranted(events, p)
  {
    hide Step, Warranted, Inv, FloorWasEvaluated;
    var n := |events| - 1;
    LatchSteps(Run(events[..n]), events[n], p);
    WarrantLasts(events, p);
  }

  lemma LeavingStep(events: seq<Event>, t: Thread)
    requires events != [] && LatchesRest(events[..|events| - 1])
    requires PhaseOf(Run(events), t).Leaving? && FloorWasEvaluated(PhaseOf(Run(events), t).verdict)
    ensures Warranted(events, t.process)
  {
    hide Step, Inv, FloorWasEvaluated, Admits;
    var n := |events| - 1;
    var before := events[..n];
    var s := Run(before);
    LeavingSteps(s, events[n], t);
    RunKeepsInv(before);
    if PhaseOf(s, t) == PhaseOf(Run(events), t) {
      assert t.process in s.guards by { LeavingHasGuard(s, t); }
      WarrantLasts(events, t.process);
    } else {
      LoadsAreAdmitted(before, t);
      assert Warrants(events, n, t.process);
    }
  }

  lemma LeavingHasGuard(s: State, t: Thread)
    requires Inv(s) && PhaseOf(s, t).Leaving?
    ensures t.process in s.guards
  {
    assert InvAt(s, t);
  }
}
