/** `admit_accelerator_load` as the code runs it, while every other thread of the machine does what it likes between any
    two of its steps. */
module AdmissionCode {
  import opened Options
  import opened Admission
  import opened AdmissionProtocol

  /** The whole machine as one thread sees it; `schedule` is what the others do wherever this thread can be preempted.
      */
  class Machine {
    const schedule: nat -> seq<Event>
    var s: State
    var tick: nat
    ghost var log: seq<Event>

    ghost predicate Valid()
      reads this
    {
      s == Run(log)
    }

    /** From here on nobody else runs. */
    ghost predicate Quiet()
      reads this
    {
      forall k: nat :: k >= tick ==> schedule(k) == []
    }

    constructor (schedule: nat -> seq<Event>)
      ensures Valid() && log == [] && this.schedule == schedule
    {
      this.schedule := schedule;
      s, tick, log := Start(), 0, [];
    }

    method Do(e: Event)
      requires Valid()
      modifies this`s, this`log
      ensures Valid() && log == old(log) + [e] && s == Step(old(s), e)
    {
      assert (log + [e])[..|log|] == log;
      s, log := Step(s, e), log + [e];
    }

    /** Any other thread may run, any number of steps, and any other process may come or go. */
    method Others(t: Thread)
      requires Valid()
      modifies this
      ensures Valid() && old(log) <= log && PhaseOf(s, t) == old(PhaseOf(s, t)) && tick == old(tick) + 1
      ensures schedule(old(tick)) == [] ==> s == old(s)
    {
      var events := schedule(tick);
      tick := tick + 1;
      for i := 0 to |events|
        invariant Valid() && old(log) <= log && PhaseOf(s, t) == old(PhaseOf(s, t)) && tick == old(tick) + 1
        invariant i == 0 ==> s == old(s)
      {
        var e := events[i];
        if !(ByThread(e) && e.thread == t) && e != Die(t.process) {
          OthersLeavePhase(s, e, t);
          Do(e);
        }
      }
    }

    /** Wait for the process's guard; `patience` bounds only how long this model waits. */
    method AwaitGuard(t: Thread, patience: nat) returns (taken: bool)
      requires Valid() && PhaseOf(s, t).Wanting?
      modifies this
      ensures Valid() && old(log) <= log
      ensures !taken ==> PhaseOf(s, t).Wanting?
      ensures taken ==> PhaseOf(s, t).Entering? || (PhaseOf(s, t).Riding? && RanLatched(log, t, |old(log)|))
      ensures old(Quiet() && t.process !in s.guards) && patience > 0 ==>
                taken && Quiet() && s == Step(old(s), TakeGuard(t))
    {
      for i := 0 to patience
        invariant Valid() && old(log) <= log && PhaseOf(s, t).Wanting?
        invariant old(Quiet() && t.process !in s.guards) ==> i == 0 && Quiet() && s == old(s)
      {
        Others(t);
        if t.process !in s.guards {
          ghost var before := log;
          Do(TakeGuard(t));
          if PhaseOf(s, t).Riding? { JustLatched(before, TakeGuard(t), t, |old(log)|); }
          return true;
        }
      }
      return false;
    }

    /** From the window on: claim it, judge, load, and settle. */
    method InWindow(t: Thread, available: bool, probe: Probe, floor: int, loads: bool) returns (outcome: Outcome)
      requires Valid() && PhaseOf(s, t).Entering?
      modifies this
      ensures Valid() && old(log) <= log && PhaseOf(s, t).Idle?
      ensures outcome.Loaded? || outcome.LoadFailed? ==> RanAdmitted(log, t, |old(log)|)
      ensures !outcome.Ridden?
      // refused by a window seen held, or by a reading that must be refused and by no other
      ensures if outcome.Refused? && outcome.verdict.reason == LoadInProgress then FoundHeld(log, t, |old(log)|)
              else if probe.Measured? then Decided(log, t, probe.reading, floor, |old(log)|, outcome.Refused?)
              else !outcome.Refused?
      ensures old(Quiet()) ==>
                var claim := if !available then Unavailable else if old(s).window.Some? then Contended else Held;
                && outcome == OutcomeOf(false, claim, VerdictOf(old(s), t.process, probe, floor), floor, loads)
                && s.admitted == if outcome.Loaded? && Evaluates(probe) then old(s).admitted + {t.process}
                                 else old(s).admitted
    {
      hide VerdictFor, Refuses, FoundHeld, Decided, RanAdmitted, Evaluates, NextStreak;
      Others(t);
      Do(ClaimWindow(t, available));
      if PhaseOf(s, t).Idle? {
        JustFoundHeld(log, t, |old(log)|);
        return Refused(Verdict(false, None, None, floor, LoadInProgress, false));
      }
      ghost var judging := log;
      outcome := Judges(t, probe, floor, loads);
      StillRan(log, log, t, |judging|, |old(log)|);
      if probe.Measured? { StillDecided(log, log, t, probe.reading, floor, |judging|, |old(log)|, outcome.Refused?); }
    }

    method Judges(t: Thread, probe: Probe, floor: int, loads: bool) returns (outcome: Outcome)
      requires Valid() && PhaseOf(s, t).Judging?
      modifies this
      ensures Valid() && old(log) <= log && PhaseOf(s, t).Idle?
      ensures outcome.Loaded? || outcome.LoadFailed? ==> RanAdmitted(log, t, |old(log)|)
      ensures !outcome.Ridden? && (outcome.Refused? ==> outcome.verdict.reason != LoadInProgress)
      ensures if probe.Measured? then Decided(log, t, probe.reading, floor, |old(log)|, outcome.Refused?)
              else !outcome.Refused?
      ensures old(Quiet()) ==>
                && outcome == OutcomeOf(false, Held, VerdictOf(old(s), t.process, probe, floor), floor, loads)
                && s.admitted == if outcome.Loaded? && Evaluates(probe) then old(s).admitted + {t.process}
                                 else old(s).admitted
    {
      hide AdmissionFromReading, NextStreak, Decided, Refuses, FloorWasEvaluated, Compares, RanAdmitted, Admits;
      Others(t);
      ghost var before := log;
      var verdict := VerdictOf(s, t.process, probe, floor);
      VerdictFacts(before, t.process, probe, floor);
      Do(Judge(t, probe, floor));
      if probe.Measured? { JustDecided(before, t, probe.reading, floor, |old(log)|); }
      ghost var judged := log;
      if Refuses(verdict) {
        return Refused(verdict);
      }
      LoadsAreAdmitted(log, t);
      ghost var loading := log;
      outcome := LoadsAndSettles(t, verdict, loads);
      StillRan(log, log, t, |loading|, |old(log)|);
      if probe.Measured? { StillDecided(judged, log, t, probe.reading, floor, |old(log)|, |old(log)|, false); }
    }

    method LoadsAndSettles(t: Thread, ghost verdict: Verdict, loads: bool) returns (outcome: Outcome)
      requires Valid() && PhaseOf(s, t).Loading? && PhaseOf(s, t).verdict == verdict && Admits(verdict)
      modifies this
      ensures Valid() && old(log) <= log && PhaseOf(s, t).Idle?
      ensures outcome == if loads then Loaded else LoadFailed
      ensures RanAdmitted(log, t, |old(log)|)
      ensures old(Quiet()) ==>
                s.admitted == if loads && FloorWasEvaluated(verdict) then old(s).admitted + {t.process}
                              else old(s).admitted
    {
      hide Admits, FloorWasEvaluated, RanAdmitted;
      JustLoading(log, t, |log|);
      Others(t);
      Do(LoadEnds(t, loads));
      if !loads {
        outcome := LoadFailed;
      } else {
        Others(t);
        Do(Settle(t));
        outcome := Loaded;
      }
      StillRan(old(log), log, t, |old(log)|, |old(log)|);
    }

    /** A load the latch covers, as read not before event `from`. */
    method Rides(t: Thread, ghost from: nat)
      requires Valid() && PhaseOf(s, t).Riding? && RanLatched(log, t, from)
      modifies this
      ensures Valid() && old(log) <= log && PhaseOf(s, t).Idle? && RanLatched(log, t, from)
      ensures old(Quiet()) ==> s.admitted == old(s).admitted
    {
      hide RanLatched;
      Others(t);
      Do(RideEnds(t));
      StillRan(old(log), log, t, from, from);
    }

    /** The whole call: the latch is read once before the guard is asked for and once under it. Nothing is returned if
        the guard never comes free. */
    method AdmitAcceleratorLoad(t: Thread, available: bool, probe: Probe, floor: int, loads: bool, patience: nat)
      returns (outcome: Option<Outcome>)
      requires Valid() && PhaseOf(s, t).Idle?
      modifies this
      ensures Valid() && old(log) <= log
      ensures outcome.Some? ==> PhaseOf(s, t).Idle?
      ensures outcome.None? ==> PhaseOf(s, t).Wanting?
      // during this call, a load runs under a latch that was set, or inside the window under a verdict that admits
      ensures outcome == Some(Loaded) || outcome == Some(LoadFailed) ==> RanAdmitted(log, t, |old(log)|)
      ensures outcome.Some? && outcome.value.Ridden? ==> RanLatched(log, t, |old(log)|)
      ensures outcome.Some? && !outcome.value.Ridden? ==>
                if outcome.value.Refused? && outcome.value.verdict.reason == LoadInProgress
                then FoundHeld(log, t, |old(log)|)
                else if probe.Measured? then Decided(log, t, probe.reading, floor, |old(log)|, outcome.value.Refused?)
                else !outcome.value.Refused?
      // left to itself it is the one-process call
      ensures old(Quiet() && t.process !in s.guards) && patience > 0 ==>
                var claim := if !available then Unavailable else if old(s).window.Some? then Contended else Held;
                var v := VerdictOf(old(s), t.process, probe, floor);
                && outcome == Some(OutcomeOf(t.process in old(s).admitted, claim, v, floor, loads))
                && s.admitted == if outcome.value.Loaded? && Evaluates(probe) then old(s).admitted + {t.process}
                                 else old(s).admitted
    {
      hide VerdictFor, RanAdmitted, RanLatched, Refuses, FoundHeld, Decided, Evaluates;
      Do(Call(t));
      if PhaseOf(s, t).Riding? {
        JustLatched(old(log), Call(t), t, |old(log)|);
        Rides(t, |old(log)|);
        return Some(Ridden(loads));
      }
      ghost var called := log;
      var taken := AwaitGuard(t, patience);
      if !taken {
        return None;
      }
      if PhaseOf(s, t).Riding? {
        StillRan(log, log, t, |called|, |old(log)|);
        Rides(t, |old(log)|);
        return Some(Ridden(loads));
      }
      ghost var entering := log;
      var o := InWindow(t, available, probe, floor, loads);
      StillRan(log, log, t, |entering|, |old(log)|);
      StillFoundHeld(log, t, |entering|, |old(log)|);
      if probe.Measured? { StillDecided(log, log, t, probe.reading, floor, |entering|, |old(log)|, o.Refused?); }
      outcome := Some(o);
    }
  }

  lemma OthersLeavePhase(s: State, e: Event, t: Thread)
    requires !(ByThread(e) && e.thread == t) && e != Die(t.process)
    ensures PhaseOf(Step(s, e), t) == PhaseOf(s, t)
  {
    hide VerdictOf, NextStreak;
  }

  ghost predicate LoadingAt(events: seq<Event>, t: Thread, k: nat)
    requires k <= |events|
  {
    var phase := PhaseOf(Run(events[..k]), t);
    phase.Loading? && Admits(phase.verdict)
  }

  /** At some point of the run, not before event `from`, thread t was loading inside the window under a verdict that
      admits. */
  ghost predicate RanAdmitted(events: seq<Event>, t: Thread, from: nat) {
    exists k :: from <= k <= |events| && LoadingAt(events, t, k)
  }

  ghost predicate LatchedAt(events: seq<Event>, t: Thread, k: nat)
    requires k < |events|
  {
    && (events[k] == Call(t) || events[k] == TakeGuard(t))
    && t.process in Run(events[..k]).admitted && PhaseOf(Run(events[..k + 1]), t).Riding?
  }

  /** At some step of the run, not before event `from`, thread t read the latch of its process as set. */
  ghost predicate RanLatched(events: seq<Event>, t: Thread, from: nat) {
    exists k :: from <= k < |events| && LatchedAt(events, t, k)
  }

  /** At some step not before event `from`, thread t asked for the window and another had it. */
  ghost predicate FoundHeld(events: seq<Event>, t: Thread, from: nat) {
    exists k :: from <= k < |events| && FoundHeldAt(events, t, k)
  }

  ghost predicate FoundHeldAt(events: seq<Event>, t: Thread, k: nat)
    requires k < |events|
  {
    && events[k] == ClaimWindow(t, true) && PhaseOf(Run(events[..k]), t).Entering?
    && Run(events[..k]).window.Some? && Run(events[..k]).window.value.process != t.process
  }

  ghost predicate DecidedAt(events: seq<Event>, t: Thread, r: Reading, floor: int, k: nat, refused: bool)
    requires k < |events|
  {
    && events[k] == Judge(t, Measured(r), floor) && PhaseOf(Run(events[..k]), t).Judging?
    && (refused <==> MustRefuse(Readings(events[..k], t.process) + [r], floor))
  }

  /** At some step not before event `from`, thread t judged reading r, and refused it exactly if it must be refused
      after all that its process had read by then. */
  ghost predicate Decided(events: seq<Event>, t: Thread, r: Reading, floor: int, from: nat, refused: bool) {
    exists k :: from <= k < |events| && DecidedAt(events, t, r, floor, k, refused)
  }

  /** A probe whose verdict can latch: figures that compare, or the capability alone where that is what is asked. */
  predicate Evaluates(probe: Probe) { probe.Capability? || (probe.Measured? && Compares(probe.reading)) }

  lemma VerdictFacts(events: seq<Event>, p: nat, probe: Probe, floor: int)
    ensures var v := VerdictOf(Run(events), p, probe, floor);
      && (FloorWasEvaluated(v) <==> Evaluates(probe)) && v.reason != LoadInProgress
      && (!probe.Measured? ==> !Refuses(v))
  {
    hide Run, Truncated;
  }

  lemma JustFoundHeld(events: seq<Event>, t: Thread, from: nat)
    requires from < |events| && var k := |events| - 1;
             (exists available :: events[k] == ClaimWindow(t, available)) && PhaseOf(Run(events[..k]), t).Entering?
    requires PhaseOf(Run(events), t).Idle?
    ensures FoundHeld(events, t, from)
  {
    var k := |events| - 1;
    RunKeepsInv(events[..k]);
    if Run(events[..k]).window.Some? { ContentionIsForeign(events[..k], t); }
    assert FoundHeldAt(events, t, k);
  }

  lemma StillFoundHeld(events: seq<Event>, t: Thread, later: nat, from: nat)
    requires from <= later
    ensures FoundHeld(events, t, later) ==> FoundHeld(events, t, from)
  {
    hide FoundHeldAt;
  }

  lemma JustDecided(before: seq<Event>, t: Thread, r: Reading, floor: int, from: nat)
    requires PhaseOf(Run(before), t).Judging? && from <= |before|
    ensures var s := Run(before);
      Decided(before + [Judge(t, Measured(r), floor)], t, r, floor, from,
              Refuses(VerdictOf(s, t.process, Measured(r), floor)))
  {
    hide Run, MustRefuse, VerdictOf, Readings;
    var events := before + [Judge(t, Measured(r), floor)];
    assert events[..|before|] == before;
    RefusesByReadings(before, t.process, r, floor);
    assert DecidedAt(events, t, r, floor, |before|, Refuses(VerdictOf(Run(before), t.process, Measured(r), floor)));
  }

  lemma RefusesByReadings(events: seq<Event>, p: nat, r: Reading, floor: int)
    ensures Refuses(VerdictOf(Run(events), p, Measured(r), floor)) <==> MustRefuse(Readings(events, p) + [r], floor)
  {
    hide Run, MustRefuse, VerdictOf, Readings;
    OutcomeByReadings(events, p, Held, Measured(r), floor, true);
  }

  lemma StillDecided(events: seq<Event>, longer: seq<Event>, t: Thread, r: Reading, floor: int, later: nat, from: nat,
                     refused: bool)
    requires events <= longer && from <= later
    ensures Decided(events, t, r, floor, later, refused) ==> Decided(longer, t, r, floor, from, refused)
  {
    hide Run, MustRefuse;
    if k :| later <= k < |events| && DecidedAt(events, t, r, floor, k, refused) {
      assert events[..k] == longer[..k];
      assert DecidedAt(longer, t, r, floor, k, refused);
    }
  }

  lemma JustLoading(events: seq<Event>, t: Thread, from: nat)
    requires from <= |events|
    requires PhaseOf(Run(events), t).Loading? && Admits(PhaseOf(Run(events), t).verdict)
    ensures RanAdmitted(events, t, from)
  {
    hide Run, Admits;
    assert events[..|events|] == events;
    assert LoadingAt(events, t, |events|);
  }

  lemma JustLatched(events: seq<Event>, e: Event, t: Thread, from: nat)
    requires from <= |events|
    requires (e == Call(t) && PhaseOf(Run(events), t).Idle?) || (e == TakeGuard(t) && PhaseOf(Run(events), t).Wanting?)
    requires PhaseOf(Run(events + [e]), t).Riding?
    ensures RanLatched(events + [e], t, from)
  {
    var longer := events + [e];
    assert longer[..|events|] == events && longer[..|events| + 1] == longer;
    assert LatchedAt(longer, t, |events|);
  }

  lemma StillRan(events: seq<Event>, longer: seq<Event>, t: Thread, later: nat, from: nat)
    requires events <= longer && from <= later
    ensures RanAdmitted(events, t, later) ==> RanAdmitted(longer, t, from)
    ensures RanLatched(events, t, later) ==> RanLatched(longer, t, from)
  {
    hide Run, Admits;
    if k :| later <= k <= |events| && LoadingAt(events, t, k) {
      assert events[..k] == longer[..k];
      assert LoadingAt(longer, t, k);
    }
    if k :| later <= k < |events| && LatchedAt(events, t, k) {
      assert events[..k] == longer[..k] && events[..k + 1] == longer[..k + 1];
      assert LatchedAt(longer, t, k);
    }
  }
}
