/** What every run of the GPU ownership protocol keeps: one owner, no unprobed owner, and loans that were real when
    they were read. */
module GpuOwnerRuns {
  import opened Options
  import opened GpuOwner

  /** p runs, is recorded in its own `_held` table, and has the anchor locked. */
  ghost predicate OwnsGpu(s: State, p: Pid) {
    p in s.procs.running && p in s.gpu.held && s.gpu.lock == Some(s.gpu.held[p])
  }

  // ---------- one owner ----------

  /** Whatever interleaves, at most one process has the anchor in `_held`, and it runs and holds the lock. */
  lemma AtMostOneOwner(cfg: Config, es: seq<Event>, p: Pid, q: Pid)
    requires p in Run(cfg, es).gpu.held
    ensures OwnsGpu(Run(cfg, es), p)
    ensures q in Run(cfg, es).gpu.held ==> q == p
  {
    RunKeepsInv(cfg, es);
  }

  /** A published loan whose named owner runs is a loan by the process that holds the anchor's lock. */
  lemma LoanNamesTheLockHolder(cfg: Config, es: seq<Event>)
    requires Published(Run(cfg, es)).Some? && Published(Run(cfg, es)).value.lentTo > 0
    ensures var s := Run(cfg, es); var o := Published(s).value.owner;
            o in s.procs.running <==> OwnsGpu(s, o)
  {
    RunKeepsInv(cfg, es);
  }

  // ---------- who moves a thread ----------

  lemma OnlyItsOwnStepsMoveAThread(cfg: Config, s: State, e: Event, t: Tid)
    requires PhaseOf(Step(cfg, s, e), t) != PhaseOf(s, t)
    ensures e.Exit? ==> PhaseOf(Step(cfg, s, e), t).Idle?
    ensures !e.Exit? ==> IsThreadEvent(e) && e.t == t && Runs(cfg, s, t)
                         && PhaseOf(Step(cfg, s, e), t) == ThreadEffect(cfg, s, e).next
  {
    if IsThreadEvent(e) && Runs(cfg, s, e.t) {
      AppliedPhases(s, ThreadEffect(cfg, s, e), e.t);
    }
  }

  predicate JudgedBy(cfg: Config, s: State, e: Event, next: Phase)
    requires IsThreadEvent(e)
  {
    var ph := PhaseOf(s, e.t);
    && (next.Judging? ==> e.ReadRecord? && ph.Refused? && next.seen == if e.readable then Published(s) else None)
    && (next.Done? && next.answer.state == LentHere ==>
          e.AskAlive? && ph.Judging? && next.answer == Contended(cfg, s, cfg.proc(e.t), ph.seen))
  }

  lemma JudgedByAnchor(cfg: Config, s: State, e: Event)
    requires IsAnchorEvent(e) && GoodPhase(PhaseOf(s, e.t)) && AnchorStep(cfg, s, e).next != PhaseOf(s, e.t)
    ensures JudgedBy(cfg, s, e, AnchorStep(cfg, s, e).next)
  {
    hide InLineage;
  }

  /** Which event a judgement, and a loan answer, came from. */
  lemma NewJudgement(cfg: Config, s: State, e: Event)
    requires IsThreadEvent(e) && GoodPhase(PhaseOf(s, e.t))
    requires ThreadEffect(cfg, s, e).next != PhaseOf(s, e.t)
    ensures JudgedBy(cfg, s, e, ThreadEffect(cfg, s, e).next)
  {
    hide CallStep, AnchorStep, PublishStep, ProbeStep, LeaseStep, Contended;
    if IsAnchorEvent(e) { JudgedByAnchor(cfg, s, e); }
  }

  lemma GlanceIsTried(cfg: Config, s: State, e: Event)
    requires IsProbeEvent(e) && PhaseOf(s, e.t) != Probing(Claim, Glancing)
    requires ProbeStep(cfg, s, e).next == Probing(Claim, Glancing)
    ensures e.TryService? && PhaseOf(s, e.t) == Probing(Claim, TrySvc) && cfg.storage(cfg.proc(e.t)) !in s.svc.lock
  {}

  /** Which event starts a glance at the service lock. */
  lemma NewGlance(cfg: Config, s: State, e: Event)
    requires IsThreadEvent(e) && PhaseOf(s, e.t) != Probing(Claim, Glancing)
    requires ThreadEffect(cfg, s, e).next == Probing(Claim, Glancing)
    ensures e.TryService? && PhaseOf(s, e.t) == Probing(Claim, TrySvc)
            && cfg.storage(cfg.proc(e.t)) !in s.svc.lock
  {
    hide CallStep, AnchorStep, PublishStep, ProbeStep, LeaseStep;
    if IsProbeEvent(e) { GlanceIsTried(cfg, s, e); }
  }

  lemma GoneGrows(cfg: Config, s: State, e: Event)
    ensures s.procs.gone <= Step(cfg, s, e).procs.gone
  {}

  lemma GoneStaysGone(cfg: Config, es: seq<Event>, k: nat, p: Pid)
    requires k <= |es| && p in Run(cfg, es[..k]).procs.gone
    ensures p in Run(cfg, es).procs.gone
  {
    if k == |es| {
      assert es[..k] == es;
    } else {
      var pre := es[..|es| - 1];
      assert pre[..k] == es[..k];
      GoneStaysGone(cfg, pre, k, p);
      GoneGrows(cfg, Run(cfg, pre), es[|es| - 1]);
    }
  }

  // ---------- a loan answer was true when the record was read ----------

  /** At event k, thread t read `seen` out of the anchor it had been refused. */
  ghost predicate ReadAt(cfg: Config, es: seq<Event>, t: Tid, k: nat, seen: Option<Record>) {
    && k < |es| && es[k].ReadRecord? && es[k].t == t
    && PhaseOf(Run(cfg, es[..k]), t).Refused?
    && seen == if es[k].readable then Published(Run(cfg, es[..k])) else None
  }

  /** Ever since event k, thread t has been judging what it read or holding its answer: it is still the same call. */
  ghost predicate SameCallSince(cfg: Config, es: seq<Event>, t: Tid, k: nat) {
    forall j :: k < j <= |es| ==> PhaseOf(Run(cfg, es[..j]), t).Judging? || PhaseOf(Run(cfg, es[..j]), t).Done?
  }

  lemma SameCallLonger(cfg: Config, es: seq<Event>, t: Tid, k: nat)
    requires es != [] && SameCallSince(cfg, es[..|es| - 1], t, k)
    requires PhaseOf(Run(cfg, es), t).Judging? || PhaseOf(Run(cfg, es), t).Done?
    ensures SameCallSince(cfg, es, t, k)
  {
    hide Run;
    assert es[..|es|] == es;
    assert forall j :: 0 <= j < |es| ==> es[..|es| - 1][..j] == es[..j];
  }

  lemma NothingSince(cfg: Config, es: seq<Event>, t: Tid)
    ensures SameCallSince(cfg, es, t, |es|)
  {}

  lemma JudgedWasRead(cfg: Config, es: seq<Event>, t: Tid) returns (k: nat)
    requires PhaseOf(Run(cfg, es), t).Judging?
    ensures ReadAt(cfg, es, t, k, PhaseOf(Run(cfg, es), t).seen) && SameCallSince(cfg, es, t, k)
  {
    hide Step, ThreadEffect, SameCallSince;
    var n := |es| - 1;
    var pre := es[..n];
    if PhaseOf(Run(cfg, pre), t) == PhaseOf(Run(cfg, es), t) {
      k := JudgedWasRead(cfg, pre, t);
      SameCallLonger(cfg, es, t, k);
      assert pre[..k] == es[..k];
    } else {
      OnlyItsOwnStepsMoveAThread(cfg, Run(cfg, pre), es[n], t);
      RunKeepsInv(cfg, pre);
      assert GoodPhase(PhaseOf(Run(cfg, pre), t));
      NewJudgement(cfg, Run(cfg, pre), es[n]);
      k := n;
      assert SameCallSince(cfg, pre, t, k) by { NothingSince(cfg, pre, t); }
      SameCallLonger(cfg, es, t, k);
    }
  }

  /** The anchor is locked and its record lends to the lineage of p, by an owner that answers as alive. */
  predicate OffersLoan(cfg: Config, s: State, p: Pid) {
    && s.gpu.lock.Some? && Published(s).Some?
    && var r := Published(s).value;
       r.owner > 0 && PidAlive(s, r.owner) && r.lentTo > 0 && InLineage(cfg, p, r.lentTo, r.lentStart)
  }

  /** A loan is to p's lineage when p or one of its ancestors has the lent pid and started within a millisecond of the
      lent time. */
  lemma LineageIff(cfg: Config, p: Pid, pid: Pid, start: real)
    ensures InLineage(cfg, p, pid, start)
       <==> exists entry :: entry in cfg.lineage(p) && entry.pid == pid
              && (if entry.start < start then start - entry.start else entry.start - start) <= 0.001
  {
    if InLineage(cfg, p, pid, start) {
      var k :| 0 <= k < |cfg.lineage(p)| && cfg.lineage(p)[k].pid == pid
            && -LOAN_START_TOLERANCE <= cfg.lineage(p)[k].start - start <= LOAN_START_TOLERANCE;
      assert cfg.lineage(p)[k] in cfg.lineage(p);
    }
  }

  /** At event k, thread t read a record of h lending to t's own lineage. It was true at that instant, h holding
      the GPU, exactly when h was not an exited process still waiting to be reaped. */
  ghost predicate LentAt(cfg: Config, es: seq<Event>, t: Tid, k: nat, h: Pid) {
    && k < |es| && es[k] == ReadRecord(t, true)
    && var s := Run(cfg, es[..k]);
    && Runs(cfg, s, t) && PhaseOf(s, t).Refused? && Published(s).Some?
    && var r := Published(s).value;
    && r.owner == h > 0 && r.lentTo > 0 && InLineage(cfg, cfg.proc(t), r.lentTo, r.lentStart)
    && (h in s.procs.running || h in s.procs.zombies)
    && (OwnsGpu(s, h) <==> h !in s.procs.zombies)
  }

  /** Every LENT_HERE answer, by claim or by observation, rests on such a read, made by the same call. */
  lemma LentAnswerWasTrueWhenRead(cfg: Config, es: seq<Event>, t: Tid) returns (k: nat)
    requires PhaseOf(Run(cfg, es), t).Done? && PhaseOf(Run(cfg, es), t).answer.state == LentHere
    ensures LentAt(cfg, es, t, k, PhaseOf(Run(cfg, es), t).answer.holder) && SameCallSince(cfg, es, t, k)
  {
    hide Step, ThreadEffect, SameCallSince;
    var n := |es| - 1;
    var pre := es[..n];
    var s := Run(cfg, pre);
    if PhaseOf(s, t) == PhaseOf(Run(cfg, es), t) {
      k := LentAnswerWasTrueWhenRead(cfg, pre, t);
      SameCallLonger(cfg, es, t, k);
      assert pre[..k] == es[..k];
    } else {
      OnlyItsOwnStepsMoveAThread(cfg, s, es[n], t);
      RunKeepsInv(cfg, pre);
      assert GoodPhase(PhaseOf(s, t));
      NewJudgement(cfg, s, es[n]);
      k := JudgedWasRead(cfg, pre, t);
      SameCallLonger(cfg, es, t, k);
      assert pre[..k] == es[..k];
      RunKeepsInv(cfg, pre[..k]);
      var h := PhaseOf(s, t).seen.value.owner;
      if h in Run(cfg, pre[..k]).procs.gone {
        GoneStaysGone(cfg, pre, k, h);
      }
    }
  }

  // ---------- what a claim's answer means ----------

  /** Whether this phase's answer, if it is OWNED_HERE, names the thread's own process, which is in `_held`. */
  predicate OwnedHolds(cfg: Config, ph: Phase, t: Tid, held: map<Pid, Tid>) {
    ph.Done? && ph.answer.state == OwnedHere ==> ph.answer.holder == cfg.proc(t) && cfg.proc(t) in held
  }

  ghost predicate OwnedAnswersHold(cfg: Config, s: State) {
    forall t: Tid :: OwnedHolds(cfg, PhaseOf(s, t), t, s.gpu.held)
  }

  lemma OwnedByProbe(cfg: Config, s: State, e: Event)
    requires IsProbeEvent(e) && PhaseOf(s, e.t).Probing?
    ensures var r := ProbeStep(cfg, s, e);
      && s.gpu.held.Keys <= r.gpu.held.Keys
      && (r.next.Done? && r.next.answer.state == OwnedHere ==>
            r.next.answer.holder == cfg.proc(e.t) && cfg.proc(e.t) in r.gpu.held)
  {}

  lemma OwnedByJudgement(cfg: Config, s: State, e: Event)
    requires IsAnchorEvent(e) && GoodPhase(PhaseOf(s, e.t))
    ensures var r := AnchorStep(cfg, s, e);
      r.next != PhaseOf(s, e.t) && r.next.Done? ==> r.next.answer.state != OwnedHere
  {}

  /** A thread enters its process in `_held` at the end of a claim and takes none out. */
  lemma HeldEffect(cfg: Config, s: State, e: Event)
    requires IsThreadEvent(e)
    ensures var r := ThreadEffect(cfg, s, e).gpu;
            r.held == s.gpu.held || (r.held == s.gpu.held[cfg.proc(e.t) := e.t] && InClaim(PhaseOf(s, e.t)))
  {
    hide CallStep, AnchorStep, PublishStep, LeaseStep;
  }

  lemma OwnedAnswerEffect(cfg: Config, s: State, e: Event)
    requires IsThreadEvent(e) && GoodPhase(PhaseOf(s, e.t)) && OwnedHolds(cfg, PhaseOf(s, e.t), e.t, s.gpu.held)
    ensures s.gpu.held.Keys <= ThreadEffect(cfg, s, e).gpu.held.Keys
    ensures OwnedHolds(cfg, ThreadEffect(cfg, s, e).next, e.t, ThreadEffect(cfg, s, e).gpu.held)
  {
    hide CallStep, AnchorStep, PublishStep, ProbeStep, LeaseStep, GoodPhase;
    HeldEffect(cfg, s, e);
    if IsProbeEvent(e) {
      if PhaseOf(s, e.t).Probing? { OwnedByProbe(cfg, s, e); } else { IdleProbe(cfg, s, e); }
    } else if IsAnchorEvent(e) {
      OwnedByJudgement(cfg, s, e);
    }
  }

  lemma IdleProbe(cfg: Config, s: State, e: Event)
    requires IsProbeEvent(e) && !PhaseOf(s, e.t).Probing?
    ensures ProbeStep(cfg, s, e) == Stay(s, e.t)
  {}

  lemma OwnedAnswersExit(cfg: Config, s: State, p: Pid)
    requires Inv(cfg, s) && OwnedAnswersHold(cfg, s) && p in s.procs.running
    ensures OwnedAnswersHold(cfg, ExitStep(cfg, s, p))
  {
    ExitClearsPhases(cfg, s, p);
  }

  lemma OwnedAnswersThread(cfg: Config, s: State, e: Event)
    requires Inv(cfg, s) && OwnedAnswersHold(cfg, s) && IsThreadEvent(e)
    ensures OwnedAnswersHold(cfg, Apply(s, ThreadEffect(cfg, s, e), e.t))
  {
    hide ThreadEffect, Processes, HeldIsLocked, LockIsOwned, GuardSerialises, LoansAreOwned;
    assert GoodPhase(PhaseOf(s, e.t)) && OwnedHolds(cfg, PhaseOf(s, e.t), e.t, s.gpu.held);
    OwnedAnswerEffect(cfg, s, e);
    AppliedPhases(s, ThreadEffect(cfg, s, e), e.t);
  }

  lemma OwnedAnswersAlways(cfg: Config, es: seq<Event>)
    ensures OwnedAnswersHold(cfg, Run(cfg, es))
  {
    if es != [] {
      var pre, e := es[..|es| - 1], es[|es| - 1];
      OwnedAnswersAlways(cfg, pre);
      RunKeepsInv(cfg, pre);
      var s := Run(cfg, pre);
      if e.Exit? {
        if e.pid in s.procs.running { OwnedAnswersExit(cfg, s, e.pid); }
      } else if IsThreadEvent(e) {
        if Runs(cfg, s, e.t) { OwnedAnswersThread(cfg, s, e); }
      } else {
        assert forall t: Tid :: PhaseOf(Step(cfg, s, e), t) == PhaseOf(s, t);
      }
    }
  }

  /** `require_gpu_ownership` never answers FREE: it permits compute only as OWNED_HERE, with the anchor held by this
      process as it answers, or as LENT_HERE, by a record the same call read. */
  lemma ClaimPermitsOnlyOwnedOrLent(cfg: Config, es: seq<Event>, t: Tid) returns (k: nat)
    requires var ph := PhaseOf(Run(cfg, es), t); ph.Done? && ph.call == Claim && PermitsCompute(ph.answer.state)
    ensures var a := PhaseOf(Run(cfg, es), t).answer;
            || (a == Ownership(OwnedHere, cfg.proc(t)) && OwnsGpu(Run(cfg, es), cfg.proc(t)))
            || (a.state == LentHere && LentAt(cfg, es, t, k, a.holder) && SameCallSince(cfg, es, t, k))
  {
    hide SameCallSince;
    RunKeepsInv(cfg, es);
    assert GoodPhase(PhaseOf(Run(cfg, es), t));
    k := 0;
    if PhaseOf(Run(cfg, es), t).answer.state == LentHere {
      k := LentAnswerWasTrueWhenRead(cfg, es, t);
    } else {
      OwnedAnswersAlways(cfg, es);
      AtMostOneOwner(cfg, es, cfg.proc(t), cfg.proc(t));
    }
  }

  // ---------- the guard of a process ----------

  /** A claim that is about to try the lock is refused by another process, or by a thread of its own that observes:
      never by its own process's claim or by what that process holds. */
  lemma RefusedFromOutside(cfg: Config, es: seq<Event>, t: Tid, u: Tid)
    requires PhaseOf(Run(cfg, es), t).Trying? && PhaseOf(Run(cfg, es), t).call == Claim
    requires Run(cfg, es).gpu.lock == Some(u)
    ensures cfg.proc(u) != cfg.proc(t) || PhaseOf(Run(cfg, es), u).ObsHolding?
  {
    hide Run;
    RunKeepsInv(cfg, es);
  }

  /** A claim with its answer has its process's guard still, or found itself in `_held` and never needed it. */
  predicate KeepsGuard(cfg: Config, ph: Phase, t: Tid, g: Gpu) {
    ph.Done? && ph.call == Claim ==>
      if cfg.proc(t) in g.guard then g.guard[cfg.proc(t)] == t else cfg.proc(t) in g.held
  }

  ghost predicate ClaimsKeepGuard(cfg: Config, s: State) {
    forall t: Tid :: KeepsGuard(cfg, PhaseOf(s, t), t, s.gpu)
  }

  /** What a thread does to the guards: nothing, take its free one on the way in, or free its own on the way out. */
  lemma GuardEffect(cfg: Config, s: State, e: Event)
    requires IsThreadEvent(e)
    ensures var p := cfg.proc(e.t); var r := ThreadEffect(cfg, s, e);
            || r.gpu.guard == s.gpu.guard
            || (p !in s.gpu.guard && p !in s.gpu.held && r.gpu.guard == s.gpu.guard[p := e.t] && r.next.Trying?)
            || (p in s.gpu.guard && s.gpu.guard[p] == e.t && r.gpu.guard == s.gpu.guard - {p} && r.next.Idle?)
  {
    hide AnchorStep, PublishStep, ProbeStep, LeaseStep;
    if IsProbeEvent(e) {
      if PhaseOf(s, e.t).Probing? { GuardByProbe(cfg, s, e); } else { IdleProbe(cfg, s, e); }
    }
  }

  lemma GuardByProbe(cfg: Config, s: State, e: Event)
    requires IsProbeEvent(e) && PhaseOf(s, e.t).Probing?
    ensures ProbeStep(cfg, s, e).gpu.guard == s.gpu.guard
  {}

  /** If this effect brings a claim to an answer, the claim was under way, or began and ended with its process in
      `_held` and the guard free. */
  predicate EndsClaim(cfg: Config, s: State, t: Tid, r: Effect) {
    r.next.Done? && r.next.call == Claim && r.next != PhaseOf(s, t) ==>
      || InClaim(PhaseOf(s, t))
      || (cfg.proc(t) in s.gpu.held && cfg.proc(t) !in s.gpu.guard && r.gpu.guard == s.gpu.guard)
  }

  lemma ClaimEnds(cfg: Config, s: State, e: Event)
    requires IsThreadEvent(e)
    ensures EndsClaim(cfg, s, e.t, ThreadEffect(cfg, s, e))
  {
    hide CallStep, AnchorStep, PublishStep, ProbeStep, LeaseStep, EndsClaim;
    if IsCallEvent(e) { ClaimEndsAtOnce(cfg, s, e); }
    else if IsAnchorEvent(e) { ClaimEndsByAnchor(cfg, s, e); }
    else if IsPublishEvent(e) { ClaimGoesOn(cfg, s, e.t, PublishStep(cfg, s, e)); }
    else if IsProbeEvent(e) { ClaimEndsByProbe(cfg, s, e); }
    else { ClaimGoesOn(cfg, s, e.t, LeaseStep(cfg, s, e)); }
  }

  lemma ClaimEndsAtOnce(cfg: Config, s: State, e: Event)
    requires IsCallEvent(e)
    ensures EndsClaim(cfg, s, e.t, CallStep(cfg, s, e))
  {}

  lemma ClaimEndsByAnchor(cfg: Config, s: State, e: Event)
    requires IsAnchorEvent(e)
    ensures EndsClaim(cfg, s, e.t, AnchorStep(cfg, s, e))
  {
    hide Contended;
  }

  lemma ClaimEndsByProbe(cfg: Config, s: State, e: Event)
    requires IsProbeEvent(e)
    ensures EndsClaim(cfg, s, e.t, ProbeStep(cfg, s, e))
  {
    if !PhaseOf(s, e.t).Probing? { IdleProbe(cfg, s, e); }
  }

  lemma ClaimGoesOn(cfg: Config, s: State, t: Tid, r: Effect)
    requires r.next == PhaseOf(s, t) || !r.next.Done?
    ensures EndsClaim(cfg, s, t, r)
  {}

  lemma GuardKeptThread(cfg: Config, s: State, e: Event)
    requires Inv(cfg, s) && ClaimsKeepGuard(cfg, s) && IsThreadEvent(e)
    ensures ClaimsKeepGuard(cfg, Apply(s, ThreadEffect(cfg, s, e), e.t))
  {
    hide ThreadEffect, Processes, HeldIsLocked, LockIsOwned, LoansAreOwned, Answers;
    var r := ThreadEffect(cfg, s, e);
    GuardEffect(cfg, s, e);
    HeldEffect(cfg, s, e);
    ClaimEnds(cfg, s, e);
    AppliedPhases(s, r, e.t);
    forall t: Tid ensures KeepsGuard(cfg, if t == e.t then r.next else PhaseOf(s, t), t, r.gpu) {
      assert KeepsGuard(cfg, PhaseOf(s, t), t, s.gpu);
    }
  }

  lemma GuardKeptExit(cfg: Config, s: State, p: Pid)
    requires Inv(cfg, s) && ClaimsKeepGuard(cfg, s) && p in s.procs.running
    ensures ClaimsKeepGuard(cfg, ExitStep(cfg, s, p))
  {
    ExitClearsPhases(cfg, s, p);
    forall t: Tid ensures KeepsGuard(cfg, PhaseOf(ExitStep(cfg, s, p), t), t, ExitStep(cfg, s, p).gpu) {
      assert KeepsGuard(cfg, PhaseOf(s, t), t, s.gpu);
    }
  }

  lemma GuardKeptAlways(cfg: Config, es: seq<Event>)
    ensures ClaimsKeepGuard(cfg, Run(cfg, es))
  {
    hide KeepsGuard, ThreadEffect, Inv;
    if es == [] {
      assert forall t: Tid :: KeepsGuard(cfg, PhaseOf(INIT, t), t, INIT.gpu) by { NoneKeeps(cfg); }
    } else {
      var pre, e := es[..|es| - 1], es[|es| - 1];
      GuardKeptAlways(cfg, pre);
      RunKeepsInv(cfg, pre);
      var s := Run(cfg, pre);
      if e.Exit? {
        if e.pid in s.procs.running { GuardKeptExit(cfg, s, e.pid); } else { assert Step(cfg, s, e) == s; }
      } else if IsThreadEvent(e) {
        if Runs(cfg, s, e.t) { GuardKeptThread(cfg, s, e); }
      } else {
        assert forall t: Tid :: PhaseOf(Step(cfg, s, e), t) == PhaseOf(s, t);
      }
    }
  }

  lemma NoneKeeps(cfg: Config)
    ensures forall t: Tid :: KeepsGuard(cfg, PhaseOf(INIT, t), t, INIT.gpu)
  {}

  // ---------- nobody owns without probing the service lock ----------

  /** Thread t took the free anchor lock at event a and has had it ever since. */
  ghost predicate LockedSince(cfg: Config, es: seq<Event>, t: Tid, a: nat) {
    && a < |es| && es[a] == TryLock(t) && Run(cfg, es[..a]).gpu.lock.None?
    && (forall k :: a < k <= |es| ==> Run(cfg, es[..k]).gpu.lock == Some(t))
  }

  /** At event b the claim of thread t took a step of its probe and saw no other service: its own lease, a free lock,
      or its own pid in the record of a lock it was refused. */
  ghost predicate SawNoServiceAt(cfg: Config, es: seq<Event>, t: Tid, b: nat) {
    && b < |es|
    && var s := Run(cfg, es[..b]); var p := cfg.proc(t); var st := cfg.storage(p);
    && Runs(cfg, s, t) && PhaseOf(s, t).Probing? && PhaseOf(s, t).call == Claim
    && var stage := PhaseOf(s, t).stage;
       || (es[b] == CheckLease(t) && stage == LeaseCheck && st in s.svc.lock && s.svc.lock[st] == Lease(p))
       || (es[b] == TryService(t) && stage == TrySvc && st !in s.svc.lock)
       || (es[b] == ReadService(t, true) && stage == SvcRefused && st in s.svc.record && s.svc.record[st] == p)
  }

  lemma LockEffect(cfg: Config, s: State, e: Event)
    requires IsThreadEvent(e)
    ensures var l := ThreadEffect(cfg, s, e).gpu.lock;
            l == s.gpu.lock || l == None || (e.TryLock? && s.gpu.lock == None && l == Some(e.t))
  {
    hide CallStep, PublishStep, ProbeStep, LeaseStep;
  }

  lemma LockIsTaken(cfg: Config, s: State, e: Event, t: Tid)
    requires s.gpu.lock != Some(t) && Step(cfg, s, e).gpu.lock == Some(t)
    ensures e == TryLock(t) && s.gpu.lock.None?
  {
    if IsThreadEvent(e) && Runs(cfg, s, e.t) { LockEffect(cfg, s, e); }
  }

  lemma LockHasABeginning(cfg: Config, es: seq<Event>, t: Tid) returns (a: nat)
    requires Run(cfg, es).gpu.lock == Some(t)
    ensures LockedSince(cfg, es, t, a)
  {
    hide Step, Inv;
    var n := |es| - 1;
    var pre := es[..n];
    assert es[..|es|] == es;
    RunKeepsInv(cfg, pre);
    if Run(cfg, pre).gpu.lock == Some(t) {
      a := LockHasABeginning(cfg, pre, t);
      assert forall k :: 0 <= k <= n ==> pre[..k] == es[..k];
    } else {
      LockIsTaken(cfg, Run(cfg, pre), es[n], t);
      a := n;
    }
  }

  lemma HoldingHasTheLock(cfg: Config, es: seq<Event>, t: Tid)
    requires HoldsAnchor(PhaseOf(Run(cfg, es), t))
    ensures Run(cfg, es).gpu.lock == Some(t)
  {
    RunKeepsInv(cfg, es);
  }

  lemma GlanceBegins(cfg: Config, pre: seq<Event>, e: Event, t: Tid)
    requires var s := Run(cfg, pre);
             PhaseOf(s, t) != Probing(Claim, Glancing) && PhaseOf(Step(cfg, s, e), t) == Probing(Claim, Glancing)
    ensures e == TryService(t) && PhaseOf(Run(cfg, pre), t) == Probing(Claim, TrySvc)
    ensures SawNoServiceAt(cfg, pre + [e], t, |pre|)
  {
    var s := Run(cfg, pre);
    RunKeepsInv(cfg, pre);
    OnlyItsOwnStepsMoveAThread(cfg, s, e, t);
    NewGlance(cfg, s, e);
    assert (pre + [e])[..|pre|] == pre;
  }

  /** A claim that holds the service lock only to look has found it free, and has had the anchor since. */
  lemma GlanceWasFree(cfg: Config, es: seq<Event>, t: Tid) returns (b: nat)
    requires PhaseOf(Run(cfg, es), t) == Probing(Claim, Glancing)
    ensures SawNoServiceAt(cfg, es, t, b)
    ensures forall k :: b <= k <= |es| ==> Run(cfg, es[..k]).gpu.lock == Some(t)
  {
    hide Step;
    var n := |es| - 1;
    var pre := es[..n];
    assert es[..|es|] == es && es == pre + [es[n]];
    HoldingHasTheLock(cfg, es, t);
    if PhaseOf(Run(cfg, pre), t) == Probing(Claim, Glancing) {
      b := GlanceWasFree(cfg, pre, t);
      assert forall k :: 0 <= k <= n ==> pre[..k] == es[..k];
    } else {
      GlanceBegins(cfg, pre, es[n], t);
      HoldingHasTheLock(cfg, pre, t);
      b := n;
    }
  }

  /** Which effect can put a process into `_held`. */
  lemma EntryEffect(cfg: Config, s: State, e: Event, p: Pid)
    requires IsThreadEvent(e) && p !in s.gpu.held && p in ThreadEffect(cfg, s, e).gpu.held
    ensures cfg.proc(e.t) == p && ThreadEffect(cfg, s, e).gpu.held[p] == e.t
    ensures PhaseOf(s, e.t).Probing? && PhaseOf(s, e.t).call == Claim
    ensures var st := cfg.storage(p); var stage := PhaseOf(s, e.t).stage;
            || (e.CheckLease? && stage == LeaseCheck && st in s.svc.lock && s.svc.lock[st] == Lease(p))
            || (e.ReleaseGlance? && PhaseOf(s, e.t) == Probing(Claim, Glancing))
            || (e.ReadService? && stage == SvcRefused && e.readable && st in s.svc.record && s.svc.record[st] == p)
            || (e.ReadService? && p == 0)
  {
    hide CallStep, AnchorStep, PublishStep, LeaseStep;
  }

  lemma EntersHeld(cfg: Config, s: State, e: Event, p: Pid)
    requires p !in s.gpu.held && p in Step(cfg, s, e).gpu.held
    ensures IsThreadEvent(e) && Runs(cfg, s, e.t) && p in ThreadEffect(cfg, s, e).gpu.held
    ensures Step(cfg, s, e).gpu.held == ThreadEffect(cfg, s, e).gpu.held
  {
    hide ThreadEffect;
  }

  lemma HeldOnlyGrows(cfg: Config, s: State, e: Event, p: Pid)
    requires IsThreadEvent(e) && InClaim(PhaseOf(s, e.t)) ==> cfg.proc(e.t) !in s.gpu.held
    requires p in s.gpu.held && p in Step(cfg, s, e).gpu.held
    ensures Step(cfg, s, e).gpu.held[p] == s.gpu.held[p]
  {
    if IsThreadEvent(e) && Runs(cfg, s, e.t) { HeldEffect(cfg, s, e); }
  }

  /** The step that enters p: a probe saw no service, and the anchor has been locked at least since then. */
  lemma EntryWasProbed(cfg: Config, es: seq<Event>, p: Pid) returns (b: nat)
    requires es != [] && p !in Run(cfg, es[..|es| - 1]).gpu.held && p in Run(cfg, es).gpu.held
    ensures SawNoServiceAt(cfg, es, Run(cfg, es).gpu.held[p], b)
    ensures forall k :: b <= k < |es| ==> Run(cfg, es[..k]).gpu.lock == Some(Run(cfg, es).gpu.held[p])
  {
    hide Step, ThreadEffect, Inv;
    var n := |es| - 1;
    var pre := es[..n];
    var s, t := Run(cfg, pre), Run(cfg, es).gpu.held[p];
    EntersHeld(cfg, s, es[n], p);
    EntryEffect(cfg, s, es[n], p);
    assert p != 0 by { RunningIsNotZero(cfg, pre, p); }
    HoldingHasTheLock(cfg, pre, t);
    if es[n].ReleaseGlance? {
      b := GlanceWasFree(cfg, pre, t);
      assert forall k :: 0 <= k <= n ==> pre[..k] == es[..k];
    } else {
      b := n;
    }
  }

  lemma RunningIsNotZero(cfg: Config, es: seq<Event>, p: Pid)
    requires p in Run(cfg, es).procs.running
    ensures p != 0
  {
    RunKeepsInv(cfg, es);
  }

  /** Nobody is in `_held` without having taken the free anchor, kept it ever since, and, while it had it, probed
      the service lock and seen no other process there. */
  lemma OwnershipWasProbed(cfg: Config, es: seq<Event>, p: Pid) returns (a: nat, b: nat)
    requires p in Run(cfg, es).gpu.held
    ensures LockedSince(cfg, es, Run(cfg, es).gpu.held[p], a)
    ensures SawNoServiceAt(cfg, es, Run(cfg, es).gpu.held[p], b)
    ensures a < b
  {
    hide Step, ThreadEffect, Inv, InClaim;
    var n := |es| - 1;
    var pre, t := es[..n], Run(cfg, es).gpu.held[p];
    AtMostOneOwner(cfg, es, p, p);
    a := LockHasABeginning(cfg, es, t);
    if p in Run(cfg, pre).gpu.held {
      EntryStays(cfg, es, p);
      var a', b' := OwnershipWasProbed(cfg, pre, p);
      b := b';
      assert pre[..b] == es[..b];
      OneBeginning(cfg, es, t, a, a');
    } else {
      b := EntryWasProbed(cfg, es, p);
      assert Run(cfg, es[..a]).gpu.lock.None?;
    }
  }

  lemma EntryStays(cfg: Config, es: seq<Event>, p: Pid)
    requires es != [] && p in Run(cfg, es[..|es| - 1]).gpu.held && p in Run(cfg, es).gpu.held
    ensures Run(cfg, es).gpu.held[p] == Run(cfg, es[..|es| - 1]).gpu.held[p]
  {
    hide Step;
    var pre, e := es[..|es| - 1], es[|es| - 1];
    RunKeepsInv(cfg, pre);
    assert IsThreadEvent(e) && InClaim(PhaseOf(Run(cfg, pre), e.t)) ==>
        cfg.proc(e.t) !in Run(cfg, pre).gpu.held;
    HeldOnlyGrows(cfg, Run(cfg, pre), e, p);
  }

  lemma OneBeginning(cfg: Config, es: seq<Event>, t: Tid, a: nat, a': nat)
    requires |es| > 0 && LockedSince(cfg, es, t, a) && LockedSince(cfg, es[..|es| - 1], t, a')
    ensures a == a'
  {
    var pre := es[..|es| - 1];
    assert forall k :: 0 <= k <= |pre| ==> pre[..k] == es[..k];
    assert Run(cfg, es[..a]).gpu.lock.None? && Run(cfg, pre[..a']).gpu.lock.None?;
  }

  // ---------- when "saw no other service" means there was none ----------

  /** Whether event e has a thread of p give its service lock back, by releasing its lease or by failing to record
      itself. */
  predicate GivesUp(cfg: Config, s: State, e: Event, p: Pid) {
    var st := cfg.storage(p);
    && (e.SvcRelease? || e.SvcAbort?) && cfg.proc(e.t) == p && p in s.procs.running && st in s.svc.lock
    && s.svc.lock[st] == if e.SvcRelease? then Lease(p) else Acquiring(e.t)
  }

  /** Whether p gave its service lock back in this run. */
  predicate GaveUpService(cfg: Config, es: seq<Event>, p: Pid) {
    exists k :: 0 <= k < |es| && GivesUp(cfg, Run(cfg, es[..k]), es[k], p)
  }

  predicate Glances(ph: Phase) { ph.Probing? && ph.stage == Glancing }

  predicate GlanceStands(cfg: Config, s: State, t: Tid) {
    var st := cfg.storage(cfg.proc(t));
    Glances(PhaseOf(s, t)) ==> st in s.svc.lock && s.svc.lock[st] == Glance(t)
  }

  /** A running process named in its service lock's record has the lease. */
  predicate RecordIsLease(cfg: Config, procs: Procs, svc: Svc, p: Pid) {
    var st := cfg.storage(p);
    st in svc.record && svc.record[st] == p ==>
      && p in procs.running + procs.zombies + procs.gone
      && (p in procs.running ==> st in svc.lock && svc.lock[st] == Lease(p))
  }

  lemma LeaseEffect(cfg: Config, s: State, e: Event, p: Pid)
    requires IsThreadEvent(e) && Runs(cfg, s, e.t) && RecordIsLease(cfg, s.procs, s.svc, p) && GlanceStands(cfg, s, e.t)
    requires !GivesUp(cfg, s, e, p)
    ensures RecordIsLease(cfg, s.procs, ThreadEffect(cfg, s, e).svc, p)
  {
    hide CallStep, AnchorStep, PublishStep;
  }

  predicate GlanceKept(cfg: Config, s: State, r: Effect, t: Tid, st: Storage) {
    && (st in s.svc.lock && s.svc.lock[st].Glance? && s.svc.lock[st].tid != t ==>
          st in r.svc.lock && r.svc.lock[st] == s.svc.lock[st])
    && (Glances(r.next) ==>
          cfg.storage(cfg.proc(t)) in r.svc.lock && r.svc.lock[cfg.storage(cfg.proc(t))] == Glance(t))
  }

  lemma ProbeKeepsGlance(cfg: Config, s: State, e: Event, st: Storage)
    requires IsProbeEvent(e) && GlanceStands(cfg, s, e.t)
    ensures GlanceKept(cfg, s, ProbeStep(cfg, s, e), e.t, st)
  {}

  lemma LeaseKeepsGlance(cfg: Config, s: State, e: Event, st: Storage)
    requires IsLeaseEvent(e) && GlanceStands(cfg, s, e.t)
    ensures GlanceKept(cfg, s, LeaseStep(cfg, s, e), e.t, st)
  {}

  /** Only a glance's own thread ends it. */
  lemma GlanceEffect(cfg: Config, s: State, e: Event, st: Storage)
    requires IsThreadEvent(e) && GlanceStands(cfg, s, e.t)
    ensures GlanceKept(cfg, s, ThreadEffect(cfg, s, e), e.t, st)
  {
    hide CallStep, AnchorStep, PublishStep, ProbeStep, LeaseStep;
    if IsProbeEvent(e) {
      ProbeKeepsGlance(cfg, s, e, st);
    } else if IsLeaseEvent(e) {
      LeaseKeepsGlance(cfg, s, e, st);
    }
  }

  lemma GlanceOutlivesProcesses(cfg: Config, s: State, e: Event, t: Tid)
    requires !IsThreadEvent(e) && GlanceStands(cfg, s, t)
    ensures GlanceStands(cfg, Step(cfg, s, e), t)
  {}

  lemma GlancesAlwaysStand(cfg: Config, es: seq<Event>, t: Tid)
    ensures GlanceStands(cfg, Run(cfg, es), t)
  {
    hide ThreadEffect;
    if es != [] {
      var pre, e := es[..|es| - 1], es[|es| - 1];
      var s := Run(cfg, pre);
      GlancesAlwaysStand(cfg, pre, t);
      if IsThreadEvent(e) {
        GlancesAlwaysStand(cfg, pre, e.t);
        if Runs(cfg, s, e.t) {
          AppliedPhases(s, ThreadEffect(cfg, s, e), e.t);
          GlanceEffect(cfg, s, e, cfg.storage(cfg.proc(t)));
        }
      } else {
        GlanceOutlivesProcesses(cfg, s, e, t);
      }
    }
  }

  lemma RecordOutlivesProcesses(cfg: Config, s: State, e: Event, p: Pid)
    requires !IsThreadEvent(e) && RecordIsLease(cfg, s.procs, s.svc, p)
    ensures RecordIsLease(cfg, Step(cfg, s, e).procs, Step(cfg, s, e).svc, p)
  {}

  lemma GaveUpLasts(cfg: Config, es: seq<Event>, p: Pid)
    requires es != [] && GaveUpService(cfg, es[..|es| - 1], p)
    ensures GaveUpService(cfg, es, p)
  {
    hide GivesUp, Run;
    var pre := es[..|es| - 1];
    var k :| 0 <= k < |pre| && GivesUp(cfg, Run(cfg, pre[..k]), pre[k], p);
    assert pre[..k] == es[..k] && pre[k] == es[k];
  }

  lemma RecordStep(cfg: Config, s: State, e: Event, p: Pid)
    requires RecordIsLease(cfg, s.procs, s.svc, p) && !GivesUp(cfg, s, e, p)
    requires IsThreadEvent(e) ==> GlanceStands(cfg, s, e.t)
    ensures RecordIsLease(cfg, Step(cfg, s, e).procs, Step(cfg, s, e).svc, p)
  {
    hide ThreadEffect, GivesUp, RecordIsLease, ProcessStep, ExitStep;
    if !IsThreadEvent(e) {
      RecordOutlivesProcesses(cfg, s, e, p);
    } else if Runs(cfg, s, e.t) {
      LeaseEffect(cfg, s, e, p);
    }
  }

  lemma RecordAlwaysIsLease(cfg: Config, es: seq<Event>, p: Pid)
    requires !GaveUpService(cfg, es, p)
    ensures RecordIsLease(cfg, Run(cfg, es).procs, Run(cfg, es).svc, p)
  {
    hide Step, GivesUp;
    if es != [] {
      var pre, e := es[..|es| - 1], es[|es| - 1];
      if GaveUpService(cfg, pre, p) { GaveUpLasts(cfg, es, p); }
      RecordAlwaysIsLease(cfg, pre, p);
      if IsThreadEvent(e) { GlancesAlwaysStand(cfg, pre, e.t); }
      assert !GivesUp(cfg, Run(cfg, pre), e, p);
      RecordStep(cfg, Run(cfg, pre), e, p);
    }
  }

  /** The probe behind an ownership overlooks a service of another process only by reading its own pid out of a
      stale record, which needs this process to have given that lock up earlier in the run. */
  lemma ProbeOverlooksOnlyAfterGivingUp(cfg: Config, es: seq<Event>, t: Tid, b: nat)
    requires SawNoServiceAt(cfg, es, t, b) && OtherService(cfg, Run(cfg, es[..b]), cfg.proc(t))
    ensures es[b] == ReadService(t, true)
    ensures GaveUpService(cfg, es[..b], cfg.proc(t))
  {
    if !GaveUpService(cfg, es[..b], cfg.proc(t)) {
      RecordAlwaysIsLease(cfg, es[..b], cfg.proc(t));
    }
  }

  // ---------- a refused contender can name the owner ----------

  predicate PublishesWork(es: seq<Event>) {
    forall k :: 0 <= k < |es| && IsPublishEvent(es[k]) ==> es[k].written
  }

  /** Thread t has published its own pid, or nobody has since it did. */
  ghost predicate Named(cfg: Config, s: State, t: Tid) {
    var p := cfg.proc(t);
    (PhaseOf(s, t).Probing? && PhaseOf(s, t).call == Claim) || (p in s.gpu.held && s.gpu.held[p] == t) ==>
      Published(s).Some? && Published(s).value.owner == p
  }

  lemma AnchorEffect(cfg: Config, s: State, e: Event)
    requires IsThreadEvent(e)
    ensures var a := ThreadEffect(cfg, s, e).gpu.anchor; var ph := PhaseOf(s, e.t);
            || a == s.gpu.anchor
            || (s.gpu.anchor.Absent? && a == Body(None))
            || (e.NameService? && ph.NamingService?)
            || (IsPublishEvent(e) && a.Body? && a.record.Some? && a.record.value.owner == cfg.proc(e.t)
                && (ph.Publishing? || cfg.proc(e.t) in s.gpu.held))
  {
    hide CallStep, ProbeStep, LeaseStep;
  }

  ghost predicate NamedAfter(cfg: Config, r: Effect, t: Tid) {
    var p := cfg.proc(t);
    (r.next.Probing? && r.next.call == Claim) || (p in r.gpu.held && r.gpu.held[p] == t) ==>
      RecordOn(r.gpu).Some? && RecordOn(r.gpu).value.owner == p
  }

  lemma NamedByProbe(cfg: Config, s: State, e: Event)
    requires IsProbeEvent(e) && Named(cfg, s, e.t)
    ensures NamedAfter(cfg, ProbeStep(cfg, s, e), e.t)
  {}

  lemma NamedByPublish(cfg: Config, s: State, e: Event)
    requires IsPublishEvent(e) && e.written
    requires InClaim(PhaseOf(s, e.t)) ==> cfg.proc(e.t) !in s.gpu.held
    requires Named(cfg, s, e.t)
    ensures NamedAfter(cfg, PublishStep(cfg, s, e), e.t)
  {}

  lemma NamedPhase(cfg: Config, s: State, e: Event)
    requires IsThreadEvent(e) && (IsPublishEvent(e) ==> e.written)
    requires InClaim(PhaseOf(s, e.t)) ==> cfg.proc(e.t) !in s.gpu.held
    requires Named(cfg, s, e.t)
    ensures NamedAfter(cfg, ThreadEffect(cfg, s, e), e.t)
  {
    hide CallStep, LeaseStep, ProbeStep, PublishStep;
    if IsProbeEvent(e) { NamedByProbe(cfg, s, e); }
    if IsPublishEvent(e) { NamedByPublish(cfg, s, e); }
  }

  lemma NamedThread(cfg: Config, s: State, e: Event, t: Tid)
    requires Inv(cfg, s) && IsThreadEvent(e) && Runs(cfg, s, e.t) && Named(cfg, s, t) && Named(cfg, s, e.t)
    requires IsPublishEvent(e) ==> e.written
    ensures Named(cfg, Apply(s, ThreadEffect(cfg, s, e), e.t), t)
  {
    hide ThreadEffect, LoansAreOwned, Processes;
    var r := ThreadEffect(cfg, s, e);
    AppliedPhases(s, r, e.t);
    assert HoldsAnchor(PhaseOf(s, e.t)) ==> s.gpu.lock == Some(e.t);
    assert InClaim(PhaseOf(s, e.t)) ==> cfg.proc(e.t) !in s.gpu.held;
    if t == e.t {
      NamedPhase(cfg, s, e);
    } else {
      assert HoldsAnchor(PhaseOf(s, t)) ==> s.gpu.lock == Some(t);
      AnchorEffect(cfg, s, e);
      HeldEffect(cfg, s, e);
    }
  }

  lemma NamedExit(cfg: Config, s: State, p: Pid, t: Tid)
    requires Inv(cfg, s) && p in s.procs.running && Named(cfg, s, t)
    ensures Named(cfg, ExitStep(cfg, s, p), t)
  {
    ExitClearsPhases(cfg, s, p);
  }

  /** While record writes succeed, the anchor names its owner from before the owner's probe until it exits. */
  lemma OwnerIsNamed(cfg: Config, es: seq<Event>, t: Tid)
    requires PublishesWork(es)
    ensures Named(cfg, Run(cfg, es), t)
  {
    hide ThreadEffect, Inv;
    if es != [] {
      var pre, e := es[..|es| - 1], es[|es| - 1];
      var s := Run(cfg, pre);
      assert forall k :: 0 <= k < |pre| ==> pre[k] == es[k];
      OwnerIsNamed(cfg, pre, t);
      RunKeepsInv(cfg, pre);
      if e.Exit? {
        if e.pid in s.procs.running { NamedExit(cfg, s, e.pid, t); }
      } else if IsThreadEvent(e) {
        assert e == es[|es| - 1];
        if Runs(cfg, s, e.t) {
          OwnerIsNamed(cfg, pre, e.t);
          NamedThread(cfg, s, e, t);
        }
      } else {
        assert PhaseOf(Step(cfg, s, e), t) == PhaseOf(s, t);
      }
    }
  }
}
