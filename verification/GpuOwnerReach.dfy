/** The other halves of what `GpuOwnerRuns` says: from every reachable state that meets the condition left open there,
    what the condition leaves open can come about. */
module GpuOwnerReach {
  import opened Options
  import opened GpuOwner
  import opened GpuOwnerRuns

  /** Only thread t is elsewhere than it was. */
  ghost predicate OnlyMoved(s: State, s': State, t: Tid) {
    && s'.procs == s.procs
    && forall u :: u != t ==> PhaseOf(s', u) == PhaseOf(s, u)
  }

  /** One effective step of a running thread. */
  lemma Takes(cfg: Config, es: seq<Event>, e: Event, r: Effect) returns (es': seq<Event>)
    requires IsThreadEvent(e) && Runs(cfg, Run(cfg, es), e.t) && ThreadEffect(cfg, Run(cfg, es), e) == r
    ensures es' == es + [e] && es < es' && Run(cfg, es') == Apply(Run(cfg, es), r, e.t)
    ensures OnlyMoved(Run(cfg, es), Run(cfg, es'), e.t) && PhaseOf(Run(cfg, es'), e.t) == r.next
  {
    es' := es + [e];
    assert es'[..|es|] == es;
  }

  // ---------- who stands behind a service lock ----------

  /** A service lock is held by a running process of that storage, and a glance by a thread that is looking. */
  predicate HolderStands(cfg: Config, s: State, st: Storage) {
    st in s.svc.lock ==>
      && SvcProc(cfg, s.svc.lock[st]) in s.procs.running && cfg.storage(SvcProc(cfg, s.svc.lock[st])) == st
      && (s.svc.lock[st].Glance? ==> Glances(PhaseOf(s, s.svc.lock[st].tid)))
  }

  lemma ProbeKeepsHolder(cfg: Config, s: State, e: Event, st: Storage)
    requires IsProbeEvent(e) && Runs(cfg, s, e.t) && HolderStands(cfg, s, st) && GlanceStands(cfg, s, e.t)
    ensures HolderStands(cfg, Apply(s, ThreadEffect(cfg, s, e), e.t), st)
  {
    hide CallStep, AnchorStep, PublishStep, LeaseStep;
  }

  lemma LeaseKeepsHolder(cfg: Config, s: State, e: Event, st: Storage)
    requires IsLeaseEvent(e) && Runs(cfg, s, e.t) && HolderStands(cfg, s, st)
    ensures HolderStands(cfg, Apply(s, ThreadEffect(cfg, s, e), e.t), st)
  {
    hide CallStep, AnchorStep, PublishStep, ProbeStep;
  }

  /** A thread that glances goes on glancing until a step of its probe. */
  lemma GlanceGoesOn(cfg: Config, s: State, e: Event)
    requires IsThreadEvent(e) && !IsProbeEvent(e) && Glances(PhaseOf(s, e.t))
    ensures ThreadEffect(cfg, s, e).next == PhaseOf(s, e.t)
  {}

  lemma OthersKeepHolder(cfg: Config, s: State, e: Event, st: Storage)
    requires IsThreadEvent(e) && !IsProbeEvent(e) && !IsLeaseEvent(e) && Runs(cfg, s, e.t) && HolderStands(cfg, s, st)
    ensures HolderStands(cfg, Apply(s, ThreadEffect(cfg, s, e), e.t), st)
  {
    hide CallStep, AnchorStep, PublishStep, ProbeStep, LeaseStep;
    if Glances(PhaseOf(s, e.t)) { GlanceGoesOn(cfg, s, e); }
  }

  lemma ProcessesKeepHolder(cfg: Config, s: State, e: Event, st: Storage)
    requires !IsThreadEvent(e) && HolderStands(cfg, s, st)
    ensures HolderStands(cfg, Step(cfg, s, e), st)
  {}

  lemma StepKeepsHolder(cfg: Config, s: State, e: Event, st: Storage)
    requires HolderStands(cfg, s, st) && (IsThreadEvent(e) ==> GlanceStands(cfg, s, e.t))
    ensures HolderStands(cfg, Step(cfg, s, e), st)
  {
    hide HolderStands, GlanceStands, ThreadEffect, ProcessStep, ExitStep;
    if !IsThreadEvent(e) {
      ProcessesKeepHolder(cfg, s, e, st);
    } else if Runs(cfg, s, e.t) {
      if IsProbeEvent(e) {
        ProbeKeepsHolder(cfg, s, e, st);
      } else if IsLeaseEvent(e) {
        LeaseKeepsHolder(cfg, s, e, st);
      } else {
        OthersKeepHolder(cfg, s, e, st);
      }
    }
  }

  lemma {:induction false} HoldersStand(cfg: Config, es: seq<Event>, st: Storage)
    ensures HolderStands(cfg, Run(cfg, es), st)
  {
    hide Step;
    if es != [] {
      var pre, e := es[..|es| - 1], es[|es| - 1];
      HoldersStand(cfg, pre, st);
      if IsThreadEvent(e) { GlancesAlwaysStand(cfg, pre, e.t); }
      StepKeepsHolder(cfg, Run(cfg, pre), e, st);
    }
  }

  // ---------- a stale record comes to hide a service ----------

  /** p's own pid stands in the record of its service lock, and p has no lease on it. */
  predicate Exposed(cfg: Config, s: State, p: Pid) {
    var st := cfg.storage(p);
    st in s.svc.record && s.svc.record[st] == p && !(st in s.svc.lock && s.svc.lock[st] == Lease(p))
  }

  /** Thread t may begin a claim, and the anchor is free to take. */
  predicate MayClaim(cfg: Config, s: State, t: Tid) {
    var p := cfg.proc(t);
    p in s.procs.running && p !in s.gpu.held && p !in s.gpu.guard && s.gpu.lock.None? && PhaseOf(s, t).Idle?
  }

  /** What a step taken on the way leaves as it was for p and thread t. */
  predicate StillMay(cfg: Config, s: State, s': State, t: Tid) {
    MayClaim(cfg, s', t) && s'.procs == s.procs && s'.svc.record == s.svc.record
  }

  lemma AbortFrees(cfg: Config, es: seq<Event>, t: Tid, x: Tid) returns (es': seq<Event>)
    requires var s := Run(cfg, es); var st := cfg.storage(cfg.proc(t));
      MayClaim(cfg, s, t) && cfg.proc(x) == cfg.proc(t) && st in s.svc.lock && s.svc.lock[st] == Acquiring(x)
    ensures es < es' && StillMay(cfg, Run(cfg, es), Run(cfg, es'), t)
    ensures cfg.storage(cfg.proc(t)) !in Run(cfg, es').svc.lock
    ensures forall u :: PhaseOf(Run(cfg, es'), u) == PhaseOf(Run(cfg, es), u)
  {
    hide CallStep, AnchorStep, PublishStep, ProbeStep;
    var s := Run(cfg, es);
    es' := Takes(cfg, es, SvcAbort(x, false),
                 Effect(s.gpu, s.svc.(lock := s.svc.lock - {cfg.storage(cfg.proc(t))}), PhaseOf(s, x)));
  }

  lemma LookFrees(cfg: Config, es: seq<Event>, t: Tid, x: Tid) returns (es': seq<Event>)
    requires var s := Run(cfg, es); var st := cfg.storage(cfg.proc(t));
      MayClaim(cfg, s, t) && cfg.proc(x) == cfg.proc(t) && st in s.svc.lock && s.svc.lock[st] == Glance(x)
    ensures es < es' && StillMay(cfg, Run(cfg, es), Run(cfg, es'), t)
    ensures cfg.storage(cfg.proc(t)) !in Run(cfg, es').svc.lock
    ensures forall u :: cfg.proc(u) != cfg.proc(t) ==> PhaseOf(Run(cfg, es'), u) == PhaseOf(Run(cfg, es), u)
  {
    hide CallStep, AnchorStep, PublishStep, LeaseStep;
    var s := Run(cfg, es);
    RunKeepsInv(cfg, es);
    HoldersStand(cfg, es, cfg.storage(cfg.proc(t)));
    assert !InClaim(PhaseOf(s, x));
    es' := Takes(cfg, es, ReleaseGlance(x),
                 Conclude(cfg, s.gpu, s.svc.(lock := s.svc.lock - {cfg.storage(cfg.proc(t))}), x, Observe, None));
  }

  /** A thread of p that holds p's own service lock without a lease lets go of it. */
  lemma OwnHoldEnds(cfg: Config, es: seq<Event>, t: Tid) returns (es': seq<Event>)
    requires MayClaim(cfg, Run(cfg, es), t) && Exposed(cfg, Run(cfg, es), cfg.proc(t))
    requires cfg.storage(cfg.proc(t)) in Run(cfg, es).svc.lock && !OtherService(cfg, Run(cfg, es), cfg.proc(t))
    ensures es < es' && StillMay(cfg, Run(cfg, es), Run(cfg, es'), t)
    ensures cfg.storage(cfg.proc(t)) !in Run(cfg, es').svc.lock
    ensures forall u :: cfg.proc(u) != cfg.proc(t) ==> PhaseOf(Run(cfg, es'), u) == PhaseOf(Run(cfg, es), u)
  {
    hide Run, MayClaim, StillMay;
    match Run(cfg, es).svc.lock[cfg.storage(cfg.proc(t))]
    case Acquiring(x) => es' := AbortFrees(cfg, es, t, x);
    case Glance(x) => es' := LookFrees(cfg, es, t, x);
    case Lease(_) => assert false;
  }

  /** Another process takes the free service lock. */
  lemma AnotherAcquires(cfg: Config, es: seq<Event>, t: Tid, u: Tid) returns (es': seq<Event>)
    requires MayClaim(cfg, Run(cfg, es), t) && cfg.storage(cfg.proc(t)) !in Run(cfg, es).svc.lock
    requires Runs(cfg, Run(cfg, es), u) && PhaseOf(Run(cfg, es), u).Idle?
    requires cfg.proc(u) != cfg.proc(t) && cfg.storage(cfg.proc(u)) == cfg.storage(cfg.proc(t))
    ensures es < es' && StillMay(cfg, Run(cfg, es), Run(cfg, es'), t)
    ensures OtherService(cfg, Run(cfg, es'), cfg.proc(t))
  {
    hide CallStep, AnchorStep, PublishStep, ProbeStep;
    var s := Run(cfg, es);
    es' := Takes(cfg, es, SvcAcquire(u),
                 Effect(s.gpu, s.svc.(lock := s.svc.lock[cfg.storage(cfg.proc(u)) := Acquiring(u)]), PhaseOf(s, u)));
  }

  lemma AnotherHolds(cfg: Config, es: seq<Event>, t: Tid, u: Tid) returns (es': seq<Event>)
    requires MayClaim(cfg, Run(cfg, es), t) && Exposed(cfg, Run(cfg, es), cfg.proc(t))
    requires Runs(cfg, Run(cfg, es), u) && PhaseOf(Run(cfg, es), u).Idle?
    requires cfg.proc(u) != cfg.proc(t) && cfg.storage(cfg.proc(u)) == cfg.storage(cfg.proc(t))
    ensures es <= es' && StillMay(cfg, Run(cfg, es), Run(cfg, es'), t)
    ensures OtherService(cfg, Run(cfg, es'), cfg.proc(t))
  {
    hide Run;
    es' := es;
    if cfg.storage(cfg.proc(t)) in Run(cfg, es).svc.lock {
      if OtherService(cfg, Run(cfg, es), cfg.proc(t)) { return; }
      es' := OwnHoldEnds(cfg, es, t);
    }
    es' := AnotherAcquires(cfg, es', t, u);
  }

  function Claimed(cfg: Config, g: Gpu, t: Tid): Gpu {
    var p := cfg.proc(t);
    Gpu(Some(t), Body(Some(Record(p, 0, 0.0))), g.held, g.guard[p := t])
  }

  /** Thread t takes the anchor and publishes itself. */
  lemma TakesAnchor(cfg: Config, es: seq<Event>, t: Tid) returns (es': seq<Event>)
    requires MayClaim(cfg, Run(cfg, es), t)
    ensures es < es' && OnlyMoved(Run(cfg, es), Run(cfg, es'), t)
    ensures Run(cfg, es').svc == Run(cfg, es).svc && Run(cfg, es').gpu == Claimed(cfg, Run(cfg, es).gpu, t)
    ensures PhaseOf(Run(cfg, es'), t) == Probing(Claim, LeaseCheck)
  {
    hide ProbeStep, LeaseStep;
    var s, p := Run(cfg, es), cfg.proc(t);
    var g1 := s.gpu.(guard := s.gpu.guard[p := t]);
    es' := Takes(cfg, es, BeginClaim(t), Effect(g1, s.svc, Trying(Claim, 0)));
    var g2 := g1.(lock := Some(t), anchor := if g1.anchor.Absent? then Body(None) else g1.anchor);
    es' := Takes(cfg, es', TryLock(t), Effect(g2, s.svc, Publishing));
    var g3 := g2.(anchor := Body(Some(Record(p, 0, 0.0))));
    es' := Takes(cfg, es', PublishClaim(t, true), Effect(g3, s.svc, Probing(Claim, LeaseCheck)));
  }

  /** The service lock is free: it takes that lock to look. */
  lemma Looks(cfg: Config, es: seq<Event>, t: Tid) returns (es': seq<Event>)
    requires var s := Run(cfg, es);
      PhaseOf(s, t) == Probing(Claim, LeaseCheck) && Runs(cfg, s, t) && cfg.storage(cfg.proc(t)) !in s.svc.lock
    ensures es < es' && OnlyMoved(Run(cfg, es), Run(cfg, es'), t) && Run(cfg, es').gpu == Run(cfg, es).gpu
    ensures var svc := Run(cfg, es).svc;
      Run(cfg, es').svc == svc.(lock := svc.lock[cfg.storage(cfg.proc(t)) := Glance(t)])
    ensures PhaseOf(Run(cfg, es'), t) == Probing(Claim, Glancing)
  {
    hide CallStep, AnchorStep, PublishStep, LeaseStep;
    var s := Run(cfg, es);
    es' := Takes(cfg, es, CheckLease(t), Goes(s, Probing(Claim, TrySvc)));
    es' := Takes(cfg, es', TryService(t),
                 Effect(s.gpu, s.svc.(lock := s.svc.lock[cfg.storage(cfg.proc(t)) := Glance(t)]),
                        Probing(Claim, Glancing)));
  }

  /** It lets go of the service lock again, and keeps the anchor. */
  lemma KeepsAnchor(cfg: Config, es: seq<Event>, t: Tid) returns (es': seq<Event>)
    requires PhaseOf(Run(cfg, es), t) == Probing(Claim, Glancing) && Runs(cfg, Run(cfg, es), t)
    ensures es < es' && OnlyMoved(Run(cfg, es), Run(cfg, es'), t)
    ensures Run(cfg, es').svc == Run(cfg, es).svc.(lock := Run(cfg, es).svc.lock - {cfg.storage(cfg.proc(t))})
    ensures Run(cfg, es').gpu == Run(cfg, es).gpu.(held := Run(cfg, es).gpu.held[cfg.proc(t) := t])
    ensures PhaseOf(Run(cfg, es'), t).Done?
  {
    hide CallStep, AnchorStep, PublishStep, LeaseStep;
    var s, st := Run(cfg, es), cfg.storage(cfg.proc(t));
    es' := Takes(cfg, es, ReleaseGlance(t),
                 Conclude(cfg, s.gpu, s.svc.(lock := s.svc.lock - {st}), t, Claim, None));
  }

  /** A process alone on a free machine comes to own the GPU. */
  lemma OwnsAlone(cfg: Config, es: seq<Event>, t: Tid) returns (es': seq<Event>)
    requires MayClaim(cfg, Run(cfg, es), t) && cfg.storage(cfg.proc(t)) !in Run(cfg, es).svc.lock
    ensures es < es' && OnlyMoved(Run(cfg, es), Run(cfg, es'), t) && Run(cfg, es').svc == Run(cfg, es).svc
    ensures var g, p := Run(cfg, es).gpu, cfg.proc(t);
      Run(cfg, es').gpu == Gpu(Some(t), Body(Some(Record(p, 0, 0.0))), g.held[p := t], g.guard)
    ensures PhaseOf(Run(cfg, es'), t).Idle?
  {
    hide AnchorStep, PublishStep, ProbeStep, LeaseStep;
    var g, svc, p := Run(cfg, es).gpu, Run(cfg, es).svc, cfg.proc(t);
    es' := TakesAnchor(cfg, es, t);
    es' := Looks(cfg, es', t);
    es' := KeepsAnchor(cfg, es', t);
    var s := Run(cfg, es');
    assert svc.lock[cfg.storage(p) := Glance(t)] - {cfg.storage(p)} == svc.lock;
    es' := Takes(cfg, es', Return(t), Effect(s.gpu.(guard := s.gpu.guard - {p}), s.svc, Idle));
    assert g.guard[p := t] - {p} == g.guard;
  }

  /** Its probe is refused by the other process's hold. */
  lemma IsRefused(cfg: Config, es: seq<Event>, t: Tid) returns (es': seq<Event>)
    requires var s := Run(cfg, es); var p := cfg.proc(t);
      PhaseOf(s, t) == Probing(Claim, LeaseCheck) && p in s.procs.running && OtherService(cfg, s, p)
    ensures es < es' && PhaseOf(Run(cfg, es'), t) == Probing(Claim, SvcRefused)
    ensures Run(cfg, es').procs == Run(cfg, es).procs && Run(cfg, es').svc == Run(cfg, es).svc
  {
    hide CallStep, AnchorStep, PublishStep, LeaseStep;
    var s := Run(cfg, es);
    es' := Takes(cfg, es, CheckLease(t), Goes(s, Probing(Claim, TrySvc)));
    es' := Takes(cfg, es', TryService(t), Goes(s, Probing(Claim, SvcRefused)));
  }

  /** Refused, it reads its own pid. */
  lemma Overlooks(cfg: Config, es: seq<Event>, t: Tid) returns (es': seq<Event>)
    requires var s := Run(cfg, es); var p := cfg.proc(t);
      && PhaseOf(s, t) == Probing(Claim, SvcRefused) && p in s.procs.running
      && cfg.storage(p) in s.svc.record && s.svc.record[cfg.storage(p)] == p
    ensures es < es' && es'[..|es|] == es && cfg.proc(t) in Run(cfg, es').gpu.held
    ensures SawNoServiceAt(cfg, es', t, |es|)
  {
    hide CallStep, AnchorStep, PublishStep, LeaseStep;
    var s := Run(cfg, es);
    es' := Takes(cfg, es, ReadService(t, true), Conclude(cfg, s.gpu, s.svc, t, Claim, None));
  }

  /** From every reachable state in which p has given its service lock up with its pid left in the record, and may
      claim a free anchor while a process of the same storage is there to take that lock, p can come to own the GPU over
      that process's hold. */
  lemma ExposedComesToOverlook(cfg: Config, es: seq<Event>, t: Tid, u: Tid) returns (es': seq<Event>, b: nat)
    requires MayClaim(cfg, Run(cfg, es), t) && Exposed(cfg, Run(cfg, es), cfg.proc(t))
    requires Runs(cfg, Run(cfg, es), u) && PhaseOf(Run(cfg, es), u).Idle?
    requires cfg.proc(u) != cfg.proc(t) && cfg.storage(cfg.proc(u)) == cfg.storage(cfg.proc(t))
    ensures es < es' && cfg.proc(t) in Run(cfg, es').gpu.held
    ensures SawNoServiceAt(cfg, es', t, b) && OtherService(cfg, Run(cfg, es'[..b]), cfg.proc(t))
  {
    hide Run, SawNoServiceAt;
    es' := AnotherHolds(cfg, es, t, u);
    es' := TakesAnchor(cfg, es', t);
    es' := IsRefused(cfg, es', t);
    b := |es'|;
    es' := Overlooks(cfg, es', t);
  }

  /** At a refused probe the matter is decided by the record alone: the claim keeps the anchor over another process's
      hold if and only if the record is read and p is exposed. */
  lemma RefusedProbeOverlooksIff(cfg: Config, es: seq<Event>, t: Tid, readable: bool)
    requires Runs(cfg, Run(cfg, es), t) && PhaseOf(Run(cfg, es), t) == Probing(Claim, SvcRefused)
    requires OtherService(cfg, Run(cfg, es), cfg.proc(t))
    ensures cfg.proc(t) in Run(cfg, es + [ReadService(t, readable)]).gpu.held
       <==> readable && Exposed(cfg, Run(cfg, es), cfg.proc(t))
  {
    hide CallStep, AnchorStep, PublishStep, LeaseStep;
    var s := Run(cfg, es);
    RunKeepsInv(cfg, es);
    assert InClaim(PhaseOf(s, t));
    var es' := Takes(cfg, es, ReadService(t, readable), ProbeStep(cfg, s, ReadService(t, readable)));
  }

  // ---------- a loan on the anchor is answered ----------

  lemma IsRefusedTheAnchor(cfg: Config, es: seq<Event>, t: Tid) returns (es': seq<Event>)
    requires var s := Run(cfg, es); var p := cfg.proc(t);
      s.gpu.lock.Some? && p in s.procs.running && p !in s.gpu.held && p !in s.gpu.guard && PhaseOf(s, t).Idle?
    ensures es < es' && OnlyMoved(Run(cfg, es), Run(cfg, es'), t) && Run(cfg, es').svc == Run(cfg, es).svc
    ensures Run(cfg, es').gpu == Run(cfg, es).gpu.(guard := Run(cfg, es).gpu.guard[cfg.proc(t) := t])
    ensures PhaseOf(Run(cfg, es'), t) == Refused(Claim, 0)
  {
    hide PublishStep, ProbeStep, LeaseStep;
    var s, p := Run(cfg, es), cfg.proc(t);
    var g := s.gpu.(guard := s.gpu.guard[p := t]);
    es' := Takes(cfg, es, BeginClaim(t), Effect(g, s.svc, Trying(Claim, 0)));
    es' := Takes(cfg, es', TryLock(t), Effect(g, s.svc, Refused(Claim, 0)));
  }

  /** From every reachable state with a loan on a locked anchor whose owner answers as alive, a process in the lent
      lineage can be answered LENT_HERE. */
  lemma LoanComesToBeAnswered(cfg: Config, es: seq<Event>, t: Tid) returns (es': seq<Event>)
    requires var s := Run(cfg, es); var p := cfg.proc(t);
      && OffersLoan(cfg, s, p) && p in s.procs.running && p !in s.gpu.held && p !in s.gpu.guard && PhaseOf(s, t).Idle?
    ensures es < es' && OnlyMoved(Run(cfg, es), Run(cfg, es'), t) && Run(cfg, es').svc == Run(cfg, es).svc
    ensures Run(cfg, es').gpu == Run(cfg, es).gpu.(guard := Run(cfg, es).gpu.guard[cfg.proc(t) := t])
    ensures PhaseOf(Run(cfg, es'), t) == Done(Claim, Ownership(LentHere, Published(Run(cfg, es)).value.owner))
  {
    hide CallStep, PublishStep, ProbeStep, LeaseStep, InLineage;
    var loan := Published(Run(cfg, es));
    es' := IsRefusedTheAnchor(cfg, es, t);
    var s := Run(cfg, es');
    es' := Takes(cfg, es', ReadRecord(t, true), Goes(s, Judging(Claim, 0, loan)));
    es' := Takes(cfg, es', AskAlive(t), Goes(s, Done(Claim, Ownership(LentHere, loan.value.owner))));
  }
}
