/** Two runs of the ownership protocol whose answers are not what they seem. */
module GpuOwnerWitnesses {
  import opened Options
  import opened GpuOwner
  import opened GpuOwnerRuns
  import opened GpuOwnerReach

  /** Ten threads a process, one storage directory, and each process alone in its own lineage, started at 5.0. */
  const CFG: Config := Config((t: Tid) => t / 10, (p: Pid) => 0, (p: Pid) => [LineageEntry(p, 5.0)])

  lemma Next(es: seq<Event>, e: Event)
    ensures Run(CFG, es + [e]) == Step(CFG, Run(CFG, es), e)
  {
    assert (es + [e])[..|es|] == es;
  }

  lemma Spawns(es: seq<Event>, p: Pid)
    requires p > 0 && Run(CFG, es).procs.zombies + Run(CFG, es).procs.gone == {} && p !in Run(CFG, es).procs.running
    ensures var s := Run(CFG, es);
            Run(CFG, es + [Spawn(p)]) == s.(procs := s.procs.(running := s.procs.running + {p}))
  {
    Next(es, Spawn(p));
  }

  lemma Started() returns (es: seq<Event>)
    ensures Run(CFG, es) == INIT.(procs := Procs({1, 2, 3}, {}, {}))
  {
    hide Step;
    Spawns([], 1);
    Spawns([] + [Spawn(1)], 2);
    es := [] + [Spawn(1)] + [Spawn(2)];
    Spawns(es, 3);
    es := es + [Spawn(3)];
    assert {} + {1} + {2} + {3} == {1, 2, 3};
  }

  const LOAN: Record := Record(1, 3, 5.0)

  /** Process 1 owns the GPU and lends it to process 3. */
  lemma LenderLends() returns (es: seq<Event>)
    ensures Run(CFG, es).procs == Procs({1, 2, 3}, {}, {}) && Run(CFG, es).svc == INIT.svc
    ensures Run(CFG, es).gpu == Gpu(Some(10), Body(Some(LOAN)), map[1 := 10], map[])
    ensures forall t :: PhaseOf(Run(CFG, es), t).Idle?
  {
    hide CallStep, AnchorStep, ProbeStep, LeaseStep, ProcessStep;
    es := Started();
    es := OwnsAlone(CFG, es, 10);
    var s := Run(CFG, es);
    es := Takes(CFG, es, Lend(10, 3, 5.0, true), Effect(s.gpu.(anchor := Body(Some(LOAN))), s.svc, Idle));
  }

  /** Process 1 exits without being reaped, its loan still on the anchor. */
  lemma LenderExits() returns (es: seq<Event>)
    ensures Run(CFG, es).procs == Procs({2, 3}, {1}, {}) && Run(CFG, es).svc.lock == map[]
    ensures Run(CFG, es).gpu == Gpu(None, Body(Some(LOAN)), map[], map[])
    ensures forall t :: PhaseOf(Run(CFG, es), t).Idle?
  {
    es := LenderLends();
    var s := Run(CFG, es);
    ExitClearsPhases(CFG, s, 1);
    Next(es, Exit(1));
    es := es + [Exit(1)];
    assert s.gpu.held - {1} == map[] && s.gpu.guard - {1} == map[];
    assert {1, 2, 3} - {1} == {2, 3};
  }

  /** An observer of process 2 has the anchor locked for a moment. */
  lemma ObserverLooks() returns (es: seq<Event>)
    ensures Run(CFG, es).procs == Procs({2, 3}, {1}, {}) && Run(CFG, es).svc.lock == map[]
    ensures Run(CFG, es).gpu == Gpu(Some(20), Body(Some(LOAN)), map[], map[])
    ensures PhaseOf(Run(CFG, es), 20) == ObsHolding && forall t :: t != 20 ==> PhaseOf(Run(CFG, es), t).Idle?
  {
    hide PublishStep, ProbeStep, LeaseStep;
    es := LenderExits();
    var s := Run(CFG, es);
    es := Takes(CFG, es, BeginObserve(20), Goes(s, Trying(Observe, 0)));
    es := Takes(CFG, es, TryLock(20), Effect(s.gpu.(lock := Some(20)), s.svc, ObsHolding));
  }

  /** The loan of an owner that exited unreaped still answers LENT_HERE, and while that answer stands another
      process comes to own the GPU: two processes are then permitted to load models. */
  lemma UnreapedOwnerStillLends() returns (es: seq<Event>)
    ensures PhaseOf(Run(CFG, es), 30) == Done(Claim, Ownership(LentHere, 1))
    ensures OwnsGpu(Run(CFG, es), 2) && CFG.proc(30) != 2 && 1 in Run(CFG, es).procs.zombies
  {
    hide CallStep, PublishStep, ProbeStep, LeaseStep;
    es := ObserverLooks();
    assert CFG.lineage(3)[0].pid == 3 && InLineage(CFG, 3, 3, 5.0);
    es := LoanComesToBeAnswered(CFG, es, 30);
    var s := Run(CFG, es);
    es := Takes(CFG, es, ObsRelease(20), Effect(s.gpu.(lock := None), s.svc, Probing(Observe, LeaseCheck)));
    es := OwnsAlone(CFG, es, 21);
  }

  /** Process 1 gave its lease on the service lock back; the record still names it. */
  lemma LeaseIsGivenUp() returns (es: seq<Event>)
    ensures Run(CFG, es).procs.running == {1, 2, 3} && Run(CFG, es).gpu == INIT.gpu
    ensures Run(CFG, es).svc == Svc(map[], map[0 := 1]) && forall t :: PhaseOf(Run(CFG, es), t).Idle?
  {
    hide CallStep, AnchorStep, PublishStep, ProbeStep;
    es := Started();
    es := Takes(CFG, es, SvcAcquire(10), Effect(INIT.gpu, Svc(map[0 := Acquiring(10)], map[]), Idle));
    es := Takes(CFG, es, SvcPublish(10), Effect(INIT.gpu, Svc(map[0 := Lease(1)], map[0 := 1]), Idle));
    assert map[0 := Lease(1)] - {0} == map[];
    es := Takes(CFG, es, SvcRelease(10), Effect(INIT.gpu, Svc(map[], map[0 := 1]), Idle));
  }

  /** A process that once held the service lock comes to own the GPU although its probe was refused by another
      process's hold of that lock: the record still named itself. */
  lemma StaleRecordHidesAService() returns (es: seq<Event>, b: nat)
    ensures 1 in Run(CFG, es).gpu.held && SawNoServiceAt(CFG, es, 10, b)
    ensures OtherService(CFG, Run(CFG, es[..b]), 1)
  {
    hide SawNoServiceAt, Run;
    es := LeaseIsGivenUp();
    es, b := ExposedComesToOverlook(CFG, es, 10, 20);
  }
}
