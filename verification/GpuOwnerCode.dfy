/** `require_gpu_ownership`, `_claim`, `_take`, `_contended` and `lend_gpu` as the code runs them, one primitive at a
    time, while every other thread of the machine does what it likes in between. Each method is shown to make only
    steps of the protocol, so what holds of every run holds of its answer. */
module GpuOwnerCode {
  import opened Options
  import opened GpuOwner
  import opened GpuOwnerRuns

  /** The whole machine as one thread sees it. `schedule` is what other threads do at each point where this one can
      be preempted, and `luck` is how each fallible primitive turns out; both are arbitrary. */
  class Machine {
    const cfg: Config
    const schedule: nat -> seq<Event>
    const luck: nat -> bool
    var s: State
    var tick: nat
    ghost var log: seq<Event>

    ghost predicate Valid()
      reads this
    {
      s == Run(cfg, log)
    }

    /** From here on nobody else runs and every primitive works. */
    ghost predicate Quiet()
      reads this
    {
      forall k: nat :: k >= tick ==> schedule(k) == [] && luck(k)
    }

    constructor (cfg: Config, schedule: nat -> seq<Event>, luck: nat -> bool)
      ensures Valid() && log == [] && this.cfg == cfg
    {
      this.cfg, this.schedule, this.luck := cfg, schedule, luck;
      s, tick, log := INIT, 0, [];
    }

    method Do(e: Event)
      requires Valid()
      modifies this`s, this`log
      ensures Valid() && log == old(log) + [e] && s == Step(cfg, old(s), e)
    {
      hide Step;
      assert (log + [e])[..|log|] == log;
      s, log := Step(cfg, s, e), log + [e];
    }

    /** One primitive of thread t. */
    method Mine(t: Tid, e: Event)
      requires Valid() && Runs(cfg, s, t) && IsThreadEvent(e) && e.t == t
      modifies this`s, this`log
      ensures Valid() && Runs(cfg, s, t) && old(log) <= log
      ensures s == Apply(old(s), ThreadEffect(cfg, old(s), e), t)
      ensures PhaseOf(s, t) == ThreadEffect(cfg, old(s), e).next
    {
      AppliedPhases(s, ThreadEffect(cfg, s, e), t);
      Do(e);
    }

    /** Every other thread may run, any number of steps, and any other process may come or go. */
    method Others(t: Tid)
      requires Valid() && Runs(cfg, s, t)
      modifies this
      ensures Valid() && Runs(cfg, s, t) && old(log) <= log && PhaseOf(s, t) == old(PhaseOf(s, t))
      ensures tick == old(tick) + 1 && (schedule(old(tick)) == [] ==> s == old(s))
    {
      var events := schedule(tick);
      tick := tick + 1;
      for i := 0 to |events|
        invariant Valid() && Runs(cfg, s, t) && old(log) <= log && PhaseOf(s, t) == old(PhaseOf(s, t))
        invariant tick == old(tick) + 1 && (i == 0 ==> s == old(s))
      {
        var e := events[i];
        if !(IsThreadEvent(e) && e.t == t) && !(e.Exit? && e.pid == cfg.proc(t)) {
          KeepsRunning(cfg, s, e, t);
          Do(e);
        }
      }
    }

    method Chance() returns (good: bool)
      modifies this`tick
      ensures good == luck(old(tick)) && tick == old(tick) + 1
    {
      good := luck(tick);
      tick := tick + 1;
    }

    /** One attempt of `_take`: whether the lock was taken, and otherwise what refused it. */
    method Attempt(t: Tid, attempt: nat) returns (taken: bool, answer: Ownership)
      requires Valid() && Runs(cfg, s, t) && PhaseOf(s, t) == Trying(Claim, attempt)
      requires attempt <= STALE_CONTENTION_RETRIES
      modifies this
      ensures Valid() && Runs(cfg, s, t) && old(log) <= log
      ensures taken ==> PhaseOf(s, t).Publishing?
      ensures !taken ==>
                var final := answer.state == LentHere || answer.state == Unverifiable || answer.holder > 0
                             || attempt >= STALE_CONTENTION_RETRIES;
                PhaseOf(s, t) == if final then Done(Claim, answer) else Trying(Claim, attempt + 1)
      ensures tick >= old(tick) && (old(Quiet()) ==> Beside(old(s), s))
      ensures old(Quiet() && s.gpu.lock.Some?) ==>
                !taken && answer == old(Contended(cfg, s, cfg.proc(t), Published(s))) && s.gpu == old(s.gpu)
      ensures old(Quiet() && s.gpu.lock.None?) ==> taken && Locks(old(s.gpu), s.gpu, t)
    {
      hide ThreadEffect, InLineage;
      LockSteps(cfg, s, t, attempt);
      var available := Chance();
      if !available {
        Mine(t, LockFault(t));
        return false, Ownership(Unverifiable, 0);
      }
      Mine(t, TryLock(t));
      if PhaseOf(s, t).Publishing? {
        return true, Ownership(Free, 0);
      }
      answer := Refusal(t, Claim, attempt);
      taken := false;
    }

    /** `_contended`: read the record of an anchor someone else holds, then ask whether its owner lives. */
    method Refusal(t: Tid, call: Call, attempt: nat) returns (answer: Ownership)
      requires Valid() && Runs(cfg, s, t) && PhaseOf(s, t) == Refused(call, attempt)
      modifies this
      ensures Valid() && Runs(cfg, s, t) && old(log) <= log && answer.state in {LentHere, OwnedElsewhere}
      ensures PhaseOf(s, t) ==
              if call == Observe || answer.state == LentHere || answer.holder > 0 || attempt >= STALE_CONTENTION_RETRIES
              then Done(call, answer) else Trying(Claim, attempt + 1)
      ensures tick >= old(tick)
      ensures old(Quiet()) ==>
                && answer == old(Contended(cfg, s, cfg.proc(t), Published(s)))
                && s.gpu == old(s.gpu) && Beside(old(s), s)
    {
      hide CallStep, PublishStep, ProbeStep, LeaseStep, InLineage;
      Others(t);
      var readable := Chance();
      var record := if readable then Published(s) else None;
      Mine(t, ReadRecord(t, readable));
      Others(t);
      answer := Judge(t, call, attempt, record);
    }

    /** The half of `_contended` that follows the read. */
    method Judge(t: Tid, call: Call, attempt: nat, record: Option<Record>) returns (answer: Ownership)
      requires Valid() && Runs(cfg, s, t) && PhaseOf(s, t) == Judging(call, attempt, record)
      modifies this
      ensures Valid() && Runs(cfg, s, t) && old(log) <= log && answer.state in {LentHere, OwnedElsewhere}
      ensures PhaseOf(s, t) ==
              if call == Observe || answer.state == LentHere || answer.holder > 0 || attempt >= STALE_CONTENTION_RETRIES
              then Done(call, answer) else Trying(Claim, attempt + 1)
      ensures answer == old(Contended(cfg, s, cfg.proc(t), record))
      ensures s.gpu == old(s.gpu) && Beside(old(s), s) && tick == old(tick)
    {
      hide CallStep, PublishStep, ProbeStep, LeaseStep, InLineage;
      answer := Contended(cfg, s, cfg.proc(t), record);
      Mine(t, AskAlive(t));
    }

    /** `_take`: lock the anchor, or answer who holds it; only a holder that is not alive is asked again. */
    method Take(t: Tid) returns (refusal: Option<Ownership>)
      requires Valid() && Runs(cfg, s, t) && PhaseOf(s, t) == Trying(Claim, 0)
      modifies this
      ensures Valid() && Runs(cfg, s, t) && old(log) <= log
      ensures refusal.None? ==> PhaseOf(s, t).Publishing?
      ensures refusal.Some? ==> PhaseOf(s, t) == Done(Claim, refusal.value)
      ensures tick >= old(tick) && (old(Quiet()) ==> Beside(old(s), s))
      ensures old(Quiet() && s.gpu.lock.Some?) ==>
                refusal == Some(old(Contended(cfg, s, cfg.proc(t), Published(s)))) && s.gpu == old(s.gpu)
      ensures old(Quiet() && s.gpu.lock.None?) ==> refusal.None? && Locks(old(s.gpu), s.gpu, t)
    {
      hide InLineage;
      var attempt := 0;
      while true
        invariant Valid() && Runs(cfg, s, t) && old(log) <= log
        invariant attempt <= STALE_CONTENTION_RETRIES && PhaseOf(s, t) == Trying(Claim, attempt)
        invariant tick >= old(tick) && (old(Quiet()) ==> s.gpu == old(s.gpu) && Beside(old(s), s))
        invariant old(Quiet() && s.gpu.lock.None?) ==> attempt == 0
        decreases STALE_CONTENTION_RETRIES - attempt
      {
        Others(t);
        var taken, contended := Attempt(t, attempt);
        if taken {
          return None;
        }
        if contended.state == LentHere || contended.state == Unverifiable || contended.holder > 0
           || attempt >= STALE_CONTENTION_RETRIES {
          return Some(contended);
        }
        attempt := attempt + 1;
      }
    }

    /** The probe of the service lock, by a claim that holds the anchor or by an observer; an error is a fault. */
    method ProbeService(t: Tid, call: Call) returns (found: Result<Option<Pid>, ()>)
      requires Valid() && Runs(cfg, s, t) && PhaseOf(s, t) == Probing(call, LeaseCheck)
      modifies this
      ensures Valid() && Runs(cfg, s, t) && old(log) <= log
      ensures PhaseOf(s, t) == AfterProbe(call, cfg.proc(t), found)
      ensures tick >= old(tick) && (old(Quiet()) ==> Probed(cfg, old(s), s, t, call, found))
    {
      hide ThreadEffect, Probed, HasLease, AfterNone;
      ghost var was := s;
      ProbeSteps(cfg, s, t, call, LeaseCheck);
      var working := Chance();
      if !working {
        Mine(t, ProbeFault(t));
        return Err(());
      }
      Mine(t, CheckLease(t));
      if PhaseOf(s, t).Done? {
        LeaseFindsNone(cfg, was, s, t, call);
        return Ok(None);
      }
      Others(t);
      ghost var trying := s;
      if Beside(was, trying) { SameLease(cfg, was, trying, cfg.proc(t)); }
      found := ProbeLock(t, call);
      SameProbe(cfg, was, trying, s, t, call, found);
    }

    /** The half of the probe that tries the lock itself. */
    method ProbeLock(t: Tid, call: Call) returns (found: Result<Option<Pid>, ()>)
      requires Valid() && Runs(cfg, s, t) && PhaseOf(s, t) == Probing(call, TrySvc)
      modifies this
      ensures Valid() && Runs(cfg, s, t) && old(log) <= log
      ensures PhaseOf(s, t) == AfterProbe(call, cfg.proc(t), found)
      ensures tick >= old(tick)
      ensures old(Quiet() && !HasLease(cfg, s, cfg.proc(t))) ==> Probed(cfg, old(s), s, t, call, found)
    {
      hide ThreadEffect, Probed, HasLease;
      ghost var was := s;
      ProbeSteps(cfg, s, t, call, TrySvc);
      Mine(t, TryService(t));
      var looking := PhaseOf(s, t) == Probing(call, Glancing);
      Others(t);
      if looking {
        ProbeSteps(cfg, s, t, call, Glancing);
        Mine(t, ReleaseGlance(t));
        GlanceFindsNone(cfg, was, s, t, call);
        return Ok(None);
      }
      ghost var refused := s;
      found := ReadHolder(t, call);
      SameProbe(cfg, was, refused, s, t, call, found);
    }

    /** A refused probe names the recorded holder; its own pid there means no other process. */
    method ReadHolder(t: Tid, call: Call) returns (found: Result<Option<Pid>, ()>)
      requires Valid() && Runs(cfg, s, t) && PhaseOf(s, t) == Probing(call, SvcRefused)
      modifies this
      ensures Valid() && Runs(cfg, s, t) && old(log) <= log && found.Ok?
      ensures PhaseOf(s, t) == AfterProbe(call, cfg.proc(t), found)
      ensures tick >= old(tick)
      ensures old(Quiet() && !ServiceIsFree(cfg, s, cfg.proc(t))) ==> Probed(cfg, old(s), s, t, call, found)
    {
      hide CallStep, AnchorStep, PublishStep, LeaseStep;
      var readable := Chance();
      var named := NamedService(cfg, s, cfg.proc(t), readable);
      Mine(t, ReadService(t, readable));
      found := Ok(if named == cfg.proc(t) then None else Some(named));
    }

    /** Naming this process on the anchor it has just taken; a failed write is not fatal. */
    method PublishOwn(t: Tid)
      requires Valid() && Runs(cfg, s, t) && PhaseOf(s, t).Publishing?
      modifies this
      ensures Valid() && Runs(cfg, s, t) && old(log) <= log && PhaseOf(s, t) == Probing(Claim, LeaseCheck)
      ensures tick >= old(tick)
      ensures old(Quiet()) ==>
                Beside(old(s), s) && s.gpu == old(s.gpu).(anchor := Body(Some(Record(cfg.proc(t), 0, 0.0))))
    {
      Others(t);
      var written := Chance();
      Mine(t, PublishClaim(t, written));
      Others(t);
    }

    /** Letting go of a claim that will not be kept. */
    method LetGo(t: Tid, o: Ownership)
      requires Valid() && Runs(cfg, s, t) && PhaseOf(s, t) == Releasing(o)
      modifies this
      ensures Valid() && Runs(cfg, s, t) && old(log) <= log && PhaseOf(s, t) == Done(Claim, o) && tick >= old(tick)
      ensures old(Quiet()) ==> Beside(old(s), s) && s.gpu == old(s.gpu).(lock := None)
    {
      Others(t);
      Mine(t, ReleaseClaim(t));
    }

    /** Backing off before a service: name it for whoever read the claim while it stood, then let go. */
    method BackOff(t: Tid, service: Pid)
      requires Valid() && Runs(cfg, s, t) && PhaseOf(s, t) == NamingService(service)
      modifies this
      ensures Valid() && Runs(cfg, s, t) && old(log) <= log
      ensures PhaseOf(s, t) == Done(Claim, Ownership(ServiceHoldsMachine, service)) && tick >= old(tick)
      ensures old(Quiet()) ==>
                Beside(old(s), s) && s.gpu == old(s.gpu).(lock := None, anchor := Body(Some(Record(service, 0, 0.0))))
    {
      Others(t);
      var written := Chance();
      Mine(t, NameService(t, written));
      LetGo(t, Ownership(ServiceHoldsMachine, service));
    }

    /** `_claim`: anchor first, record before probing, and back off when a service has the machine. */
    method ClaimAnchor(t: Tid) returns (o: Ownership)
      requires Valid() && Runs(cfg, s, t) && PhaseOf(s, t) == Trying(Claim, 0)
      modifies this
      ensures Valid() && Runs(cfg, s, t) && old(log) <= log && PhaseOf(s, t) == Done(Claim, o)
      // left to itself, on whatever it finds
      ensures old(Quiet()) ==> Beside(old(s), s)
      ensures old(Quiet() && s.gpu.lock.Some?) ==> Answered(cfg, old(s), cfg.proc(t), o) && s.gpu == old(s.gpu)
      ensures old(Quiet() && s.gpu.lock.None?) ==> Settled(cfg, old(s), s, t, o)
    {
      hide Contended, InLineage;
      ghost var was := s;
      var refusal := Take(t);
      if was.gpu.lock.Some? { ContendedAnswers(cfg, was, cfg.proc(t)); }
      if refusal.Some? {
        return refusal.value;
      }
      PublishOwn(t);
      var found := ProbeService(t, Claim);
      match found {
        case Err(_) =>
          o := Ownership(Unverifiable, 0);
          LetGo(t, o);
        case Ok(None) =>
          o := Ownership(OwnedHere, cfg.proc(t));
        case Ok(Some(q)) =>
          BackOff(t, q);
          o := Ownership(ServiceHoldsMachine, q);
      }
    }

    /** The claim begins, by taking the process's guard; an owner has its answer at once. */
    method Begins(t: Tid) returns (held: bool)
      requires Valid() && Runs(cfg, s, t) && PhaseOf(s, t).Idle? && cfg.proc(t) !in s.gpu.guard
      modifies this`s, this`log
      ensures Valid() && Runs(cfg, s, t) && old(log) <= log && held == old(cfg.proc(t) in s.gpu.held)
      ensures PhaseOf(s, t) == if held then Done(Claim, Ownership(OwnedHere, cfg.proc(t))) else Trying(Claim, 0)
      ensures Beside(old(s), s) && tick == old(tick)
      ensures s.gpu == if held then old(s.gpu) else old(s.gpu).(guard := old(s.gpu.guard)[cfg.proc(t) := t])
    {
      hide AnchorStep, PublishStep, ProbeStep, LeaseStep, InLineage;
      held := cfg.proc(t) in s.gpu.held;
      Do(BeginClaim(t));
    }

    /** The call is over: its process's guard is free. */
    method Returns(t: Tid, o: Ownership)
      requires Valid() && Runs(cfg, s, t) && PhaseOf(s, t) == Done(Claim, o)
      modifies this`s, this`log
      ensures Valid() && Runs(cfg, s, t) && log == old(log) + [Return(t)]
      ensures PhaseOf(s, t).Idle? && cfg.proc(t) !in s.gpu.guard
      ensures Beside(old(s), s) && s.gpu == old(s.gpu).(guard := old(s.gpu.guard) - {cfg.proc(t)})
    {
      hide Run, AnchorStep, PublishStep, ProbeStep, LeaseStep;
      GuardKeptAlways(cfg, log);
      RunKeepsInv(cfg, log);
      assert KeepsGuard(cfg, PhaseOf(s, t), t, s.gpu);
      Do(Return(t));
    }

    /** `require_gpu_ownership`, called once the process's guard is free, which it is again afterwards. Permission means
        this process owns the GPU now, or this call read a loan to its own lineage that stood when it was read unless
        its owner had exited unreaped. */
    method RequireGpuOwnership(t: Tid) returns (r: Result<Ownership, Ownership>)
      requires Valid() && Runs(cfg, s, t) && PhaseOf(s, t).Idle? && cfg.proc(t) !in s.gpu.guard
      modifies this
      ensures Valid() && Runs(cfg, s, t) && old(log) <= log
      ensures PhaseOf(s, t).Idle? && cfg.proc(t) !in s.gpu.guard
      ensures r.Ok? ==>
                || (r.value == Ownership(OwnedHere, cfg.proc(t)) && OwnsGpu(s, cfg.proc(t)))
                || (r.value.state == LentHere && exists k :: k >= |old(log)| && LentAt(cfg, log, t, k, r.value.holder))
      ensures r.Err? ==> r.error.state in {OwnedElsewhere, ServiceHoldsMachine, Unverifiable}
      ensures old(cfg.proc(t) in s.gpu.held) ==> r == Ok(Ownership(OwnedHere, cfg.proc(t)))
      ensures old(Quiet() && OffersLoan(cfg, s, cfg.proc(t)) && cfg.proc(t) !in s.gpu.held) ==>
                r == Ok(Ownership(LentHere, old(Published(s)).value.owner))
      // left to itself: a held anchor is answered by its record and left alone; a free one is kept if no service stands
      // in the way, and given back if one does
      ensures old(Quiet() && cfg.proc(t) !in s.gpu.held) ==>
                && Beside(old(s), s)
                && (old(s.gpu.lock.Some?) ==> Answered(cfg, old(s), cfg.proc(t), Said(r)) && s.gpu == old(s.gpu))
                && (old(s.gpu.lock.None?) ==> Settled(cfg, old(s), s, t, Said(r)))
    {
      hide Run, InLineage, OwnsGpu, LentAt, Answered, Settled, RecordOn;
      var p := cfg.proc(t);
      ghost var was := s;
      var held := Begins(t);
      ghost var begun := s;
      var o := Ownership(OwnedHere, p);
      if !held {
        o := ClaimAnchor(t);
      }
      ghost var answered := log;
      ghost var k := Permission(cfg, old(log), log, t, o);
      ghost var settled := s;
      Returns(t, o);
      if o.state == OwnedHere { StillOwns(settled, s, p); }
      assert was.gpu.guard[p := t] - {p} == was.gpu.guard;
      if !held {
        SameAnswer(cfg, begun, was, p, o);
        if OffersLoan(cfg, was, p) && Answered(cfg, was, p, o) { LoanIsAnswered(cfg, was, p, o); }
        if was.gpu.lock.None? && Settled(cfg, begun, settled, t, o) {
          SameSettlement(cfg, begun, settled, was, s, t, o);
        }
      }
      if o.state == LentHere { LentAtLonger(cfg, answered, log, t, k, o.holder); }
      r := if PermitsCompute(o.state) then Ok(o) else Err(o);
    }

    /** `observe_gpu_owner`: the guard only while `_held` is asked; it never takes ownership by asking. */
    method ObserveGpuOwner(t: Tid) returns (o: Ownership)
      requires Valid() && Runs(cfg, s, t) && PhaseOf(s, t).Idle? && cfg.proc(t) !in s.gpu.guard
      modifies this
      ensures Valid() && Runs(cfg, s, t) && old(log) <= log && PhaseOf(s, t).Idle?
      ensures o.state == LentHere ==> exists k :: k >= |old(log)| && LentAt(cfg, log, t, k, o.holder)
      ensures old(cfg.proc(t) in s.gpu.held) ==> o == Ownership(OwnedHere, cfg.proc(t))
      // left to itself it leaves everything as it was
      ensures old(Quiet() && cfg.proc(t) !in s.gpu.held) ==>
                Beside(old(s), s) && s.gpu == old(s.gpu) && Observed(cfg, old(s), cfg.proc(t), o)
    {
      hide ThreadEffect, Run, LentAt, Observed;
      ghost var was, p := s, cfg.proc(t);
      ObserveSteps(cfg, s, t);
      Do(BeginObserve(t));
      o := if PhaseOf(s, t).Done? then Ownership(OwnedHere, cfg.proc(t)) else Ownership(Free, 0);
      if !PhaseOf(s, t).Done? {
        o := Looks(t);
        SameObservation(cfg, was, was.(phase := was.phase[t := Trying(Observe, 0)]), p, o);
      }
      ghost var answered, k: nat := log, 0;
      if o.state == LentHere {
        k := LentAnswerWasTrueWhenRead(cfg, log, t);
        assert log[..|old(log)|] == old(log);
      }
      ObserveSteps(cfg, s, t);
      Do(Return(t));
      if o.state == LentHere { LentAtLonger(cfg, answered, log, t, k, o.holder); }
    }

    /** The half of `_observe` that asks the anchor: nothing when it is not there or its lock could be taken, which is
        given back at once. */
    method LooksAtAnchor(t: Tid) returns (answer: Option<Ownership>)
      requires Valid() && Runs(cfg, s, t) && PhaseOf(s, t) == Trying(Observe, 0)
      modifies this
      ensures Valid() && Runs(cfg, s, t) && old(log) <= log && tick >= old(tick)
      ensures PhaseOf(s, t) == if answer.Some? then Done(Observe, answer.value) else Probing(Observe, LeaseCheck)
      ensures old(Quiet()) ==> Beside(old(s), s) && s.gpu == old(s.gpu)
      ensures old(Quiet()) ==>
                if old(s.gpu.lock.Some? && !s.gpu.anchor.Absent?)
                then answer == Some(old(Contended(cfg, s, cfg.proc(t), Published(s)))) else answer.None?
    {
      hide ThreadEffect, InLineage;
      ObserveSteps(cfg, s, t);
      var available := Chance();
      if !available {
        Mine(t, LockFault(t));
        return Some(Ownership(Unverifiable, 0));
      }
      if s.gpu.anchor.Absent? {
        Mine(t, AnchorAbsent(t));
        return None;
      }
      Mine(t, TryLock(t));
      if PhaseOf(s, t).Refused? {
        var contended := Refusal(t, Observe, 0);
        return Some(contended);
      }
      Others(t);
      ObserveSteps(cfg, s, t);
      Mine(t, ObsRelease(t));
      answer := None;
    }

    /** `_observe`. */
    method Looks(t: Tid) returns (o: Ownership)
      requires Valid() && Runs(cfg, s, t) && PhaseOf(s, t) == Trying(Observe, 0)
      modifies this
      ensures Valid() && Runs(cfg, s, t) && old(log) <= log && PhaseOf(s, t) == Done(Observe, o) && tick >= old(tick)
      ensures old(Quiet()) ==>
                Beside(old(s), s) && s.gpu == old(s.gpu) && Observed(cfg, old(s), cfg.proc(t), o)
    {
      hide ThreadEffect, Observed, Probed, Contended;
      ghost var was := s;
      Others(t);
      RefusalIsObserved(cfg, was, s, cfg.proc(t));
      var answer := LooksAtAnchor(t);
      if answer.Some? {
        return answer.value;
      }
      Others(t);
      ghost var looking := s;
      var found := ProbeService(t, Observe);
      o := match found
        case Err(_) => Ownership(Unverifiable, 0)
        case Ok(Some(q)) => Ownership(ServiceHoldsMachine, q)
        case Ok(None) => Ownership(Free, 0);
      ProbeIsObserved(cfg, was, looking, s, t, found);
    }

    /** `lend_gpu`, called once the guard is free. A call that gets as far as writing can land its record or not, and of
        a record that landed the flush or the read-back can still fail; only a landed and confirmed one is reported. */
    method LendGpu(t: Tid, borrower: Pid, start: real) returns (lent: bool, ghost landed: bool, ghost confirmed: bool)
      requires Valid() && Runs(cfg, s, t) && PhaseOf(s, t).Idle? && cfg.proc(t) !in s.gpu.guard
      modifies this
      ensures Valid() && old(log) <= log && s.procs == old(s.procs)
      ensures s == old(s).(gpu := s.gpu, phase := s.phase) && s.gpu == old(s.gpu).(anchor := s.gpu.anchor)
      ensures forall u :: PhaseOf(s, u) == old(PhaseOf(s, u))
      ensures lent <==> landed && confirmed
      // nobody but an owner lends, to a process whose start time could be read
      ensures old(cfg.proc(t) !in s.gpu.held) || start <= 0.0 ==> !landed && tick == old(tick)
      ensures old(cfg.proc(t) in s.gpu.held) && start > 0.0 ==>
                landed == luck(old(tick)) && confirmed == luck(old(tick) + 1) && tick == old(tick) + 2
      // the loan is on the anchor, by the process that owns it, exactly when it landed
      ensures landed ==> OwnsGpu(s, cfg.proc(t)) && Published(s) == Some(Record(cfg.proc(t), borrower, start))
      ensures !landed ==> s.gpu.anchor == old(s.gpu.anchor)
      // so it is there, though reported as not lent, exactly when it landed unconfirmed
      ensures old(Published(s)) != Some(Record(cfg.proc(t), borrower, start)) ==>
                (!lent && Published(s) == Some(Record(cfg.proc(t), borrower, start)) <==> landed && !confirmed)
    {
      landed, confirmed := false, false;
      if start <= 0.0 || cfg.proc(t) !in s.gpu.held {
        return false, false, false;
      }
      var lands := Chance();
      var confirms := Chance();
      landed, confirmed := lands, confirms;
      AppliedPhases(s, ThreadEffect(cfg, s, Lend(t, borrower, start, lands)), t);
      Do(Lend(t, borrower, start, lands));
      RunKeepsInv(cfg, log);
      lent := lands && confirms;
    }

    /** `reclaim_gpu`: no loan is left on the anchor by an owner whose write succeeds; nobody else changes it. */
    method ReclaimGpu(t: Tid) returns (ghost written: bool)
      requires Valid() && Runs(cfg, s, t) && PhaseOf(s, t).Idle? && cfg.proc(t) !in s.gpu.guard
      modifies this
      ensures Valid() && old(log) <= log
      ensures old(cfg.proc(t) in s.gpu.held) && written ==> Published(s) == Some(Record(cfg.proc(t), 0, 0.0))
      ensures old(cfg.proc(t) !in s.gpu.held) || !written ==> s.gpu.anchor == old(s.gpu.anchor)
    {
      var ok := Chance();
      written := ok;
      Do(Reclaim(t, ok));
    }
  }

  // ---------- the claim's own primitives, each on its own ----------

  lemma LockSteps(cfg: Config, s: State, t: Tid, attempt: nat)
    requires PhaseOf(s, t) == Trying(Claim, attempt)
    ensures ThreadEffect(cfg, s, LockFault(t)) == Goes(s, Done(Claim, Ownership(Unverifiable, 0)))
    ensures s.gpu.lock.Some? ==> ThreadEffect(cfg, s, TryLock(t)) == Goes(s, GpuOwner.Refused(Claim, attempt))
    ensures s.gpu.lock.None? ==>
              var r := ThreadEffect(cfg, s, TryLock(t));
              r.svc == s.svc && r.next == Publishing && Locks(s.gpu, r.gpu, t)
  {
    hide CallStep, PublishStep, ProbeStep, LeaseStep;
  }

  /** Where a probe leaves the call it was made for. */
  function AfterProbe(call: Call, p: Pid, found: Result<Option<Pid>, ()>): Phase {
    match (call, found)
    case (Claim, Err(_)) => Releasing(Ownership(Unverifiable, 0))
    case (Claim, Ok(Some(q))) => NamingService(q)
    case (Claim, Ok(None)) => Done(Claim, Ownership(OwnedHere, p))
    case (Observe, Err(_)) => Done(Observe, Ownership(Unverifiable, 0))
    case (Observe, Ok(Some(q))) => Done(Observe, Ownership(ServiceHoldsMachine, q))
    case (Observe, Ok(None)) => Done(Observe, Ownership(Free, 0))
  }

  /** The anchor once the probe found nobody: a claim is entered in `_held`. */
  function AfterNone(cfg: Config, g: Gpu, t: Tid, call: Call): Gpu {
    if call == Claim then g.(held := g.held[cfg.proc(t) := t]) else g
  }

  lemma ObserveSteps(cfg: Config, s: State, t: Tid)
    ensures PhaseOf(s, t).Idle? && cfg.proc(t) !in s.gpu.guard ==>
              ThreadEffect(cfg, s, BeginObserve(t))
              == Goes(s, if cfg.proc(t) in s.gpu.held then Done(Observe, Ownership(OwnedHere, cfg.proc(t)))
                         else Trying(Observe, 0))
    ensures PhaseOf(s, t) == Trying(Observe, 0) ==>
              && ThreadEffect(cfg, s, LockFault(t)) == Goes(s, Done(Observe, Ownership(Unverifiable, 0)))
              && (s.gpu.anchor.Absent? ==>
                    ThreadEffect(cfg, s, AnchorAbsent(t)) == Goes(s, Probing(Observe, LeaseCheck)))
              && (!s.gpu.anchor.Absent? ==>
                    ThreadEffect(cfg, s, TryLock(t))
                    == if s.gpu.lock.Some? then Goes(s, GpuOwner.Refused(Observe, 0))
                       else Effect(s.gpu.(lock := Some(t)), s.svc, ObsHolding))
    ensures PhaseOf(s, t).ObsHolding? ==>
              ThreadEffect(cfg, s, ObsRelease(t)) == Effect(s.gpu.(lock := None), s.svc, Probing(Observe, LeaseCheck))
    ensures PhaseOf(s, t).Done? ==>
              var g, p, r := s.gpu, cfg.proc(t), ThreadEffect(cfg, s, Return(t));
              r.next.Idle? && r.svc == s.svc && r.gpu == g.(guard := r.gpu.guard)
              && (p !in g.guard ==> r.gpu == g)
  {
    hide PublishStep, ProbeStep, LeaseStep;
  }

  lemma ProbeSteps(cfg: Config, s: State, t: Tid, call: Call, stage: ProbeStage)
    requires PhaseOf(s, t) == Probing(call, stage)
    ensures stage == LeaseCheck ==>
              && ThreadEffect(cfg, s, ProbeFault(t)) == Goes(s, AfterProbe(call, cfg.proc(t), Err(())))
              && ThreadEffect(cfg, s, CheckLease(t))
                 == if HasLease(cfg, s, cfg.proc(t)) then FindsNone(cfg, s, t, call, s.svc)
                    else Goes(s, Probing(call, TrySvc))
    ensures stage == TrySvc ==>
              var st := cfg.storage(cfg.proc(t));
              ThreadEffect(cfg, s, TryService(t))
              == if st in s.svc.lock then Goes(s, Probing(call, SvcRefused))
                 else Effect(s.gpu, s.svc.(lock := s.svc.lock[st := Glance(t)]), Probing(call, Glancing))
    ensures stage == Glancing ==>
              ThreadEffect(cfg, s, ReleaseGlance(t))
              == FindsNone(cfg, s, t, call, s.svc.(lock := s.svc.lock - {cfg.storage(cfg.proc(t))}))
  {
    hide CallStep, AnchorStep, PublishStep, LeaseStep;
  }

  function FindsNone(cfg: Config, s: State, t: Tid, call: Call, svc: Svc): Effect {
    Effect(AfterNone(cfg, s.gpu, t, call), svc, AfterProbe(call, cfg.proc(t), Ok(None)))
  }

  // ---------- what a call comes to when it is left to itself ----------

  /** A step that leaves processes and service locks alone. */
  predicate Beside(s: State, s': State) { s'.procs == s.procs && s'.svc == s.svc }

  /** Thread t has the anchor now, and the record on it is as it was or, on a new anchor, empty. */
  predicate Locks(g: Gpu, g': Gpu, t: Tid) {
    && g' == g.(lock := Some(t), anchor := g'.anchor)
    && RecordOn(g') == RecordOn(g)
  }

  /** p has its own service lock, as a service. */
  predicate HasLease(cfg: Config, s: State, p: Pid) {
    cfg.storage(p) in s.svc.lock && s.svc.lock[cfg.storage(p)] == Lease(p)
  }

  predicate ServiceIsFree(cfg: Config, s: State, p: Pid) {
    cfg.storage(p) !in s.svc.lock || HasLease(cfg, s, p)
  }

  /** The pid recorded in p's service lock, or zero. */
  function RecordedService(cfg: Config, s: State, p: Pid): Pid {
    if cfg.storage(p) in s.svc.record then s.svc.record[cfg.storage(p)] else 0
  }

  /** What an undisturbed probe finds: no service if the lock is free or p's own, and else the recorded one, with p's
      own pid standing for none. A claim that finds none is entered in `_held`. */
  predicate Probed(cfg: Config, s: State, s': State, t: Tid, call: Call, found: Result<Option<Pid>, ()>) {
    var p := cfg.proc(t);
    && Beside(s, s')
    && if ServiceIsFree(cfg, s, p) || RecordedService(cfg, s, p) == p
       then found == Ok(None) && s'.gpu == AfterNone(cfg, s.gpu, t, call)
       else found == Ok(Some(RecordedService(cfg, s, p))) && s'.gpu == s.gpu
  }

  /** What an undisturbed claim of a held anchor is told: by a record of an owner that answers as alive, lent here if it
      lends to p's lineage and owned elsewhere if not; without one, owned by nobody it can name. */
  predicate Answered(cfg: Config, s: State, p: Pid, o: Ownership) {
    var seen := Published(s);
    if seen.Some? && seen.value.owner > 0 && PidAlive(s, seen.value.owner) then
      o == Ownership(if seen.value.lentTo > 0 && InLineage(cfg, p, seen.value.lentTo, seen.value.lentStart)
                     then LentHere else OwnedElsewhere, seen.value.owner)
    else o == Ownership(OwnedElsewhere, 0)
  }

  /** What an undisturbed claim of a free anchor comes to: p owns the GPU and is named on it, or a service is named and
      the anchor is free again. */
  predicate Settled(cfg: Config, s: State, s': State, t: Tid, o: Ownership) {
    var p := cfg.proc(t);
    var q := RecordedService(cfg, s, p);
    s'.gpu.guard == s.gpu.guard &&
    if ServiceIsFree(cfg, s, p) || q == p then
      && o == Ownership(OwnedHere, p)
      && s'.gpu.lock == Some(t) && s'.gpu.held == s.gpu.held[p := t] && Published(s') == Some(Record(p, 0, 0.0))
    else
      && o == Ownership(ServiceHoldsMachine, q)
      && s'.gpu.lock.None? && s'.gpu.held == s.gpu.held && Published(s') == Some(Record(q, 0, 0.0))
  }

  /** What an undisturbed observer is told: of a locked anchor what a claim would be, and of any other whether a service
      has the machine. */
  predicate Observed(cfg: Config, s: State, p: Pid, o: Ownership) {
    var q := RecordedService(cfg, s, p);
    if s.gpu.lock.Some? && !s.gpu.anchor.Absent? then Answered(cfg, s, p, o)
    else o == if ServiceIsFree(cfg, s, p) || q == p then Ownership(Free, 0) else Ownership(ServiceHoldsMachine, q)
  }

  lemma SameObservation(cfg: Config, s: State, s': State, p: Pid, o: Ownership)
    requires Beside(s, s') && s'.gpu == s.gpu
    ensures Observed(cfg, s, p, o) <==> Observed(cfg, s', p, o)
  {
    hide InLineage;
  }

  lemma RefusalIsObserved(cfg: Config, s: State, s': State, p: Pid)
    ensures Beside(s, s') && s'.gpu == s.gpu && s.gpu.lock.Some? && !s.gpu.anchor.Absent? ==>
              Observed(cfg, s, p, Contended(cfg, s', p, Published(s')))
  {
    hide InLineage;
  }

  lemma ProbeIsObserved(cfg: Config, s: State, mid: State, s': State, t: Tid, found: Result<Option<Pid>, ()>)
    ensures Beside(s, mid) && mid.gpu == s.gpu && Probed(cfg, mid, s', t, Observe, found)
            && (s.gpu.lock.None? || s.gpu.anchor.Absent?)
            ==> found.Ok? && s'.gpu == s.gpu && Beside(s, s')
                && Observed(cfg, s, cfg.proc(t),
                            if found.value.None? then Ownership(Free, 0)
                            else Ownership(ServiceHoldsMachine, found.value.value))
  {}

  function Said(r: Result<Ownership, Ownership>): Ownership { if r.Ok? then r.value else r.error }

  /** A look at a free service lock finds nobody and leaves it free. */
  lemma GlanceFindsNone(cfg: Config, s: State, s': State, t: Tid, call: Call)
    ensures var st := cfg.storage(cfg.proc(t));
      && st !in s.svc.lock && s'.procs == s.procs && s'.gpu == AfterNone(cfg, s.gpu, t, call)
      && s'.svc == s.svc.(lock := s.svc.lock[st := Glance(t)] - {st})
      ==> Probed(cfg, s, s', t, call, Ok(None))
  {
    var st := cfg.storage(cfg.proc(t));
    assert st !in s.svc.lock ==> s.svc.lock[st := Glance(t)] - {st} == s.svc.lock;
  }

  lemma LeaseFindsNone(cfg: Config, s: State, s': State, t: Tid, call: Call)
    ensures HasLease(cfg, s, cfg.proc(t)) && Beside(s, s') && s'.gpu == AfterNone(cfg, s.gpu, t, call) ==>
              Probed(cfg, s, s', t, call, Ok(None))
  {}

  lemma SameLease(cfg: Config, s: State, s': State, p: Pid)
    requires Beside(s, s')
    ensures HasLease(cfg, s, p) <==> HasLease(cfg, s', p)
  {}

  lemma SameProbe(cfg: Config, s: State, mid: State, s': State, t: Tid, call: Call, found: Result<Option<Pid>, ()>)
    ensures Beside(s, mid) && mid.gpu == s.gpu && Probed(cfg, mid, s', t, call, found) ==>
              Probed(cfg, s, s', t, call, found)
    ensures Beside(s, mid) && cfg.storage(cfg.proc(t)) in s.svc.lock && !HasLease(cfg, s, cfg.proc(t)) ==>
              !ServiceIsFree(cfg, mid, cfg.proc(t))
  {}

  /** What is said of a claim says the same of the call around it. */
  lemma SameAnswer(cfg: Config, s: State, s0: State, p: Pid, o: Ownership)
    requires Beside(s0, s) && s.gpu.anchor == s0.gpu.anchor
    ensures Answered(cfg, s, p, o) <==> Answered(cfg, s0, p, o)
  {
    hide InLineage;
  }

  lemma SameSettlement(cfg: Config, s: State, s': State, s0: State, s1: State, t: Tid, o: Ownership)
    requires Beside(s0, s) && Beside(s', s1)
    requires var p := cfg.proc(t);
      p !in s0.gpu.guard && s.gpu == s0.gpu.(guard := s0.gpu.guard[p := t])
      && s1.gpu == s'.gpu.(guard := s'.gpu.guard - {p})
    requires Settled(cfg, s, s', t, o)
    ensures Settled(cfg, s0, s1, t, o)
  {
    assert s0.gpu.guard[cfg.proc(t) := t] - {cfg.proc(t)} == s0.gpu.guard;
  }

  lemma LoanIsAnswered(cfg: Config, s: State, p: Pid, o: Ownership)
    requires OffersLoan(cfg, s, p) && Answered(cfg, s, p, o)
    ensures o == Ownership(LentHere, Published(s).value.owner)
  {
    hide InLineage;
  }

  lemma ContendedAnswers(cfg: Config, s: State, p: Pid)
    ensures Answered(cfg, s, p, Contended(cfg, s, p, Published(s)))
  {
    hide InLineage;
  }

  /** What a claim that began after the run `before` permits compute by. */
  lemma Permission(cfg: Config, before: seq<Event>, es: seq<Event>, t: Tid, o: Ownership) returns (k: nat)
    requires before <= es && PhaseOf(Run(cfg, before), t).Idle? && PhaseOf(Run(cfg, es), t) == Done(Claim, o)
    ensures PermitsCompute(o.state) ==>
              || (o == Ownership(OwnedHere, cfg.proc(t)) && OwnsGpu(Run(cfg, es), cfg.proc(t)))
              || (o.state == LentHere && k >= |before| && LentAt(cfg, es, t, k, o.holder))
    ensures !PermitsCompute(o.state) ==> o.state in {OwnedElsewhere, ServiceHoldsMachine, Unverifiable}
  {
    hide Run, LentAt, OwnsGpu;
    k := 0;
    RunKeepsInv(cfg, es);
    assert GoodPhase(PhaseOf(Run(cfg, es), t));
    if PermitsCompute(o.state) {
      k := ClaimPermitsOnlyOwnedOrLent(cfg, es, t);
      assert es[..|before|] == before;
    }
  }

  lemma StillOwns(s: State, s': State, p: Pid)
    requires Beside(s, s') && s'.gpu == s.gpu.(guard := s'.gpu.guard)
    ensures OwnsGpu(s, p) ==> OwnsGpu(s', p)
  {}

  lemma LentAtLonger(cfg: Config, es: seq<Event>, longer: seq<Event>, t: Tid, k: nat, h: Pid)
    requires es <= longer && LentAt(cfg, es, t, k, h)
    ensures LentAt(cfg, longer, t, k, h)
  {
    hide Run, OwnsGpu;
    assert es[..k] == longer[..k];
  }

  /** A loan whose record lands and is not confirmed is reported as not lent, and the borrower that asks next is
      permitted by it. */
  method UnconfirmedLoanLends(m: Machine, t: Tid, u: Tid, borrower: Pid, start: real)
    returns (lent: bool, asked: Result<Ownership, Ownership>)
    requires m.Valid() && Runs(m.cfg, m.s, t) && PhaseOf(m.s, t).Idle? && m.cfg.proc(t) in m.s.gpu.held
    requires m.cfg.proc(t) !in m.s.gpu.guard && start > 0.0
    requires m.luck(m.tick) && !m.luck(m.tick + 1)
    requires forall k: nat :: k >= m.tick + 2 ==> m.schedule(k) == [] && m.luck(k)
    requires Runs(m.cfg, m.s, u) && PhaseOf(m.s, u).Idle? && m.cfg.proc(u) !in m.s.gpu.guard
    requires m.cfg.proc(u) != m.cfg.proc(t) && borrower > 0 && InLineage(m.cfg, m.cfg.proc(u), borrower, start)
    modifies m
    ensures !lent && asked == Ok(Ownership(LentHere, m.cfg.proc(t)))
  {
    hide InLineage, Run, OwnsGpu, OffersLoan, LentAt, RecordOn;
    OwnerIsAlone(m.cfg, m.log, m.cfg.proc(t), m.cfg.proc(u));
    ghost var landed, confirmed;
    lent, landed, confirmed := m.LendGpu(t, borrower, start);
    LoanStands(m.cfg, m.s, m.cfg.proc(t), m.cfg.proc(u), borrower, start);
    assert m.Quiet();
    asked := m.RequireGpuOwnership(u);
  }

  lemma LoanStands(cfg: Config, s: State, p: Pid, q: Pid, borrower: Pid, start: real)
    requires OwnsGpu(s, p) && p > 0 && Published(s) == Some(Record(p, borrower, start))
    requires borrower > 0 && InLineage(cfg, q, borrower, start)
    ensures OffersLoan(cfg, s, q)
  {}

  lemma OwnerIsAlone(cfg: Config, es: seq<Event>, p: Pid, q: Pid)
    requires p in Run(cfg, es).gpu.held && q != p
    ensures OwnsGpu(Run(cfg, es), p) && p > 0 && q !in Run(cfg, es).gpu.held
  {
    hide Run;
    RunKeepsInv(cfg, es);
    AtMostOneOwner(cfg, es, p, q);
  }

  lemma KeepsRunning(cfg: Config, s: State, e: Event, t: Tid)
    requires Runs(cfg, s, t) && !(IsThreadEvent(e) && e.t == t) && !(e.Exit? && e.pid == cfg.proc(t))
    ensures Runs(cfg, Step(cfg, s, e), t) && PhaseOf(Step(cfg, s, e), t) == PhaseOf(s, t)
  {
    if IsThreadEvent(e) && Runs(cfg, s, e.t) {
      AppliedPhases(s, ThreadEffect(cfg, s, e), e.t);
    }
  }
}
