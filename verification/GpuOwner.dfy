/** One process per machine owns the GPU: the claim, observe, lend and reclaim protocol of
    `_gpu_owner.py` over the anchor lock of `_anchor_claim.py` and the service lock of `_machine_lock.py`.

    Threads of any number of processes interleave. Every event below is one atomic step of the code between two
    points at which another process may run; an event that is not enabled leaves the state alone, so every sequence
    of events is a run. A lock is an operating-system lock: one holder at a time, freed when its process exits. */
module GpuOwner {
  import opened Options

  type Pid = nat
  type Tid = nat
  type Storage = nat

  datatype LineageEntry = LineageEntry(pid: Pid, start: real)

  /** What does not change during a run: the process of each thread, the storage directory each process is
      configured with, and each process's own lineage with start times. */
  datatype Config = Config(proc: Tid -> Pid, storage: Pid -> Storage, lineage: Pid -> seq<LineageEntry>)

  /** The parsed owner record; zero stands for an absent field. */
  datatype Record = Record(owner: Pid, lentTo: Pid, lentStart: real)

  datatype Anchor = Absent | Body(record: Option<Record>)

  datatype Answer = OwnedHere | LentHere | Free | OwnedElsewhere | ServiceHoldsMachine | Unverifiable

  datatype Ownership = Ownership(state: Answer, holder: Pid)

  predicate PermitsCompute(a: Answer) { a in {OwnedHere, LentHere, Free} }

  datatype Call = Claim | Observe

  /** The steps of one probe of the configured service lock. */
  datatype ProbeStage = LeaseCheck | TrySvc | Glancing | SvcRefused

  /** Where a thread stands inside one call. */
  datatype Phase =
    | Idle
    | Trying(call: Call, attempt: nat)
    | Refused(call: Call, attempt: nat)
    | Judging(call: Call, attempt: nat, seen: Option<Record>)
    | Publishing
    | ObsHolding
    | Probing(call: Call, stage: ProbeStage)
    | NamingService(service: Pid)
    | Releasing(answer: Ownership)
    | Done(call: Call, answer: Ownership)

  /** Who has a service lock: a thread that has locked but not yet recorded itself, a process with a lease, or a
      thread that took the lock only to look. */
  datatype SvcHolder = Acquiring(tid: Tid) | Lease(pid: Pid) | Glance(tid: Tid)

  /** `zombies` have exited and freed every lock but still answer a liveness query until their parent reaps them. */
  datatype Procs = Procs(running: set<Pid>, zombies: set<Pid>, gone: set<Pid>)

  /** The anchor's lock and body, and each process's own `_held` entry and guard. */
  datatype Gpu = Gpu(lock: Option<Tid>, anchor: Anchor, held: map<Pid, Tid>, guard: map<Pid, Tid>)

  /** The service locks, one a storage directory, and the pid recorded in each. */
  datatype Svc = Svc(lock: map<Storage, SvcHolder>, record: map<Storage, Pid>)

  datatype State = State(procs: Procs, gpu: Gpu, svc: Svc, phase: map<Tid, Phase>)

  datatype Event =
    | Spawn(pid: Pid) | Exit(pid: Pid) | Reap(pid: Pid)
    | BeginClaim(t: Tid) | BeginObserve(t: Tid) | Return(t: Tid)
    | TryLock(t: Tid) | LockFault(t: Tid) | AnchorAbsent(t: Tid)
    | ReadRecord(t: Tid, readable: bool) | AskAlive(t: Tid)
    | PublishClaim(t: Tid, written: bool) | ObsRelease(t: Tid)
    | CheckLease(t: Tid) | TryService(t: Tid) | ReleaseGlance(t: Tid) | ReadService(t: Tid, readable: bool)
    | ProbeFault(t: Tid)
    | NameService(t: Tid, written: bool) | ReleaseClaim(t: Tid)
    | Lend(t: Tid, borrower: Pid, start: real, written: bool) | Reclaim(t: Tid, written: bool)
    | SvcAcquire(t: Tid) | SvcPublish(t: Tid) | SvcAbort(t: Tid, written: bool) | SvcRelease(t: Tid)

  const STALE_CONTENTION_RETRIES: nat := 5
  const LOAN_START_TOLERANCE: real := 0.001

  const INIT: State := State(Procs({}, {}, {}), Gpu(None, Absent, map[], map[]), Svc(map[], map[]), map[])

  // ---------- reading the state ----------

  function PhaseOf(s: State, t: Tid): Phase { if t in s.phase then s.phase[t] else Idle }

  predicate Runs(cfg: Config, s: State, t: Tid) { cfg.proc(t) in s.procs.running }

  /** What `pid_alive` answers: a zombie still counts. */
  predicate PidAlive(s: State, p: Pid) { p in s.procs.running || p in s.procs.zombies }

  /** Whether the thread of this phase has the anchor locked by a call in progress. */
  predicate HoldsAnchor(ph: Phase) {
    ph.Publishing? || ph.ObsHolding? || (ph.Probing? && ph.call == Claim) || ph.NamingService? || ph.Releasing?
  }

  /** Whether the phase is inside `_claim`, before its answer. */
  predicate InClaim(ph: Phase) {
    || ((ph.Trying? || ph.Refused? || ph.Judging? || ph.Probing?) && ph.call == Claim)
    || ph.Publishing? || ph.NamingService? || ph.Releasing?
  }

  function RecordOn(g: Gpu): Option<Record> { if g.anchor.Body? then g.anchor.record else None }

  function Published(s: State): Option<Record> { RecordOn(s.gpu) }

  predicate InLineage(cfg: Config, p: Pid, pid: Pid, start: real) {
    exists k :: 0 <= k < |cfg.lineage(p)| && cfg.lineage(p)[k].pid == pid
                && -LOAN_START_TOLERANCE <= cfg.lineage(p)[k].start - start <= LOAN_START_TOLERANCE
  }

  /** `_contended`: what a refused process concludes from the record it read, given which pids answer as alive. */
  function Contended(cfg: Config, s: State, p: Pid, seen: Option<Record>): Ownership {
    var holder := if seen.Some? && seen.value.owner > 0 && PidAlive(s, seen.value.owner) then seen.value.owner else 0;
    if holder > 0 && seen.value.lentTo > 0 && InLineage(cfg, p, seen.value.lentTo, seen.value.lentStart)
    then Ownership(LentHere, holder)
    else Ownership(OwnedElsewhere, holder)
  }

  function SvcProc(cfg: Config, h: SvcHolder): Pid {
    match h case Acquiring(t) => cfg.proc(t) case Lease(p) => p case Glance(t) => cfg.proc(t)
  }

  /** Whether a process other than p has p's configured service lock. */
  predicate OtherService(cfg: Config, s: State, p: Pid) {
    cfg.storage(p) in s.svc.lock && SvcProc(cfg, s.svc.lock[cfg.storage(p)]) != p
  }

  // ---------- one step ----------

  /** What one step of a thread leaves of the anchor and of the service locks, and where the thread then stands.
      It starts, ends and reaps no process and moves no other thread. */
  datatype Effect = Effect(gpu: Gpu, svc: Svc, next: Phase)

  function Stay(s: State, t: Tid): Effect { Effect(s.gpu, s.svc, PhaseOf(s, t)) }

  function Goes(s: State, next: Phase): Effect { Effect(s.gpu, s.svc, next) }

  function Apply(s: State, r: Effect, t: Tid): State {
    State(s.procs, r.gpu, r.svc, s.phase[t := r.next])
  }

  function Write(g: Gpu, written: bool, r: Record): Gpu { if written then g.(anchor := Body(Some(r))) else g }

  /** What follows the probe: `None` lets a claim keep the anchor, a pid makes it back off. */
  function Conclude(cfg: Config, g: Gpu, svc: Svc, t: Tid, call: Call, service: Option<Pid>): Effect {
    var p := cfg.proc(t);
    match (call, service)
    case (Claim, None) => Effect(g.(held := g.held[p := t]), svc, Done(Claim, Ownership(OwnedHere, p)))
    case (Claim, Some(q)) => Effect(g, svc, NamingService(q))
    case (Observe, None) => Effect(g, svc, Done(Observe, Ownership(Free, 0)))
    case (Observe, Some(q)) => Effect(g, svc, Done(Observe, Ownership(ServiceHoldsMachine, q)))
  }

  predicate IsCallEvent(e: Event) { e.BeginClaim? || e.BeginObserve? || e.Return? }

  predicate IsAnchorEvent(e: Event) {
    || e.TryLock? || e.LockFault? || e.AnchorAbsent? || e.ReadRecord? || e.AskAlive? || e.ObsRelease?
    || e.ReleaseClaim?
  }

  predicate IsPublishEvent(e: Event) { e.PublishClaim? || e.NameService? || e.Lend? || e.Reclaim? }

  predicate IsProbeEvent(e: Event) {
    e.CheckLease? || e.TryService? || e.ReleaseGlance? || e.ReadService? || e.ProbeFault?
  }

  predicate IsLeaseEvent(e: Event) { e.SvcAcquire? || e.SvcPublish? || e.SvcAbort? || e.SvcRelease? }

  predicate IsThreadEvent(e: Event) {
    IsCallEvent(e) || IsAnchorEvent(e) || IsPublishEvent(e) || IsProbeEvent(e) || IsLeaseEvent(e)
  }

  /** Entering `_claim_or_observe`, and returning from it. */
  function CallStep(cfg: Config, s: State, e: Event): (r: Effect)
    requires IsCallEvent(e)
    ensures r.svc == s.svc && r.gpu == s.gpu.(guard := r.gpu.guard)
    ensures || r.next == PhaseOf(s, e.t) || r.next.Idle? || r.next.Trying?
            || (r.next.Done? && r.next.answer == Ownership(OwnedHere, cfg.proc(e.t)) && cfg.proc(e.t) in s.gpu.held)
  {
    var t := e.t;
    var p := cfg.proc(t);
    var ph := PhaseOf(s, t);
    var g := s.gpu;
    if e.Return? then
      if !ph.Done? then Stay(s, t)
      else Effect(g.(guard := if p in g.guard && g.guard[p] == t then g.guard - {p} else g.guard), s.svc, Idle)
    else if !ph.Idle? || p in g.guard then Stay(s, t)
    else
      var call := if e.BeginClaim? then Claim else Observe;
      if p in g.held then Goes(s, Done(call, Ownership(OwnedHere, p)))
      else Effect(if call == Claim then g.(guard := g.guard[p := t]) else g, s.svc, Trying(call, 0))
  }

  function TryLockStep(s: State, t: Tid): (r: Effect)
    ensures r.svc == s.svc && r.gpu == s.gpu.(lock := r.gpu.lock, anchor := r.gpu.anchor)
    ensures r.gpu.lock == s.gpu.lock || (s.gpu.lock.None? && r.gpu.lock == Some(t))
    ensures r.gpu.anchor == s.gpu.anchor || (s.gpu.anchor.Absent? && r.gpu.anchor == Body(None))
  {
    var ph := PhaseOf(s, t);
    var g := s.gpu;
    if !ph.Trying? || (ph.call == Observe && g.anchor.Absent?) then Stay(s, t)
    else if g.lock.Some? then Goes(s, Refused(ph.call, ph.attempt))
    else if ph.call == Claim then
      Effect(g.(lock := Some(t), anchor := if g.anchor.Absent? then Body(None) else g.anchor), s.svc, Publishing)
    else Effect(g.(lock := Some(t)), s.svc, ObsHolding)
  }

  /** The answer to a refused call, or one more attempt when the only holder can be a momentary observer. */
  function AskAliveStep(cfg: Config, s: State, t: Tid): (r: Effect)
    ensures r.svc == s.svc && r.gpu == s.gpu
  {
    var ph := PhaseOf(s, t);
    if !ph.Judging? then Stay(s, t) else
    var answer := Contended(cfg, s, cfg.proc(t), ph.seen);
    if ph.call == Observe || answer.state == LentHere || answer.holder > 0 || ph.attempt >= STALE_CONTENTION_RETRIES
    then Goes(s, Done(ph.call, answer))
    else Goes(s, Trying(Claim, ph.attempt + 1))
  }

  function AnchorStep(cfg: Config, s: State, e: Event): (r: Effect)
    requires IsAnchorEvent(e)
    ensures r.svc == s.svc && r.gpu == s.gpu.(lock := r.gpu.lock, anchor := r.gpu.anchor)
    ensures r.next == PhaseOf(s, e.t) || !r.next.Probing? || r.next == Probing(Observe, LeaseCheck)
  {
    var t := e.t;
    var ph := PhaseOf(s, t);
    match e
    case TryLock(_) => TryLockStep(s, t)
    case LockFault(_) => if ph.Trying? then Goes(s, Done(ph.call, Ownership(Unverifiable, 0))) else Stay(s, t)
    case AnchorAbsent(_) =>
      if ph.Trying? && ph.call == Observe && s.gpu.anchor.Absent? then Goes(s, Probing(Observe, LeaseCheck))
      else Stay(s, t)
    case ReadRecord(_, readable) =>
      if ph.Refused? then Goes(s, Judging(ph.call, ph.attempt, if readable then Published(s) else None))
      else Stay(s, t)
    case AskAlive(_) => AskAliveStep(cfg, s, t)
    case ObsRelease(_) =>
      if ph.ObsHolding? then Effect(s.gpu.(lock := None), s.svc, Probing(Observe, LeaseCheck)) else Stay(s, t)
    case ReleaseClaim(_) =>
      if ph.Releasing? then Effect(s.gpu.(lock := None), s.svc, Done(Claim, ph.answer)) else Stay(s, t)
  }

  /** Publishing an owner record; `written` is false when the write fails and leaves the old record. */
  function PublishStep(cfg: Config, s: State, e: Event): (r: Effect)
    requires IsPublishEvent(e)
    ensures r.svc == s.svc && r.gpu == s.gpu.(anchor := r.gpu.anchor)
    ensures r.next == PhaseOf(s, e.t) || r.next == Probing(Claim, LeaseCheck) || r.next.Releasing?
  {
    var t := e.t;
    var p := cfg.proc(t);
    var ph := PhaseOf(s, t);
    var g := s.gpu;
    var lender := ph.Idle? && p !in g.guard && p in g.held;
    match e
    case PublishClaim(_, written) =>
      if ph.Publishing? then Effect(Write(g, written, Record(p, 0, 0.0)), s.svc, Probing(Claim, LeaseCheck))
      else Stay(s, t)
    case NameService(_, written) =>
      if ph.NamingService? then
        Effect(Write(g, written, Record(ph.service, 0, 0.0)), s.svc,
               Releasing(Ownership(ServiceHoldsMachine, ph.service)))
      else Stay(s, t)
    case Lend(_, borrower, start, written) =>
      if lender && start > 0.0 then Effect(Write(g, written, Record(p, borrower, start)), s.svc, ph) else Stay(s, t)
    case Reclaim(_, written) =>
      if lender then Effect(Write(g, written, Record(p, 0, 0.0)), s.svc, ph) else Stay(s, t)
  }

  /** The pid a refused probe reads out of p's service lock, zero when it cannot. */
  function NamedService(cfg: Config, s: State, p: Pid, readable: bool): Pid {
    if readable && cfg.storage(p) in s.svc.record then s.svc.record[cfg.storage(p)] else 0
  }

  function ProbeStep(cfg: Config, s: State, e: Event): (r: Effect)
    requires IsProbeEvent(e)
    ensures r.gpu == s.gpu.(held := r.gpu.held) && r.svc == s.svc.(lock := r.svc.lock)
    ensures r.next == PhaseOf(s, e.t) || r.next.Probing? || r.next.NamingService? || r.next.Releasing?
            || (r.next.Done? && r.next.answer.state in {OwnedHere, Free, ServiceHoldsMachine, Unverifiable})
  {
    var t := e.t;
    var p := cfg.proc(t);
    var st := cfg.storage(p);
    var ph := PhaseOf(s, t);
    var svc := s.svc;
    if !ph.Probing? then Stay(s, t) else
    match e
    case CheckLease(_) =>
      if ph.stage != LeaseCheck then Stay(s, t)
      else if st in svc.lock && svc.lock[st] == Lease(p) then Conclude(cfg, s.gpu, svc, t, ph.call, None)
      else Goes(s, Probing(ph.call, TrySvc))
    case TryService(_) =>
      if ph.stage != TrySvc then Stay(s, t)
      else if st in svc.lock then Goes(s, Probing(ph.call, SvcRefused))
      else Effect(s.gpu, svc.(lock := svc.lock[st := Glance(t)]), Probing(ph.call, Glancing))
    case ReleaseGlance(_) =>
      if ph.stage == Glancing then Conclude(cfg, s.gpu, svc.(lock := svc.lock - {st}), t, ph.call, None)
      else Stay(s, t)
    // A refused probe reads the recorded pid; its own pid there reads as "no other process".
    case ReadService(_, readable) =>
      if ph.stage != SvcRefused then Stay(s, t) else
      var named := NamedService(cfg, s, p, readable);
      Conclude(cfg, s.gpu, svc, t, ph.call, if named == p then None else Some(named))
    case ProbeFault(_) =>
      if ph.stage == Glancing || ph.stage == SvcRefused then Stay(s, t)
      else if ph.call == Claim then Goes(s, Releasing(Ownership(Unverifiable, 0)))
      else Goes(s, Done(Observe, Ownership(Unverifiable, 0)))
  }

  /** A service taking and giving up its own lock: lock, record, lease. A failed recording gives the lock back. */
  function LeaseStep(cfg: Config, s: State, e: Event): (r: Effect)
    requires IsLeaseEvent(e)
    ensures r.gpu == s.gpu && r.next == PhaseOf(s, e.t)
  {
    var t := e.t;
    var p := cfg.proc(t);
    var st := cfg.storage(p);
    var svc := s.svc;
    var h := if st in svc.lock then Some(svc.lock[st]) else None;
    var svc' := match e
      case SvcAcquire(_) =>
        if PhaseOf(s, t).Idle? && h.None? then svc.(lock := svc.lock[st := Acquiring(t)]) else svc
      case SvcPublish(_) =>
        if h == Some(Acquiring(t)) then Svc(svc.lock[st := Lease(p)], svc.record[st := p]) else svc
      case SvcAbort(_, written) =>
        if h == Some(Acquiring(t))
        then Svc(svc.lock - {st}, if written then svc.record[st := p] else svc.record) else svc
      case SvcRelease(_) => if h == Some(Lease(p)) then svc.(lock := svc.lock - {st}) else svc;
    Effect(s.gpu, svc', PhaseOf(s, t))
  }

  /** Every event of a thread whose process runs. */
  function ThreadEffect(cfg: Config, s: State, e: Event): Effect
    requires IsThreadEvent(e)
  {
    if IsCallEvent(e) then CallStep(cfg, s, e)
    else if IsAnchorEvent(e) then AnchorStep(cfg, s, e)
    else if IsPublishEvent(e) then PublishStep(cfg, s, e)
    else if IsProbeEvent(e) then ProbeStep(cfg, s, e)
    else LeaseStep(cfg, s, e)
  }

  /** A process ends however it ends: every lock it had is freed, and its calls never return. */
  function ExitStep(cfg: Config, s: State, p: Pid): State {
    if p !in s.procs.running then s else
    var g, svc := s.gpu, s.svc;
    State(
      s.procs.(running := s.procs.running - {p}, zombies := s.procs.zombies + {p}),
      g.(lock := if g.lock.Some? && cfg.proc(g.lock.value) == p then None else g.lock,
         held := g.held - {p}, guard := g.guard - {p}),
      svc.(lock := map st | st in svc.lock && SvcProc(cfg, svc.lock[st]) != p :: svc.lock[st]),
      map t | t in s.phase && cfg.proc(t) != p :: s.phase[t])
  }

  function ProcessStep(cfg: Config, s: State, e: Event): State
    requires !IsThreadEvent(e)
  {
    var procs := s.procs;
    match e
    case Spawn(p) =>
      if p > 0 && p !in procs.running + procs.zombies + procs.gone
      then s.(procs := procs.(running := procs.running + {p})) else s
    case Exit(p) => ExitStep(cfg, s, p)
    case Reap(p) =>
      if p in procs.zombies then s.(procs := procs.(zombies := procs.zombies - {p}, gone := procs.gone + {p})) else s
  }

  function Step(cfg: Config, s: State, e: Event): State {
    if !IsThreadEvent(e) then ProcessStep(cfg, s, e)
    else if Runs(cfg, s, e.t) then Apply(s, ThreadEffect(cfg, s, e), e.t)
    else s
  }

  /** The state after a whole run. */
  function Run(cfg: Config, es: seq<Event>): State {
    if es == [] then INIT else Step(cfg, Run(cfg, es[..|es| - 1]), es[|es| - 1])
  }

  // ---------- the inductive invariant ----------

  ghost predicate Processes(cfg: Config, s: State) {
    && s.procs.running !! s.procs.zombies && s.procs.running !! s.procs.gone && s.procs.zombies !! s.procs.gone
    && 0 !in s.procs.running
    && (forall t :: !PhaseOf(s, t).Idle? ==> Runs(cfg, s, t))
  }

  /** Only the lock's holder is recorded in `_held`, and its call is over. */
  ghost predicate HeldIsLocked(cfg: Config, s: State) {
    forall p :: p in s.gpu.held ==>
      && p in s.procs.running && cfg.proc(s.gpu.held[p]) == p && s.gpu.lock == Some(s.gpu.held[p])
      && (PhaseOf(s, s.gpu.held[p]).Idle? || PhaseOf(s, s.gpu.held[p]).Done?)
  }

  /** The lock belongs to the call that took it, or to the process that kept it. */
  ghost predicate LockIsOwned(cfg: Config, s: State) {
    && (s.gpu.lock.Some? ==> var t := s.gpu.lock.value;
        HoldsAnchor(PhaseOf(s, t)) || (cfg.proc(t) in s.gpu.held && s.gpu.held[cfg.proc(t)] == t))
    && (forall t: Tid :: HoldsAnchor(PhaseOf(s, t)) ==> s.gpu.lock == Some(t))
  }

  /** One claim at a time per process, and none by a process that already holds the anchor. */
  ghost predicate GuardSerialises(cfg: Config, s: State) {
    && (forall t :: InClaim(PhaseOf(s, t)) ==>
        cfg.proc(t) in s.gpu.guard && s.gpu.guard[cfg.proc(t)] == t && cfg.proc(t) !in s.gpu.held)
    && (forall p :: p in s.gpu.guard ==> p in s.procs.running && cfg.proc(s.gpu.guard[p]) == p)
  }

  /** A published loan was written by its own owner, which holds the anchor for as long as it runs. */
  ghost predicate LoansAreOwned(procs: Procs, g: Gpu) {
    RecordOn(g).Some? && RecordOn(g).value.lentTo > 0 ==>
      var o := RecordOn(g).value.owner;
      && o in procs.running + procs.zombies + procs.gone
      && (o in procs.running ==> o in g.held)
  }

  ghost predicate Answers(s: State) {
    && (forall t {:trigger PhaseOf(s, t)} :: PhaseOf(s, t).Done? && PhaseOf(s, t).call == Claim ==>
        PhaseOf(s, t).answer.state != Free)
    && (forall t {:trigger PhaseOf(s, t)} :: PhaseOf(s, t).Releasing? ==>
        !PermitsCompute(PhaseOf(s, t).answer.state))
    && (forall t {:trigger PhaseOf(s, t)} ::
        PhaseOf(s, t).Trying? || PhaseOf(s, t).Refused? || PhaseOf(s, t).Judging? ==>
          PhaseOf(s, t).attempt <= STALE_CONTENTION_RETRIES)
  }

  ghost predicate Inv(cfg: Config, s: State) {
    && Processes(cfg, s) && HeldIsLocked(cfg, s) && LockIsOwned(cfg, s) && GuardSerialises(cfg, s)
    && LoansAreOwned(s.procs, s.gpu) && Answers(s)
  }

  // Each effect makes one of a few kinds of change; one lemma a kind.

  ghost predicate GoodPhase(ph: Phase) {
    && (ph.Done? && ph.call == Claim ==> ph.answer.state != Free)
    && (ph.Releasing? ==> !PermitsCompute(ph.answer.state))
    && (ph.Trying? || ph.Refused? || ph.Judging? ==> ph.attempt <= STALE_CONTENTION_RETRIES)
  }

  lemma AppliedPhases(s: State, r: Effect, t: Tid)
    ensures forall u: Tid :: PhaseOf(Apply(s, r, t), u) == if u == t then r.next else PhaseOf(s, u)
    ensures Answers(s) && GoodPhase(r.next) ==> Answers(Apply(s, r, t))
  {
    if Answers(s) && GoodPhase(r.next) {
      forall u: Tid
        ensures GoodPhase(PhaseOf(Apply(s, r, t), u))
      {
        assert GoodPhase(PhaseOf(s, u));
      }
    }
  }

  /** A call moves on without taking or freeing anything. */
  lemma Moved(cfg: Config, s: State, r: Effect, t: Tid)
    requires Inv(cfg, s) && Runs(cfg, s, t) && LoansAreOwned(s.procs, r.gpu) && GoodPhase(r.next)
    requires r.gpu == s.gpu.(anchor := r.gpu.anchor)
    requires HoldsAnchor(r.next) == HoldsAnchor(PhaseOf(s, t))
    requires InClaim(r.next) ==> InClaim(PhaseOf(s, t))
    requires r.next.Idle? || r.next.Done? || !(cfg.proc(t) in s.gpu.held && s.gpu.held[cfg.proc(t)] == t)
    ensures Inv(cfg, Apply(s, r, t))
  {
    AppliedPhases(s, r, t);
  }

  lemma GuardTaken(cfg: Config, s: State, t: Tid)
    requires Inv(cfg, s) && Runs(cfg, s, t) && PhaseOf(s, t).Idle?
    requires cfg.proc(t) !in s.gpu.guard && cfg.proc(t) !in s.gpu.held
    ensures Inv(cfg, Apply(s, Effect(s.gpu.(guard := s.gpu.guard[cfg.proc(t) := t]), s.svc, Trying(Claim, 0)), t))
  {
    AppliedPhases(s, Effect(s.gpu.(guard := s.gpu.guard[cfg.proc(t) := t]), s.svc, Trying(Claim, 0)), t);
  }

  lemma GuardFreed(cfg: Config, s: State, t: Tid)
    requires Inv(cfg, s) && Runs(cfg, s, t) && PhaseOf(s, t).Done?
    ensures Inv(cfg, Apply(s, CallStep(cfg, s, Return(t)), t))
  {
    var r := CallStep(cfg, s, Return(t));
    var s' := Apply(s, r, t);
    AppliedPhases(s, r, t);
    forall u | InClaim(PhaseOf(s', u))
      ensures cfg.proc(u) in s'.gpu.guard && s'.gpu.guard[cfg.proc(u)] == u && cfg.proc(u) !in s'.gpu.held
    {
      assert u != t && InClaim(PhaseOf(s, u));
    }
  }

  lemma LockTaken(cfg: Config, s: State, r: Effect, t: Tid)
    requires Inv(cfg, s) && Runs(cfg, s, t) && LoansAreOwned(s.procs, r.gpu)
    requires s.gpu.lock.None? && r.gpu == s.gpu.(lock := Some(t), anchor := r.gpu.anchor)
    requires r.next.ObsHolding? || (r.next.Publishing? && InClaim(PhaseOf(s, t)))
    ensures Inv(cfg, Apply(s, r, t))
  {
    AppliedPhases(s, r, t);
  }

  lemma LockFreed(cfg: Config, s: State, t: Tid, ph: Phase)
    requires Inv(cfg, s) && Runs(cfg, s, t) && GoodPhase(ph)
    requires HoldsAnchor(PhaseOf(s, t)) && !HoldsAnchor(ph) && !InClaim(ph)
    ensures Inv(cfg, Apply(s, Effect(s.gpu.(lock := None), s.svc, ph), t))
  {
    AppliedPhases(s, Effect(s.gpu.(lock := None), s.svc, ph), t);
    assert s.gpu.lock == Some(t);
  }

  /** A claim whose probe found no other service keeps its lock for the rest of the process's life. */
  lemma Kept(cfg: Config, s: State, svc: Svc, t: Tid)
    requires Inv(cfg, s) && Runs(cfg, s, t) && HoldsAnchor(PhaseOf(s, t)) && InClaim(PhaseOf(s, t))
    ensures Inv(cfg, Apply(s, Conclude(cfg, s.gpu, svc, t, Claim, None), t))
  {
    AppliedPhases(s, Conclude(cfg, s.gpu, svc, t, Claim, None), t);
    assert s.gpu.lock == Some(t);
  }

  lemma ExitClearsPhases(cfg: Config, s: State, p: Pid)
    requires Answers(s) && p in s.procs.running
    ensures forall t: Tid :: PhaseOf(ExitStep(cfg, s, p), t) == if cfg.proc(t) == p then Idle else PhaseOf(s, t)
    ensures Answers(ExitStep(cfg, s, p))
  {
    var s' := ExitStep(cfg, s, p);
    forall t: Tid
      ensures PhaseOf(s', t) == if cfg.proc(t) == p then Idle else PhaseOf(s, t)
      ensures GoodPhase(PhaseOf(s', t))
    {
      assert GoodPhase(PhaseOf(s, t));
    }
  }

  lemma ExitFreesLocks(cfg: Config, s: State, p: Pid)
    requires Inv(cfg, s) && p in s.procs.running
    ensures HeldIsLocked(cfg, ExitStep(cfg, s, p)) && LockIsOwned(cfg, ExitStep(cfg, s, p))
  {
    ExitClearsPhases(cfg, s, p);
  }

  /** An exit takes the process's whole share of the state with it. */
  lemma Exited(cfg: Config, s: State, p: Pid)
    requires Inv(cfg, s) && p in s.procs.running
    ensures Inv(cfg, ExitStep(cfg, s, p))
  {
    ExitClearsPhases(cfg, s, p);
    ExitFreesLocks(cfg, s, p);
  }

  lemma CallKeepsInv(cfg: Config, s: State, e: Event)
    requires Inv(cfg, s) && IsCallEvent(e) && Runs(cfg, s, e.t)
    ensures Inv(cfg, Apply(s, CallStep(cfg, s, e), e.t))
  {
    var r := CallStep(cfg, s, e);
    assert GoodPhase(PhaseOf(s, e.t));
    if e.Return? && PhaseOf(s, e.t).Done? { GuardFreed(cfg, s, e.t); }
    else if e.BeginClaim? && r != Stay(s, e.t) && cfg.proc(e.t) !in s.gpu.held { GuardTaken(cfg, s, e.t); }
    else { Moved(cfg, s, r, e.t); }
  }

  lemma TryLockKeepsInv(cfg: Config, s: State, t: Tid)
    requires Inv(cfg, s) && Runs(cfg, s, t)
    ensures Inv(cfg, Apply(s, TryLockStep(s, t), t))
  {
    var r := TryLockStep(s, t);
    assert GoodPhase(PhaseOf(s, t));
    if r.gpu.lock == s.gpu.lock { Moved(cfg, s, r, t); } else { LockTaken(cfg, s, r, t); }
  }

  lemma AskAliveKeepsInv(cfg: Config, s: State, t: Tid)
    requires Inv(cfg, s) && Runs(cfg, s, t)
    ensures Inv(cfg, Apply(s, AskAliveStep(cfg, s, t), t))
  {
    assert GoodPhase(PhaseOf(s, t));
    Moved(cfg, s, AskAliveStep(cfg, s, t), t);
  }

  lemma AnchorKeepsInv(cfg: Config, s: State, e: Event)
    requires Inv(cfg, s) && IsAnchorEvent(e) && Runs(cfg, s, e.t)
    ensures Inv(cfg, Apply(s, AnchorStep(cfg, s, e), e.t))
  {
    if e.TryLock? { TryLockKeepsInv(cfg, s, e.t); }
    else if e.AskAlive? { AskAliveKeepsInv(cfg, s, e.t); }
    else {
      var r := AnchorStep(cfg, s, e);
      assert GoodPhase(PhaseOf(s, e.t));
      if r.gpu.lock == s.gpu.lock { Moved(cfg, s, r, e.t); } else { LockFreed(cfg, s, e.t, r.next); }
    }
  }

  /** Only the lock's holder publishes, so a loan is always its owner's. */
  lemma PublishEffect(cfg: Config, s: State, e: Event)
    requires IsPublishEvent(e) && Runs(cfg, s, e.t) && LoansAreOwned(s.procs, s.gpu) && GoodPhase(PhaseOf(s, e.t))
    ensures var r := PublishStep(cfg, s, e); var ph := PhaseOf(s, e.t);
            && LoansAreOwned(s.procs, r.gpu) && GoodPhase(r.next)
            && (r.next == ph || (HoldsAnchor(ph) && InClaim(ph) && HoldsAnchor(r.next)))
  {}

  lemma PublishKeepsInv(cfg: Config, s: State, e: Event)
    requires Inv(cfg, s) && IsPublishEvent(e) && Runs(cfg, s, e.t)
    ensures Inv(cfg, Apply(s, PublishStep(cfg, s, e), e.t))
  {
    hide PublishStep;
    assert GoodPhase(PhaseOf(s, e.t));
    PublishEffect(cfg, s, e);
    Moved(cfg, s, PublishStep(cfg, s, e), e.t);
  }

  /** A finished probe either keeps the anchor, backs off, or answers an observer. */
  lemma ConcludeKeepsInv(cfg: Config, s: State, svc: Svc, t: Tid, service: Option<Pid>)
    requires Inv(cfg, s) && Runs(cfg, s, t) && PhaseOf(s, t).Probing?
    ensures Inv(cfg, Apply(s, Conclude(cfg, s.gpu, svc, t, PhaseOf(s, t).call, service), t))
  {
    var call := PhaseOf(s, t).call;
    if call == Claim && service == None { Kept(cfg, s, svc, t); }
    else { Moved(cfg, s, Conclude(cfg, s.gpu, svc, t, call, service), t); }
  }

  lemma ProbeKeepsInv(cfg: Config, s: State, e: Event)
    requires Inv(cfg, s) && IsProbeEvent(e) && Runs(cfg, s, e.t)
    ensures Inv(cfg, Apply(s, ProbeStep(cfg, s, e), e.t))
  {
    var p := cfg.proc(e.t);
    var st := cfg.storage(p);
    var r := ProbeStep(cfg, s, e);
    var ph := PhaseOf(s, e.t);
    assert GoodPhase(ph);
    if r == Stay(s, e.t) || r.next.Probing? || e.ProbeFault? { Moved(cfg, s, r, e.t); }
    else if e.CheckLease? { ConcludeKeepsInv(cfg, s, s.svc, e.t, None); }
    else if e.ReleaseGlance? { ConcludeKeepsInv(cfg, s, s.svc.(lock := s.svc.lock - {st}), e.t, None); }
    else {
      var named := NamedService(cfg, s, p, e.readable);
      ConcludeKeepsInv(cfg, s, s.svc, e.t, if named == p then None else Some(named));
    }
  }

  lemma LeaseKeepsInv(cfg: Config, s: State, e: Event)
    requires Inv(cfg, s) && IsLeaseEvent(e) && Runs(cfg, s, e.t)
    ensures Inv(cfg, Apply(s, LeaseStep(cfg, s, e), e.t))
  {
    hide LeaseStep;
    assert GoodPhase(PhaseOf(s, e.t));
    Moved(cfg, s, LeaseStep(cfg, s, e), e.t);
  }

  lemma ThreadKeepsInv(cfg: Config, s: State, e: Event)
    requires Inv(cfg, s) && IsThreadEvent(e) && Runs(cfg, s, e.t)
    ensures Inv(cfg, Apply(s, ThreadEffect(cfg, s, e), e.t))
  {
    hide Inv, CallStep, AnchorStep, PublishStep, ProbeStep, LeaseStep;
    if IsCallEvent(e) { CallKeepsInv(cfg, s, e); }
    else if IsAnchorEvent(e) { AnchorKeepsInv(cfg, s, e); }
    else if IsPublishEvent(e) { PublishKeepsInv(cfg, s, e); }
    else if IsProbeEvent(e) { ProbeKeepsInv(cfg, s, e); }
    else { LeaseKeepsInv(cfg, s, e); }
  }

  /** Processes being born and reaped. */
  lemma BirthsKeepInv(cfg: Config, s: State, e: Event)
    requires Inv(cfg, s) && (e.Spawn? || e.Reap?)
    ensures Inv(cfg, ProcessStep(cfg, s, e))
  {
    assert forall u: Tid :: PhaseOf(ProcessStep(cfg, s, e), u) == PhaseOf(s, u);
  }

  lemma StepKeepsInv(cfg: Config, s: State, e: Event)
    requires Inv(cfg, s)
    ensures Inv(cfg, Step(cfg, s, e))
  {
    hide Inv, ThreadEffect;
    if IsThreadEvent(e) {
      if Runs(cfg, s, e.t) { ThreadKeepsInv(cfg, s, e); }
    } else if e.Exit? {
      if e.pid in s.procs.running { Exited(cfg, s, e.pid); }
    } else {
      BirthsKeepInv(cfg, s, e);
    }
  }

  lemma RunKeepsInv(cfg: Config, es: seq<Event>)
    ensures Inv(cfg, Run(cfg, es))
  {
    if es != [] {
      RunKeepsInv(cfg, es[..|es| - 1]);
      StepKeepsInv(cfg, Run(cfg, es[..|es| - 1]), es[|es| - 1]);
    }
  }
}
