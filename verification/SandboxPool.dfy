// The sandbox pool as a concurrent protocol: `ContainerManager` (container_manager.py) shared by
// execution threads (`SandboxExecutor.execute` under the slots of `ShellgeiDockerClient`), the
// startup thread and shutdown threads. One step of a thread is one lock section, one Docker call
// or one semaphore operation; every Docker call may succeed, fail without effect, fail after it
// took effect, and a create may also take effect later than its error is seen.
module SandboxPool {
  import opened Prelude

  type Tid = nat
  type Cid = nat // a sandbox: the unique generated name and the container that name denotes

  /** Pool size, number of execution slots, and whether executions wait for the end of startup. */
  datatype Config = Config(size: nat, slots: nat, gated: bool)

  // ----- the fields of ContainerManager; `permits` counts the taken permits of `_slots`

  datatype Manager = Manager(
    pool: seq<Cid>,
    managed: set<Cid>,
    pending: set<Cid>,
    shuttingDown: bool,
    initialized: bool,
    degraded: bool,
    permits: nat)
  {
    // The lock sections and semaphore operations; `TakePooled` needs a non-empty pool.
    function TakePooled(): Manager { this.(pool := if pool == [] then [] else pool[1..]) }
    function AddPooled(c: Cid): Manager { this.(pool := pool + [c]) }
    function AddPending(c: Cid): Manager { this.(pending := pending + {c}) }
    function DropPending(c: Cid): Manager { this.(pending := pending - {c}) }
    function Promoted(c: Cid): Manager { this.(pending := pending - {c}, managed := managed + {c}) }
    function DropManaged(c: Cid): Manager { this.(managed := managed - {c}) }
    function PermitTaken(): Manager { this.(permits := permits + 1) }
    function PermitReturned(): Manager { this.(permits := if permits == 0 then 0 else permits - 1) }
    function Initialized(): Manager { this.(initialized := true) }
    function ShutDown(): Manager { this.(shuttingDown := true, pool := []) }
    function MarkDegraded(): Manager { if shuttingDown then this else this.(degraded := true) }

    // _forget_removed_container and _forget_pending_name: the permit comes back with the entry, once
    function ForgetManaged(c: Cid): Manager { if c in managed then DropManaged(c).PermitReturned() else this }
    function ForgetPending(c: Cid): Manager { if c in pending then DropPending(c).PermitReturned() else this }

    function Ready(size: nat): bool {
      initialized && !degraded && !shuttingDown && |managed| == size && pending == {}
    }
  }

  // ----- ghost history of one sandbox: it only ever moves down this list

  datatype Life = Building(builder: Tid) | Pooled | Leased(holder: Tid) | Spent

  datatype Shared = Shared(
    mgr: Manager,
    createLock: Option<Tid>,
    cleanupLock: Option<Tid>,
    alive: set<Cid>,          // containers of this instance that exist on the Docker daemon
    late: set<Cid>,           // creates that reported an error and may still take effect
    life: seq<Life>,          // history, one entry for every name generated so far
    running: nat,             // taken execution slots
    starter: Option<Tid>,     // the thread that ran initialize_pool
    abandoned: set<Cid>,      // history: names a sweep forgot while their create could still take effect
    swept: Option<set<Cid>>)  // history: what the last finished shutdown_pool failed to remove

  datatype Purpose = ForLease | ForInit(done: nat) | ForReplenish

  datatype Sweep = Sweep(rest: set<Cid>, names: set<Cid>, failed: set<Cid>)

  /** Who called `_cleanup_container`. */
  datatype After = CreateFailed(p: Purpose) | AddRejected(p: Purpose) | Released | Swept(sw: Sweep)

  datatype ExecStage = Lease | Running(c: Cid) | Decide | Degrade | Done

  /** `_create_container`, with `_cleanup_pending_container` and `_forget_pending_name` on its error path. */
  datatype CreateStage =
    | Enter | Check | Acquire | Name
    | Call(c: Cid) | Validate(c: Cid)
    | Promote(c: Cid) | Start(c: Cid) | Limits(c: Cid)
    | Return(c: Cid) | Raise(capacity: bool)
    | LostEnter(c: Cid) | LostGet(c: Cid) | LostRemove(c: Cid) | LostForget(c: Cid) | LostRelease

  /** `_cleanup_container`. */
  datatype CleanStage = Take(kill: bool) | Kill | Remove | Forget | Release | Exit(removed: bool)

  /** `begin_shutdown`; `sweep` says whether `shutdown_pool` called it. */
  datatype ShutStage = Begin | Section | Each(rest: set<Cid>) | Killing(rest: set<Cid>)

  /** The rest of `shutdown_pool`, with the uncertain names it resolves. */
  datatype SweepStage =
    | Snapshot | Copy | Loop
    | NameTake(c: Cid) | NameGet(c: Cid) | NameRemove(c: Cid) | NameForget(c: Cid) | NameRelease

  datatype PC =
    | Idle
    | Exec(x: ExecStage)               // get_container, the execution, release_container
    | Create(p: Purpose, cs: CreateStage)
    | Add(p: Purpose, c: Cid)          // the end of _create_and_add
    | InitFinish                       // the end of initialize_pool
    | Clean(a: After, c: Cid, ks: CleanStage)
    | Shut(sweep: bool, ss: ShutStage)
    | Sweeping(sw: Sweep, ws: SweepStage)

  datatype State = State(sh: Shared, pcs: map<Tid, PC>)

  // ----- what the environment decides in one step

  datatype Call = Execute | ExecuteUnknown | Initialize | BeginShutdown | ShutdownPool
  datatype Outcome = Ok | Fail | FailWithEffect | FailThenLate
  datatype Choice = Choice(call: Call, o: Outcome, flag: bool, pick: Cid)

  type Result = Option<(Shared, PC)> // None: the step cannot be taken now

  function Mark(life: seq<Life>, c: Cid, stage: Life): seq<Life> {
    if c < |life| then life[c := stage] else life
  }

  /** Shutdown empties the pool: what waited there will never be leased. */
  function Retire(life: seq<Life>): (r: seq<Life>) {
    seq(|life|, i requires 0 <= i < |life| => if life[i] == Pooled then Spent else life[i])
  }

  function Free(lock: Option<Tid>): bool { lock == None }

  const NO_SWEEP := Sweep({}, {}, {})

  /** Where an exception of `_create_container` or `_create_and_add` leads. */
  function Raised(p: Purpose, capacity: bool): PC {
    match p
    case ForInit(_) => Shut(true, Begin)
    case ForLease => Exec(if capacity then Done else Degrade)
    case ForReplenish => Exec(Degrade)
  }

  function ActIdle(cfg: Config, t: Tid, s: Shared, call: Call): Result {
    match call
    case Execute =>
      if s.running < cfg.slots && (cfg.gated ==> s.mgr.initialized)
      then Some((s.(running := s.running + 1), Exec(Lease))) else None
    case ExecuteUnknown => // an invalid or unknown problem takes a slot and no container
      if s.running < cfg.slots && (cfg.gated ==> s.mgr.initialized)
      then Some((s.(running := s.running + 1), Exec(Done))) else None
    case Initialize =>
      if s.starter == None && cfg.size >= 1
      then Some((s.(starter := Some(t)), Create(ForInit(0), Enter))) else None
    case BeginShutdown => Some((s, Shut(false, Begin)))
    case ShutdownPool => Some((s, Shut(true, Begin)))
  }

  function ActExec(cfg: Config, t: Tid, s: Shared, x: ExecStage, ch: Choice): Result {
    match x
    case Lease =>
      if s.mgr.shuttingDown then Some((s, Exec(Done)))
      else if s.mgr.pool != [] then
        var c := s.mgr.pool[0];
        Some((s.(mgr := s.mgr.TakePooled(), life := Mark(s.life, c, Leased(t))), Exec(Running(c))))
      else Some((s, Create(ForLease, Enter)))
    case Running(c) => Some((s, Clean(Released, c, Take(ch.flag))))
    case Decide => Some((s, if s.mgr.shuttingDown then Exec(Done) else Create(ForReplenish, Enter)))
    case Degrade => Some((s.(mgr := s.mgr.MarkDegraded()), Exec(Done)))
    case Done => if s.running == 0 then None else Some((s.(running := s.running - 1), Idle))
  }

  function ActAdd(cfg: Config, t: Tid, s: Shared, p: Purpose, c: Cid): Result {
    if s.mgr.shuttingDown then
      Some((s.(life := Mark(s.life, c, Spent)), Clean(AddRejected(p), c, Take(true))))
    else
      var s' := s.(mgr := s.mgr.AddPooled(c), life := Mark(s.life, c, Pooled));
      match p
      case ForInit(k) => Some((s', if k + 1 < cfg.size then Create(ForInit(k + 1), Enter) else InitFinish))
      case _ => Some((s', Exec(Done)))
  }

  function ActCreate(cfg: Config, t: Tid, s: Shared, p: Purpose, cs: CreateStage, ch: Choice): Result {
    match cs
    case Enter =>
      if Free(s.createLock) then Some((s.(createLock := Some(t)), Create(p, Check))) else None
    case Check => // shutting down, no client, or an unusable image all raise here
      Some((s, Create(p, if s.mgr.shuttingDown || ch.o != Ok then Raise(false) else Acquire)))
    case Acquire =>
      if s.mgr.permits < cfg.size
      then Some((s.(mgr := s.mgr.PermitTaken()), Create(p, Name)))
      else Some((s, Create(p, Raise(true))))
    case Name =>
      var c := |s.life|;
      Some((s.(mgr := s.mgr.AddPending(c), life := s.life + [Building(t)]),
            Create(p, Call(c))))
    case Call(c) =>
      if ch.o == Ok then Some((s.(alive := s.alive + {c}), Create(p, Validate(c))))
      else
        var lost := s.(life := Mark(s.life, c, Spent));
        Some((match ch.o
              case FailWithEffect => lost.(alive := s.alive + {c})
              case FailThenLate => lost.(late := s.late + {c})
              case _ => lost,
              Create(p, LostEnter(c))))
    case Validate(c) =>
      if ch.o == Ok then Some((s, Create(p, Promote(c))))
      else Some((s.(life := Mark(s.life, c, Spent)), Create(p, LostEnter(c))))
    case Promote(c) => Some((s.(mgr := s.mgr.Promoted(c)), Create(p, Start(c))))
    case Start(c) =>
      if ch.o == Ok then Some((s, Create(p, Limits(c))))
      else Some((s.(life := Mark(s.life, c, Spent)), Clean(CreateFailed(p), c, Take(false))))
    case Limits(c) =>
      if ch.o == Ok then Some((s, Create(p, Return(c))))
      else Some((s.(life := Mark(s.life, c, Spent)), Clean(CreateFailed(p), c, Take(true))))
    case Return(c) =>
      if p == ForLease
      then Some((s.(createLock := None, life := Mark(s.life, c, Leased(t))), Exec(Running(c))))
      else Some((s.(createLock := None), Add(p, c)))
    case Raise(capacity) => Some((s.(createLock := None), Raised(p, capacity)))
    case LostEnter(c) =>
      if Free(s.cleanupLock) then Some((s.(cleanupLock := Some(t)), Create(p, LostGet(c)))) else None
    case LostGet(c) => // a missing container is not accepted as removed here
      if c in s.alive && ch.o == Ok then Some((s, Create(p, LostRemove(c))))
      else Some((s.(cleanupLock := None), Create(p, Raise(false))))
    case LostRemove(c) => // Ok also covers the daemon answering that the container is gone
      (match ch.o
       case Ok => Some((s.(cleanupLock := None, alive := s.alive - {c}), Create(p, LostForget(c))))
       case FailWithEffect => Some((s.(cleanupLock := None, alive := s.alive - {c}), Create(p, Raise(false))))
       case _ => Some((s.(cleanupLock := None), Create(p, Raise(false)))))
    case LostForget(c) =>
      if c in s.mgr.pending
      then Some((s.(mgr := s.mgr.DropPending(c)), Create(p, LostRelease)))
      else Some((s, Create(p, Raise(false))))
    case LostRelease =>
      if s.mgr.permits == 0 then None
      else Some((s.(mgr := s.mgr.PermitReturned()), Create(p, Raise(false))))
  }

  /** Where `_cleanup_container` returns to. */
  function Cleaned(a: After, c: Cid, removed: bool): PC {
    match a
    case CreateFailed(p) => Create(p, Raise(false))
    case AddRejected(p) => Raised(p, false)
    case Released => Exec(if removed then Decide else Degrade)
    case Swept(sw) => Sweeping(if removed then sw else sw.(failed := sw.failed + {c}), Loop)
  }

  function ActClean(cfg: Config, t: Tid, s: Shared, a: After, c: Cid, ks: CleanStage, ch: Choice): Result {
    match ks
    case Take(kill) =>
      if Free(s.cleanupLock)
      then Some((s.(cleanupLock := Some(t)), Clean(a, c, if kill then Kill else Remove))) else None
    case Kill => Some((s, Clean(a, c, Remove))) // a failed kill is only logged
    case Remove => // Ok also covers the daemon answering that the container is gone
      (match ch.o
       case Ok => Some((s.(alive := s.alive - {c}), Clean(a, c, Forget)))
       case FailWithEffect => Some((s.(alive := s.alive - {c}), Clean(a, c, Exit(false))))
       case _ => Some((s, Clean(a, c, Exit(false)))))
    case Forget =>
      if c in s.mgr.managed
      then Some((s.(mgr := s.mgr.DropManaged(c)), Clean(a, c, Release)))
      else Some((s, Clean(a, c, Exit(true))))
    case Release =>
      if s.mgr.permits == 0 then None
      else Some((s.(mgr := s.mgr.PermitReturned()), Clean(a, c, Exit(true))))
    case Exit(removed) =>
      Some((s.(cleanupLock := None, life := if a == Released then Mark(s.life, c, Spent) else s.life),
            Cleaned(a, c, removed)))
  }

  function AfterShutdown(sweep: bool): PC {
    if sweep then Sweeping(NO_SWEEP, Snapshot) else Idle
  }

  function ActShut(cfg: Config, t: Tid, s: Shared, sweep: bool, ss: ShutStage, ch: Choice): Result {
    match ss
    case Begin =>
      if Free(s.createLock) then Some((s.(createLock := Some(t)), Shut(sweep, Section))) else None
    case Section =>
      if s.mgr.shuttingDown then Some((s.(createLock := None), AfterShutdown(sweep)))
      else
        Some((s.(createLock := None,
                 mgr := s.mgr.ShutDown(),
                 life := Retire(s.life)),
              Shut(sweep, Each(s.mgr.managed))))
    case Each(rest) =>
      if rest == {} then Some((s, AfterShutdown(sweep)))
      else if ch.pick in rest && Free(s.cleanupLock)
      then Some((s.(cleanupLock := Some(t)), Shut(sweep, Killing(rest - {ch.pick})))) else None
    case Killing(rest) => // every outcome of the kill is accepted
      Some((s.(cleanupLock := None), Shut(sweep, Each(rest))))
  }

  function ActSweep(cfg: Config, t: Tid, s: Shared, sw: Sweep, ws: SweepStage, ch: Choice): Result {
    match ws
    case Snapshot =>
      if Free(s.createLock) then Some((s.(createLock := Some(t)), Sweeping(sw, Copy))) else None
    case Copy =>
      Some((s.(createLock := None), Sweeping(Sweep(s.mgr.managed, s.mgr.pending, {}), Loop)))
    case Loop =>
      if sw.rest != {} then
        if ch.pick in sw.rest
        then Some((s, Clean(Swept(sw.(rest := sw.rest - {ch.pick})), ch.pick, Take(false)))) else None
      else if sw.names != {} then
        if ch.pick in sw.names
        then Some((s, Sweeping(sw.(names := sw.names - {ch.pick}), NameTake(ch.pick)))) else None
      else Some((s.(swept := Some(sw.failed)), Idle))
    case NameTake(c) =>
      if Free(s.cleanupLock) then Some((s.(cleanupLock := Some(t)), Sweeping(sw, NameGet(c)))) else None
    case NameGet(c) => // a missing container is accepted as removed
      if ch.o != Ok then Some((s.(cleanupLock := None), Sweeping(sw.(failed := sw.failed + {c}), Loop)))
      else if c in s.alive then Some((s, Sweeping(sw, NameRemove(c))))
      else Some((s.(cleanupLock := None), Sweeping(sw, NameForget(c))))
    case NameRemove(c) =>
      (match ch.o
       case Ok => Some((s.(cleanupLock := None, alive := s.alive - {c}), Sweeping(sw, NameForget(c))))
       case FailWithEffect =>
         Some((s.(cleanupLock := None, alive := s.alive - {c}), Sweeping(sw.(failed := sw.failed + {c}), Loop)))
       case _ => Some((s.(cleanupLock := None), Sweeping(sw.(failed := sw.failed + {c}), Loop))))
    case NameForget(c) =>
      if c in s.mgr.pending
      then Some((s.(mgr := s.mgr.DropPending(c),
                    abandoned := s.abandoned + {c} * (s.alive + s.late)), Sweeping(sw, NameRelease)))
      else Some((s, Sweeping(sw, Loop)))
    case NameRelease =>
      if s.mgr.permits == 0 then None
      else Some((s.(mgr := s.mgr.PermitReturned()), Sweeping(sw, Loop)))
  }

  /** The step of thread `t` at `pc` under the environment's choice. */
  function Act(cfg: Config, t: Tid, s: Shared, pc: PC, ch: Choice): Result {
    match pc
    case Idle => ActIdle(cfg, t, s, ch.call)
    case Exec(x) => ActExec(cfg, t, s, x, ch)
    case Create(p, cs) => ActCreate(cfg, t, s, p, cs, ch)
    case Add(p, c) => ActAdd(cfg, t, s, p, c)
    case InitFinish => Some((s.(mgr := s.mgr.Initialized()), Idle))
    case Clean(a, c, ks) => ActClean(cfg, t, s, a, c, ks, ch)
    case Shut(sweep, ss) => ActShut(cfg, t, s, sweep, ss, ch)
    case Sweeping(sw, ws) => ActSweep(cfg, t, s, sw, ws, ch)
  }

  predicate ThreadStep(cfg: Config, s: State, t: Tid, ch: Choice, s': State) {
    t in s.pcs &&
    match Act(cfg, t, s.sh, s.pcs[t], ch)
    case None => false
    case Some(r) => s' == State(r.0, s.pcs[t := r.1])
  }

  /** The daemon on its own: a late create takes effect or is dropped, a container disappears. */
  predicate DaemonStep(s: State, c: Cid, s': State) {
    || (c in s.sh.late && s' == s.(sh := s.sh.(late := s.sh.late - {c}, alive := s.sh.alive + {c})))
    || s' == s.(sh := s.sh.(late := s.sh.late - {c}))
    || s' == s.(sh := s.sh.(alive := s.sh.alive - {c}))
  }

  ghost predicate Next(cfg: Config, s: State, s': State) {
    || (exists t, ch :: ThreadStep(cfg, s, t, ch, s'))
    || (exists c :: DaemonStep(s, c, s'))
  }

  predicate Init(s: State) {
    && s.sh == Shared(Manager([], {}, {}, false, false, false, 0), None, None, {}, {}, [], 0, None, {}, None)
    && forall t :: t in s.pcs ==> s.pcs[t] == Idle
  }

  ghost predicate StepAt(cfg: Config, run: seq<State>, i: nat) {
    i + 1 < |run| ==> Next(cfg, run[i], run[i + 1])
  }

  ghost predicate Run(cfg: Config, run: seq<State>) {
    && run != []
    && Init(run[0])
    && forall i: nat :: StepAt(cfg, run, i)
  }
}
