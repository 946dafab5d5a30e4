// The inductive invariant of the sandbox-pool protocol, in rely/guarantee form: what a thread knows
// at its program counter (`Local`), what a step of another thread may change (`Interference`), and
// the facts about the shared fields (`Global`).
module SandboxPoolInvariant {
  import opened Prelude
  import opened SandboxPool

  // ----- classification of program counters

  predicate HoldsCreate(pc: PC) {
    match pc
    case Create(_, cs) => !cs.Enter?
    case Clean(a, _, _) => a.CreateFailed?
    case Shut(_, ss) => ss.Section?
    case Sweeping(_, ws) => ws.Copy?
    case _ => false
  }

  predicate HoldsCleanup(pc: PC) {
    match pc
    case Create(_, cs) => cs.LostGet? || cs.LostRemove?
    case Clean(_, _, ks) => !ks.Take?
    case Shut(_, ss) => ss.Killing?
    case Sweeping(_, ws) => ws.NameGet? || ws.NameRemove?
    case _ => false
  }

  /** A permit that is taken but not recorded as a managed or pending name. */
  predicate InTransit(pc: PC) {
    match pc
    case Create(_, cs) => cs.Name? || cs.LostRelease?
    case Clean(_, _, ks) => ks.Release?
    case Sweeping(_, ws) => ws.NameRelease?
    case _ => false
  }

  /** The create a thread is busy with, if any. */
  function PurposeOf(pc: PC): Option<Purpose> {
    match pc
    case Create(p, _) => Some(p)
    case Add(p, _) => Some(p)
    case Clean(CreateFailed(p), _, _) => Some(p)
    case Clean(AddRejected(p), _, _) => Some(p)
    case _ => None
  }

  /** Threads that hold an execution slot. */
  predicate InExecution(pc: PC) {
    pc.Exec? || PurposeOf(pc) == Some(ForLease) || PurposeOf(pc) == Some(ForReplenish) || (pc.Clean? && pc.a == Released)
  }

  /** Executions between the lease and the end of release. */
  predicate Engaged(pc: PC) {
    || (pc.Exec? && (pc.x.Running? || pc.x.Decide? || pc.x.Degrade?))
    || PurposeOf(pc) == Some(ForReplenish)
    || (pc.Clean? && pc.a == Released)
  }

  predicate InStartup(pc: PC) {
    pc.InitFinish? || (PurposeOf(pc).Some? && PurposeOf(pc).value.ForInit?)
  }

  predicate ShutdownSeen(pc: PC) {
    match pc
    case Clean(a, _, _) => a.Swept?
    case Shut(_, ss) => ss.Each? || ss.Killing?
    case Sweeping(_, _) => true
    case _ => false
  }

  // ----- what a thread knows

  ghost predicate Known(s: Shared, c: Cid) { c < |s.life| && c !in s.late }

  ghost predicate Mine(s: Shared, t: Tid, c: Cid) { Known(s, c) && s.life[c] == Building(t) }

  ghost predicate Gone(s: Shared, c: Cid) { c < |s.life| && s.life[c] == Spent }

  /** What a sweep still accounts for, besides the container or the name it is busy with. */
  ghost predicate SweepCovers(s: Shared, sw: Sweep, container: set<Cid>, name: set<Cid>) {
    && s.mgr.managed <= sw.rest + sw.failed + container
    && s.mgr.pending <= sw.names + sw.failed + name
    && (forall c: Cid :: c in sw.rest ==> Known(s, c))
    && (forall c: Cid :: c in sw.names ==> c < |s.life|)
  }

  ghost predicate CreateHeld(s: Shared, t: Tid, cs: CreateStage) {
    && (!cs.Enter? && !cs.Check? && !cs.Raise? ==> !s.mgr.shuttingDown)
    && (cs.Call? || cs.Validate? || cs.Promote? ==> Mine(s, t, cs.c) && cs.c in s.mgr.pending)
    && (cs.Call? ==> cs.c !in s.alive)
    && (cs.Start? || cs.Limits? || cs.Return? ==> Mine(s, t, cs.c) && cs.c in s.mgr.managed)
    && (cs.LostEnter? || cs.LostGet? || cs.LostRemove? || cs.LostForget? ==> Gone(s, cs.c))
    && (cs.LostRemove? || cs.LostForget? ==> cs.c !in s.late)
    && (cs.LostForget? ==> cs.c !in s.alive)
  }

  ghost predicate AfterHeld(s: Shared, t: Tid, a: After, c: Cid, ks: CleanStage)
    requires Known(s, c)
  {
    match a
    case CreateFailed(_) => !s.mgr.shuttingDown && Gone(s, c)
    case AddRejected(p) => s.mgr.shuttingDown && p != ForLease && Gone(s, c)
    case Released =>
      s.life[c] == Leased(t) && (!s.mgr.shuttingDown && !ks.Release? && !ks.Exit? ==> c in s.mgr.managed)
    case Swept(sw) => SweepCovers(s, sw, if ks.Release? || ks == Exit(true) then {} else {c}, {})
  }

  ghost predicate CleanHeld(s: Shared, t: Tid, a: After, c: Cid, ks: CleanStage) {
    && Known(s, c)
    && AfterHeld(s, t, a, c, ks)
    && (ks.Forget? ==> c !in s.alive)
  }

  ghost predicate SweepHeld(s: Shared, sw: Sweep, ws: SweepStage) {
    match ws
    case Snapshot | Copy => true
    case Loop | NameRelease => SweepCovers(s, sw, {}, {})
    case _ => SweepCovers(s, sw, {}, {ws.c})
  }

  ghost predicate Held(s: Shared, t: Tid, pc: PC) {
    match pc
    case Exec(x) =>
      x.Running? ==> Known(s, x.c) && s.life[x.c] == Leased(t) && (!s.mgr.shuttingDown ==> x.c in s.mgr.managed)
    case Create(_, cs) => CreateHeld(s, t, cs)
    case Add(p, c) => p != ForLease && Mine(s, t, c) && (!s.mgr.shuttingDown ==> c in s.mgr.managed)
    case Clean(a, c, ks) => CleanHeld(s, t, a, c, ks)
    case Sweeping(sw, ws) => SweepHeld(s, sw, ws)
    case _ => true
  }

  ghost predicate Locks(s: Shared, t: Tid, pc: PC) {
    && (HoldsCreate(pc) <==> s.createLock == Some(t))
    && (HoldsCleanup(pc) <==> s.cleanupLock == Some(t))
    && (ShutdownSeen(pc) ==> s.mgr.shuttingDown)
  }

  /** Startup runs once; the second half holds when executions wait for it. */
  ghost predicate Startup(cfg: Config, s: Shared, t: Tid, pc: PC) {
    && (InStartup(pc) ==> s.starter == Some(t) && !s.mgr.initialized && cfg.size >= 1)
    && (InStartup(pc) && PurposeOf(pc).Some? ==> PurposeOf(pc).value.done < cfg.size)
    && (cfg.gated && InExecution(pc) ==> s.mgr.initialized)
    && (cfg.gated && InStartup(pc) && !s.mgr.shuttingDown ==>
          |s.mgr.pool| == if pc.InitFinish? then cfg.size else PurposeOf(pc).value.done)
    && (cfg.gated && cfg.slots <= cfg.size && PurposeOf(pc) == Some(ForLease) ==> s.mgr.degraded || s.mgr.shuttingDown)
  }

  ghost predicate Local(cfg: Config, s: Shared, t: Tid, pc: PC) {
    Locks(s, t, pc) && Held(s, t, pc) && Startup(cfg, s, t, pc)
  }

  // ----- facts about the shared fields

  ghost predicate Names(s: Shared) {
    && s.mgr.managed !! s.mgr.pending
    && (forall c: Cid :: c in s.mgr.managed ==> c < |s.life|)
    && (forall c: Cid :: c in s.mgr.pending ==> c < |s.life|)
  }

  ghost predicate Pool(s: Shared) {
    && (forall i, j :: 0 <= i < j < |s.mgr.pool| ==> s.mgr.pool[i] != s.mgr.pool[j])
    && (forall c: Cid :: c in s.mgr.pool <==> c < |s.life| && s.life[c] == Pooled)
    && (forall c: Cid :: c in s.mgr.pool ==> c in s.mgr.managed)
    && (s.mgr.shuttingDown ==> s.mgr.pool == [])
  }

  ghost predicate Daemon(s: Shared) {
    && s.alive !! s.late
    && s.mgr.managed !! s.late
    && (forall c: Cid :: c in s.alive ==> c < |s.life| && (c in s.mgr.managed || c in s.mgr.pending || c in s.abandoned))
    && (forall c: Cid :: c in s.late ==> c < |s.life| && (c in s.mgr.pending || c in s.abandoned))
    && (!s.mgr.shuttingDown ==> s.abandoned == {})
  }

  ghost predicate Limits(cfg: Config, s: Shared) {
    && s.mgr.permits <= cfg.size
    && (s.swept.Some? ==> s.mgr.shuttingDown && s.mgr.managed <= s.swept.value && s.mgr.pending <= s.swept.value)
    && (s.starter == None ==> !s.mgr.initialized)
    && (cfg.gated && s.starter == None ==> s.mgr.pool == [])
  }

  ghost predicate Global(cfg: Config, s: Shared) {
    Names(s) && Pool(s) && Daemon(s) && Limits(cfg, s)
  }

  // ----- one step of thread t

  /** What the counting equations give at `get_container`: a warm container, unless the pool is impaired. */
  ghost predicate WarmAt(cfg: Config, s: Shared, pc: PC) {
    cfg.gated && cfg.slots <= cfg.size && pc == Exec(Lease) ==> s.mgr.pool != [] || s.mgr.degraded || s.mgr.shuttingDown
  }

  ghost predicate Before(cfg: Config, s: Shared, t: Tid, pc: PC, ch: Choice, r: (Shared, PC)) {
    && Global(cfg, s) && Local(cfg, s, t, pc) && WarmAt(cfg, s, pc)
    && Act(cfg, t, s, pc, ch) == Some(r)
  }

  lemma Idle_G(cfg: Config, s: Shared, t: Tid, pc: PC, ch: Choice, r: (Shared, PC))
    requires Before(cfg, s, t, pc, ch, r)
    requires pc.Idle? || pc.InitFinish?
    ensures Global(cfg, r.0)
  {
  }

  lemma Idle_L(cfg: Config, s: Shared, t: Tid, pc: PC, ch: Choice, r: (Shared, PC))
    requires Before(cfg, s, t, pc, ch, r)
    requires pc.Idle? || pc.InitFinish?
    ensures Local(cfg, r.0, t, r.1)
  {
  }

  lemma ExecLease_G(cfg: Config, s: Shared, t: Tid, pc: PC, ch: Choice, r: (Shared, PC))
    requires Before(cfg, s, t, pc, ch, r)
    requires pc.Exec? && pc.x.Lease?
    ensures Global(cfg, r.0)
  {
    if pc.x.Lease? && !s.mgr.shuttingDown && s.mgr.pool != [] {
      var q := s.mgr.pool;
      assert q == [q[0]] + q[1..];
      forall c: Cid ensures c in q[1..] <==> c < |r.0.life| && r.0.life[c] == Pooled {
        assert c == q[0] || (c in q <==> c in q[1..]);
      }
    }
  }

  lemma ExecLater_G(cfg: Config, s: Shared, t: Tid, pc: PC, ch: Choice, r: (Shared, PC))
    requires Before(cfg, s, t, pc, ch, r)
    requires pc.Exec? && !pc.x.Lease?
    ensures Global(cfg, r.0)
  {
  }

  lemma Exec_G(cfg: Config, s: Shared, t: Tid, pc: PC, ch: Choice, r: (Shared, PC))
    requires Before(cfg, s, t, pc, ch, r)
    requires pc.Exec?
    ensures Global(cfg, r.0)
  {
    if pc.x.Lease? {
      ExecLease_G(cfg, s, t, pc, ch, r);
    } else {
      ExecLater_G(cfg, s, t, pc, ch, r);
    }
  }

  lemma Exec_L(cfg: Config, s: Shared, t: Tid, pc: PC, ch: Choice, r: (Shared, PC))
    requires Before(cfg, s, t, pc, ch, r)
    requires pc.Exec?
    ensures Local(cfg, r.0, t, r.1)
  {
    var q := s.mgr.pool;
    if pc.x.Lease? && q != [] {
      assert q == [q[0]] + q[1..];
      assert q[0] in q && s.life[q[0]] == Pooled && q[0] in s.mgr.managed;
    }
  }

  lemma Add_G(cfg: Config, s: Shared, t: Tid, pc: PC, ch: Choice, r: (Shared, PC))
    requires Before(cfg, s, t, pc, ch, r)
    requires pc.Add?
    ensures Global(cfg, r.0)
  {
  }

  lemma Add_L(cfg: Config, s: Shared, t: Tid, pc: PC, ch: Choice, r: (Shared, PC))
    requires Before(cfg, s, t, pc, ch, r)
    requires pc.Add?
    ensures Local(cfg, r.0, t, r.1)
  {
  }

  lemma Prepare_G(cfg: Config, s: Shared, t: Tid, pc: PC, ch: Choice, r: (Shared, PC))
    requires Before(cfg, s, t, pc, ch, r)
    requires pc.Create? && (pc.cs.Enter? || pc.cs.Check? || pc.cs.Acquire? || pc.cs.Name?)
    ensures Global(cfg, r.0)
  {
  }

  lemma Prepare_L(cfg: Config, s: Shared, t: Tid, pc: PC, ch: Choice, r: (Shared, PC))
    requires Before(cfg, s, t, pc, ch, r)
    requires pc.Create? && (pc.cs.Enter? || pc.cs.Check? || pc.cs.Acquire? || pc.cs.Name?)
    ensures Local(cfg, r.0, t, r.1)
  {
  }

  lemma IssuePromote_G(cfg: Config, s: Shared, t: Tid, pc: PC, ch: Choice, r: (Shared, PC))
    requires Before(cfg, s, t, pc, ch, r)
    requires pc.Create? && pc.cs.Promote?
    ensures Global(cfg, r.0)
  {
  }

  lemma IssueCall_G(cfg: Config, s: Shared, t: Tid, pc: PC, ch: Choice, r: (Shared, PC))
    requires Before(cfg, s, t, pc, ch, r)
    requires pc.Create? && (pc.cs.Call? || pc.cs.Validate?)
    ensures Global(cfg, r.0)
  {
  }

  lemma Issue_G(cfg: Config, s: Shared, t: Tid, pc: PC, ch: Choice, r: (Shared, PC))
    requires Before(cfg, s, t, pc, ch, r)
    requires pc.Create? && (pc.cs.Call? || pc.cs.Validate? || pc.cs.Promote?)
    ensures Global(cfg, r.0)
  {
    if pc.cs.Promote? {
      IssuePromote_G(cfg, s, t, pc, ch, r);
    } else {
      IssueCall_G(cfg, s, t, pc, ch, r);
    }
  }

  lemma Issue_L(cfg: Config, s: Shared, t: Tid, pc: PC, ch: Choice, r: (Shared, PC))
    requires Before(cfg, s, t, pc, ch, r)
    requires pc.Create? && (pc.cs.Call? || pc.cs.Validate? || pc.cs.Promote?)
    ensures Local(cfg, r.0, t, r.1)
  {
  }

  lemma Started_G(cfg: Config, s: Shared, t: Tid, pc: PC, ch: Choice, r: (Shared, PC))
    requires Before(cfg, s, t, pc, ch, r)
    requires pc.Create? && (pc.cs.Start? || pc.cs.Limits? || pc.cs.Return? || pc.cs.Raise?)
    ensures Global(cfg, r.0)
  {
  }

  lemma StartedEnd_L(cfg: Config, s: Shared, t: Tid, pc: PC, ch: Choice, r: (Shared, PC))
    requires Before(cfg, s, t, pc, ch, r)
    requires pc.Create? && (pc.cs.Return? || pc.cs.Raise?)
    ensures Local(cfg, r.0, t, r.1)
  {
  }

  lemma StartedRun_L(cfg: Config, s: Shared, t: Tid, pc: PC, ch: Choice, r: (Shared, PC))
    requires Before(cfg, s, t, pc, ch, r)
    requires pc.Create? && (pc.cs.Start? || pc.cs.Limits?)
    ensures Local(cfg, r.0, t, r.1)
  {
  }

  lemma Started_L(cfg: Config, s: Shared, t: Tid, pc: PC, ch: Choice, r: (Shared, PC))
    requires Before(cfg, s, t, pc, ch, r)
    requires pc.Create? && (pc.cs.Start? || pc.cs.Limits? || pc.cs.Return? || pc.cs.Raise?)
    ensures Local(cfg, r.0, t, r.1)
  {
    if pc.cs.Return? || pc.cs.Raise? {
      StartedEnd_L(cfg, s, t, pc, ch, r);
    } else {
      StartedRun_L(cfg, s, t, pc, ch, r);
    }
  }

  lemma LostDrop_G(cfg: Config, s: Shared, t: Tid, pc: PC, ch: Choice, r: (Shared, PC))
    requires Before(cfg, s, t, pc, ch, r)
    requires pc.Create? && (pc.cs.LostForget? || pc.cs.LostRelease?)
    ensures Global(cfg, r.0)
  {
  }

  lemma LostLook_G(cfg: Config, s: Shared, t: Tid, pc: PC, ch: Choice, r: (Shared, PC))
    requires Before(cfg, s, t, pc, ch, r)
    requires pc.Create? && (pc.cs.LostEnter? || pc.cs.LostGet? || pc.cs.LostRemove?)
    ensures Global(cfg, r.0)
  {
  }

  lemma Lost_G(cfg: Config, s: Shared, t: Tid, pc: PC, ch: Choice, r: (Shared, PC))
    requires Before(cfg, s, t, pc, ch, r)
    requires pc.Create? && (pc.cs.LostEnter? || pc.cs.LostGet? || pc.cs.LostRemove? || pc.cs.LostForget? || pc.cs.LostRelease?)
    ensures Global(cfg, r.0)
  {
    if pc.cs.LostForget? || pc.cs.LostRelease? {
      LostDrop_G(cfg, s, t, pc, ch, r);
    } else {
      LostLook_G(cfg, s, t, pc, ch, r);
    }
  }

  lemma LostDrop_L(cfg: Config, s: Shared, t: Tid, pc: PC, ch: Choice, r: (Shared, PC))
    requires Before(cfg, s, t, pc, ch, r)
    requires pc.Create? && (pc.cs.LostForget? || pc.cs.LostRelease?)
    ensures Local(cfg, r.0, t, r.1)
  {
  }

  lemma LostLook_L(cfg: Config, s: Shared, t: Tid, pc: PC, ch: Choice, r: (Shared, PC))
    requires Before(cfg, s, t, pc, ch, r)
    requires pc.Create? && (pc.cs.LostEnter? || pc.cs.LostGet? || pc.cs.LostRemove?)
    ensures Local(cfg, r.0, t, r.1)
  {
  }

  lemma Lost_L(cfg: Config, s: Shared, t: Tid, pc: PC, ch: Choice, r: (Shared, PC))
    requires Before(cfg, s, t, pc, ch, r)
    requires pc.Create? && (pc.cs.LostEnter? || pc.cs.LostGet? || pc.cs.LostRemove? || pc.cs.LostForget? || pc.cs.LostRelease?)
    ensures Local(cfg, r.0, t, r.1)
  {
    if pc.cs.LostForget? || pc.cs.LostRelease? {
      LostDrop_L(cfg, s, t, pc, ch, r);
    } else {
      LostLook_L(cfg, s, t, pc, ch, r);
    }
  }

  lemma Shut_G(cfg: Config, s: Shared, t: Tid, pc: PC, ch: Choice, r: (Shared, PC))
    requires Before(cfg, s, t, pc, ch, r)
    requires pc.Shut?
    ensures Global(cfg, r.0)
  {
  }

  lemma Shut_L(cfg: Config, s: Shared, t: Tid, pc: PC, ch: Choice, r: (Shared, PC))
    requires Before(cfg, s, t, pc, ch, r)
    requires pc.Shut?
    ensures Local(cfg, r.0, t, r.1)
  {
  }

  lemma CleanIn_G(cfg: Config, s: Shared, t: Tid, pc: PC, ch: Choice, r: (Shared, PC))
    requires Before(cfg, s, t, pc, ch, r)
    requires pc.Clean? && (pc.ks.Take? || pc.ks.Kill? || pc.ks.Remove?)
    ensures Global(cfg, r.0)
  {
  }

  lemma RemoveSwept_L(cfg: Config, s: Shared, t: Tid, pc: PC, ch: Choice, r: (Shared, PC))
    requires Before(cfg, s, t, pc, ch, r)
    requires pc.Clean? && pc.ks.Remove?
    requires pc.a.Swept?
    ensures Local(cfg, r.0, t, r.1)
  {
  }

  lemma RemoveOther_L(cfg: Config, s: Shared, t: Tid, pc: PC, ch: Choice, r: (Shared, PC))
    requires Before(cfg, s, t, pc, ch, r)
    requires pc.Clean? && pc.ks.Remove?
    requires !(pc.a.Swept?)
    ensures Local(cfg, r.0, t, r.1)
  {
  }

  lemma CleanInRemove_L(cfg: Config, s: Shared, t: Tid, pc: PC, ch: Choice, r: (Shared, PC))
    requires Before(cfg, s, t, pc, ch, r)
    requires pc.Clean? && pc.ks.Remove?
    ensures Local(cfg, r.0, t, r.1)
  {
    if pc.a.Swept? {
      RemoveSwept_L(cfg, s, t, pc, ch, r);
    } else {
      RemoveOther_L(cfg, s, t, pc, ch, r);
    }
  }

  lemma CleanInKill_L(cfg: Config, s: Shared, t: Tid, pc: PC, ch: Choice, r: (Shared, PC))
    requires Before(cfg, s, t, pc, ch, r)
    requires pc.Clean? && (pc.ks.Take? || pc.ks.Kill?)
    ensures Local(cfg, r.0, t, r.1)
  {
  }

  lemma CleanIn_L(cfg: Config, s: Shared, t: Tid, pc: PC, ch: Choice, r: (Shared, PC))
    requires Before(cfg, s, t, pc, ch, r)
    requires pc.Clean? && (pc.ks.Take? || pc.ks.Kill? || pc.ks.Remove?)
    ensures Local(cfg, r.0, t, r.1)
  {
    if pc.ks.Remove? {
      CleanInRemove_L(cfg, s, t, pc, ch, r);
    } else {
      CleanInKill_L(cfg, s, t, pc, ch, r);
    }
  }

  lemma CleanOut_G(cfg: Config, s: Shared, t: Tid, pc: PC, ch: Choice, r: (Shared, PC))
    requires Before(cfg, s, t, pc, ch, r)
    requires pc.Clean? && (pc.ks.Forget? || pc.ks.Release? || pc.ks.Exit?)
    ensures Global(cfg, r.0)
  {
  }

  lemma CleanOutExit_L(cfg: Config, s: Shared, t: Tid, pc: PC, ch: Choice, r: (Shared, PC))
    requires Before(cfg, s, t, pc, ch, r)
    requires pc.Clean? && pc.ks.Exit?
    ensures Local(cfg, r.0, t, r.1)
  {
  }

  lemma CleanOutDrop_L(cfg: Config, s: Shared, t: Tid, pc: PC, ch: Choice, r: (Shared, PC))
    requires Before(cfg, s, t, pc, ch, r)
    requires pc.Clean? && (pc.ks.Forget? || pc.ks.Release?)
    ensures Local(cfg, r.0, t, r.1)
  {
  }

  lemma CleanOut_L(cfg: Config, s: Shared, t: Tid, pc: PC, ch: Choice, r: (Shared, PC))
    requires Before(cfg, s, t, pc, ch, r)
    requires pc.Clean? && (pc.ks.Forget? || pc.ks.Release? || pc.ks.Exit?)
    ensures Local(cfg, r.0, t, r.1)
  {
    if pc.ks.Exit? {
      CleanOutExit_L(cfg, s, t, pc, ch, r);
    } else {
      CleanOutDrop_L(cfg, s, t, pc, ch, r);
    }
  }

  lemma SweepLoop_G(cfg: Config, s: Shared, t: Tid, pc: PC, ch: Choice, r: (Shared, PC))
    requires Before(cfg, s, t, pc, ch, r)
    requires pc.Sweeping? && (pc.ws.Snapshot? || pc.ws.Copy? || pc.ws.Loop?)
    ensures Global(cfg, r.0)
  {
  }

  lemma SweepLoop_L(cfg: Config, s: Shared, t: Tid, pc: PC, ch: Choice, r: (Shared, PC))
    requires Before(cfg, s, t, pc, ch, r)
    requires pc.Sweeping? && (pc.ws.Snapshot? || pc.ws.Copy? || pc.ws.Loop?)
    ensures Local(cfg, r.0, t, r.1)
  {
  }

  lemma SweepNameDrop_G(cfg: Config, s: Shared, t: Tid, pc: PC, ch: Choice, r: (Shared, PC))
    requires Before(cfg, s, t, pc, ch, r)
    requires pc.Sweeping? && (pc.ws.NameForget? || pc.ws.NameRelease?)
    ensures Global(cfg, r.0)
  {
  }

  lemma SweepRemove_G(cfg: Config, s: Shared, t: Tid, pc: PC, ch: Choice, r: (Shared, PC))
    requires Before(cfg, s, t, pc, ch, r)
    requires pc.Sweeping? && (pc.ws.NameTake? || pc.ws.NameGet? || pc.ws.NameRemove?)
    requires pc.ws.NameRemove?
    ensures Global(cfg, r.0)
  {
  }

  lemma SweepFind_G(cfg: Config, s: Shared, t: Tid, pc: PC, ch: Choice, r: (Shared, PC))
    requires Before(cfg, s, t, pc, ch, r)
    requires pc.Sweeping? && (pc.ws.NameTake? || pc.ws.NameGet? || pc.ws.NameRemove?)
    requires !(pc.ws.NameRemove?)
    ensures Global(cfg, r.0)
  {
  }

  lemma SweepNameLook_G(cfg: Config, s: Shared, t: Tid, pc: PC, ch: Choice, r: (Shared, PC))
    requires Before(cfg, s, t, pc, ch, r)
    requires pc.Sweeping? && (pc.ws.NameTake? || pc.ws.NameGet? || pc.ws.NameRemove?)
    ensures Global(cfg, r.0)
  {
    if pc.ws.NameRemove? {
      SweepRemove_G(cfg, s, t, pc, ch, r);
    } else {
      SweepFind_G(cfg, s, t, pc, ch, r);
    }
  }

  lemma SweepName_G(cfg: Config, s: Shared, t: Tid, pc: PC, ch: Choice, r: (Shared, PC))
    requires Before(cfg, s, t, pc, ch, r)
    requires pc.Sweeping? && (pc.ws.NameTake? || pc.ws.NameGet? || pc.ws.NameRemove? || pc.ws.NameForget? || pc.ws.NameRelease?)
    ensures Global(cfg, r.0)
  {
    if pc.ws.NameForget? || pc.ws.NameRelease? {
      SweepNameDrop_G(cfg, s, t, pc, ch, r);
    } else {
      SweepNameLook_G(cfg, s, t, pc, ch, r);
    }
  }

  lemma SweepNameDrop_L(cfg: Config, s: Shared, t: Tid, pc: PC, ch: Choice, r: (Shared, PC))
    requires Before(cfg, s, t, pc, ch, r)
    requires pc.Sweeping? && (pc.ws.NameForget? || pc.ws.NameRelease?)
    ensures Local(cfg, r.0, t, r.1)
  {
  }

  lemma SweepRemove_L(cfg: Config, s: Shared, t: Tid, pc: PC, ch: Choice, r: (Shared, PC))
    requires Before(cfg, s, t, pc, ch, r)
    requires pc.Sweeping? && (pc.ws.NameTake? || pc.ws.NameGet? || pc.ws.NameRemove?)
    requires pc.ws.NameRemove?
    ensures Local(cfg, r.0, t, r.1)
  {
  }

  lemma SweepFind_L(cfg: Config, s: Shared, t: Tid, pc: PC, ch: Choice, r: (Shared, PC))
    requires Before(cfg, s, t, pc, ch, r)
    requires pc.Sweeping? && (pc.ws.NameTake? || pc.ws.NameGet? || pc.ws.NameRemove?)
    requires !(pc.ws.NameRemove?)
    ensures Local(cfg, r.0, t, r.1)
  {
  }

  lemma SweepNameLook_L(cfg: Config, s: Shared, t: Tid, pc: PC, ch: Choice, r: (Shared, PC))
    requires Before(cfg, s, t, pc, ch, r)
    requires pc.Sweeping? && (pc.ws.NameTake? || pc.ws.NameGet? || pc.ws.NameRemove?)
    ensures Local(cfg, r.0, t, r.1)
  {
    if pc.ws.NameRemove? {
      SweepRemove_L(cfg, s, t, pc, ch, r);
    } else {
      SweepFind_L(cfg, s, t, pc, ch, r);
    }
  }

  lemma SweepName_L(cfg: Config, s: Shared, t: Tid, pc: PC, ch: Choice, r: (Shared, PC))
    requires Before(cfg, s, t, pc, ch, r)
    requires pc.Sweeping? && (pc.ws.NameTake? || pc.ws.NameGet? || pc.ws.NameRemove? || pc.ws.NameForget? || pc.ws.NameRelease?)
    ensures Local(cfg, r.0, t, r.1)
  {
    if pc.ws.NameForget? || pc.ws.NameRelease? {
      SweepNameDrop_L(cfg, s, t, pc, ch, r);
    } else {
      SweepNameLook_L(cfg, s, t, pc, ch, r);
    }
  }


  // ----- what other threads may do while thread `u` waits

  ghost predicate Interference(cfg: Config, s: Shared, t: Tid, s': Shared, u: Tid) {
    && (s.mgr.shuttingDown ==> s'.mgr.shuttingDown)
    && (s.mgr.degraded ==> s'.mgr.degraded)
    && (s.mgr.initialized ==> s'.mgr.initialized)
    && (s.starter.Some? ==> s'.starter == s.starter)
    && (s.createLock == Some(u) <==> s'.createLock == Some(u))
    && (s.cleanupLock == Some(u) <==> s'.cleanupLock == Some(u))
    && |s.life| <= |s'.life|
    && (s.mgr.shuttingDown ==> s'.mgr.managed <= s.mgr.managed && s'.mgr.pending <= s.mgr.pending)
       // during startup only the starter touches the pool
    && (!s.mgr.initialized && s.starter == Some(u) ==> !s'.mgr.initialized)
    && (cfg.gated && !s.mgr.initialized && s.starter == Some(u) ==>
          s'.mgr.shuttingDown || s'.mgr.pool == s.mgr.pool)
    && forall c: Cid :: c < |s.life| ==> Undisturbed(s, t, s', u, c)
  }

  ghost predicate Undisturbed(s: Shared, t: Tid, s': Shared, u: Tid, c: Cid)
    requires c < |s.life| <= |s'.life|
  {
       // what u builds or leases stays u's, and stays registered until a shutdown
    && (s.life[c] == Building(u) || s.life[c] == Leased(u) || s.life[c] == Spent ==> s'.life[c] == s.life[c])
    && (s.life[c] == Building(u) && !s'.mgr.shuttingDown && c in s.mgr.pending ==> c in s'.mgr.pending)
    && (s.life[c] == Building(u) && !s'.mgr.shuttingDown && c in s.mgr.managed ==> c in s'.mgr.managed)
    && (s.life[c] == Leased(u) && !s'.mgr.shuttingDown && c in s.mgr.managed ==> c in s'.mgr.managed)
       // nothing but a sandbox under construction or a late create comes into existence
    && (s.life[c] != Building(t) || s.mgr.shuttingDown ==>
          && (c !in s.late ==> c !in s'.late && (c !in s.alive ==> c !in s'.alive))
          && (c !in s.mgr.managed ==> c !in s'.mgr.managed))
  }

  lemma Idle_I(cfg: Config, s: Shared, t: Tid, pc: PC, ch: Choice, r: (Shared, PC), u: Tid)
    requires Before(cfg, s, t, pc, ch, r)
    requires pc.Idle? || pc.InitFinish?
    requires t != u
    ensures Interference(cfg, s, t, r.0, u)
  {
  }

  lemma ExecLease_I(cfg: Config, s: Shared, t: Tid, pc: PC, ch: Choice, r: (Shared, PC), u: Tid)
    requires Before(cfg, s, t, pc, ch, r)
    requires pc.Exec?
    requires t != u
    requires pc.x.Lease?
    ensures Interference(cfg, s, t, r.0, u)
  {
  }

  lemma ExecLater_I(cfg: Config, s: Shared, t: Tid, pc: PC, ch: Choice, r: (Shared, PC), u: Tid)
    requires Before(cfg, s, t, pc, ch, r)
    requires pc.Exec?
    requires t != u
    requires !(pc.x.Lease?)
    ensures Interference(cfg, s, t, r.0, u)
  {
  }

  lemma Exec_I(cfg: Config, s: Shared, t: Tid, pc: PC, ch: Choice, r: (Shared, PC), u: Tid)
    requires Before(cfg, s, t, pc, ch, r)
    requires pc.Exec?
    requires t != u
    ensures Interference(cfg, s, t, r.0, u)
  {
    if pc.x.Lease? {
      ExecLease_I(cfg, s, t, pc, ch, r, u);
    } else {
      ExecLater_I(cfg, s, t, pc, ch, r, u);
    }
  }

  lemma Add_I(cfg: Config, s: Shared, t: Tid, pc: PC, ch: Choice, r: (Shared, PC), u: Tid)
    requires Before(cfg, s, t, pc, ch, r)
    requires pc.Add?
    requires t != u
    ensures Interference(cfg, s, t, r.0, u)
  {
  }

  lemma Prepare_I(cfg: Config, s: Shared, t: Tid, pc: PC, ch: Choice, r: (Shared, PC), u: Tid)
    requires Before(cfg, s, t, pc, ch, r)
    requires pc.Create? && (pc.cs.Enter? || pc.cs.Check? || pc.cs.Acquire? || pc.cs.Name?)
    requires t != u
    ensures Interference(cfg, s, t, r.0, u)
  {
  }

  lemma Issue_I(cfg: Config, s: Shared, t: Tid, pc: PC, ch: Choice, r: (Shared, PC), u: Tid)
    requires Before(cfg, s, t, pc, ch, r)
    requires pc.Create? && (pc.cs.Call? || pc.cs.Validate? || pc.cs.Promote?)
    requires t != u
    ensures Interference(cfg, s, t, r.0, u)
  {
  }

  lemma Started_I(cfg: Config, s: Shared, t: Tid, pc: PC, ch: Choice, r: (Shared, PC), u: Tid)
    requires Before(cfg, s, t, pc, ch, r)
    requires pc.Create? && (pc.cs.Start? || pc.cs.Limits? || pc.cs.Return? || pc.cs.Raise?)
    requires t != u
    ensures Interference(cfg, s, t, r.0, u)
  {
  }

  lemma Lost_I(cfg: Config, s: Shared, t: Tid, pc: PC, ch: Choice, r: (Shared, PC), u: Tid)
    requires Before(cfg, s, t, pc, ch, r)
    requires pc.Create? && (pc.cs.LostEnter? || pc.cs.LostGet? || pc.cs.LostRemove? || pc.cs.LostForget? || pc.cs.LostRelease?)
    requires t != u
    ensures Interference(cfg, s, t, r.0, u)
  {
  }

  lemma Shut_I(cfg: Config, s: Shared, t: Tid, pc: PC, ch: Choice, r: (Shared, PC), u: Tid)
    requires Before(cfg, s, t, pc, ch, r)
    requires pc.Shut?
    requires t != u
    ensures Interference(cfg, s, t, r.0, u)
  {
  }

  lemma CleanIn_I(cfg: Config, s: Shared, t: Tid, pc: PC, ch: Choice, r: (Shared, PC), u: Tid)
    requires Before(cfg, s, t, pc, ch, r)
    requires pc.Clean? && (pc.ks.Take? || pc.ks.Kill? || pc.ks.Remove?)
    requires t != u
    ensures Interference(cfg, s, t, r.0, u)
  {
  }

  lemma CleanOut_I(cfg: Config, s: Shared, t: Tid, pc: PC, ch: Choice, r: (Shared, PC), u: Tid)
    requires Before(cfg, s, t, pc, ch, r)
    requires pc.Clean? && (pc.ks.Forget? || pc.ks.Release? || pc.ks.Exit?)
    requires t != u
    ensures Interference(cfg, s, t, r.0, u)
  {
  }

  lemma SweepLoop_I(cfg: Config, s: Shared, t: Tid, pc: PC, ch: Choice, r: (Shared, PC), u: Tid)
    requires Before(cfg, s, t, pc, ch, r)
    requires pc.Sweeping? && (pc.ws.Snapshot? || pc.ws.Copy? || pc.ws.Loop?)
    requires t != u
    ensures Interference(cfg, s, t, r.0, u)
  {
  }

  lemma SweepNameDrop_I(cfg: Config, s: Shared, t: Tid, pc: PC, ch: Choice, r: (Shared, PC), u: Tid)
    requires Before(cfg, s, t, pc, ch, r)
    requires pc.Sweeping? && (pc.ws.NameTake? || pc.ws.NameGet? || pc.ws.NameRemove? || pc.ws.NameForget? || pc.ws.NameRelease?)
    requires t != u
    requires pc.ws.NameForget? || pc.ws.NameRelease?
    ensures Interference(cfg, s, t, r.0, u)
  {
  }

  lemma SweepRemove_I(cfg: Config, s: Shared, t: Tid, pc: PC, ch: Choice, r: (Shared, PC), u: Tid)
    requires Before(cfg, s, t, pc, ch, r)
    requires pc.Sweeping? && (pc.ws.NameTake? || pc.ws.NameGet? || pc.ws.NameRemove? || pc.ws.NameForget? || pc.ws.NameRelease?)
    requires t != u
    requires !(pc.ws.NameForget? || pc.ws.NameRelease?)
    requires pc.ws.NameRemove?
    ensures Interference(cfg, s, t, r.0, u)
  {
  }

  lemma SweepFind_I(cfg: Config, s: Shared, t: Tid, pc: PC, ch: Choice, r: (Shared, PC), u: Tid)
    requires Before(cfg, s, t, pc, ch, r)
    requires pc.Sweeping? && (pc.ws.NameTake? || pc.ws.NameGet? || pc.ws.NameRemove? || pc.ws.NameForget? || pc.ws.NameRelease?)
    requires t != u
    requires !(pc.ws.NameForget? || pc.ws.NameRelease?)
    requires !(pc.ws.NameRemove?)
    ensures Interference(cfg, s, t, r.0, u)
  {
  }

  lemma SweepNameLook_I(cfg: Config, s: Shared, t: Tid, pc: PC, ch: Choice, r: (Shared, PC), u: Tid)
    requires Before(cfg, s, t, pc, ch, r)
    requires pc.Sweeping? && (pc.ws.NameTake? || pc.ws.NameGet? || pc.ws.NameRemove? || pc.ws.NameForget? || pc.ws.NameRelease?)
    requires t != u
    requires !(pc.ws.NameForget? || pc.ws.NameRelease?)
    ensures Interference(cfg, s, t, r.0, u)
  {
    if pc.ws.NameRemove? {
      SweepRemove_I(cfg, s, t, pc, ch, r, u);
    } else {
      SweepFind_I(cfg, s, t, pc, ch, r, u);
    }
  }

  lemma SweepName_I(cfg: Config, s: Shared, t: Tid, pc: PC, ch: Choice, r: (Shared, PC), u: Tid)
    requires Before(cfg, s, t, pc, ch, r)
    requires pc.Sweeping? && (pc.ws.NameTake? || pc.ws.NameGet? || pc.ws.NameRemove? || pc.ws.NameForget? || pc.ws.NameRelease?)
    requires t != u
    ensures Interference(cfg, s, t, r.0, u)
  {
    if pc.ws.NameForget? || pc.ws.NameRelease? {
      SweepNameDrop_I(cfg, s, t, pc, ch, r, u);
    } else {
      SweepNameLook_I(cfg, s, t, pc, ch, r, u);
    }
  }


  lemma FrameLocks(cfg: Config, s: Shared, t: Tid, s': Shared, u: Tid, pc: PC)
    requires Local(cfg, s, u, pc) && Interference(cfg, s, t, s', u) && t != u
    ensures Locks(s', u, pc)
  {
  }
  lemma FrameSweep(cfg: Config, s: Shared, t: Tid, s': Shared, u: Tid, sw: Sweep, container: set<Cid>, name: set<Cid>)
    requires SweepCovers(s, sw, container, name) && s.mgr.shuttingDown && Interference(cfg, s, t, s', u)
    ensures SweepCovers(s', sw, container, name)
  {
    forall c: Cid | c in sw.rest ensures Known(s', c) {
      assert Known(s, c) && Undisturbed(s, t, s', u, c);
    }
  }

  lemma FrameHeld(cfg: Config, s: Shared, t: Tid, s': Shared, u: Tid, pc: PC)
    requires Local(cfg, s, u, pc) && Interference(cfg, s, t, s', u) && t != u
    requires !s.mgr.shuttingDown && s'.mgr.shuttingDown ==> !HoldsCreate(pc)
    ensures Held(s', u, pc)
  {
    match pc {
      case Exec(x) => assert x.Running? ==> Undisturbed(s, t, s', u, x.c);
      case Create(_, cs) =>
        if !cs.Enter? && !cs.Check? && !cs.Acquire? && !cs.Name? && !cs.Raise? && !cs.LostRelease? {
          assert Undisturbed(s, t, s', u, cs.c);
        }
      case Add(_, c) => assert Undisturbed(s, t, s', u, c);
      case Clean(a, c, ks) =>
        assert Undisturbed(s, t, s', u, c);
        if a.Swept? { FrameSweep(cfg, s, t, s', u, a.sw, if ks.Release? || ks == Exit(true) then {} else {c}, {}); }
      case Sweeping(sw, ws) =>
        if ws.Loop? || ws.NameRelease? {
          FrameSweep(cfg, s, t, s', u, sw, {}, {});
        } else if !ws.Snapshot? && !ws.Copy? {
          FrameSweep(cfg, s, t, s', u, sw, {}, {ws.c});
        }
      case _ =>
    }
  }

  lemma FrameStartup(cfg: Config, s: Shared, t: Tid, s': Shared, u: Tid, pc: PC)
    requires Local(cfg, s, u, pc) && Interference(cfg, s, t, s', u) && t != u
    ensures Startup(cfg, s', u, pc)
  {
  }
}
