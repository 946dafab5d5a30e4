// What the sandbox pool guarantees in every reachable state and over every run.
module SandboxPoolSafety {
  import opened Prelude
  import opened SandboxPool
  import opened SandboxPoolInvariant

  // ----- the counting equations, one step at a time

  /** The steps that move a permit between the semaphore, the books and a thread's hand. */
  predicate MovesPermit(pc: PC) {
    match pc
    case Create(_, cs) => cs.Acquire? || cs.Name? || cs.Promote? || cs.LostForget? || cs.LostRelease?
    case Clean(_, _, ks) => ks.Forget? || ks.Release?
    case Sweeping(_, ws) => ws.NameForget? || ws.NameRelease?
    case _ => false
  }

  lemma PermitsStay(cfg: Config, s: Shared, t: Tid, pc: PC, ch: Choice, r: (Shared, PC))
    requires !MovesPermit(pc) && !pc.Create? && Act(cfg, t, s, pc, ch) == Some(r)
    ensures r.0.mgr.permits == s.mgr.permits && r.0.mgr.managed == s.mgr.managed && r.0.mgr.pending == s.mgr.pending
    ensures !InTransit(pc) && !InTransit(r.1)
  {
  }

  lemma PermitsStayCreate(cfg: Config, s: Shared, t: Tid, p: Purpose, cs: CreateStage, ch: Choice, r: (Shared, PC))
    requires !MovesPermit(Create(p, cs)) && ActCreate(cfg, t, s, p, cs, ch) == Some(r)
    ensures r.0.mgr.permits == s.mgr.permits && r.0.mgr.managed == s.mgr.managed && r.0.mgr.pending == s.mgr.pending
    ensures !InTransit(Create(p, cs)) && !InTransit(r.1)
  {
  }

  ghost predicate Balanced(s: Shared, pc: PC, s': Shared, pc': PC) {
    s'.mgr.permits + |s.mgr.managed| + |s.mgr.pending| + Indicator(InTransit(pc))
    == s.mgr.permits + |s'.mgr.managed| + |s'.mgr.pending| + Indicator(InTransit(pc'))
  }

  lemma PermitsTaken(cfg: Config, s: Shared, t: Tid, p: Purpose, cs: CreateStage, ch: Choice, r: (Shared, PC))
    requires Names(s) && CreateHeld(s, t, cs) && ActCreate(cfg, t, s, p, cs, ch) == Some(r)
    requires cs.Acquire? || cs.Name? || cs.Promote?
    ensures Balanced(s, Create(p, cs), r.0, r.1)
  {
    if cs.Promote? {
      assert r.0.mgr.managed == s.mgr.managed + {cs.c} && r.0.mgr.pending == s.mgr.pending - {cs.c};
    }
  }

  lemma PermitsOfContainers(cfg: Config, s: Shared, t: Tid, pc: PC, ch: Choice, r: (Shared, PC))
    requires Act(cfg, t, s, pc, ch) == Some(r)
    requires MovesPermit(pc) && (pc.Create? ==> pc.cs.LostForget? || pc.cs.LostRelease?)
    requires pc.Clean?
    ensures Balanced(s, pc, r.0, r.1)
  {
  }

  lemma PermitsOfNames(cfg: Config, s: Shared, t: Tid, pc: PC, ch: Choice, r: (Shared, PC))
    requires Act(cfg, t, s, pc, ch) == Some(r)
    requires MovesPermit(pc) && (pc.Create? ==> pc.cs.LostForget? || pc.cs.LostRelease?)
    requires !(pc.Clean?)
    ensures Balanced(s, pc, r.0, r.1)
  {
  }

  lemma PermitsReturned(cfg: Config, s: Shared, t: Tid, pc: PC, ch: Choice, r: (Shared, PC))
    requires Act(cfg, t, s, pc, ch) == Some(r)
    requires MovesPermit(pc) && (pc.Create? ==> pc.cs.LostForget? || pc.cs.LostRelease?)
    ensures Balanced(s, pc, r.0, r.1)
  {
    if pc.Clean? {
      PermitsOfContainers(cfg, s, t, pc, ch, r);
    } else {
      PermitsOfNames(cfg, s, t, pc, ch, r);
    }
  }

  lemma PermitBalance(cfg: Config, s: Shared, t: Tid, pc: PC, ch: Choice, r: (Shared, PC))
    requires Names(s) && Held(s, t, pc) && Act(cfg, t, s, pc, ch) == Some(r)
    ensures Balanced(s, pc, r.0, r.1)
  {
    if pc.Create? && !MovesPermit(pc) {
      PermitsStayCreate(cfg, s, t, pc.p, pc.cs, ch, r);
    } else if !MovesPermit(pc) {
      PermitsStay(cfg, s, t, pc, ch, r);
    } else if pc.Create? && (pc.cs.Acquire? || pc.cs.Name? || pc.cs.Promote?) {
      PermitsTaken(cfg, s, t, pc.p, pc.cs, ch, r);
    } else {
      PermitsReturned(cfg, s, t, pc, ch, r);
    }
  }

  lemma SlotBalance(cfg: Config, s: Shared, t: Tid, pc: PC, ch: Choice, r: (Shared, PC))
    requires Held(s, t, pc) && Act(cfg, t, s, pc, ch) == Some(r) && !pc.Create?
    ensures r.0.running + Indicator(InExecution(pc)) == s.running + Indicator(InExecution(r.1))
    ensures s.running <= cfg.slots ==> r.0.running <= cfg.slots
  {
  }

  lemma SlotBalanceCreate(cfg: Config, s: Shared, t: Tid, p: Purpose, cs: CreateStage, ch: Choice, r: (Shared, PC))
    requires CreateHeld(s, t, cs) && ActCreate(cfg, t, s, p, cs, ch) == Some(r)
    ensures r.0.running == s.running && InExecution(Create(p, cs)) == InExecution(r.1)
  {
  }

  /** Executions that may account for one permit. */
  predicate Carries(pc: PC) {
    && Engaged(pc)
    && (pc.Exec? ==> !pc.x.Decide?)
    && (pc.Create? ==> !pc.cs.Enter? && !pc.cs.Check? && !pc.cs.Acquire?)
    && (pc.Clean? ==> pc.ks != Exit(true) || pc.a != Released)
  }

  /** Initialised, not degraded, not shutting down. */
  ghost predicate Healthy(s: Shared) {
    s.mgr.initialized && !s.mgr.degraded && !s.mgr.shuttingDown
  }

  lemma PoolBalance(cfg: Config, s: Shared, t: Tid, pc: PC, ch: Choice, r: (Shared, PC))
    requires Before(cfg, s, t, pc, ch, r) && !pc.Create?
    requires cfg.gated && cfg.slots <= cfg.size && Healthy(s) && Healthy(r.0)
    ensures |r.0.mgr.pool| + Indicator(Engaged(r.1)) == |s.mgr.pool| + Indicator(Engaged(pc))
    ensures r.0.mgr.permits + |s.mgr.pool| + Indicator(Carries(pc)) <= s.mgr.permits + |r.0.mgr.pool| + Indicator(Carries(r.1))
  {
  }

  lemma PoolBalanceCreate(cfg: Config, s: Shared, t: Tid, p: Purpose, cs: CreateStage, ch: Choice, r: (Shared, PC))
    requires ActCreate(cfg, t, s, p, cs, ch) == Some(r) && Startup(cfg, s, t, Create(p, cs))
    requires cfg.gated && cfg.slots <= cfg.size && Healthy(s)
    ensures r.0.mgr.pool == s.mgr.pool && Engaged(r.1) == Engaged(Create(p, cs))
    ensures r.0.mgr.permits + Indicator(Carries(Create(p, cs))) <= s.mgr.permits + Indicator(Carries(r.1))
  {
  }

  // ----- the invariant of the whole system

  ghost predicate Counted(cfg: Config, s: State) {
    && s.sh.mgr.permits == |s.sh.mgr.managed| + |s.sh.mgr.pending| + |Selected(s.pcs, InTransit)|
    && s.sh.running == |Selected(s.pcs, InExecution)|
    && s.sh.running <= cfg.slots
  }

  ghost predicate Warm(cfg: Config, s: State) {
    cfg.gated && cfg.slots <= cfg.size && Healthy(s.sh) ==>
      |s.sh.mgr.pool| + |Selected(s.pcs, Engaged)| == cfg.size
  }

  /** A healthy pool never runs short of permits: every taken permit is a warm sandbox or in an execution's hands. */
  ghost predicate Covered(cfg: Config, s: State) {
    cfg.gated && cfg.slots <= cfg.size && Healthy(s.sh) ==>
      s.sh.mgr.permits <= |s.sh.mgr.pool| + |Selected(s.pcs, Carries)|
  }

  ghost predicate Inv(cfg: Config, s: State) {
    && Global(cfg, s.sh)
    && (forall t :: t in s.pcs ==> Local(cfg, s.sh, t, s.pcs[t]))
    && (s.sh.createLock.Some? ==> s.sh.createLock.value in s.pcs)
    && (s.sh.cleanupLock.Some? ==> s.sh.cleanupLock.value in s.pcs)
    && Counted(cfg, s)
    && Warm(cfg, s)
    && Covered(cfg, s)
  }

  lemma InitInv(cfg: Config, s: State)
    requires Init(s)
    ensures Inv(cfg, s)
  {
    assert Selected(s.pcs, InTransit) == {};
    assert Selected(s.pcs, InExecution) == {};
  }

  /** An execution that has its slot but no sandbox leaves at least one sandbox in a healthy pool. */
  lemma LeaseFindsPool(cfg: Config, s: State, t: Tid)
    requires Counted(cfg, s) && Warm(cfg, s) && t in s.pcs && s.pcs[t] == Exec(Lease)
    requires cfg.gated && cfg.slots <= cfg.size && Healthy(s.sh)
    ensures s.sh.mgr.pool != []
  {
    var engaged, executing := Selected(s.pcs, Engaged), Selected(s.pcs, InExecution);
    assert t in executing && t !in engaged;
    SubsetSize(engaged, executing - {t});
  }

  lemma CreateStep(cfg: Config, s: Shared, t: Tid, pc: PC, ch: Choice, r: (Shared, PC))
    requires Before(cfg, s, t, pc, ch, r) && pc.Create?
    ensures Global(cfg, r.0) && Local(cfg, r.0, t, r.1)
  {
    var cs := pc.cs;
    if cs.Enter? || cs.Check? || cs.Acquire? || cs.Name? {
      Prepare_G(cfg, s, t, pc, ch, r); Prepare_L(cfg, s, t, pc, ch, r);
    } else if cs.Call? || cs.Validate? || cs.Promote? {
      Issue_G(cfg, s, t, pc, ch, r); Issue_L(cfg, s, t, pc, ch, r);
    } else if cs.Start? || cs.Limits? || cs.Return? || cs.Raise? {
      Started_G(cfg, s, t, pc, ch, r); Started_L(cfg, s, t, pc, ch, r);
    } else {
      Lost_G(cfg, s, t, pc, ch, r); Lost_L(cfg, s, t, pc, ch, r);
    }
  }

  lemma CleanStep(cfg: Config, s: Shared, t: Tid, pc: PC, ch: Choice, r: (Shared, PC))
    requires Before(cfg, s, t, pc, ch, r) && pc.Clean?
    ensures Global(cfg, r.0) && Local(cfg, r.0, t, r.1)
  {
    if pc.ks.Take? || pc.ks.Kill? || pc.ks.Remove? {
      CleanIn_G(cfg, s, t, pc, ch, r); CleanIn_L(cfg, s, t, pc, ch, r);
    } else {
      CleanOut_G(cfg, s, t, pc, ch, r); CleanOut_L(cfg, s, t, pc, ch, r);
    }
  }

  lemma SweepStep(cfg: Config, s: Shared, t: Tid, pc: PC, ch: Choice, r: (Shared, PC))
    requires Before(cfg, s, t, pc, ch, r) && pc.Sweeping?
    ensures Global(cfg, r.0) && Local(cfg, r.0, t, r.1)
  {
    if pc.ws.Snapshot? || pc.ws.Copy? || pc.ws.Loop? {
      SweepLoop_G(cfg, s, t, pc, ch, r); SweepLoop_L(cfg, s, t, pc, ch, r);
    } else {
      SweepName_G(cfg, s, t, pc, ch, r); SweepName_L(cfg, s, t, pc, ch, r);
    }
  }

  lemma GlobalLocalStep(cfg: Config, s: Shared, t: Tid, pc: PC, ch: Choice, r: (Shared, PC))
    requires Before(cfg, s, t, pc, ch, r)
    ensures Global(cfg, r.0) && Local(cfg, r.0, t, r.1)
  {
    match pc {
      case Exec(x) => Exec_G(cfg, s, t, pc, ch, r); Exec_L(cfg, s, t, pc, ch, r);
      case Add(p, c) => Add_G(cfg, s, t, pc, ch, r); Add_L(cfg, s, t, pc, ch, r);
      case Shut(_, _) => Shut_G(cfg, s, t, pc, ch, r); Shut_L(cfg, s, t, pc, ch, r);
      case Create(_, _) => CreateStep(cfg, s, t, pc, ch, r);
      case Clean(_, _, _) => CleanStep(cfg, s, t, pc, ch, r);
      case Sweeping(_, _) => SweepStep(cfg, s, t, pc, ch, r);
      case _ => Idle_G(cfg, s, t, pc, ch, r); Idle_L(cfg, s, t, pc, ch, r);
    }
  }

  lemma InterferenceStep(cfg: Config, s: Shared, t: Tid, pc: PC, ch: Choice, r: (Shared, PC), u: Tid)
    requires Before(cfg, s, t, pc, ch, r) && t != u
    ensures Interference(cfg, s, t, r.0, u)
  {
    match pc {
      case Idle => Idle_I(cfg, s, t, pc, ch, r, u);
      case InitFinish => Idle_I(cfg, s, t, pc, ch, r, u);
      case Exec(x) => Exec_I(cfg, s, t, pc, ch, r, u);
      case Add(p, c) => Add_I(cfg, s, t, pc, ch, r, u);
      case Shut(_, _) => Shut_I(cfg, s, t, pc, ch, r, u);
      case Create(_, cs) =>
        if cs.Enter? || cs.Check? || cs.Acquire? || cs.Name? {
          Prepare_I(cfg, s, t, pc, ch, r, u);
        } else if cs.Call? || cs.Validate? || cs.Promote? {
          Issue_I(cfg, s, t, pc, ch, r, u);
        } else if cs.Start? || cs.Limits? || cs.Return? || cs.Raise? {
          Started_I(cfg, s, t, pc, ch, r, u);
        } else {
          Lost_I(cfg, s, t, pc, ch, r, u);
        }
      case Clean(_, _, ks) =>
        if ks.Take? || ks.Kill? || ks.Remove? {
          CleanIn_I(cfg, s, t, pc, ch, r, u);
        } else {
          CleanOut_I(cfg, s, t, pc, ch, r, u);
        }
      case Sweeping(_, ws) =>
        if ws.Snapshot? || ws.Copy? || ws.Loop? {
          SweepLoop_I(cfg, s, t, pc, ch, r, u);
        } else {
          SweepName_I(cfg, s, t, pc, ch, r, u);
        }
    }
  }

  /** Only `begin_shutdown`'s lock section starts a shutdown, and it holds the create lock. */
  lemma ShutdownNeedsCreateLock(cfg: Config, s: Shared, t: Tid, pc: PC, ch: Choice, r: (Shared, PC))
    requires Act(cfg, t, s, pc, ch) == Some(r) && Locks(s, t, pc)
    requires !s.mgr.shuttingDown && r.0.mgr.shuttingDown
    ensures s.createLock == Some(t)
  {
  }

  /** A waiting thread keeps what it knows. */
  lemma OtherStep(cfg: Config, s: Shared, t: Tid, pc: PC, ch: Choice, r: (Shared, PC), u: Tid, pcu: PC)
    requires Before(cfg, s, t, pc, ch, r) && t != u && Local(cfg, s, u, pcu)
    ensures Local(cfg, r.0, u, pcu)
  {
    InterferenceStep(cfg, s, t, pc, ch, r, u);
    if !s.mgr.shuttingDown && r.0.mgr.shuttingDown { ShutdownNeedsCreateLock(cfg, s, t, pc, ch, r); }
    FrameLocks(cfg, s, t, r.0, u, pcu);
    FrameHeld(cfg, s, t, r.0, u, pcu);
    FrameStartup(cfg, s, t, r.0, u, pcu);
  }

  /** What a step of a thread starts from. */
  lemma StepBegins(cfg: Config, s: State, t: Tid, ch: Choice, s': State)
    requires Inv(cfg, s) && ThreadStep(cfg, s, t, ch, s')
    ensures Before(cfg, s.sh, t, s.pcs[t], ch, Act(cfg, t, s.sh, s.pcs[t], ch).value)
  {
    assert Local(cfg, s.sh, t, s.pcs[t]);
    if s.pcs[t] == Exec(Lease) && cfg.gated && cfg.slots <= cfg.size && Healthy(s.sh) { LeaseFindsPool(cfg, s, t); }
  }

  lemma LocalsStep(cfg: Config, s: State, t: Tid, ch: Choice, s': State)
    requires Inv(cfg, s) && ThreadStep(cfg, s, t, ch, s')
    ensures WarmAt(cfg, s.sh, s.pcs[t]) && Global(cfg, s'.sh)
    ensures forall u :: u in s'.pcs ==> Local(cfg, s'.sh, u, s'.pcs[u])
    ensures s'.sh.createLock.Some? ==> s'.sh.createLock.value in s'.pcs
    ensures s'.sh.cleanupLock.Some? ==> s'.sh.cleanupLock.value in s'.pcs
  {
    var pc, r := s.pcs[t], Act(cfg, t, s.sh, s.pcs[t], ch).value;
    StepBegins(cfg, s, t, ch, s');
    GlobalLocalStep(cfg, s.sh, t, pc, ch, r);
    forall u | u in s'.pcs ensures Local(cfg, s'.sh, u, s'.pcs[u]) {
      if u != t {
        assert Local(cfg, s.sh, u, s.pcs[u]);
        OtherStep(cfg, s.sh, t, pc, ch, r, u, s.pcs[u]);
      }
    }
    LockOwners(cfg, s.sh, t, pc, ch, r);
  }

  lemma LockOwners(cfg: Config, s: Shared, t: Tid, pc: PC, ch: Choice, r: (Shared, PC))
    requires Act(cfg, t, s, pc, ch) == Some(r)
    ensures r.0.createLock == s.createLock || r.0.createLock == None || r.0.createLock == Some(t)
    ensures r.0.cleanupLock == s.cleanupLock || r.0.cleanupLock == None || r.0.cleanupLock == Some(t)
  {
  }

  lemma CountedStep(cfg: Config, s: State, t: Tid, ch: Choice, s': State)
    requires Inv(cfg, s) && ThreadStep(cfg, s, t, ch, s')
    ensures Counted(cfg, s')
  {
    var pc, r := s.pcs[t], Act(cfg, t, s.sh, s.pcs[t], ch).value;
    assert Local(cfg, s.sh, t, pc);
    SelectedUpdate(s.pcs, t, r.1, InTransit);
    SelectedUpdate(s.pcs, t, r.1, InExecution);
    PermitBalance(cfg, s.sh, t, pc, ch, r);
    if pc.Create? {
      SlotBalanceCreate(cfg, s.sh, t, pc.p, pc.cs, ch, r);
    } else {
      SlotBalance(cfg, s.sh, t, pc, ch, r);
    }
  }

  /** A healthy state is entered only by the end of startup, when the pool is full and nothing executes. */
  lemma BecomesHealthy(cfg: Config, s: Shared, t: Tid, pc: PC, ch: Choice, r: (Shared, PC))
    requires Act(cfg, t, s, pc, ch) == Some(r) && Startup(cfg, s, t, pc)
    requires cfg.gated && !Healthy(s) && Healthy(r.0)
    ensures pc.InitFinish? && r.1.Idle? && |r.0.mgr.pool| == cfg.size && !s.mgr.initialized && r.0.mgr.permits == s.mgr.permits
  {
  }

  lemma WarmStep(cfg: Config, s: State, t: Tid, ch: Choice, s': State)
    requires Inv(cfg, s) && ThreadStep(cfg, s, t, ch, s') && WarmAt(cfg, s.sh, s.pcs[t])
    ensures Warm(cfg, s') && Covered(cfg, s')
  {
    var pc, r := s.pcs[t], Act(cfg, t, s.sh, s.pcs[t], ch).value;
    assert Local(cfg, s.sh, t, pc);
    if cfg.gated && cfg.slots <= cfg.size && Healthy(r.0) {
      if Healthy(s.sh) {
        SelectedUpdate(s.pcs, t, r.1, Engaged);
        SelectedUpdate(s.pcs, t, r.1, Carries);
        if pc.Create? {
          PoolBalanceCreate(cfg, s.sh, t, pc.p, pc.cs, ch, r);
        } else {
          PoolBalance(cfg, s.sh, t, pc, ch, r);
        }
      } else {
        BecomesHealthy(cfg, s.sh, t, pc, ch, r);
        forall u | u in s'.pcs ensures !Engaged(s'.pcs[u]) {
          assert u != t ==> Local(cfg, s.sh, u, s.pcs[u]);
        }
        assert Selected(s'.pcs, Engaged) == {} == Selected(s'.pcs, Carries);
      }
    }
  }

  lemma DaemonFrame(cfg: Config, s: Shared, c: Cid, s': Shared, u: Tid, pc: PC)
    requires Global(cfg, s) && Local(cfg, s, u, pc)
    requires s' == s.(late := s'.late, alive := s'.alive) && s'.late <= s.late && s'.alive <= s.alive + s.late
    ensures Local(cfg, s', u, pc)
  {
    assert Interference(cfg, s, u + 1, s', u);
    FrameLocks(cfg, s, u + 1, s', u, pc);
    FrameHeld(cfg, s, u + 1, s', u, pc);
    FrameStartup(cfg, s, u + 1, s', u, pc);
  }

  lemma DaemonInv(cfg: Config, s: State, c: Cid, s': State)
    requires Inv(cfg, s) && DaemonStep(s, c, s')
    ensures Inv(cfg, s')
  {
    assert Global(cfg, s'.sh);
    forall u | u in s'.pcs ensures Local(cfg, s'.sh, u, s'.pcs[u]) {
      DaemonFrame(cfg, s.sh, c, s'.sh, u, s.pcs[u]);
    }
    assert Counted(cfg, s') && Warm(cfg, s') && Covered(cfg, s');
  }

  lemma InvStep(cfg: Config, s: State, s': State)
    requires Inv(cfg, s) && Next(cfg, s, s')
    ensures Inv(cfg, s')
  {
    if c :| DaemonStep(s, c, s') {
      DaemonInv(cfg, s, c, s');
    } else {
      var t, ch :| ThreadStep(cfg, s, t, ch, s');
      LocalsStep(cfg, s, t, ch, s');
      CountedStep(cfg, s, t, ch, s');
      WarmStep(cfg, s, t, ch, s');
    }
  }

  lemma RunNext(cfg: Config, run: seq<State>, i: nat)
    requires Run(cfg, run) && i + 1 < |run|
    ensures Next(cfg, run[i], run[i + 1])
  {
    assert StepAt(cfg, run, i);
  }

  lemma {:induction false} RunInv(cfg: Config, run: seq<State>, i: nat)
    requires Run(cfg, run) && i < |run|
    ensures Inv(cfg, run[i])
  {
    if i == 0 {
      InitInv(cfg, run[0]);
    } else {
      RunInv(cfg, run, i - 1);
      RunNext(cfg, run, i - 1);
      InvStep(cfg, run[i - 1], run[i]);
    }
  }
}
