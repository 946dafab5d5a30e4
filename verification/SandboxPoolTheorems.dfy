// The guarantees of the sandbox pool, read off the invariant: hard capacity, a warm sandbox for
// every execution slot, at most one lease per sandbox, clean shutdown, and no deadlock.
module SandboxPoolTheorems {
  import opened Prelude
  import opened SandboxPool
  import opened SandboxPoolInvariant
  import opened SandboxPoolSafety

  // ----- hard capacity and tracking

  /** Permits are exactly the books plus what threads carry, and everything on the daemon is on the books. */
  lemma HardCapacity(cfg: Config, run: seq<State>, i: nat)
    requires Run(cfg, run) && i < |run|
    ensures var s := run[i]; var m := s.sh.mgr;
            && m.permits == |m.managed| + |m.pending| + |Selected(s.pcs, InTransit)| <= cfg.size
            && s.sh.alive + s.sh.late <= m.managed + m.pending + s.sh.abandoned
            && |s.sh.alive + s.sh.late| <= cfg.size + |s.sh.abandoned|
            && (!m.shuttingDown ==> s.sh.abandoned == {} && |s.sh.alive + s.sh.late| <= cfg.size)
  {
    RunInv(cfg, run, i);
    var s := run[i].sh;
    var booked := s.mgr.managed + s.mgr.pending;
    assert |booked| == |s.mgr.managed| + |s.mgr.pending|;
    assert |booked + s.abandoned| <= |booked| + |s.abandoned|;
    SubsetSize(s.alive + s.late, booked + s.abandoned);
  }

  /** Only a sweep that accepts a missing uncertain name can lose track of a container. */
  lemma OnlySweepAbandons(cfg: Config, s: State, t: Tid, ch: Choice, s': State)
    requires ThreadStep(cfg, s, t, ch, s') && s'.sh.abandoned != s.sh.abandoned
    ensures s.pcs[t].Sweeping? && s.pcs[t].ws.NameForget?
    ensures s.pcs[t].ws.c in s.sh.mgr.pending && s.pcs[t].ws.c in s.sh.alive + s.sh.late
    ensures s'.sh.abandoned == s.sh.abandoned + {s.pcs[t].ws.c}
  {
    var pc := s.pcs[t];
    if pc.Sweeping? && pc.ws.NameForget? {
      var c := pc.ws.c;
      assert {c} * (s.sh.alive + s.sh.late) == if c in s.sh.alive + s.sh.late then {c} else {};
      assert s.sh.abandoned + {} == s.sh.abandoned;
    }
  }

  /** A semaphore release never goes over its bound, and an execution slot is only returned when one is taken. */
  lemma ReleasesAreOwned(cfg: Config, run: seq<State>, i: nat, t: Tid)
    requires Run(cfg, run) && i < |run| && t in run[i].pcs
    ensures InTransit(run[i].pcs[t]) ==> run[i].sh.mgr.permits >= 1
    ensures InExecution(run[i].pcs[t]) ==> run[i].sh.running >= 1
  {
    RunInv(cfg, run, i);
    if InTransit(run[i].pcs[t]) { SubsetSize({t}, Selected(run[i].pcs, InTransit)); }
    if InExecution(run[i].pcs[t]) { SubsetSize({t}, Selected(run[i].pcs, InExecution)); }
  }

  // ----- the warm pool

  /** With no more slots than sandboxes, a healthy pool and the engaged executions always add up to its size. */
  lemma PoolAddsUp(cfg: Config, run: seq<State>, i: nat)
    requires Run(cfg, run) && i < |run| && cfg.gated && cfg.slots <= cfg.size && Healthy(run[i].sh)
    ensures |run[i].sh.mgr.pool| + |Selected(run[i].pcs, Engaged)| == cfg.size
  {
    RunInv(cfg, run, i);
  }

  /** So `get_container` pops a warm sandbox. */
  lemma LeaseIsWarm(cfg: Config, run: seq<State>, i: nat, t: Tid, ch: Choice)
    requires Run(cfg, run) && i < |run| && cfg.gated && cfg.slots <= cfg.size && Healthy(run[i].sh)
    requires t in run[i].pcs && run[i].pcs[t] == Exec(Lease)
    ensures run[i].sh.mgr.pool != []
    ensures Act(cfg, t, run[i].sh, run[i].pcs[t], ch).Some?
    ensures Act(cfg, t, run[i].sh, run[i].pcs[t], ch).value.1 == Exec(Running(run[i].sh.mgr.pool[0]))
  {
    RunInv(cfg, run, i);
    LeaseFindsPool(cfg, run[i], t);
  }

  /** Neither the lease nor the replenishment of an execution meets the capacity error while the pool is healthy. */
  lemma NoCapacityError(cfg: Config, run: seq<State>, i: nat, t: Tid, ch: Choice)
    requires Run(cfg, run) && i < |run| && cfg.gated && cfg.slots <= cfg.size && Healthy(run[i].sh)
    requires t in run[i].pcs && InExecution(run[i].pcs[t])
    ensures PurposeOf(run[i].pcs[t]) != Some(ForLease)
    ensures run[i].pcs[t] == Create(ForReplenish, Acquire) ==>
              && Act(cfg, t, run[i].sh, run[i].pcs[t], ch).Some?
              && Act(cfg, t, run[i].sh, run[i].pcs[t], ch).value.1 == Create(ForReplenish, Name)
  {
    RunInv(cfg, run, i);
    var s := run[i];
    assert Local(cfg, s.sh, t, s.pcs[t]);
    if s.pcs[t] == Create(ForReplenish, Acquire) {
      var carrying, engaged := Selected(s.pcs, Carries), Selected(s.pcs, Engaged);
      assert t in engaged && t !in carrying;
      SubsetSize(carrying, engaged - {t});
    }
  }

  /** Readiness means full capacity on the books and no permit in a thread's hand. */
  lemma ReadyIsComplete(cfg: Config, run: seq<State>, i: nat)
    requires Run(cfg, run) && i < |run| && run[i].sh.mgr.Ready(cfg.size)
    ensures Healthy(run[i].sh) && run[i].sh.mgr.permits == cfg.size
    ensures forall t :: t in run[i].pcs ==> !InTransit(run[i].pcs[t])
  {
    RunInv(cfg, run, i);
    var carriers := Selected(run[i].pcs, InTransit);
    assert forall t :: t in run[i].pcs && InTransit(run[i].pcs[t]) ==> t in carriers;
    assert |carriers| == 0;
  }

  // ----- shutdown

  ghost predicate OnlyShrinks(s: Shared, s': Shared) {
    s.mgr.shuttingDown ==>
      && s'.mgr.shuttingDown
      && |s'.life| == |s.life|
      && s'.mgr.managed <= s.mgr.managed
      && s'.mgr.pending <= s.mgr.pending
  }

  lemma ShutdownStep(cfg: Config, s: State, s': State)
    requires Inv(cfg, s) && Next(cfg, s, s')
    ensures OnlyShrinks(s.sh, s'.sh)
  {
    if t, ch :| ThreadStep(cfg, s, t, ch, s') {
      assert Local(cfg, s.sh, t, s.pcs[t]);
      var pc, r := s.pcs[t], Act(cfg, t, s.sh, s.pcs[t], ch).value;
      if pc.Create? {
        assert CreateHeld(s.sh, t, pc.cs);
      } else {
        PermitsOnlyFall(cfg, s.sh, t, pc, ch, r);
      }
    }
  }

  lemma PermitsOnlyFall(cfg: Config, s: Shared, t: Tid, pc: PC, ch: Choice, r: (Shared, PC))
    requires !pc.Create? && Act(cfg, t, s, pc, ch) == Some(r)
    ensures OnlyShrinks(s, r.0)
  {
  }

  /** From the lock section of `begin_shutdown` on: no name is generated, nothing is registered, nothing is pooled. */
  lemma {:induction false} NothingAfterShutdown(cfg: Config, run: seq<State>, i: nat, j: nat)
    requires Run(cfg, run) && i <= j < |run| && run[i].sh.mgr.shuttingDown
    ensures OnlyShrinks(run[i].sh, run[j].sh) && run[j].sh.mgr.pool == []
    decreases j
  {
    if i < j {
      NothingAfterShutdown(cfg, run, i, j - 1);
      ShrinksNext(cfg, run, j - 1);
    }
    EmptyAfterShutdown(cfg, run, j);
  }

  lemma ShrinksNext(cfg: Config, run: seq<State>, k: nat)
    requires Run(cfg, run) && k + 1 < |run|
    ensures OnlyShrinks(run[k].sh, run[k + 1].sh)
  {
    RunInv(cfg, run, k);
    RunNext(cfg, run, k);
    ShutdownStep(cfg, run[k], run[k + 1]);
  }

  lemma EmptyAfterShutdown(cfg: Config, run: seq<State>, k: nat)
    requires Run(cfg, run) && k < |run| && run[k].sh.mgr.shuttingDown
    ensures run[k].sh.mgr.pool == []
  {
    RunInv(cfg, run, k);
  }

  /** No thread is about to issue a Docker create once a shutdown has begun. */
  lemma NoCreateDuringShutdown(cfg: Config, run: seq<State>, i: nat, t: Tid)
    requires Run(cfg, run) && i < |run| && t in run[i].pcs && run[i].sh.mgr.shuttingDown
    ensures !(run[i].pcs[t].Create? && run[i].pcs[t].cs.Call?)
  {
    RunInv(cfg, run, i);
    assert Local(cfg, run[i].sh, t, run[i].pcs[t]);
  }

  /** After a finished `shutdown_pool` only its own failures can remain; at rest every permit and slot is back. */
  lemma SweepIsComplete(cfg: Config, run: seq<State>, i: nat, j: nat)
    requires Run(cfg, run) && i <= j < |run| && run[i].sh.swept.Some?
    ensures run[j].sh.mgr.managed + run[j].sh.mgr.pending <= run[i].sh.swept.value
    ensures run[i].sh.swept.value == {} ==>
              && run[j].sh.mgr.managed == {} == run[j].sh.mgr.pending
              && run[j].sh.alive + run[j].sh.late <= run[j].sh.abandoned
    ensures run[i].sh.swept.value == {} && (forall t :: t in run[j].pcs ==> run[j].pcs[t] == Idle) ==>
              run[j].sh.mgr.permits == 0 == run[j].sh.running
  {
    RunInv(cfg, run, i);
    RunInv(cfg, run, j);
    NothingAfterShutdown(cfg, run, i, j);
    if forall t :: t in run[j].pcs ==> run[j].pcs[t] == Idle {
      assert Selected(run[j].pcs, InTransit) == {} == Selected(run[j].pcs, InExecution);
    }
  }

  // ----- one lease per sandbox

  function Rank(l: Life): nat {
    match l
    case Building(_) => 0
    case Pooled => 1
    case Leased(_) => 2
    case Spent => 3
  }

  ghost predicate Ages(s: Shared, s': Shared) {
    && |s.life| <= |s'.life|
    && forall c: Cid :: c < |s.life| ==> s'.life[c] == s.life[c] || Rank(s.life[c]) < Rank(s'.life[c])
  }

  lemma AgesExec(cfg: Config, s: Shared, t: Tid, pc: PC, ch: Choice, r: (Shared, PC))
    requires Pool(s) && Held(s, t, pc) && Act(cfg, t, s, pc, ch) == Some(r) && !pc.Create?
    ensures Ages(s, r.0)
  {
    if pc.Exec? && pc.x.Lease? && s.mgr.pool != [] { assert s.mgr.pool[0] in s.mgr.pool; }
  }

  lemma AgesCreate(cfg: Config, s: Shared, t: Tid, p: Purpose, cs: CreateStage, ch: Choice, r: (Shared, PC))
    requires CreateHeld(s, t, cs) && ActCreate(cfg, t, s, p, cs, ch) == Some(r)
    ensures Ages(s, r.0)
  {
  }

  lemma AgesStep(cfg: Config, s: State, s': State)
    requires Inv(cfg, s) && Next(cfg, s, s')
    ensures Ages(s.sh, s'.sh)
  {
    if t, ch :| ThreadStep(cfg, s, t, ch, s') {
      assert Local(cfg, s.sh, t, s.pcs[t]);
      if s.pcs[t].Create? {
        AgesCreate(cfg, s.sh, t, s.pcs[t].p, s.pcs[t].cs, ch, Act(cfg, t, s.sh, s.pcs[t], ch).value);
      } else {
        AgesExec(cfg, s.sh, t, s.pcs[t], ch, Act(cfg, t, s.sh, s.pcs[t], ch).value);
      }
    }
  }

  lemma AgesTransitive(a: Shared, b: Shared, c: Shared)
    requires Ages(a, b) && Ages(b, c)
    ensures Ages(a, c)
  {
  }

  lemma {:induction false} LifeOnlyAges(cfg: Config, run: seq<State>, i: nat, j: nat)
    requires Run(cfg, run) && i <= j < |run|
    ensures Ages(run[i].sh, run[j].sh)
    decreases j
  {
    if i < j {
      LifeOnlyAges(cfg, run, i, j - 1);
      RunInv(cfg, run, j - 1);
      RunNext(cfg, run, j - 1);
      AgesStep(cfg, run[j - 1], run[j]);
      AgesTransitive(run[i].sh, run[j - 1].sh, run[j].sh);
    }
  }

  ghost predicate LeasedInStep(s: Shared, s': Shared, c: Cid) {
    c < |s'.life| && s'.life[c].Leased? && (c < |s.life| ==> !s.life[c].Leased?)
  }

  /** Over a whole run a sandbox is handed to an execution at most once. */
  lemma LeasedAtMostOnce(cfg: Config, run: seq<State>, i: nat, j: nat, c: Cid)
    requires Run(cfg, run) && i < j < |run| - 1
    requires LeasedInStep(run[i].sh, run[i + 1].sh, c)
    ensures !LeasedInStep(run[j].sh, run[j + 1].sh, c)
  {
    LifeOnlyAges(cfg, run, i + 1, j);
    LifeOnlyAges(cfg, run, j, j + 1);
  }

  /** From the lease to the end of the release the thread has this sandbox. */
  predicate Has(pc: PC, c: Cid) { pc == Exec(Running(c)) || (pc.Clean? && pc.a == Released && pc.c == c) }

  /** Any use of a sandbox: its creation, its first place in the pool, its execution or its clean-up, except by a sweep. */
  predicate Uses(pc: PC, c: Cid) {
    || Has(pc, c)
    || (pc.Add? && pc.c == c)
    || (pc.Clean? && !pc.a.Swept? && pc.c == c)
    || (pc.Create? && CreatesAs(pc.cs, c))
  }

  predicate CreatesAs(cs: CreateStage, c: Cid) {
    cs in {Call(c), Validate(c), Promote(c), CreateStage.Start(c), CreateStage.Limits(c), Return(c)}
    || cs in {LostEnter(c), LostGet(c), LostRemove(c), LostForget(c)}
  }

  /** Until it has released its sandbox an execution is the only user, shutdown aside, and no warm sandbox has been used. */
  lemma UsersAreExclusive(cfg: Config, run: seq<State>, i: nat, t: Tid, c: Cid)
    requires Run(cfg, run) && i < |run| && t in run[i].pcs && Has(run[i].pcs[t], c)
    ensures c !in run[i].sh.mgr.pool
    ensures forall u :: u in run[i].pcs && u != t ==> !Uses(run[i].pcs[u], c)
    ensures forall x, y :: 0 <= x < y < |run[i].sh.mgr.pool| ==> run[i].sh.mgr.pool[x] != run[i].sh.mgr.pool[y]
  {
    RunInv(cfg, run, i);
    assert Local(cfg, run[i].sh, t, run[i].pcs[t]);
    forall u | u in run[i].pcs && u != t ensures !Uses(run[i].pcs[u], c) {
      assert Local(cfg, run[i].sh, u, run[i].pcs[u]);
      if Uses(run[i].pcs[u], c) { LifeOfUse(run[i].sh, u, run[i].pcs[u], c); }
    }
  }

  /** Who uses a sandbox is what its history says, or it is spent. */
  lemma LifeOfUse(s: Shared, u: Tid, pc: PC, c: Cid)
    requires Held(s, u, pc) && Uses(pc, c)
    ensures c < |s.life| && s.life[c] in {Building(u), Leased(u), Spent}
  {
    if pc.Create? { assert CreateHeld(s, u, pc.cs); }
  }

  // ----- no deadlock

  ghost predicate CanStep(cfg: Config, s: Shared, t: Tid, pc: PC) {
    exists ch :: Act(cfg, t, s, pc, ch).Some?
  }

  lemma CleanupHolderSteps(cfg: Config, s: Shared, t: Tid, pc: PC)
    requires HoldsCleanup(pc) && (InTransit(pc) ==> s.mgr.permits >= 1)
    ensures CanStep(cfg, s, t, pc)
  {
    assert Act(cfg, t, s, pc, Choice(Execute, Ok, false, 0)).Some?;
  }

  lemma FreeCleanupSteps(cfg: Config, s: Shared, t: Tid, pc: PC)
    requires s.cleanupLock == None && pc != Idle && !HoldsCleanup(pc)
    requires s.createLock == None || HoldsCreate(pc)
    requires InTransit(pc) ==> s.mgr.permits >= 1
    requires InExecution(pc) ==> s.running >= 1
    requires Locks(s, t, pc)
    ensures CanStep(cfg, s, t, pc)
  {
    var pick: Cid :=
      if pc.Shut? && pc.ss.Each? && pc.ss.rest != {} then var c: Cid :| c in pc.ss.rest; c
      else if pc.Sweeping? && pc.sw.rest != {} then var c: Cid :| c in pc.sw.rest; c
      else if pc.Sweeping? && pc.sw.names != {} then var c: Cid :| c in pc.sw.names; c
      else 0;
    assert Act(cfg, t, s, pc, Choice(Execute, Ok, false, pick)).Some?;
  }

  /** Whenever some thread is busy, some busy thread can move: the two locks and the semaphore never deadlock. */
  lemma NoDeadlock(cfg: Config, run: seq<State>, i: nat, t: Tid)
    requires Run(cfg, run) && i < |run| && t in run[i].pcs && run[i].pcs[t] != Idle
    ensures exists u :: u in run[i].pcs && run[i].pcs[u] != Idle && CanStep(cfg, run[i].sh, u, run[i].pcs[u])
  {
    RunInv(cfg, run, i);
    var s := run[i];
    var u := if s.sh.cleanupLock.Some? then s.sh.cleanupLock.value
             else if s.sh.createLock.Some? then s.sh.createLock.value else t;
    assert Local(cfg, s.sh, u, s.pcs[u]);
    ReleasesAreOwned(cfg, run, i, u);
    if s.sh.cleanupLock.Some? {
      CleanupHolderSteps(cfg, s.sh, u, s.pcs[u]);
    } else {
      FreeCleanupSteps(cfg, s.sh, u, s.pcs[u]);
    }
    assert CanStep(cfg, s.sh, u, s.pcs[u]);
  }
}
