// What the operations of the pool achieve when Docker works and no other thread is in their way, and
// what exactly leads to a degraded pool.
module SandboxPoolProgress {
  import opened Prelude
  import opened SandboxPool
  import opened SandboxPoolInvariant
  import opened SandboxPoolSafety
  import opened SandboxPoolTheorems
  import opened SandboxPoolStartup

  // ----- where the steps of an execution come from

  /** What makes a thread mark the pool degraded: a failed removal, or a failed create; not missing capacity on a lease. */
  predicate LeadsToDegrade(pc: PC) {
    || (pc.Clean? && pc.a == Released && pc.ks == Exit(false))
    || pc == Create(ForLease, Raise(false))
    || pc == Create(ForReplenish, Raise(false)) || pc == Create(ForReplenish, Raise(true))
    || (pc.Clean? && (pc.a == AddRejected(ForLease) || pc.a == AddRejected(ForReplenish)) && pc.ks.Exit?)
  }

  /** Where a thread comes from that is about to mark the pool, to decide on a replacement, or to create one. */
  lemma ComesFrom(cfg: Config, s: Shared, t: Tid, pc: PC, ch: Choice, r: (Shared, PC))
    requires Act(cfg, t, s, pc, ch) == Some(r)
    ensures r.1 == Exec(Degrade) <==> LeadsToDegrade(pc)
    ensures r.1 == Exec(Decide) <==> pc.Clean? && pc.a == Released && pc.ks == Exit(true)
    ensures r.1 == Create(ForReplenish, Enter) <==> pc == Exec(Decide) && !s.mgr.shuttingDown
  {
    if pc.Create? { CreateComesFrom(cfg, s, t, pc, ch, r); }
  }

  lemma CreateComesFrom(cfg: Config, s: Shared, t: Tid, pc: PC, ch: Choice, r: (Shared, PC))
    requires pc.Create? && Act(cfg, t, s, pc, ch) == Some(r)
    ensures r.1 == Exec(Degrade) <==> LeadsToDegrade(pc)
    ensures r.1 != Exec(Decide) && r.1 != Create(ForReplenish, Enter)
  {
  }

  /** A removal fails exactly if Docker's answer says so; the capacity error means that no permit is left. */
  lemma FailsIff(cfg: Config, s: Shared, t: Tid, pc: PC, ch: Choice, r: (Shared, PC))
    requires Act(cfg, t, s, pc, ch) == Some(r)
    ensures pc.Clean? && pc.ks == Remove ==>
              && (r.1 == Clean(pc.a, pc.c, Exit(false)) <==> ch.o != Ok)
              && (r.1 == Clean(pc.a, pc.c, Forget) <==> ch.o == Ok)
              && (ch.o == Ok || ch.o == FailWithEffect ==> pc.c !in r.0.alive)
    ensures pc.Create? && pc.cs == Acquire ==>
              (r.1 == Create(pc.p, Raise(true)) <==> s.mgr.permits >= cfg.size)
    ensures pc.Create? && pc.cs == Check ==>
              (r.1 == Create(pc.p, Raise(false)) <==> s.mgr.shuttingDown || ch.o != Ok)
  {
  }

  /** Only marking degrades, and nothing heals. */
  lemma OnlyMarking(cfg: Config, s: Shared, t: Tid, pc: PC, ch: Choice, r: (Shared, PC))
    requires Act(cfg, t, s, pc, ch) == Some(r)
    ensures r.0.mgr.degraded <==> s.mgr.degraded || (pc == Exec(Degrade) && !s.mgr.shuttingDown)
  {
  }

  /** At step `j` of the run thread `t` marks the pool. */
  ghost predicate Marks(run: seq<State>, j: int, t: Tid) {
    && 0 <= j < |run| - 1 && t in run[j].pcs && t in run[j + 1].pcs
    && run[j].pcs[t] == Exec(Degrade) && run[j + 1].pcs[t] == Exec(Done) && !run[j].sh.mgr.shuttingDown
  }

  /** In every state of every run: the pool is degraded exactly if some thread has marked it before a shutdown. */
  lemma {:induction false} DegradedIff(cfg: Config, run: seq<State>, i: nat)
    requires Run(cfg, run) && i < |run|
    ensures run[i].sh.mgr.degraded <==> exists j, t :: j < i && Marks(run, j, t)
  {
    if i > 0 {
      DegradedIff(cfg, run, i - 1);
      RunNext(cfg, run, i - 1);
      DegradedStep(cfg, run, i - 1);
      if run[i].sh.mgr.degraded && !run[i - 1].sh.mgr.degraded {
        var t :| Marks(run, i - 1, t);
      }
    }
  }

  lemma {:induction false} DegradedStep(cfg: Config, run: seq<State>, j: nat)
    requires Run(cfg, run) && j + 1 < |run|
    ensures run[j + 1].sh.mgr.degraded <==> run[j].sh.mgr.degraded || exists t :: Marks(run, j, t)
  {
    RunNext(cfg, run, j);
    var s, s' := run[j], run[j + 1];
    if t, ch :| ThreadStep(cfg, s, t, ch, s') {
      var r := Act(cfg, t, s.sh, s.pcs[t], ch).value;
      OnlyMarking(cfg, s.sh, t, s.pcs[t], ch, r);
      if s.pcs[t] == Exec(Degrade) && !s.sh.mgr.shuttingDown { assert Marks(run, j, t); }
      if u :| Marks(run, j, u) { assert u == t; }
    }
  }

  /** A thread that is about to mark the pool got there by a step from one of the causes. */
  lemma {:induction false} DegradeHasCause(cfg: Config, run: seq<State>, i: nat, t: Tid) returns (k: nat)
    requires Run(cfg, run) && i < |run| && t in run[i].pcs && run[i].pcs[t] == Exec(Degrade)
    ensures k < i && t in run[k].pcs && LeadsToDegrade(run[k].pcs[t])
    ensures forall j :: k < j <= i ==> t in run[j].pcs && run[j].pcs[t] == Exec(Degrade)
  {
    assert i > 0;
    RunNext(cfg, run, i - 1);
    var s, s' := run[i - 1], run[i];
    if u, ch :| ThreadStep(cfg, s, u, ch, s') {
      if u == t {
        ComesFrom(cfg, s.sh, t, s.pcs[t], ch, Act(cfg, t, s.sh, s.pcs[t], ch).value);
      }
    }
    if LeadsToDegrade(run[i - 1].pcs[t]) {
      k := i - 1;
    } else {
      k := DegradeHasCause(cfg, run, i - 1, t);
    }
  }

  // ----- a release with nothing in its way

  lemma {:induction false} RemoveAlone(cfg: Config, run: seq<State>, t: Tid, a: After, c: Cid, kill: bool) returns (next: seq<State>)
    requires Run(cfg, run) && t in Last(run).pcs && Last(run).pcs[t] == Clean(a, c, Take(kill))
    requires Last(run).sh.cleanupLock == None && c in Last(run).sh.mgr.managed && Last(run).sh.mgr.permits >= 1
    ensures Run(cfg, next)
    ensures var sh, m := Last(run).sh, Last(run).sh.mgr;
            Last(next) == State(
              sh.(cleanupLock := Some(t), alive := sh.alive - {c},
                  mgr := m.(managed := m.managed - {c}, permits := m.permits - 1)),
              Last(run).pcs[t := Clean(a, c, Exit(true))])
  {
    next := Advance(cfg, run, t);
    if kill { next := Advance(cfg, next, t); }
    next := Advance(cfg, next, t);
    next := Advance(cfg, next, t);
    next := Advance(cfg, next, t);
  }

  /** What the invariant gives a thread that begins its release in a healthy state. */
  lemma {:induction false} ReleaseBegins(cfg: Config, run: seq<State>, t: Tid, c: Cid, kill: bool)
    requires Run(cfg, run) && Healthy(Last(run).sh) && t in Last(run).pcs && Last(run).pcs[t] == Clean(Released, c, Take(kill))
    ensures c in Last(run).sh.mgr.managed && c < |Last(run).sh.life| && 1 <= Last(run).sh.mgr.permits <= cfg.size
    ensures Last(run).sh.running >= 1
  {
    ReleaseOwns(cfg, run, t, c, kill);
    HardCapacity(cfg, run, |run| - 1);
    ReleasesAreOwned(cfg, run, |run| - 1, t);
    SubsetSize({c}, Last(run).sh.mgr.managed);
  }

  lemma {:induction false} ReleaseOwns(cfg: Config, run: seq<State>, t: Tid, c: Cid, kill: bool)
    requires Run(cfg, run) && Healthy(Last(run).sh) && t in Last(run).pcs && Last(run).pcs[t] == Clean(Released, c, Take(kill))
    ensures c in Last(run).sh.mgr.managed && c < |Last(run).sh.life|
  {
    RunInv(cfg, run, |run| - 1);
    assert Local(cfg, Last(run).sh, t, Last(run).pcs[t]);
  }

  /** The release removes its container, and the thread is about to decide whether to replace it. */
  lemma ReleaseRemoves(cfg: Config, run: seq<State>, t: Tid, c: Cid, kill: bool) returns (next: seq<State>)
    requires Run(cfg, run) && Healthy(Last(run).sh) && LocksFree(Last(run).sh)
    requires t in Last(run).pcs && Last(run).pcs[t] == Clean(Released, c, Take(kill))
    ensures Run(cfg, next) && Last(run).sh.mgr.permits >= 1
    ensures var sh, m := Last(run).sh, Last(run).sh.mgr;
            Last(next) == State(
              sh.(alive := sh.alive - {c}, life := Mark(sh.life, c, Spent),
                  mgr := m.(managed := m.managed - {c}, permits := m.permits - 1)),
              Last(run).pcs[t := Exec(Decide)])
  {
    ReleaseBegins(cfg, run, t, c, kill);
    next := RemoveAlone(cfg, run, t, Released, c, kill);
    next := Advance(cfg, next, t);
  }

  /**
   * From every reachable healthy state in which the locks are free, a release whose calls all work ends
   * idle with its slot back, and the pool as healthy as before: the used container is gone from Docker
   * and the books, and a new one waits at the end of the pool on the same permit.
   */
  lemma ReleaseReplaces(cfg: Config, run: seq<State>, t: Tid, c: Cid, kill: bool) returns (next: seq<State>)
    requires Run(cfg, run) && Healthy(Last(run).sh) && LocksFree(Last(run).sh)
    requires t in Last(run).pcs && Last(run).pcs[t] == Clean(Released, c, Take(kill))
    ensures Run(cfg, next) && Healthy(Last(next).sh)
    ensures var sh, m, added := Last(run).sh, Last(run).sh.mgr, |Last(run).sh.life|;
            && Last(next).pcs == Last(run).pcs[t := Idle] && LocksFree(Last(next).sh)
            && Last(next).sh.mgr == m.(pool := m.pool + [added], managed := m.managed - {c} + {added})
            && Last(next).sh.alive == sh.alive - {c} + {added} && Last(next).sh.late == sh.late
            && Last(next).sh.running == sh.running - 1
  {
    ReleaseBegins(cfg, run, t, c, kill);
    next := ReleaseRemoves(cfg, run, t, c, kill);
    next := Advance(cfg, next, t);
    next := CreateReturns(cfg, next, t, ForReplenish);
    next := Advance(cfg, next, t);
    next := Advance(cfg, next, t);
    next := Advance(cfg, next, t);
  }

  const REFUSED := Choice(Initialize, Fail, false, 0)

  /** A release whose removal fails leaves container, entry and permit as they are and the pool degraded. */
  lemma FailedReleaseDegrades(cfg: Config, run: seq<State>, t: Tid, c: Cid, kill: bool) returns (next: seq<State>)
    requires Run(cfg, run) && Healthy(Last(run).sh) && LocksFree(Last(run).sh)
    requires t in Last(run).pcs && Last(run).pcs[t] == Clean(Released, c, Take(kill))
    ensures Run(cfg, next)
    ensures Last(next).pcs == Last(run).pcs[t := Idle] && LocksFree(Last(next).sh)
    ensures Last(next).sh.mgr == Last(run).sh.mgr.(degraded := true) && Last(next).sh.alive == Last(run).sh.alive
    ensures Last(next).sh.running == Last(run).sh.running - 1
  {
    ReleaseBegins(cfg, run, t, c, kill);
    next := Advance(cfg, run, t);
    if kill { next := Advance(cfg, next, t); }
    next := Takes(cfg, next, t, REFUSED);
    next := Advance(cfg, next, t);
    next := Advance(cfg, next, t);
    next := Advance(cfg, next, t);
  }

  // ----- a lease, and a create whose answer is lost

  /** A lease takes the first warm container and nothing else; the execution then releases that very container. */
  lemma LeaseTakesFirst(cfg: Config, run: seq<State>, t: Tid, kill: bool) returns (next: seq<State>)
    requires Run(cfg, run) && t in Last(run).pcs && Last(run).pcs[t] == Exec(Lease)
    requires !Last(run).sh.mgr.shuttingDown && Last(run).sh.mgr.pool != []
    ensures Run(cfg, next)
    ensures var sh, c := Last(run).sh, Last(run).sh.mgr.pool[0];
            && Last(next).pcs == Last(run).pcs[t := Clean(Released, c, Take(kill))]
            && Last(next).sh == sh.(mgr := sh.mgr.(pool := sh.mgr.pool[1..]), life := Mark(sh.life, c, Leased(t)))
  {
    next := Advance(cfg, run, t);
    next := Takes(cfg, next, t, Choice(Execute, Ok, kill, 0));
  }

  /** With an empty pool and a free permit a lease creates a container of its own. */
  lemma LeaseCreates(cfg: Config, run: seq<State>, t: Tid) returns (next: seq<State>)
    requires Run(cfg, run) && t in Last(run).pcs && Last(run).pcs[t] == Exec(Lease) && LocksFree(Last(run).sh)
    requires !Last(run).sh.mgr.shuttingDown && Last(run).sh.mgr.pool == [] && Last(run).sh.mgr.permits < cfg.size
    ensures Run(cfg, next)
    ensures var sh, m, added := Last(run).sh, Last(run).sh.mgr, |Last(run).sh.life|;
            && Last(next).pcs == Last(run).pcs[t := Exec(Running(added))] && LocksFree(Last(next).sh)
            && Last(next).sh.mgr == m.(managed := m.managed + {added}, permits := m.permits + 1)
            && Last(next).sh.alive == sh.alive + {added}
  {
    next := Advance(cfg, run, t);
    next := CreateReturns(cfg, next, t, ForLease);
    next := Advance(cfg, next, t);
  }

  const LOST := Choice(Initialize, FailWithEffect, false, 0)

  /** A create that fails after it took effect is undone: container, name and permit are gone, and the caller raises. */
  lemma LostCreateIsUndone(cfg: Config, run: seq<State>, t: Tid, p: Purpose, c: Cid) returns (next: seq<State>)
    requires Run(cfg, run) && t in Last(run).pcs && Last(run).pcs[t] == Create(p, CreateStage.Call(c))
    requires Last(run).sh.cleanupLock == None
    ensures Run(cfg, next)
    ensures var sh, m := Last(run).sh, Last(run).sh.mgr;
            && c in m.pending && m.permits >= 1
            && Last(next).pcs == Last(run).pcs[t := Raised(p, false)] && LocksFree(Last(next).sh)
            && Last(next).sh.mgr == m.(pending := m.pending - {c}, permits := m.permits - 1)
            && Last(next).sh.alive == sh.alive
  {
    CreateCalls(cfg, run, t, p, c);
    next := LostIsRemoved(cfg, run, t, p, c);
    next := Advance(cfg, next, t);
    next := Advance(cfg, next, t);
    next := Advance(cfg, next, t);
  }

  lemma LostIsRemoved(cfg: Config, run: seq<State>, t: Tid, p: Purpose, c: Cid) returns (next: seq<State>)
    requires Run(cfg, run) && t in Last(run).pcs && Last(run).pcs[t] == Create(p, CreateStage.Call(c))
    requires Last(run).sh.cleanupLock == None && c !in Last(run).sh.alive
    ensures Run(cfg, next)
    ensures Last(next) == State(
              Last(run).sh.(life := Mark(Last(run).sh.life, c, Spent)), Last(run).pcs[t := Create(p, LostForget(c))])
  {
    next := LostIsFound(cfg, run, t, p, c);
    next := Advance(cfg, next, t);
    assert Last(run).sh.alive + {c} - {c} == Last(run).sh.alive;
  }

  lemma LostIsFound(cfg: Config, run: seq<State>, t: Tid, p: Purpose, c: Cid) returns (next: seq<State>)
    requires Run(cfg, run) && t in Last(run).pcs && Last(run).pcs[t] == Create(p, CreateStage.Call(c))
    requires Last(run).sh.cleanupLock == None
    ensures Run(cfg, next)
    ensures Last(next) == State(
              Last(run).sh.(life := Mark(Last(run).sh.life, c, Spent), alive := Last(run).sh.alive + {c}, cleanupLock := Some(t)),
              Last(run).pcs[t := Create(p, LostRemove(c))])
  {
    next := Takes(cfg, run, t, LOST);
    next := Advance(cfg, next, t);
    next := Advance(cfg, next, t);
  }

  lemma CreateCalls(cfg: Config, run: seq<State>, t: Tid, p: Purpose, c: Cid)
    requires Run(cfg, run) && t in Last(run).pcs && Last(run).pcs[t] == Create(p, CreateStage.Call(c))
    ensures c in Last(run).sh.mgr.pending && c !in Last(run).sh.alive && Last(run).sh.mgr.permits >= 1
    ensures Last(run).sh.createLock == Some(t)
  {
    RunInv(cfg, run, |run| - 1);
    assert Local(cfg, Last(run).sh, t, Last(run).pcs[t]);
    HardCapacity(cfg, run, |run| - 1);
    SubsetSize({c}, Last(run).sh.mgr.pending);
  }

  // ----- a shutdown kills what runs

  /** Step `k` of the run is thread `t` killing this container. */
  ghost predicate Kills(run: seq<State>, k: int, t: Tid, c: Cid) {
    && 0 <= k < |run| - 1 && t in run[k].pcs && t in run[k + 1].pcs
    && run[k].pcs[t].Shut? && run[k].pcs[t].ss.Each? && c in run[k].pcs[t].ss.rest
    && run[k + 1].pcs[t] == Shut(run[k].pcs[t].sweep, Killing(run[k].pcs[t].ss.rest - {c}))
  }

  predicate ToKill(pc: PC, c: Cid) {
    pc.Shut? && match pc.ss { case Each(rest) => c in rest case Killing(rest) => c in rest case _ => false }
  }

  lemma StillToKill(cfg: Config, s: Shared, t: Tid, pc: PC, ch: Choice, r: (Shared, PC), c: Cid)
    requires Act(cfg, t, s, pc, ch) == Some(r) && ToKill(pc, c)
    ensures ToKill(r.1, c) || (pc.ss.Each? && r.1 == Shut(pc.sweep, Killing(pc.ss.rest - {c})))
  {
  }

  /** A thread that has a container to kill leaves `begin_shutdown` only after it has. */
  lemma {:induction false} KilledBefore(cfg: Config, run: seq<State>, i: nat, j: nat, t: Tid, c: Cid)
    requires Run(cfg, run) && i <= j < |run| && t in run[i].pcs && t in run[j].pcs
    requires ToKill(run[i].pcs[t], c) && !ToKill(run[j].pcs[t], c)
    ensures exists k :: i <= k < j && Kills(run, k, t, c)
    decreases j - i
  {
    RunNext(cfg, run, i);
    var s, s' := run[i], run[i + 1];
    if u, ch :| ThreadStep(cfg, s, u, ch, s') {
      if u == t { StillToKill(cfg, s.sh, t, s.pcs[t], ch, Act(cfg, t, s.sh, s.pcs[t], ch).value, c); }
    }
    if ToKill(run[i + 1].pcs[t], c) {
      KilledBefore(cfg, run, i + 1, j, t, c);
    } else {
      assert Kills(run, i, t, c);
    }
  }

  /** Every container managed when the shutdown began has been killed when `begin_shutdown` returns. */
  lemma ShutdownKillsManaged(cfg: Config, run: seq<State>, i: nat, j: nat, t: Tid, c: Cid, ch: Choice)
    requires Run(cfg, run) && i + 1 <= j < |run| && ThreadStep(cfg, run[i], t, ch, run[i + 1])
    requires run[i].pcs[t].Shut? && run[i].pcs[t].ss == Section && !run[i].sh.mgr.shuttingDown
    requires c in run[i].sh.mgr.managed && t in run[j].pcs && !run[j].pcs[t].Shut?
    ensures run[i + 1].sh.mgr.shuttingDown && exists k :: i < k < j && Kills(run, k, t, c)
  {
    KilledBefore(cfg, run, i + 1, j, t, c);
  }

  // ----- a shutdown with nothing in its way

  lemma {:induction false} KillAll(cfg: Config, run: seq<State>, t: Tid, rest: set<Cid>) returns (next: seq<State>)
    requires Run(cfg, run) && t in Last(run).pcs && Last(run).pcs[t] == Shut(true, Each(rest)) && LocksFree(Last(run).sh)
    ensures Run(cfg, next)
    ensures Last(next) == State(Last(run).sh, Last(run).pcs[t := Sweeping(NO_SWEEP, Snapshot)])
    decreases |rest|
  {
    if rest == {} {
      next := Advance(cfg, run, t);
    } else {
      var c :| c in rest;
      next := Takes(cfg, run, t, Choice(Initialize, Ok, false, c));
      next := Advance(cfg, next, t);
      assert Last(next).sh == Last(run).sh;
      next := KillAll(cfg, next, t, rest - {c});
      assert Last(run).pcs[t := Shut(true, Each(rest - {c}))][t := Sweeping(NO_SWEEP, Snapshot)]
          == Last(run).pcs[t := Sweeping(NO_SWEEP, Snapshot)];
    }
  }

  /** Containers are removed one by one. */
  lemma {:induction false} RemoveAll(cfg: Config, run: seq<State>, t: Tid, rest: set<Cid>, names: set<Cid>) returns (next: seq<State>)
    requires Run(cfg, run) && t in Last(run).pcs && Last(run).pcs[t] == Sweeping(Sweep(rest, names, {}), Loop)
    requires LocksFree(Last(run).sh) && Last(run).sh.mgr.managed == rest && Last(run).sh.mgr.pending == names
    ensures Run(cfg, next) && t in Last(next).pcs && Last(next).pcs[t] == Sweeping(Sweep({}, names, {}), Loop)
    ensures LocksFree(Last(next).sh) && Last(next).sh.mgr.managed == {} && Last(next).sh.mgr.pending == names
    decreases |rest|
  {
    next := run;
    if rest != {} {
      var c :| c in rest;
      HardCapacity(cfg, run, |run| - 1);
      SubsetSize({c}, rest);
      next := Takes(cfg, run, t, Choice(Initialize, Ok, false, c));
      next := RemoveAlone(cfg, next, t, Swept(Sweep(rest - {c}, names, {})), c, false);
      next := Advance(cfg, next, t);
      next := RemoveAll(cfg, next, t, rest - {c}, names);
    }
  }

  /** Uncertain names are looked up and forgotten one by one. */
  lemma {:induction false} ForgetAll(cfg: Config, run: seq<State>, t: Tid, names: set<Cid>) returns (next: seq<State>)
    requires Run(cfg, run) && t in Last(run).pcs && Last(run).pcs[t] == Sweeping(Sweep({}, names, {}), Loop)
    requires LocksFree(Last(run).sh) && Last(run).sh.mgr.managed == {} && Last(run).sh.mgr.pending == names
    ensures Run(cfg, next) && t in Last(next).pcs && Last(next).pcs[t] == Idle && Last(next).sh.swept == Some({})
    ensures LocksFree(Last(next).sh) && Last(next).sh.mgr.managed == {} == Last(next).sh.mgr.pending
    decreases |names|
  {
    next := run;
    if names == {} {
      next := Advance(cfg, next, t);
    } else {
      var c :| c in names;
      next := ForgetOne(cfg, run, t, names, c);
      next := ForgetAll(cfg, next, t, names - {c});
    }
  }

  lemma ForgetOne(cfg: Config, run: seq<State>, t: Tid, names: set<Cid>, c: Cid) returns (next: seq<State>)
    requires Run(cfg, run) && t in Last(run).pcs && Last(run).pcs[t] == Sweeping(Sweep({}, names, {}), Loop)
    requires LocksFree(Last(run).sh) && Last(run).sh.mgr.pending == names && c in names
    ensures Run(cfg, next) && t in Last(next).pcs && Last(next).pcs[t] == Sweeping(Sweep({}, names - {c}, {}), Loop)
    ensures LocksFree(Last(next).sh)
    ensures Last(next).sh.mgr.managed == Last(run).sh.mgr.managed && Last(next).sh.mgr.pending == names - {c}
  {
    PendingHasPermit(cfg, run, c);
    next := LookUp(cfg, run, t, names, c);
    next := Advance(cfg, next, t);
    next := Advance(cfg, next, t);
  }

  lemma PendingHasPermit(cfg: Config, run: seq<State>, c: Cid)
    requires Run(cfg, run) && c in Last(run).sh.mgr.pending
    ensures Last(run).sh.mgr.permits >= 1
  {
    HardCapacity(cfg, run, |run| - 1);
    SubsetSize({c}, Last(run).sh.mgr.pending);
  }

  /** The container under an uncertain name is removed, if there is one. */
  lemma LookUp(cfg: Config, run: seq<State>, t: Tid, names: set<Cid>, c: Cid) returns (next: seq<State>)
    requires Run(cfg, run) && t in Last(run).pcs && Last(run).pcs[t] == Sweeping(Sweep({}, names, {}), Loop)
    requires LocksFree(Last(run).sh) && c in names
    ensures Run(cfg, next)
    ensures Last(next) == State(
              Last(run).sh.(alive := Last(run).sh.alive - {c}),
              Last(run).pcs[t := Sweeping(Sweep({}, names - {c}, {}), NameForget(c))])
  {
    next := Takes(cfg, run, t, Choice(Initialize, Ok, false, c));
    next := Advance(cfg, next, t);
    next := Advance(cfg, next, t);
    if c in Last(run).sh.alive {
      next := Advance(cfg, next, t);
    } else {
      assert Last(run).sh.alive - {c} == Last(run).sh.alive;
    }
  }

  /**
   * From every reachable state in which the locks are free, `shutdown_pool` with calls that all work ends
   * with empty books and no failure; on Docker only what an earlier sweep had given up can be left.
   */
  lemma {:induction false} ShutdownEmpties(cfg: Config, run: seq<State>, t: Tid) returns (next: seq<State>)
    requires Run(cfg, run) && t in Last(run).pcs && Last(run).pcs[t] == Idle && LocksFree(Last(run).sh)
    ensures Run(cfg, next) && t in Last(next).pcs && Last(next).pcs[t] == Idle && Last(next).sh.swept == Some({})
    ensures Last(next).sh.mgr.shuttingDown && Last(next).sh.mgr.pool == []
    ensures Last(next).sh.mgr.managed == {} == Last(next).sh.mgr.pending
    ensures Last(next).sh.alive + Last(next).sh.late <= Last(next).sh.abandoned
  {
    next := Takes(cfg, run, t, Choice(ShutdownPool, Ok, false, 0));
    next := Advance(cfg, next, t);
    next := Advance(cfg, next, t);
    if Last(next).pcs[t].Shut? { next := KillAll(cfg, next, t, Last(next).pcs[t].ss.rest); }
    next := SweepAll(cfg, next, t);
    SweepIsComplete(cfg, next, |next| - 1, |next| - 1);
    SweepHasShutDown(cfg, next);
  }

  lemma {:induction false} SweepAll(cfg: Config, run: seq<State>, t: Tid) returns (next: seq<State>)
    requires Run(cfg, run) && t in Last(run).pcs && Last(run).pcs[t] == Sweeping(NO_SWEEP, Snapshot) && LocksFree(Last(run).sh)
    ensures Run(cfg, next) && t in Last(next).pcs && Last(next).pcs[t] == Idle && Last(next).sh.swept == Some({})
    ensures LocksFree(Last(next).sh) && Last(next).sh.mgr.managed == {} == Last(next).sh.mgr.pending
  {
    next := Advance(cfg, run, t);
    next := Advance(cfg, next, t);
    next := RemoveAll(cfg, next, t, Last(next).sh.mgr.managed, Last(next).sh.mgr.pending);
    next := ForgetAll(cfg, next, t, Last(next).sh.mgr.pending);
  }

  lemma SweepHasShutDown(cfg: Config, run: seq<State>)
    requires Run(cfg, run) && Last(run).sh.swept.Some?
    ensures Last(run).sh.mgr.shuttingDown && Last(run).sh.mgr.pool == []
  {
    RunInv(cfg, run, |run| - 1);
  }
}
