// The guarantees are not empty: for every configuration there is a run whose startup fills the pool.
module SandboxPoolStartup {
  import opened Prelude
  import opened SandboxPool
  import opened SandboxPoolSafety

  const WORKS := Choice(Initialize, Ok, false, 0)

  function Last(run: seq<State>): State
    requires run != []
  {
    run[|run| - 1]
  }

  /** Any step that some thread can take extends a run. */
  lemma Takes(cfg: Config, run: seq<State>, t: Tid, ch: Choice) returns (next: seq<State>)
    requires Run(cfg, run) && t in Last(run).pcs && Act(cfg, t, Last(run).sh, Last(run).pcs[t], ch).Some?
    ensures Run(cfg, next) && next == run + [Last(next)]
    ensures var r := Act(cfg, t, Last(run).sh, Last(run).pcs[t], ch).value;
            Last(next) == State(r.0, Last(run).pcs[t := r.1])
  {
    var s := Last(run);
    var r := Act(cfg, t, s.sh, s.pcs[t], ch).value;
    var s' := State(r.0, s.pcs[t := r.1]);
    next := run + [s'];
    assert ThreadStep(cfg, s, t, ch, s');
    assert Next(cfg, s, s');
    forall i: nat ensures StepAt(cfg, next, i) {
      assert StepAt(cfg, run, i);
    }
  }

  lemma Advance(cfg: Config, run: seq<State>, t: Tid) returns (next: seq<State>)
    requires Run(cfg, run) && t in Last(run).pcs && Act(cfg, t, Last(run).sh, Last(run).pcs[t], WORKS).Some?
    ensures Run(cfg, next)
    ensures var r := Act(cfg, t, Last(run).sh, Last(run).pcs[t], WORKS).value;
            Last(next) == State(r.0, Last(run).pcs[t := r.1])
  {
    next := Takes(cfg, run, t, WORKS);
  }

  /** A run that has only begun. */
  lemma Opening(cfg: Config, t: Tid) returns (run: seq<State>)
    ensures Run(cfg, run) && |run| == 1 && Last(run).pcs == map[t := Idle]
    ensures Last(run).sh == Shared(Manager([], {}, {}, false, false, false, 0), None, None, {}, {}, [], 0, None, {}, None)
  {
    run := [State(
      Shared(Manager([], {}, {}, false, false, false, 0), None, None, {}, {}, [], 0, None, {}, None), map[t := Idle])];
    assert forall i: nat :: StepAt(cfg, run, i);
  }

  /** Startup at its k-th create, with nothing gone wrong so far. */
  ghost predicate Filling(cfg: Config, s: State, t: Tid, k: nat) {
    var sh := s.sh;
    && t in s.pcs && k <= cfg.size
    && s.pcs[t] == (if k < cfg.size then Create(ForInit(k), Enter) else InitFinish)
    && sh.createLock == None && sh.cleanupLock == None
    && !sh.mgr.shuttingDown && !sh.mgr.degraded && sh.mgr.pending == {}
    && |sh.mgr.pool| == |sh.mgr.managed| == sh.mgr.permits == k
    && (forall c :: c in sh.mgr.managed ==> c < |sh.life|)
  }

  predicate LocksFree(sh: Shared) { sh.createLock == None && sh.cleanupLock == None }

  /** `_create_container` up to the created container, with nothing in its way. */
  lemma CreateOne(cfg: Config, run: seq<State>, t: Tid, p: Purpose) returns (next: seq<State>)
    requires Run(cfg, run) && t in Last(run).pcs && Last(run).pcs[t] == Create(p, Enter)
    requires LocksFree(Last(run).sh) && !Last(run).sh.mgr.shuttingDown && Last(run).sh.mgr.permits < cfg.size
    ensures Run(cfg, next)
    ensures var sh, c := Last(run).sh, |Last(run).sh.life|;
            Last(next) == State(
              sh.(createLock := Some(t), mgr := sh.mgr.PermitTaken().AddPending(c), alive := sh.alive + {c},
                  life := sh.life + [Building(t)]),
              Last(run).pcs[t := Create(p, Promote(c))])
  {
    next := Advance(cfg, run, t);
    next := Advance(cfg, next, t);
    next := Advance(cfg, next, t);
    next := Advance(cfg, next, t);
    next := Advance(cfg, next, t);
    next := Advance(cfg, next, t);
  }

  /** And on to its return: the container is registered, started and checked. */
  lemma CreateReturns(cfg: Config, run: seq<State>, t: Tid, p: Purpose) returns (next: seq<State>)
    requires Run(cfg, run) && t in Last(run).pcs && Last(run).pcs[t] == Create(p, Enter)
    requires LocksFree(Last(run).sh) && !Last(run).sh.mgr.shuttingDown && Last(run).sh.mgr.permits < cfg.size
    ensures Run(cfg, next)
    ensures var sh, c := Last(run).sh, |Last(run).sh.life|;
            Last(next) == State(
              sh.(createLock := Some(t),
                  mgr := sh.mgr.(managed := sh.mgr.managed + {c}, permits := sh.mgr.permits + 1),
                  alive := sh.alive + {c}, life := sh.life + [Building(t)]),
              Last(run).pcs[t := Create(p, Return(c))])
  {
    NewName(cfg, run);
    next := CreateOne(cfg, run, t, p);
    next := Advance(cfg, next, t);
    next := Advance(cfg, next, t);
    next := Advance(cfg, next, t);
  }

  /** The next name is on no book. */
  lemma NewName(cfg: Config, run: seq<State>)
    requires Run(cfg, run)
    ensures var m, c := Last(run).sh.mgr, |Last(run).sh.life|; c !in m.pending && c !in m.managed && m.pending + {c} - {c} == m.pending
  {
    RunInv(cfg, run, |run| - 1);
  }

  lemma FillOne(cfg: Config, run: seq<State>, t: Tid, k: nat) returns (next: seq<State>)
    requires Run(cfg, run) && Filling(cfg, Last(run), t, k) && k < cfg.size
    ensures Run(cfg, next) && Filling(cfg, Last(next), t, k + 1)
  {
    next := CreateReturns(cfg, run, t, ForInit(k));
    next := Advance(cfg, next, t);
    next := Advance(cfg, next, t);
  }

  lemma {:induction false} FillAll(cfg: Config, run: seq<State>, t: Tid, k: nat) returns (next: seq<State>)
    requires Run(cfg, run) && Filling(cfg, Last(run), t, k)
    ensures Run(cfg, next) && Filling(cfg, Last(next), t, cfg.size)
    decreases cfg.size - k
  {
    next := run;
    if k < cfg.size {
      next := FillOne(cfg, run, t, k);
      next := FillAll(cfg, next, t, k + 1);
    }
  }

  /** A run in which nothing goes wrong ends ready: full pool, all permits taken, healthy. */
  lemma StartupReachesReady(cfg: Config, t: Tid)
    requires cfg.size >= 1
    ensures exists run: seq<State> ::
              && Run(cfg, run) && t in Last(run).pcs && Last(run).pcs[t] == Idle
              && Last(run).sh.mgr.Ready(cfg.size) && Healthy(Last(run).sh) && |Last(run).sh.mgr.pool| == cfg.size
  {
    var run := Opening(cfg, t);
    run := Advance(cfg, run, t);
    run := FillAll(cfg, run, t, 0);
    run := Advance(cfg, run, t);
  }
}
