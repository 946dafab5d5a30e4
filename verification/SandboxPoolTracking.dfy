// Which containers the pool loses track of: exactly those whose uncertain name a shutdown sweep gave
// up because Docker did not show it yet.
module SandboxPoolTracking {
  import opened Prelude
  import opened SandboxPool
  import opened SandboxPoolInvariant
  import opened SandboxPoolSafety
  import opened SandboxPoolTheorems
  import opened SandboxPoolStartup

  /** On the daemon, or still to appear there, and on none of the books. */
  predicate Untracked(s: Shared, c: Cid) { c in s.alive + s.late && c !in s.mgr.managed + s.mgr.pending }

  /** Thread `t` is at this stage of a sweep. */
  predicate AtStage(s: State, t: Tid, ws: SweepStage) { t in s.pcs && s.pcs[t].Sweeping? && s.pcs[t].ws == ws }

  /** A sweep looks for `c` and Docker does not show it, because its create is still to take effect. */
  predicate LooksInVain(run: seq<State>, k: int, t: Tid, c: Cid) {
    0 <= k < |run| && AtStage(run[k], t, NameGet(c)) && c !in run[k].sh.alive && c in run[k].sh.late
  }

  /** The sweep takes the name off the books. */
  predicate Drops(run: seq<State>, j: int, t: Tid, c: Cid) {
    && 0 <= j < |run| - 1 && AtStage(run[j], t, NameForget(c))
    && c in run[j].sh.mgr.pending && c !in run[j + 1].sh.mgr.pending
  }

  predicate GivesUp(run: seq<State>, k: int, j: int, t: Tid, c: Cid) {
    k < j && LooksInVain(run, k, t, c) && Drops(run, j, t, c)
  }

  // ----- after a shutdown nothing new appears on the daemon

  ghost predicate DaemonShrinks(s: Shared, s': Shared) {
    s.mgr.shuttingDown ==> s'.alive + s'.late <= s.alive + s.late && s'.late <= s.late
  }

  lemma ActShrinks(cfg: Config, s: Shared, t: Tid, pc: PC, ch: Choice, r: (Shared, PC))
    requires Held(s, t, pc) && Act(cfg, t, s, pc, ch) == Some(r)
    ensures DaemonShrinks(s, r.0)
  {
    if pc.Create? { assert CreateHeld(s, t, pc.cs); }
  }

  lemma StepShrinks(cfg: Config, s: State, s': State)
    requires Inv(cfg, s) && Next(cfg, s, s')
    ensures DaemonShrinks(s.sh, s'.sh)
  {
    if t, ch :| ThreadStep(cfg, s, t, ch, s') {
      assert Local(cfg, s.sh, t, s.pcs[t]);
      ActShrinks(cfg, s.sh, t, s.pcs[t], ch, Act(cfg, t, s.sh, s.pcs[t], ch).value);
    }
  }

  /** Once a shutdown has begun, what is on the daemon or still to appear only shrinks. */
  lemma Shrinks(cfg: Config, run: seq<State>, j: nat)
    requires Run(cfg, run) && j + 1 < |run|
    ensures DaemonShrinks(run[j].sh, run[j + 1].sh)
  {
    RunInv(cfg, run, j);
    RunNext(cfg, run, j);
    StepShrinks(cfg, run[j], run[j + 1]);
  }

  lemma SweepSeesShutdown(cfg: Config, run: seq<State>, j: nat, t: Tid, ws: SweepStage)
    requires Run(cfg, run) && j < |run| && AtStage(run[j], t, ws)
    ensures run[j].sh.mgr.shuttingDown
  {
    RunInv(cfg, run, j);
    assert Local(cfg, run[j].sh, t, run[j].pcs[t]);
  }

  // ----- what happened before a name is dropped

  lemma EntersStage(cfg: Config, s: Shared, t: Tid, pc: PC, ch: Choice, r: (Shared, PC), c: Cid)
    requires Act(cfg, t, s, pc, ch) == Some(r)
    ensures r.1.Sweeping? && r.1.ws == NameRemove(c) ==>
              pc.Sweeping? && pc.ws == NameGet(c) && c in s.alive && r.0.late == s.late
    ensures r.1.Sweeping? && r.1.ws == NameForget(c) ==>
              && pc.Sweeping? && r.0.late == s.late
              && ((pc.ws == NameGet(c) && c !in s.alive && r.0.alive == s.alive) || (pc.ws == NameRemove(c) && c !in r.0.alive))
  {
  }

  /** How a sweep came to remove a container: it had just seen it, so its create is no longer to take effect. */
  lemma RemoveBefore(cfg: Config, run: seq<State>, j: nat, t: Tid, c: Cid)
    requires Run(cfg, run) && j < |run| && AtStage(run[j], t, NameRemove(c))
    ensures j > 0
    ensures AtStage(run[j - 1], t, NameRemove(c)) || c !in run[j].sh.late
  {
    assert j > 0;
    RunNext(cfg, run, j - 1);
    var s, s' := run[j - 1], run[j];
    if u, ch :| ThreadStep(cfg, s, u, ch, s') {
      if u == t {
        EntersStage(cfg, s.sh, t, s.pcs[t], ch, Act(cfg, t, s.sh, s.pcs[t], ch).value, c);
        SeenIsNotLate(cfg, run, j - 1);
      }
    }
  }

  lemma SeenIsNotLate(cfg: Config, run: seq<State>, j: nat)
    requires Run(cfg, run) && j < |run|
    ensures run[j].sh.alive !! run[j].sh.late
  {
    RunInv(cfg, run, j);
  }

  /** How a sweep came to drop a name: after a lookup in vain, or after a removal. */
  lemma ForgetBefore(cfg: Config, run: seq<State>, j: nat, t: Tid, c: Cid)
    requires Run(cfg, run) && j < |run| && AtStage(run[j], t, NameForget(c)) && c in run[j].sh.alive + run[j].sh.late
    ensures j > 0
    ensures
      || AtStage(run[j - 1], t, NameForget(c))
      || LooksInVain(run, j - 1, t, c)
      || (AtStage(run[j - 1], t, NameRemove(c)) && c in run[j - 1].sh.late)
  {
    assert j > 0;
    RunNext(cfg, run, j - 1);
    var s, s' := run[j - 1], run[j];
    if u, ch :| ThreadStep(cfg, s, u, ch, s') {
      if u == t {
        EntersStage(cfg, s.sh, t, s.pcs[t], ch, Act(cfg, t, s.sh, s.pcs[t], ch).value, c);
      }
    }
  }

  lemma {:induction false} RemovedIsNotLate(cfg: Config, run: seq<State>, j: nat, t: Tid, c: Cid)
    requires Run(cfg, run) && j < |run| && AtStage(run[j], t, NameRemove(c))
    ensures c !in run[j].sh.late
  {
    RemoveBefore(cfg, run, j, t, c);
    if AtStage(run[j - 1], t, NameRemove(c)) {
      RemovedIsNotLate(cfg, run, j - 1, t, c);
      SweepSeesShutdown(cfg, run, j - 1, t, NameRemove(c));
      Shrinks(cfg, run, j - 1);
    }
  }

  /** A name that can still appear is only dropped after a lookup in vain. */
  lemma {:induction false} DroppedAfterLookup(cfg: Config, run: seq<State>, j: nat, t: Tid, c: Cid) returns (k: nat)
    requires Run(cfg, run) && j < |run| && AtStage(run[j], t, NameForget(c)) && c in run[j].sh.alive + run[j].sh.late
    ensures k < j && LooksInVain(run, k, t, c)
  {
    ForgetBefore(cfg, run, j, t, c);
    if AtStage(run[j - 1], t, NameForget(c)) {
      SweepSeesShutdown(cfg, run, j - 1, t, NameForget(c));
      Shrinks(cfg, run, j - 1);
      k := DroppedAfterLookup(cfg, run, j - 1, t, c);
    } else {
      k := j - 1;
      if AtStage(run[k], t, NameRemove(c)) { RemovedIsNotLate(cfg, run, k, t, c); }
    }
  }

  /** What is lost was dropped by some sweep. */
  lemma {:induction false} AbandonedWasDropped(cfg: Config, run: seq<State>, i: nat, c: Cid) returns (j: nat, t: Tid)
    requires Run(cfg, run) && i < |run| && c in run[i].sh.abandoned
    ensures j < i && Drops(run, j, t, c) && c in run[j].sh.alive + run[j].sh.late
  {
    assert i > 0;
    RunNext(cfg, run, i - 1);
    if c in run[i - 1].sh.abandoned {
      j, t := AbandonedWasDropped(cfg, run, i - 1, c);
    } else {
      var u, ch :| ThreadStep(cfg, run[i - 1], u, ch, run[i]);
      OnlySweepAbandons(cfg, run[i - 1], u, ch, run[i]);
      j, t := i - 1, u;
      DropsName(cfg, run[j].sh, t, run[j].pcs[t], ch, Act(cfg, t, run[j].sh, run[j].pcs[t], ch).value, c);
    }
  }

  lemma DropsName(cfg: Config, s: Shared, t: Tid, pc: PC, ch: Choice, r: (Shared, PC), c: Cid)
    requires Act(cfg, t, s, pc, ch) == Some(r) && pc.Sweeping? && pc.ws == NameForget(c) && c in s.mgr.pending
    ensures c !in r.0.mgr.pending
  {
  }

  /**
   * In every state of every run: a container is on the daemon, or still to appear there, and on none of
   * the books exactly if it has not ended and some sweep looked for its name while its create was still
   * to take effect, did not find it, and took the name off the books.
   */
  lemma UntrackedIff(cfg: Config, run: seq<State>, i: nat, c: Cid)
    requires Run(cfg, run) && i < |run|
    ensures Untracked(run[i].sh, c) <==>
              c in run[i].sh.alive + run[i].sh.late && exists k, j, t :: j < i && GivesUp(run, k, j, t, c)
  {
    if Untracked(run[i].sh, c) {
      UntrackedIsAbandoned(cfg, run, i, c);
      var j, t := AbandonedWasDropped(cfg, run, i, c);
      var k := DroppedAfterLookup(cfg, run, j, t, c);
      assert GivesUp(run, k, j, t, c);
    }
    if k, j, t :| j < i && GivesUp(run, k, j, t, c) {
      DroppedStaysOff(cfg, run, j, i, t, c);
    }
  }

  lemma UntrackedIsAbandoned(cfg: Config, run: seq<State>, i: nat, c: Cid)
    requires Run(cfg, run) && i < |run| && Untracked(run[i].sh, c)
    ensures c in run[i].sh.abandoned
  {
    RunInv(cfg, run, i);
  }

  lemma DroppedStaysOff(cfg: Config, run: seq<State>, j: nat, i: nat, t: Tid, c: Cid)
    requires Run(cfg, run) && j < i < |run| && Drops(run, j, t, c)
    ensures c !in run[i].sh.mgr.managed + run[i].sh.mgr.pending
  {
    SweepSeesShutdown(cfg, run, j, t, NameForget(c));
    BooksAreDisjoint(cfg, run, j);
    NothingAfterShutdown(cfg, run, j, j + 1);
    NothingAfterShutdown(cfg, run, j + 1, i);
  }

  lemma BooksAreDisjoint(cfg: Config, run: seq<State>, j: nat)
    requires Run(cfg, run) && j < |run|
    ensures run[j].sh.mgr.managed !! run[j].sh.mgr.pending
  {
    RunInv(cfg, run, j);
  }

  // ----- a run that loses a container

  const LATE := Choice(Initialize, FailThenLate, false, 0)

  /** Startup about to issue its first create. */
  lemma FirstCreate(cfg: Config, t: Tid) returns (run: seq<State>)
    requires cfg.size >= 1
    ensures Run(cfg, run) && t in Last(run).pcs && Last(run).pcs[t] == Create(ForInit(0), Call(0))
    ensures Last(run).sh == Shared(
              Manager([], {}, {0}, false, false, false, 1), Some(t), None, {}, {}, [Building(t)], 0, Some(t), {}, None)
  {
    run := Opening(cfg, t);
    run := Advance(cfg, run, t);
    run := Advance(cfg, run, t);
    run := Advance(cfg, run, t);
    run := Advance(cfg, run, t);
    run := Advance(cfg, run, t);
  }

  /** Startup whose first create reports an error and may still take effect: the manager begins to shut down. */
  lemma LateCreate(cfg: Config, t: Tid) returns (run: seq<State>)
    requires cfg.size >= 1
    ensures Run(cfg, run) && t in Last(run).pcs && Last(run).pcs[t] == Shut(true, Begin)
    ensures Last(run).sh == Shared(
              Manager([], {}, {0}, false, false, false, 1), None, None, {}, {0}, [Spent], 0, Some(t), {}, None)
  {
    run := FirstCreate(cfg, t);
    run := Takes(cfg, run, t, LATE);
    run := Advance(cfg, run, t);
    run := Advance(cfg, run, t);
    run := Advance(cfg, run, t);
  }

  /** The shutdown then finds nothing under the name and gives it up, with no failure to report. */
  lemma SweepInVain(cfg: Config, t: Tid) returns (run: seq<State>)
    requires cfg.size >= 1
    ensures Run(cfg, run) && t in Last(run).pcs && Last(run).pcs[t] == Idle
    ensures Last(run).sh == Shared(
              Manager([], {}, {}, true, false, false, 0), None, None, {}, {0}, [Spent], 0, Some(t), {0}, Some({}))
  {
    run := LateCreate(cfg, t);
    run := Advance(cfg, run, t);
    run := Advance(cfg, run, t);
    run := Advance(cfg, run, t);
    run := Advance(cfg, run, t);
    run := Advance(cfg, run, t);
    assert Last(run).pcs[t] == Sweeping(Sweep({}, {0}, {}), Loop);
    run := Advance(cfg, run, t);
    run := Advance(cfg, run, t);
    run := Advance(cfg, run, t);
    run := Advance(cfg, run, t);
    run := Advance(cfg, run, t);
    run := Advance(cfg, run, t);
  }

  /** For every pool size: a finished shutdown that reported no failure, and a running container nobody tracks. */
  lemma SweepCanLoseContainer(cfg: Config, t: Tid) returns (run: seq<State>)
    requires cfg.size >= 1
    ensures Run(cfg, run) && Last(run).pcs[t := Idle] == Last(run).pcs && Last(run).sh.swept == Some({})
    ensures Untracked(Last(run).sh, 0) && Last(run).sh.alive == {0}
  {
    run := SweepInVain(cfg, t);
    var s := Last(run);
    var s' := s.(sh := s.sh.(late := s.sh.late - {0}, alive := s.sh.alive + {0}));
    assert DaemonStep(s, 0, s');
    assert Next(cfg, s, s');
    var next := run + [s'];
    forall i: nat ensures StepAt(cfg, next, i) {
      assert StepAt(cfg, run, i);
    }
    run := next;
  }
}
