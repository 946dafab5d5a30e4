// Slots that follow the worker thread, not the awaiting request: `RunnerClient.execute`
// (runner_client.py) and `ShellgeiDockerClient.run_with_timeout` (run_shellgei.py), with the
// polling wait of async_thread.py. Requests and workers interleave freely; a request may be
// cancelled at any point of its wait.
module SlottedCalls {
  import opened Prelude

  type Id = nat

  datatype Work = Queued | Running | Done

  /** `timesOut`: the wait has a deadline. `asksProvider`: an ID is requested between taking the slot and the try block. */
  datatype Config = Config(capacity: nat, timesOut: bool, asksProvider: bool)

  const RUNNER_CLIENT := Config(3, false, true)
  function RunWithTimeout(capacity: nat): Config { Config(capacity, true, false) }

  datatype Request =
    | Acquired                      // slot taken, before the try block
    | Lost                          // the ID provider raised there
    | Trying                        // inside the try block, before executor.submit
    | Polling(w: Work)              // wait_for_thread_future
    | Leaving(last: Option<Work>)    // result or error; the finally clause will release
    | Deferring(w: Work)            // timed out or cancelled; about to register the callback
    | Deferred(w: Work)             // the callback will release
    | Closed(last: Option<Work>)     // slot returned

  datatype State = State(taken: nat, requests: map<Id, Request>)

  datatype Move =
    | Begin(id: Id)
    | Provide(id: Id, ok: bool)
    | Submit(id: Id, ok: bool)
    | Poll(id: Id, raisedTimeout: bool) // the future is done; its own exception may be a TimeoutError
    | Expire(id: Id)                    // the deadline passed at a poll that saw the future unfinished
    | Cancel(id: Id)
    | Register(id: Id)
    | Callback(id: Id)
    | Finally(id: Id)
    | Start(id: Id)
    | Finish(id: Id)
    | CancelQueued(id: Id)              // executor.shutdown(cancel_futures=True)

  predicate Init(s: State) { s == State(0, map[]) }

  function WorkOf(r: Request): Option<Work> {
    match r
    case Polling(w) => Some(w)
    case Deferring(w) => Some(w)
    case Deferred(w) => Some(w)
    case Leaving(w) => w
    case Closed(w) => w
    case _ => None
  }

  function WithWork(r: Request, w: Work): Request {
    match r
    case Polling(_) => Polling(w)
    case Deferring(_) => Deferring(w)
    case Deferred(_) => Deferred(w)
    case Leaving(_) => Leaving(Some(w))
    case Closed(_) => Closed(Some(w))
    case _ => r
  }

  function Advance(s: State, id: Id, from: Work, to: Work): Option<State> {
    if id in s.requests && WorkOf(s.requests[id]) == Some(from)
    then Some(s.(requests := s.requests[id := WithWork(s.requests[id], to)])) else None
  }

  function Release(s: State, id: Id): Option<State>
    requires id in s.requests
  {
    if s.taken == 0 then None
    else Some(s.(taken := s.taken - 1, requests := s.requests[id := Closed(WorkOf(s.requests[id]))]))
  }

  function Become(s: State, id: Id, r: Request): Option<State> { Some(s.(requests := s.requests[id := r])) }

  function Act(cfg: Config, s: State, m: Move): Option<State> {
    match m
    case Begin(id) =>
      if id !in s.requests && s.taken < cfg.capacity
      then Some(State(s.taken + 1, s.requests[id := Acquired])) else None
    case Provide(id, ok) =>
      if id in s.requests && s.requests[id] == Acquired && (ok || cfg.asksProvider)
      then Become(s, id, if ok then Trying else Lost) else None
    case Submit(id, ok) =>
      if id in s.requests && s.requests[id] == Trying
      then Become(s, id, if ok then Polling(Queued) else Leaving(None)) else None
    case Poll(id, raisedTimeout) =>
      if id in s.requests && s.requests[id] == Polling(Done)
      then Become(s, id, if cfg.timesOut && raisedTimeout then Deferring(Done) else Leaving(Some(Done))) else None
    case Expire(id) =>
      if id in s.requests && s.requests[id].Polling? && cfg.timesOut
      then Become(s, id, Deferring(s.requests[id].w)) else None
    case Cancel(id) =>
      if id in s.requests && s.requests[id].Polling? then Become(s, id, Deferring(s.requests[id].w)) else None
    case Register(id) => // a future that is already done calls back at once
      if id in s.requests && s.requests[id].Deferring?
      then (if s.requests[id].w == Done then Release(s, id) else Become(s, id, Deferred(s.requests[id].w))) else None
    case Callback(id) => if id in s.requests && s.requests[id] == Deferred(Done) then Release(s, id) else None
    case Finally(id) => if id in s.requests && s.requests[id].Leaving? then Release(s, id) else None
    case Start(id) => Advance(s, id, Queued, Running)
    case Finish(id) => Advance(s, id, Running, Done)
    case CancelQueued(id) => Advance(s, id, Queued, Done)
  }

  function Play(cfg: Config, s: State, moves: seq<Move>): Option<State>
    decreases |moves|
  {
    if moves == [] then Some(s)
    else match Act(cfg, s, moves[0])
         case None => None
         case Some(next) => Play(cfg, next, moves[1..])
  }

  ghost predicate Reachable(cfg: Config, s: State) {
    exists s0, moves :: Init(s0) && Play(cfg, s0, moves) == Some(s)
  }

  // ----- the invariant

  predicate HoldsSlot(r: Request) { !r.Closed? }
  predicate IsLost(r: Request) { r.Lost? }
  predicate Unfinished(r: Request) { WorkOf(r).Some? && WorkOf(r).value != Done }

  ghost predicate RequestInv(cfg: Config, r: Request) {
    && (r.Leaving? || r.Closed? ==> !Unfinished(r))
    && (r.Lost? ==> cfg.asksProvider)
  }

  ghost predicate Inv(cfg: Config, s: State) {
    && (forall id :: id in s.requests ==> RequestInv(cfg, s.requests[id]))
    && s.taken == |Selected(s.requests, HoldsSlot)| <= cfg.capacity
  }

  lemma BeginInv(cfg: Config, s: State, id: Id, s': State)
    requires Inv(cfg, s) && Act(cfg, s, Begin(id)) == Some(s')
    ensures Inv(cfg, s')
  {
    assert Selected(s'.requests, HoldsSlot) == Selected(s.requests, HoldsSlot) + {id};
  }

  lemma RequestStep(cfg: Config, s: State, m: Move, s': State)
    requires Act(cfg, s, m) == Some(s') && !m.Begin? && m.id in s.requests && RequestInv(cfg, s.requests[m.id])
    ensures m.id in s'.requests && s'.requests == s.requests[m.id := s'.requests[m.id]]
    ensures RequestInv(cfg, s'.requests[m.id])
    ensures s'.taken + Indicator(HoldsSlot(s.requests[m.id])) == s.taken + Indicator(HoldsSlot(s'.requests[m.id]))
  {
  }

  lemma StepInv(cfg: Config, s: State, m: Move, s': State)
    requires Inv(cfg, s) && Act(cfg, s, m) == Some(s')
    ensures Inv(cfg, s')
  {
    if m.Begin? {
      BeginInv(cfg, s, m.id, s');
    } else {
      RequestStep(cfg, s, m, s');
      SelectedUpdate(s.requests, m.id, s'.requests[m.id], HoldsSlot);
      if HoldsSlot(s.requests[m.id]) { SubsetSize({m.id}, Selected(s.requests, HoldsSlot)); }
    }
  }

  lemma {:induction false} PlayInv(cfg: Config, s: State, moves: seq<Move>)
    requires Inv(cfg, s) && Play(cfg, s, moves).Some?
    ensures Inv(cfg, Play(cfg, s, moves).value)
    decreases |moves|
  {
    if moves != [] {
      StepInv(cfg, s, moves[0], Act(cfg, s, moves[0]).value);
      PlayInv(cfg, Act(cfg, s, moves[0]).value, moves[1..]);
    }
  }

  lemma ReachableInv(cfg: Config, s: State)
    requires Reachable(cfg, s)
    ensures Inv(cfg, s)
  {
    var s0, moves :| Init(s0) && Play(cfg, s0, moves) == Some(s);
    assert Selected(s0.requests, HoldsSlot) == {};
    PlayInv(cfg, s0, moves);
  }

  // ----- guarantees

  /** A slot is taken for as long as its worker is unfinished, so at most `capacity` workers exist. */
  lemma SlotOutlivesWorker(cfg: Config, s: State)
    requires Reachable(cfg, s)
    ensures forall id :: id in s.requests && Unfinished(s.requests[id]) ==> HoldsSlot(s.requests[id])
    ensures |Selected(s.requests, Unfinished)| <= s.taken <= cfg.capacity
  {
    ReachableInv(cfg, s);
    forall id | id in s.requests && Unfinished(s.requests[id]) ensures HoldsSlot(s.requests[id]) {
      assert RequestInv(cfg, s.requests[id]);
    }
    SubsetSize(Selected(s.requests, Unfinished), Selected(s.requests, HoldsSlot));
  }

  /** The only steps that return a slot close their request, and a closed request returns none again. */
  lemma ReleasedOnce(cfg: Config, s: State, m: Move)
    requires Reachable(cfg, s) && Act(cfg, s, m).Some?
    ensures var s' := Act(cfg, s, m).value;
            && (s'.taken < s.taken <==> m.id in s.requests && HoldsSlot(s.requests[m.id]) && s'.requests[m.id].Closed?)
            && s.taken - 1 <= s'.taken <= s.taken + 1
            && (m.id in s.requests && s.requests[m.id].Closed? ==> s'.taken == s.taken && s'.requests[m.id].Closed?)
  {
    ReachableInv(cfg, s);
    if !m.Begin? {
      assert RequestInv(cfg, s.requests[m.id]);
      RequestStep(cfg, s, m, Act(cfg, s, m).value);
    }
  }

  /** At rest the missing slots are exactly the requests whose ID provider raised. */
  lemma OnlyProviderLosesSlots(cfg: Config, s: State)
    requires Reachable(cfg, s)
    requires forall id :: id in s.requests ==> s.requests[id].Closed? || s.requests[id].Lost?
    ensures s.taken == |Selected(s.requests, IsLost)|
    ensures s.taken == 0 <==> forall id :: id in s.requests ==> !s.requests[id].Lost?
    ensures !cfg.asksProvider ==> s.taken == 0
  {
    ReachableInv(cfg, s);
    var lost := Selected(s.requests, IsLost);
    assert lost == Selected(s.requests, HoldsSlot);
    if id :| id in s.requests && s.requests[id].Lost? {
      assert RequestInv(cfg, s.requests[id]);
      SubsetSize({id}, lost);
    } else {
      assert lost == {};
    }
  }

  /** A lost slot never comes back: whatever follows, every lost request stays lost and its slot taken. */
  lemma {:induction false} LostStaysLost(cfg: Config, s: State, moves: seq<Move>)
    requires Reachable(cfg, s) && Play(cfg, s, moves).Some?
    ensures var after := Play(cfg, s, moves).value;
            && (forall id :: id in s.requests && s.requests[id].Lost? ==> id in after.requests && after.requests[id].Lost?)
            && |Selected(s.requests, IsLost)| <= after.taken
    decreases |moves|
  {
    if moves == [] {
      ReachableInv(cfg, s);
      SubsetSize(Selected(s.requests, IsLost), Selected(s.requests, HoldsSlot));
    } else {
      var next := Act(cfg, s, moves[0]).value;
      ReachableNext(cfg, s, moves[0]);
      LostStep(cfg, s, moves[0]);
      LostStaysLost(cfg, next, moves[1..]);
    }
  }

  lemma LostStep(cfg: Config, s: State, m: Move)
    requires Act(cfg, s, m).Some?
    ensures var next := Act(cfg, s, m).value;
            && (forall id :: id in s.requests && s.requests[id].Lost? ==> id in next.requests && next.requests[id].Lost?)
            && |Selected(s.requests, IsLost)| <= |Selected(next.requests, IsLost)|
  {
    SubsetSize(Selected(s.requests, IsLost), Selected(Act(cfg, s, m).value.requests, IsLost));
  }

  lemma {:induction false} PlayOneMore(cfg: Config, s: State, moves: seq<Move>, m: Move)
    requires Play(cfg, s, moves).Some?
    ensures Play(cfg, s, moves + [m]) == Act(cfg, Play(cfg, s, moves).value, m)
    decreases |moves|
  {
    if moves == [] {
      assert [] + [m] == [m] && [m][1..] == [];
    } else {
      PlayOneMore(cfg, Act(cfg, s, moves[0]).value, moves[1..], m);
      assert (moves + [m])[1..] == moves[1..] + [m];
    }
  }

  lemma ReachableNext(cfg: Config, s: State, m: Move)
    requires Reachable(cfg, s) && Act(cfg, s, m).Some?
    ensures Reachable(cfg, Act(cfg, s, m).value)
  {
    var s0, moves :| Init(s0) && Play(cfg, s0, moves) == Some(s);
    PlayOneMore(cfg, s0, moves, m);
  }

  /** The requests 0, ..., n-1, all lost. */
  function AllLost(n: nat): (m: map<Id, Request>)
    ensures forall id: Id :: id in m <==> id < n
    ensures forall id :: id in m ==> m[id] == Lost
  {
    if n == 0 then map[] else AllLost(n - 1)[n - 1 := Lost]
  }

  lemma {:induction false} CanLose(cfg: Config, n: nat)
    requires cfg.asksProvider && n <= cfg.capacity
    ensures Reachable(cfg, State(n, AllLost(n)))
  {
    if n == 0 {
      var s0 := State(0, map[]);
      assert AllLost(0) == map[];
      assert Init(s0) && Play(cfg, s0, []) == Some(s0);
    } else {
      CanLose(cfg, n - 1);
      var s, id: Id := State(n - 1, AllLost(n - 1)), n - 1;
      var begun := State(n, s.requests[id := Acquired]);
      assert Act(cfg, s, Begin(id)) == Some(begun);
      ReachableNext(cfg, s, Begin(id));
      assert begun.requests[id := Lost] == AllLost(n);
      assert Act(cfg, begun, Provide(id, false)) == Some(State(n, AllLost(n)));
      ReachableNext(cfg, begun, Provide(id, false));
    }
  }

  /** For every n up to the capacity there is a state that lost n slots for good; having lost all, the client admits no request any more. */
  lemma ProviderFailureLosesSlot(cfg: Config, n: nat, moves: seq<Move>)
    requires cfg.asksProvider && n <= cfg.capacity
    ensures Reachable(cfg, State(n, AllLost(n)))
    ensures var after := Play(cfg, State(n, AllLost(n)), moves);
            after.Some? ==> after.value.taken >= n && forall id: nat :: id < n ==> id in after.value.requests && after.value.requests[id] == Lost
    ensures n == cfg.capacity ==>
            (Play(cfg, State(n, AllLost(n)), moves).Some? <==> moves == [])
  {
    CanLose(cfg, n);
    var s := State(n, AllLost(n));
    if Play(cfg, s, moves).Some? {
      LostStaysLost(cfg, s, moves);
      AllLostSize(n);
    }
    if n == cfg.capacity && moves != [] { assert Act(cfg, s, moves[0]).None?; }
  }

  lemma {:induction false} AllLostSize(n: nat)
    ensures |Selected(AllLost(n), IsLost)| == n
  {
    if n > 0 {
      AllLostSize(n - 1);
      var last: Id := n - 1;
      assert Selected(AllLost(n), IsLost) == Selected(AllLost(n - 1), IsLost) + {last};
    } else {
      assert Selected(AllLost(0), IsLost) == {};
    }
  }

  /** A result reaches its request exactly if a poll finds the worker done and no timeout is reported; else the slot waits for the worker. */
  lemma LeavesIff(cfg: Config, s: State, m: Move)
    requires Act(cfg, s, m).Some? && m.id in s.requests && s.requests[m.id].Polling?
    ensures var next := Act(cfg, s, m).value.requests[m.id];
            && (next.Leaving? <==> m.Poll? && s.requests[m.id].w == Done && !(cfg.timesOut && m.raisedTimeout))
            && (next.Deferring? <==> (m.Poll? && cfg.timesOut && m.raisedTimeout) || m.Expire? || m.Cancel?)
            && (m.Expire? ==> cfg.timesOut)
  {
  }

  /** A request that holds its slot and is not lost can always move towards returning it. */
  lemma HolderCanMove(cfg: Config, s: State, id: Id)
    requires Reachable(cfg, s) && id in s.requests && HoldsSlot(s.requests[id]) && !s.requests[id].Lost?
    ensures exists m: Move :: m.id == id && !m.Begin? && Act(cfg, s, m).Some?
  {
    ReachableInv(cfg, s);
    SubsetSize({id}, Selected(s.requests, HoldsSlot));
    var m := match s.requests[id]
      case Acquired => Provide(id, true)
      case Trying => Submit(id, true)
      case Polling(w) => (match w case Queued => Start(id) case Running => Finish(id) case Done => Poll(id, false))
      case Deferring(_) => Register(id)
      case Deferred(w) => (match w case Queued => Start(id) case Running => Finish(id) case Done => Callback(id))
      case _ => Finally(id);
    assert m.id == id && Act(cfg, s, m).Some?;
  }

  // ----- the polling wait

  const POLL_INTERVAL: real := 0.01

  datatype Waited = Result | TimedOut | StillWaiting

  /**
   * `wait_for_thread_future` against a clock and a future that are read once per poll: `done[k]` and
   * `clock[k]` are what poll k sees, `start` the loop time at entry. StillWaiting means that the
   * observations ran out first.
   */
  method WaitForThreadFuture(timeout: Option<real>, start: real, done: seq<bool>, clock: seq<real>)
    returns (r: Waited, polls: nat, sleeps: seq<real>)
    requires |done| == |clock|
    ensures |sleeps| <= polls <= |done|
    ensures forall k :: 0 <= k < |sleeps| ==> !done[k] && 0.0 < sleeps[k] <= POLL_INTERVAL
    ensures timeout.Some? ==> forall k :: 0 <= k < |sleeps| ==> clock[k] + sleeps[k] <= start + timeout.value
    ensures r.Result? <==> polls > 0 && polls == |sleeps| + 1 && done[polls - 1]
    ensures r.TimedOut? <==>
      polls > 0 && polls == |sleeps| + 1 && !done[polls - 1] && timeout.Some? && start + timeout.value <= clock[polls - 1]
    ensures r.StillWaiting? ==> polls == |done| == |sleeps|
  {
    polls, sleeps := 0, [];
    var deadline := match timeout case None => None case Some(t) => Some(start + t);
    while polls < |done|
      invariant |sleeps| == polls <= |done|
      invariant forall k :: 0 <= k < |sleeps| ==> !done[k] && 0.0 < sleeps[k] <= POLL_INTERVAL
      invariant timeout.Some? ==> forall k :: 0 <= k < |sleeps| ==> clock[k] + sleeps[k] <= start + timeout.value
    {
      var now := clock[polls];
      polls := polls + 1;
      if done[polls - 1] { return Result, polls, sleeps; }
      var pause := POLL_INTERVAL;
      if deadline.Some? {
        var remaining := deadline.value - now;
        if remaining <= 0.0 { return TimedOut, polls, sleeps; }
        if remaining < pause { pause := remaining; }
      }
      sleeps := sleeps + [pause];
    }
    return StillWaiting, polls, sleeps;
  }
}
