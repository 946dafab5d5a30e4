// One execution in a leased sandbox (sandbox_executor.py): the timer thread and the executing
// thread share an `ExecutionWatchdog`; the executing thread stops the sandbox and then releases it.
// A step is one lock section, one Docker call or one operation on the timer.
module Watchdog {
  import opened Prelude

  datatype Reason = Timeout | OutputLimit

  /** The fields of ExecutionWatchdog; `failed` says that `termination_error` is set. */
  datatype Dog = Dog(finished: bool, reason: Option<Reason>, failed: bool) {
    /** The lock section of `terminate`: the caller kills iff it claims the termination. */
    predicate Claims() { !finished && reason == None }
    function Claimed(r: Reason): Dog { if Claims() then this.(reason := Some(r)) else this }
    function Finished(): Dog { this.(finished := true) }
    function KillReturned(ok: bool): Dog { if ok then this else this.(failed := true) }
  }

  const FRESH := Dog(false, None, false)

  class ExecutionWatchdog {
    var finished: bool
    var reason: Option<Reason>
    var failed: bool

    ghost function Model(): Dog
      reads this
    {
      Dog(finished, reason, failed)
    }

    constructor ()
      ensures Model() == FRESH
    {
      finished, reason, failed := false, None, false;
    }

    /** Records the first reason and kills; a later caller, or one after `Finish`, does nothing. */
    method Terminate(r: Reason, killReturns: bool) returns (started: bool)
      modifies this`reason, this`failed
      ensures started <==> old(Model()).Claims()
      ensures Model() == if started then old(Model()).Claimed(r).KillReturned(killReturns) else old(Model())
    {
      if finished || reason != None { return false; }
      reason := Some(r);
      if !killReturns { failed := true; }
      return true;
    }

    method Finish() returns (r: Option<Reason>)
      modifies this`finished
      ensures r == old(reason) && Model() == old(Model()).Finished()
    {
      finished := true;
      r := reason;
    }
  }

  // ----- the two threads

  datatype Timer = Armed | Fired | Killing | Ended | Cancelled

  datatype Main =
    | Capturing                       // capture_command_output up to the end of its stream loop
    | Overflowed                      // the output limit was hit; about to call terminate
    | LimitKilling
    | Captured                        // inspect the exit code, read artifacts
    | Cancelling                      // SandboxCleanup.stop
    | Finishing
    | Stopping                        // no reason recorded: kill here
    | Joining
    | Stopped                         // the cleanup result is known
    | ReleaseKilling                  // release_container's own kill
    | Removing

  /** What the executing thread has seen of the command. */
  datatype Seen = Seen(truncated: bool, captureError: bool, exitCode: Option<int>)

  datatype State = State(
    dog: Dog,
    timer: Timer,
    main: Main,
    seen: Seen,
    reason: Option<Reason>, // what `finish` returned
    stopError: bool,        // the kill in `stop` raised
    stopped: bool,          // container_stopped
    kills: nat,             // history: kills attempted for this execution before release
    killed: bool,           // history: one of them returned normally
    releaseKills: nat)      // history: kills attempted by release_container

  /** The environment: which thread moves, whether a Docker call returns, and what the command did. */
  datatype Move =
    | TimerMoves(ok: bool)
    | MainMoves(ok: bool, overflow: bool, exitCode: Option<int>)

  predicate Init(s: State) {
    s == State(FRESH, Armed, Capturing, Seen(false, false, None), None, false, false, 0, false, 0)
  }

  function TimerAct(s: State, ok: bool): Option<State> {
    match s.timer
    case Armed => Some(s.(timer := Fired)) // the deadline passed before a cancel
    case Fired => Some(s.(dog := s.dog.Claimed(Timeout), timer := if s.dog.Claims() then Killing else Ended))
    case Killing =>
      Some(s.(dog := s.dog.KillReturned(ok), timer := Ended, kills := s.kills + 1, killed := s.killed || ok))
    case Ended | Cancelled => None
  }

  function MainAct(s: State, ok: bool, overflow: bool, exitCode: Option<int>): Option<State> {
    match s.main
    case Capturing =>
      if s.dog.reason != None && !overflow && !ok then
        Some(s.(main := Captured)) // terminated before the command started: nothing captured
      else if overflow then
        Some(s.(main := Overflowed, seen := s.seen.(truncated := true, exitCode := exitCode)))
      else
        Some(s.(main := Captured, seen := s.seen.(captureError := !ok, exitCode := exitCode)))
    case Overflowed =>
      Some(s.(dog := s.dog.Claimed(OutputLimit), main := if s.dog.Claims() then LimitKilling else Captured))
    case LimitKilling =>
      Some(s.(dog := s.dog.KillReturned(ok), main := Captured, kills := s.kills + 1, killed := s.killed || ok))
    case Captured => // closing the stream or inspecting the exit code may still fail
      Some(s.(main := Cancelling, seen := s.seen.(captureError := s.seen.captureError || !ok)))
    case Cancelling =>
      Some(s.(main := Finishing, timer := if s.timer == Armed then Cancelled else s.timer))
    case Finishing =>
      Some(s.(dog := s.dog.Finished(), reason := s.dog.reason,
              main := if s.dog.reason == None then Stopping else Joining))
    case Stopping =>
      Some(s.(main := Joining, stopError := !ok, stopped := ok, kills := s.kills + 1, killed := s.killed || ok))
    case Joining =>
      if s.timer != Ended && s.timer != Cancelled then None
      else if s.reason == None then Some(s.(main := Stopped))
      else Some(s.(main := Stopped, stopError := s.dog.failed, stopped := !s.dog.failed))
    case Stopped => Some(s.(main := if s.stopped then Removing else ReleaseKilling))
    case ReleaseKilling => Some(s.(main := Removing, releaseKills := s.releaseKills + 1))
    case Removing => None
  }

  function Act(s: State, m: Move): Option<State> {
    match m
    case TimerMoves(ok) => TimerAct(s, ok)
    case MainMoves(ok, overflow, exitCode) => MainAct(s, ok, overflow, exitCode)
  }

  /** The state after a schedule of moves, or None when the schedule is not possible. */
  function Play(s: State, moves: seq<Move>): Option<State>
    decreases |moves|
  {
    if moves == [] then Some(s)
    else match Act(s, moves[0])
         case None => None
         case Some(next) => Play(next, moves[1..])
  }

  // ----- the invariant

  predicate Finishable(m: Main) {
    m.Stopping? || m.Joining? || m.Stopped? || m.ReleaseKilling? || m.Removing?
  }

  predicate TimerDone(t: Timer) { t == Ended || t == Cancelled }

  function Bit(b: bool): nat { if b then 1 else 0 }

  predicate Inv(s: State) {
    && (s.dog.finished <==> Finishable(s.main))
    && (s.timer == Armed ==> !s.main.Finishing? && !Finishable(s.main))
       // a claim is being carried out by exactly one thread, or its kill has been attempted
    && (s.dog.reason != None ==> s.kills + Bit(s.timer == Killing) + Bit(s.main == LimitKilling) == 1)
    && (s.timer == Killing ==> s.dog.reason == Some(Timeout))
    && (s.main == LimitKilling ==> s.dog.reason == Some(OutputLimit))
    && (s.dog.reason == None ==> s.kills == Bit(Finishable(s.main) && !s.main.Stopping?))
    && (s.kills == 0 ==> !s.killed && !s.dog.failed)
    && (s.dog.reason != None && s.kills == 1 ==> s.dog.failed == !s.killed)
       // what the executing thread knows
    && (Finishable(s.main) ==> s.reason == s.dog.reason)
    && (s.main.Stopping? ==> s.reason == None)
    && ((s.main.Joining? || s.main.Stopped?) && s.reason == None ==> s.stopped == s.killed == !s.stopError)
    && (s.main.Stopped? || s.main.ReleaseKilling? || s.main.Removing? ==>
          TimerDone(s.timer) && s.kills == 1 && s.stopped == s.killed == !s.stopError)
    && s.releaseKills == Bit(s.main.Removing? && !s.stopped)
    && (s.main.ReleaseKilling? ==> !s.stopped)
       // the output limit and the truncation flag go together
    && (s.seen.truncated && !s.main.Overflowed? ==> s.dog.reason != None)
    && (s.dog.reason == Some(OutputLimit) ==> s.seen.truncated)
    && (s.main.Overflowed? ==> s.seen.truncated)
    && (s.main.Capturing? ==> !s.seen.truncated)
  }

  lemma TimerStepInv(s: State, ok: bool, s': State)
    requires Inv(s) && TimerAct(s, ok) == Some(s')
    ensures Inv(s')
  {
  }

  predicate InCapture(m: Main) { m.Capturing? || m.Overflowed? || m.LimitKilling? }

  lemma CaptureStepInv(s: State, ok: bool, overflow: bool, exitCode: Option<int>, s': State)
    requires Inv(s) && MainAct(s, ok, overflow, exitCode) == Some(s') && InCapture(s.main)
    ensures Inv(s')
  {
  }

  lemma CleanupStepInv(s: State, ok: bool, overflow: bool, exitCode: Option<int>, s': State)
    requires Inv(s) && MainAct(s, ok, overflow, exitCode) == Some(s') && !InCapture(s.main) && !Finishable(s.main)
    ensures Inv(s')
  {
  }

  lemma StopStepInv(s: State, ok: bool, overflow: bool, exitCode: Option<int>, s': State)
    requires Inv(s) && MainAct(s, ok, overflow, exitCode) == Some(s') && Finishable(s.main)
    ensures Inv(s')
  {
  }

  lemma StepInv(s: State, m: Move, s': State)
    requires Inv(s) && Act(s, m) == Some(s')
    ensures Inv(s')
    ensures s.dog.reason != None ==> s'.dog.reason == s.dog.reason
  {
    match m {
      case TimerMoves(ok) => TimerStepInv(s, ok, s');
      case MainMoves(ok, overflow, exitCode) =>
        if Finishable(s.main) {
          StopStepInv(s, ok, overflow, exitCode, s');
        } else if InCapture(s.main) {
          CaptureStepInv(s, ok, overflow, exitCode, s');
        } else {
          CleanupStepInv(s, ok, overflow, exitCode, s');
        }
    }
  }

  lemma {:induction false} PlayInv(s: State, moves: seq<Move>)
    requires Inv(s) && Play(s, moves).Some?
    ensures Inv(Play(s, moves).value)
    ensures s.dog.reason != None ==> Play(s, moves).value.dog.reason == s.dog.reason
    decreases |moves|
  {
    if moves != [] {
      StepInv(s, moves[0], Act(s, moves[0]).value);
      PlayInv(Act(s, moves[0]).value, moves[1..]);
    }
  }

  ghost predicate Reachable(s: State) {
    exists s0, moves :: Init(s0) && Play(s0, moves) == Some(s)
  }

  lemma ReachableInv(s: State)
    requires Reachable(s)
    ensures Inv(s)
  {
    var s0, moves :| Init(s0) && Play(s0, moves) == Some(s);
    PlayInv(s0, moves);
  }

  // ----- guarantees

  /** One kill per execution before release, none still running when it is released, and `stopped` is exact. */
  lemma ExactlyOneKill(s: State)
    requires Reachable(s)
    ensures s.kills <= 1
    ensures s.main.Stopped? || s.main.ReleaseKilling? || s.main.Removing? ==>
              && s.kills == 1 && TimerDone(s.timer) && (s.stopped <==> s.killed)
    ensures s.main.Removing? ==> (s.releaseKills == 0 <==> s.killed) && s.releaseKills <= 1
  {
    ReachableInv(s);
  }

  /** Whatever happens later, the first recorded reason is the one the execution reports. */
  lemma FirstReasonWins(s: State, moves: seq<Move>)
    requires Reachable(s) && s.dog.reason != None && Play(s, moves).Some?
    ensures Play(s, moves).value.dog.reason == s.dog.reason
    ensures Play(s, moves).value.main.Stopped? ==> Play(s, moves).value.reason == s.dog.reason
  {
    ReachableInv(s);
    PlayInv(s, moves);
  }

  /** An output-limit result is always truncated, and truncation always has a recorded reason. */
  lemma TruncationMatchesReason(s: State)
    requires Reachable(s) && s.main.Stopped?
    ensures s.reason == Some(OutputLimit) ==> s.seen.truncated
    ensures s.seen.truncated ==> s.reason != None
  {
    ReachableInv(s);
  }

  /** The reason is recorded by the first to claim it: the fired timer before `finish`, or the output limit. */
  lemma ClaimsIff(s: State, m: Move)
    requires Reachable(s) && Act(s, m).Some? && s.dog.reason == None
    ensures Act(s, m).value.dog.reason == Some(Timeout) <==> m.TimerMoves? && s.timer == Fired && !s.dog.finished
    ensures Act(s, m).value.dog.reason == Some(OutputLimit) <==> m.MainMoves? && s.main == Overflowed
    ensures m.TimerMoves? && s.timer == Armed ==> Act(s, m).value.timer == Fired
    ensures Act(s, TimerMoves(true)).Some? <==> s.timer in {Armed, Fired, Killing}
    ensures s.dog.finished <==> s.main in {Stopping, Joining, Stopped, ReleaseKilling, Removing}
  {
    ReachableInv(s);
  }

  lemma {:induction false} PlaySplit(s: State, moves: seq<Move>, k: nat)
    requires k <= |moves| && Play(s, moves).Some?
    ensures Play(s, moves[..k]).Some? && Play(Play(s, moves[..k]).value, moves[k..]) == Play(s, moves)
    decreases k
  {
    if k == 0 {
      assert moves[..0] == [] && moves[0..] == moves;
    } else {
      PlaySplit(Act(s, moves[0]).value, moves[1..], k - 1);
      assert moves[..k][0] == moves[0] && moves[..k][1..] == moves[1..][..k - 1] && moves[k..] == moves[1..][k - 1..];
    }
  }

  lemma SeenStep(s: State, m: Move)
    requires !s.main.Capturing? && Act(s, m).Some?
    ensures var next := Act(s, m).value;
            && !next.main.Capturing?
            && next.seen.truncated == s.seen.truncated && next.seen.exitCode == s.seen.exitCode
            && (s.seen.captureError ==> next.seen.captureError)
            && (!InCapture(s.main) && s.main != Captured ==> next.seen == s.seen && !InCapture(next.main) && next.main != Captured)
  {
  }

  /** After its stream loop the executing thread learns nothing more but that something failed. */
  lemma {:induction false} SeenStays(s: State, moves: seq<Move>)
    requires !s.main.Capturing? && Play(s, moves).Some?
    ensures var after := Play(s, moves).value;
            && !after.main.Capturing?
            && after.seen.truncated == s.seen.truncated && after.seen.exitCode == s.seen.exitCode
            && (s.seen.captureError ==> after.seen.captureError)
            && (!InCapture(s.main) && s.main != Captured ==> after.seen == s.seen && !InCapture(after.main) && after.main != Captured)
    decreases |moves|
  {
    if moves != [] {
      SeenStep(s, moves[0]);
      SeenStays(Act(s, moves[0]).value, moves[1..]);
    }
  }

  /**
   * Whatever else happens, what the run has seen in the end is what its stream loop (move k) and the end
   * of the capture (move j) brought: the overflow, the exit code, and whether either failed.
   */
  lemma {:induction false} SeenIsWhatHappened(s0: State, moves: seq<Move>, k: nat, j: nat)
    requires Init(s0) && Play(s0, moves).Some? && k < j < |moves| && moves[k].MainMoves? && moves[j].MainMoves?
    requires Play(s0, moves[..k]).Some? && Play(s0, moves[..k]).value.main == Capturing
    requires Play(s0, moves[..j]).Some? && Play(s0, moves[..j]).value.main == Captured
    ensures var s, m := Play(s0, moves).value, moves[k];
            var early := Play(s0, moves[..k]).value.dog.reason != None && !m.overflow && !m.ok; // killed before the command ran
            && (s.seen.truncated <==> m.overflow)
            && s.seen.exitCode == (if early then None else m.exitCode)
            && (s.seen.captureError <==> (!early && !m.overflow && !m.ok) || !moves[j].ok)
  {
    PlayStep(s0, moves, k);
    PlayStep(s0, moves, j);
    PlayBetween(s0, moves, k + 1, j);
    var before, after := Play(s0, moves[..k]).value, Play(s0, moves[..k + 1]).value;
    CaptureEnds(s0, moves[..k], before, moves[k]);
    OnlyLateFailures(after, moves[k + 1..j]);
    SeenStays(Play(s0, moves[..j + 1]).value, moves[j + 1..]);
  }

  lemma {:induction false} PlayStep(s: State, moves: seq<Move>, k: nat)
    requires k < |moves| && Play(s, moves).Some?
    ensures Play(s, moves[..k]).Some? && Play(s, moves[..k + 1]).Some?
    ensures Play(s, moves[..k + 1]) == Act(Play(s, moves[..k]).value, moves[k])
    ensures Play(Play(s, moves[..k + 1]).value, moves[k + 1..]) == Play(s, moves)
  {
    PlaySplit(s, moves, k + 1);
    PlaySplit(s, moves[..k + 1], k);
    assert moves[..k + 1][..k] == moves[..k] && moves[..k + 1][k..] == [moves[k]];
    PlayOne(Play(s, moves[..k]).value, moves[k]);
  }

  lemma {:induction false} PlayBetween(s: State, moves: seq<Move>, i: nat, j: nat)
    requires i <= j <= |moves| && Play(s, moves).Some?
    ensures Play(s, moves[..i]).Some? && Play(Play(s, moves[..i]).value, moves[i..j]) == Play(s, moves[..j])
  {
    PlaySplit(s, moves, j);
    PlaySplit(s, moves[..j], i);
    assert moves[..j][..i] == moves[..i] && moves[..j][i..] == moves[i..j];
  }

  lemma PlayOne(s: State, m: Move)
    ensures Play(s, [m]) == Act(s, m)
  {
    assert [m][1..] == [];
    if Act(s, m).Some? { assert Play(Act(s, m).value, []) == Act(s, m); }
  }

  lemma {:induction false} CaptureEnds(s0: State, moves: seq<Move>, s: State, m: Move)
    requires Init(s0) && Play(s0, moves) == Some(s) && s.main == Capturing && m.MainMoves?
    ensures Act(s, m).Some?
    ensures var early, next := s.dog.reason != None && !m.overflow && !m.ok, Act(s, m).value;
            && next.main in {Overflowed, Captured}
            && next.seen == Seen(m.overflow, !early && !m.overflow && !m.ok, if early then None else m.exitCode)
  {
    NothingSeenYet(s0, moves);
  }

  lemma {:induction false} NothingSeenYet(s: State, moves: seq<Move>)
    requires s.main == Capturing && Play(s, moves).Some? && Play(s, moves).value.main == Capturing
    ensures Play(s, moves).value.seen == s.seen
    decreases |moves|
  {
    if moves != [] {
      var next := Act(s, moves[0]).value;
      if next.main != Capturing { SeenStays(next, moves[1..]); }
      NothingSeenYet(next, moves[1..]);
    }
  }

  /** Until the capture is closed nothing changes what was seen. */
  lemma {:induction false} OnlyLateFailures(s: State, moves: seq<Move>)
    requires s.main in {Overflowed, LimitKilling, Captured} && Play(s, moves).Some? && Play(s, moves).value.main == Captured
    ensures Play(s, moves).value.seen == s.seen
    decreases |moves|
  {
    if moves != [] {
      var next := Act(s, moves[0]).value;
      if next.main !in {Overflowed, LimitKilling, Captured} { SeenStays(next, moves[1..]); }
      OnlyLateFailures(next, moves[1..]);
    }
  }

  /** The join in `stop` cannot block forever: until the executing thread can move, the timer thread can. */
  lemma JoinReturns(s: State, ok: bool)
    requires Reachable(s)
    ensures MainAct(s, ok, false, None).None? ==>
              s.main.Removing? || ((s.timer == Fired || s.timer == Killing) && TimerAct(s, ok).Some?)
    ensures s.main.Joining? && s.timer == Fired ==> TimerAct(s, ok).value.timer == Ended
    ensures s.main.Joining? && s.timer == Killing ==> TimerAct(s, ok).value.timer == Ended
  {
    ReachableInv(s);
  }
}
