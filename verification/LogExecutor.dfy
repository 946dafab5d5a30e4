// The execution-log executor (execution_log_repository.py): submitting threads, pool workers, done
// callbacks and shutdown interleave; a permit follows the real work, not the waiting request.
module LogExecutor {
  import opened Prelude

  const CAPACITY: nat := 4

  type Id = nat

  datatype Work = Queued | Running | Done

  /** One call of `submit` that got past admission. */
  datatype Ticket =
    | Admitted                     // permit taken, inside the lock, before pool.submit
    | Enqueued(w: Work)            // pool.submit returned; its callback is not registered yet
    | Watched(w: Work)             // callback registered
    | Returned(w: Work)            // the permit came back
    | Raising(lost: Option<Work>)  // pool.submit raised, perhaps after it queued the work
    | Closing(lost: Option<Work>)  // admission is closed; the permit is about to come back
    | Failed(lost: Option<Work>)   // the exception left submit

  datatype State = State(closing: bool, draining: bool, taken: nat, lock: Option<Id>, tickets: map<Id, Ticket>)

  /** What `pool.submit` does. */
  datatype PoolSubmit = Accepts | RaisesBefore | RaisesAfter

  datatype Move =
    | Admit(id: Id)
    | Submit(id: Id, how: PoolSubmit)
    | Register(id: Id)
    | MarkClosing(id: Id)
    | GiveBack(id: Id)
    | Start(id: Id)
    | Finish(id: Id)
    | CancelQueued(id: Id) // pool.shutdown(cancel_futures=True)
    | Callback(id: Id)
    | CloseAdmission       // the lock section of shutdown
    | Drain                // pool.shutdown begins

  predicate Init(s: State) { s == State(false, false, 0, None, map[]) }

  function WorkOf(t: Ticket): Option<Work> {
    match t
    case Admitted => None
    case Enqueued(w) => Some(w)
    case Watched(w) => Some(w)
    case Returned(w) => Some(w)
    case Raising(lost) => lost
    case Closing(lost) => lost
    case Failed(lost) => lost
  }

  function WithWork(t: Ticket, w: Work): Ticket {
    match t
    case Admitted => t
    case Enqueued(_) => Enqueued(w)
    case Watched(_) => Watched(w)
    case Returned(_) => Returned(w)
    case Raising(_) => Raising(Some(w))
    case Closing(_) => Closing(Some(w))
    case Failed(_) => Failed(Some(w))
  }

  /** The future of a ticket advances from one work state to the next. */
  function Advance(s: State, id: Id, from: Work, to: Work): Option<State> {
    if id in s.tickets && WorkOf(s.tickets[id]) == Some(from)
    then Some(s.(tickets := s.tickets[id := WithWork(s.tickets[id], to)])) else None
  }

  function Release(s: State, id: Id, t: Ticket): Option<State> {
    if s.taken == 0 then None else Some(s.(taken := s.taken - 1, tickets := s.tickets[id := t]))
  }

  function Act(s: State, m: Move): Option<State> {
    match m
    case Admit(id) =>
      if id !in s.tickets && s.lock == None && !s.closing && s.taken < CAPACITY
      then Some(s.(taken := s.taken + 1, lock := Some(id), tickets := s.tickets[id := Admitted])) else None
    case Submit(id, how) =>
      if id in s.tickets && s.tickets[id] == Admitted then
        Some(s.(tickets := s.tickets[id := match how
                                           case Accepts => Enqueued(Queued)
                                           case RaisesBefore => Raising(None)
                                           case RaisesAfter => Raising(Some(Queued))])) else None
    case Register(id) => // a future that is already done calls back at once
      if id in s.tickets && s.tickets[id].Enqueued? then
        if s.tickets[id].w == Done then Release(s.(lock := None), id, Returned(Done))
        else Some(s.(lock := None, tickets := s.tickets[id := Watched(s.tickets[id].w)])) else None
    case MarkClosing(id) =>
      if id in s.tickets && s.tickets[id].Raising?
      then Some(s.(closing := true, tickets := s.tickets[id := Closing(s.tickets[id].lost)])) else None
    case GiveBack(id) =>
      if id in s.tickets && s.tickets[id].Closing?
      then Release(s.(lock := None), id, Failed(s.tickets[id].lost)) else None
    case Start(id) => Advance(s, id, Queued, Running)
    case Finish(id) => Advance(s, id, Running, Done)
    case CancelQueued(id) => if s.draining then Advance(s, id, Queued, Done) else None
    case Callback(id) =>
      if id in s.tickets && s.tickets[id] == Watched(Done) then Release(s, id, Returned(Done)) else None
    case CloseAdmission => if s.lock == None then Some(s.(closing := true)) else None
    case Drain => if s.closing && s.lock == None then Some(s.(draining := true)) else None
  }

  /** The executor object as one caller sees it: `submit` and the done callback under no interference. */
  class ExecutionLogExecutor {
    var closing: bool
    var taken: nat

    constructor ()
      ensures !closing && taken == 0
    {
      closing, taken := false, 0;
    }

    /** Full or closing: refused, nothing changes. Raising: closed for good, permit back. Otherwise the work owns a permit. */
    method Submit(how: PoolSubmit, finishedFirst: bool) returns (accepted: bool)
      requires taken <= CAPACITY
      modifies this
      ensures taken <= CAPACITY
      ensures accepted <==> !old(closing) && old(taken) < CAPACITY && how.Accepts?
      ensures taken == old(taken) + if accepted && !finishedFirst then 1 else 0
      ensures closing <==> old(closing) || (old(taken) < CAPACITY && !how.Accepts?)
    {
      if closing || taken == CAPACITY { return false; }
      taken := taken + 1;
      if !how.Accepts? {
        closing := true;
        taken := taken - 1;
        return false;
      }
      if finishedFirst { ReleaseSlot(); }
      return true;
    }

    method ReleaseSlot()
      requires taken > 0
      modifies this`taken
      ensures taken == old(taken) - 1
    {
      taken := taken - 1;
    }
  }

  // ----- the invariant

  predicate HoldsPermit(t: Ticket) { !t.Returned? && !t.Failed? }
  predicate InsideLock(t: Ticket) { t.Admitted? || t.Enqueued? || t.Raising? || t.Closing? }
  predicate HasFailed(t: Ticket) { t.Failed? }
  predicate HasClosed(t: Ticket) { t.Closing? || t.Failed? }
  predicate Unfinished(t: Ticket) { WorkOf(t).Some? && WorkOf(t).value != Done }

  ghost predicate TicketInv(s: State, id: Id, t: Ticket) {
    && (InsideLock(t) <==> s.lock == Some(id))
    && (t.Admitted? || t.Enqueued? || t.Raising? ==> !s.closing)
    && (HasClosed(t) ==> s.closing)
    && (t.Returned? ==> t.w == Done)
  }

  ghost predicate Inv(s: State) {
    && (forall id :: id in s.tickets ==> TicketInv(s, id, s.tickets[id]))
    && (s.lock.Some? ==> s.lock.value in s.tickets)
    && s.taken == |Selected(s.tickets, HoldsPermit)|
    && s.taken + |Selected(s.tickets, HasFailed)| <= CAPACITY
    && |Selected(s.tickets, HasClosed)| <= 1
    && (s.draining ==> s.closing)
  }

  /** Adding one key changes the number of selected keys by that key's predicate value. */
  lemma SelectedAdd(m: map<Id, Ticket>, k: Id, v: Ticket, p: Ticket -> bool)
    requires k !in m
    ensures |Selected(m[k := v], p)| == |Selected(m, p)| + Indicator(p(v))
  {
    assert Selected(m[k := v], p) == if p(v) then Selected(m, p) + {k} else Selected(m, p);
  }

  /** Before the executor closes, no submit has closed it. */
  lemma NoneHasClosed(s: State)
    requires Inv(s) && !s.closing
    ensures Selected(s.tickets, HasFailed) == {} == Selected(s.tickets, HasClosed)
  {
    forall i | i in s.tickets ensures !HasClosed(s.tickets[i]) {
      assert TicketInv(s, i, s.tickets[i]);
    }
  }

  lemma AdmitInv(s: State, id: Id, s': State)
    requires Inv(s) && Act(s, Admit(id)) == Some(s')
    ensures Inv(s')
  {
    SelectedAdd(s.tickets, id, Admitted, HoldsPermit);
    SelectedAdd(s.tickets, id, Admitted, HasFailed);
    SelectedAdd(s.tickets, id, Admitted, HasClosed);
    NoneHasClosed(s);
    forall i | i in s'.tickets ensures TicketInv(s', i, s'.tickets[i]) {
      assert i != id ==> TicketInv(s, i, s.tickets[i]);
    }
  }

  predicate Moves(m: Move, id: Id) {
    match m
    case Submit(i, _) => i == id
    case Register(i) => i == id
    case MarkClosing(i) => i == id
    case GiveBack(i) => i == id
    case Start(i) => i == id
    case Finish(i) => i == id
    case CancelQueued(i) => i == id
    case Callback(i) => i == id
    case _ => false
  }

  lemma TicketStep(s: State, m: Move, id: Id, s': State)
    requires Moves(m, id) && Act(s, m) == Some(s') && id in s.tickets && TicketInv(s, id, s.tickets[id])
    ensures s'.tickets.Keys == s.tickets.Keys && s' == s'.(tickets := s.tickets[id := s'.tickets[id]])
    ensures TicketInv(s', id, s'.tickets[id])
    ensures s'.taken + Indicator(HoldsPermit(s.tickets[id])) == s.taken + Indicator(HoldsPermit(s'.tickets[id]))
    ensures s'.taken + Indicator(HasFailed(s'.tickets[id])) <= s.taken + Indicator(HasFailed(s.tickets[id]))
    ensures HasClosed(s'.tickets[id]) <==> HasClosed(s.tickets[id]) || (m.MarkClosing? && !s.closing)
    ensures s'.lock == s.lock || (s.lock == Some(id) && s'.lock == None)
    ensures s'.closing == s.closing || s.lock == Some(id)
    ensures s.closing ==> s'.closing
    ensures s'.draining == s.draining
  {
  }

  lemma TicketsInv(s: State, m: Move, id: Id, s': State)
    requires Inv(s) && Moves(m, id) && Act(s, m) == Some(s')
    ensures Inv(s')
  {
    assert id in s.tickets && TicketInv(s, id, s.tickets[id]);
    TicketStep(s, m, id, s');
    SelectedUpdate(s.tickets, id, s'.tickets[id], HoldsPermit);
    SelectedUpdate(s.tickets, id, s'.tickets[id], HasFailed);
    SelectedUpdate(s.tickets, id, s'.tickets[id], HasClosed);
    if m.MarkClosing? { NoneHasClosed(s); }
    forall i | i in s'.tickets ensures TicketInv(s', i, s'.tickets[i]) {
      assert i != id ==> TicketInv(s, i, s.tickets[i]) && s'.tickets[i] == s.tickets[i];
    }
  }

  lemma StepInv(s: State, m: Move, s': State)
    requires Inv(s) && Act(s, m) == Some(s')
    ensures Inv(s')
  {
    match m {
      case Admit(id) => AdmitInv(s, id, s');
      case CloseAdmission =>
        forall i | i in s'.tickets ensures TicketInv(s', i, s'.tickets[i]) {
          assert TicketInv(s, i, s.tickets[i]);
        }
      case Drain =>
        forall i | i in s'.tickets ensures TicketInv(s', i, s'.tickets[i]) {
          assert TicketInv(s, i, s.tickets[i]);
        }
      case _ => TicketsInv(s, m, m.id, s');
    }
  }

  /** The state after a schedule of moves, or None when the schedule is not possible. */
  function Play(s: State, moves: seq<Move>): Option<State>
    decreases |moves|
  {
    if moves == [] then Some(s)
    else match Act(s, moves[0])
         case None => None
         case Some(next) => Play(next, moves[1..])
  }

  lemma {:induction false} PlayInv(s: State, moves: seq<Move>)
    requires Inv(s) && Play(s, moves).Some?
    ensures Inv(Play(s, moves).value)
    decreases |moves|
  {
    if moves != [] {
      StepInv(s, moves[0], Act(s, moves[0]).value);
      PlayInv(Act(s, moves[0]).value, moves[1..]);
    }
  }

  ghost predicate Reachable(s: State) {
    exists s0, moves :: Init(s0) && Play(s0, moves) == Some(s)
  }

  lemma ReachableInv(s: State)
    requires Reachable(s)
    ensures Inv(s)
  {
    var s0, moves :| Init(s0) && Play(s0, moves) == Some(s);
    assert Selected(s0.tickets, HoldsPermit) == {} == Selected(s0.tickets, HasFailed);
    assert Selected(s0.tickets, HasClosed) == {};
    PlayInv(s0, moves);
  }

  // ----- guarantees

  /** Unfinished work, also work queued by a submit that raised, never exceeds the workers; a pool raises at most once. */
  lemma UnfinishedIsBounded(s: State)
    requires Reachable(s)
    ensures |Selected(s.tickets, Unfinished)| <= CAPACITY
    ensures |Selected(s.tickets, HasFailed)| <= 1
  {
    ReachableInv(s);
    var unfinished := Selected(s.tickets, Unfinished);
    var holding, failed := Selected(s.tickets, HoldsPermit), Selected(s.tickets, HasFailed);
    forall id | id in unfinished ensures id in holding + failed {
      assert TicketInv(s, id, s.tickets[id]);
    }
    SubsetSize(unfinished, holding + failed);
    assert holding !! failed;
    assert |holding + failed| == |holding| + |failed|;
    SubsetSize(failed, Selected(s.tickets, HasClosed));
  }

  /** A permit stays taken as long as its work is unfinished; once its ticket is settled it never moves again. */
  lemma PermitFollowsWork(s: State, m: Move, id: Id)
    requires Reachable(s) && id in s.tickets && Act(s, m).Some?
    ensures Unfinished(s.tickets[id]) && !HasFailed(s.tickets[id]) ==> HoldsPermit(s.tickets[id])
    ensures id in Act(s, m).value.tickets
    ensures !HoldsPermit(s.tickets[id]) ==> !HoldsPermit(Act(s, m).value.tickets[id])
    ensures s.taken >= Indicator(HoldsPermit(s.tickets[id]))
  {
    ReachableInv(s);
    assert TicketInv(s, id, s.tickets[id]);
    if HoldsPermit(s.tickets[id]) { SubsetSize({id}, Selected(s.tickets, HoldsPermit)); }
  }

  /**
   * Which outside moves are possible, and what they do: a submit is admitted exactly while the executor is
   * open and one of its four permits is free; shutdown closes it at once when no submit is inside, and then
   * work that has not started can be cancelled.
   */
  lemma AdmissionIff(s: State, id: Id)
    ensures Act(s, Admit(id)).Some? <==> id !in s.tickets && s.lock == None && !s.closing && s.taken < 4
    ensures Act(s, CloseAdmission) == if s.lock == None then Some(s.(closing := true)) else None
    ensures Act(s, Drain) == if s.closing && s.lock == None then Some(s.(draining := true)) else None
    ensures Act(s, CancelQueued(id)).Some? <==> s.draining && id in s.tickets && WorkOf(s.tickets[id]) == Some(Queued)
    ensures Act(s, CancelQueued(id)).Some? ==> WorkOf(Act(s, CancelQueued(id)).value.tickets[id]) == Some(Done)
  {
  }

  /** After closing no further submit gets past admission. */
  lemma {:induction false} ClosedAdmitsNothing(s: State, moves: seq<Move>)
    requires s.closing && Play(s, moves).Some?
    ensures Play(s, moves).value.closing && Play(s, moves).value.tickets.Keys == s.tickets.Keys
    decreases |moves|
  {
    if moves != [] {
      ClosedAdmitsNothing(Act(s, moves[0]).value, moves[1..]);
    }
  }

  /** When every submit has left and every future is done and called back, all permits are back. */
  lemma AllPermitsComeBack(s: State)
    requires Reachable(s) && forall id :: id in s.tickets ==> s.tickets[id].Returned? || s.tickets[id].Failed?
    ensures s.taken == 0
  {
    ReachableInv(s);
    assert Selected(s.tickets, HoldsPermit) == {};
  }

  /** A ticket that still holds its permit can always move on, so shutdown's wait ends with every permit back. */
  lemma HolderCanMove(s: State, id: Id)
    requires Reachable(s) && id in s.tickets && HoldsPermit(s.tickets[id])
    ensures exists m :: Moves(m, id) && Act(s, m).Some?
  {
    ReachableInv(s);
    SubsetSize({id}, Selected(s.tickets, HoldsPermit));
    var m := match s.tickets[id]
      case Admitted => Submit(id, Accepts)
      case Enqueued(_) => Register(id)
      case Watched(w) => (match w case Queued => Start(id) case Running => Finish(id) case Done => Callback(id))
      case Raising(_) => MarkClosing(id)
      case _ => GiveBack(id);
    assert Moves(m, id) && Act(s, m).Some?;
  }
}
