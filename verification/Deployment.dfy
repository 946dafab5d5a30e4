// One production deployment (deploy/production.py): every call to the outside may fail, before or
// after its effect took place, and may be a delivered termination signal. A run is determined by what
// the outside does, call by call; the class at the end goes through exactly the same moments.
module Deployment {
  import opened Prelude

  type Commit = nat

  datatype Service = Db | Runner | Backend | Frontend
  datatype Phase = Preflight | Superseded | InProgress | Stop | Migration | Start | SmokeTest | Success
  datatype Failure = Failure(commit: Commit, phase: Phase)

  /** What an `except` clause tells apart; a delivered signal is Runtime, SystemExit and the like are Base. */
  datatype Error = Subprocess | Os | Refused | Runtime | Base

  /** The calls to the outside; a query includes the checks made of its answer. */
  datatype Call =
    | Announce(phase: Phase) | Print
    | CheckHost | CheckRecord | FetchMain | MainIsCandidate | CheckAncestor | CheckOldProject | LoadImages | CheckImages
    | Merge | WriteCandidate | CheckCandidate
    | WriteFailed(failure: Failure) | StopServices | ReplaceOverride | StartDb | DbReady | Migrate
    | StartServices | CheckRunning(service: Service) | Smoke | Sleep | WriteCurrent | RemoveFailed
    | KeepBasis | DropArchive

  datatype Outcome = Works(yes: bool) | Fails(error: Error, effect: bool) {
    predicate Took() { Works? || effect }
  }

  /** What outlives a run: the checkout, the state directory, the services and the database. */
  datatype Host = Host(
    head: Commit, images: set<Commit>, candidate: Option<Commit>, override_: Option<Commit>,
    failed: Option<Failure>, current: Option<Commit>, basis: Option<Commit>,
    open: bool, running: Commit, schema: Commit)

  function Effect(h: Host, call: Call, sha: Commit): Host {
    match call
    case LoadImages => h.(images := h.images + {sha})
    case Merge => h.(head := sha)
    case WriteCandidate => h.(candidate := Some(sha))
    case WriteFailed(failure) => h.(failed := Some(failure))
    case StopServices => h.(open := false)
    case ReplaceOverride => h.(override_ := h.candidate, candidate := None)
    case Migrate => h.(schema := sha)
    case StartServices => h.(open := true, running := sha)
    case WriteCurrent => h.(current := Some(sha))
    case RemoveFailed => h.(failed := None)
    case KeepBasis => h.(basis := Some(sha))
    case _ => h
  }

  function After(h: Host, call: Call, o: Outcome, sha: Commit): Host { if o.Took() then Effect(h, call, sha) else h }

  /** What each part of the host is after a call that took effect. */
  lemma EffectByPart(h: Host, call: Call, sha: Commit)
    ensures var h' := Effect(h, call, sha);
            && h'.head == (if call == Merge then sha else h.head)
            && h'.images == (if call == LoadImages then h.images + {sha} else h.images)
            && h'.candidate ==
                 (if call == WriteCandidate then Some(sha) else if call == ReplaceOverride then None else h.candidate)
            && h'.override_ == (if call == ReplaceOverride then h.candidate else h.override_)
            && h'.failed ==
                 (if call.WriteFailed? then Some(call.failure) else if call == RemoveFailed then None else h.failed)
            && h'.current == (if call == WriteCurrent then Some(sha) else h.current)
            && h'.basis == (if call == KeepBasis then Some(sha) else h.basis)
            && (h'.open <==> call == StartServices || (h.open && call != StopServices))
            && h'.running == (if call == StartServices then sha else h.running)
            && h'.schema == (if call == Migrate then sha else h.schema)
  {
  }

  // ----- the program

  const STILL_MAIN := 3
  const LOAD_IMAGES := 6
  const CHECK_IMAGES := 7
  const MAIN_AGAIN := 9
  const MERGE := 10
  const WRITE_CANDIDATE := 11
  const CHECK_CANDIDATE := 12
  const WRITE_FAILED := 14
  const STOP_SERVICES := 15
  const REPLACE_OVERRIDE := 16
  const START_DB := 18
  const DB_READY := 19
  const MIGRATE := 20
  const START_SERVICES := 22
  const SMOKE := 28
  const WRITE_CURRENT := 29
  const REMOVE_FAILED := 30
  const KEEP_BASIS := 32

  /** `update`, call by call. */
  function Line(step: nat, sha: Commit): Call {
    match step
    case 0 => CheckHost
    case 1 => CheckRecord
    case 2 => FetchMain
    case 3 => MainIsCandidate
    case 4 => CheckAncestor
    case 5 => CheckOldProject
    case 6 => LoadImages
    case 7 => CheckImages
    case 8 => FetchMain
    case 9 => MainIsCandidate
    case 10 => Merge
    case 11 => WriteCandidate
    case 12 => CheckCandidate
    case 13 => Announce(Stop)
    case 14 => WriteFailed(Failure(sha, InProgress))
    case 15 => StopServices
    case 16 => ReplaceOverride
    case 17 => Announce(Migration)
    case 18 => StartDb
    case 19 => DbReady
    case 20 => Migrate
    case 21 => Announce(Start)
    case 22 => StartServices
    case 23 => CheckRunning(Db)
    case 24 => CheckRunning(Runner)
    case 25 => CheckRunning(Backend)
    case 26 => CheckRunning(Frontend)
    case 27 => Announce(SmokeTest)
    case 28 => Smoke
    case 29 => WriteCurrent
    case 30 => RemoveFailed
    case 31 => Announce(Success)
    case _ => KeepBasis
  }

  datatype Result = Deployed | Superseded_ | Raised(error: Error)

  /** Where a run is: a line of `update` with its failed tries, a pause, a fallback, the handler, or its end. */
  datatype PC =
    | At(step: nat, failed: nat)
    | Pausing(step: nat, failed: nat)
    | Superseding
    | Unkept | Dropping
    | Recording(cause: Error, phase: Phase)
    | Halting(cause: Error, phase: Phase)
    | End(result: Result, stopped: bool, phase: Phase)

  /** The `phase` and `stopped` fields when a call is made. */
  function PhaseOf(pc: PC): Phase {
    match pc
    case Superseding => Phase.Superseded
    case Unkept | Dropping => Success
    case Recording(_, phase) => phase
    case Halting(_, phase) => phase
    case End(_, _, phase) => phase
    case _ =>
      if pc.step < 13 then Preflight
      else if pc.step < 17 then Stop
      else if pc.step < 21 then Migration
      else if pc.step < 27 then Start
      else if pc.step < 31 then SmokeTest
      else Success
  }

  predicate StoppedAt(pc: PC) {
    match pc
    case Superseding | Unkept | Dropping => false
    case Recording(_, _) | Halting(_, _) => true
    case End(_, stopped, _) => stopped
    case _ => WRITE_FAILED <= pc.step <= REMOVE_FAILED
  }

  function CallOf(pc: PC, sha: Commit): Call {
    match pc
    case At(step, _) => Line(step, sha)
    case Pausing(_, _) => Sleep
    case Superseding => Announce(Phase.Superseded)
    case Unkept => Print
    case Dropping => DropArchive
    case Recording(_, phase) => WriteFailed(Failure(sha, phase))
    case Halting(_, _) => StopServices
    case End(_, _, _) => Print // no call is made any more
  }

  /** What an exception that nothing catches on the way does: to the handler, or out. */
  function Thrown(pc: PC, error: Error): PC {
    if StoppedAt(pc) then Recording(error, PhaseOf(pc)) else End(Raised(error), false, PhaseOf(pc))
  }

  /** The tries of a retried line, and the error raised when they are used up. */
  function Tries(step: nat): nat { if step == DB_READY then 30 else 5 }
  function UsedUp(step: nat): Error { if step == DB_READY then Os else Runtime }

  /** The errors after which a line is tried again. */
  predicate Retried(step: nat, error: Error) {
    (step == DB_READY && error == Subprocess) || (step == SMOKE && error != Base)
  }

  function NextPC(pc: PC, o: Outcome): PC {
    match pc
    case End(_, _, _) => pc
    case At(step, failed) =>
      (match o
       case Works(yes) =>
         if (step == STILL_MAIN || step == MAIN_AGAIN) && !yes then Superseding
         else if step >= KEEP_BASIS then End(Deployed, false, Success)
         else At(step + 1, 0)
       case Fails(error, _) =>
         if Retried(step, error) then Pausing(step, failed + 1)
         else if step >= KEEP_BASIS && (error == Os || error == Refused) then Unkept
         else Thrown(pc, error))
    case Pausing(step, failed) =>
      if o.Fails? then Thrown(pc, o.error)
      else if failed < Tries(step) then At(step, failed)
      else Thrown(pc, UsedUp(step))
    case Superseding => if o.Fails? then Thrown(pc, o.error) else End(Superseded_, false, Phase.Superseded)
    case Unkept => if o.Fails? then Thrown(pc, o.error) else Dropping
    case Dropping => if o.Fails? then Thrown(pc, o.error) else End(Deployed, false, Success)
    case Recording(cause, phase) =>
      if o.Fails? && o.error != Os then End(Raised(o.error), true, phase) else Halting(cause, phase)
    case Halting(cause, phase) =>
      End(Raised(if o.Fails? && o.error == Base then Base else cause), true, phase)
  }

  datatype Moment = Moment(pc: PC, host: Host)

  /** A run: the host before it, the candidate, and what the outside does. */
  datatype Setup = Setup(before: Host, sha: Commit, script: nat -> Outcome)

  /** FAILED refuses a run before its first call. */
  function Begin(h: Host): Moment {
    Moment(if h.failed.Some? then End(Raised(Runtime), false, Preflight) else At(0, 0), h)
  }

  function Next(m: Moment, o: Outcome, sha: Commit): Moment {
    Moment(NextPC(m.pc, o), After(m.host, CallOf(m.pc, sha), o, sha))
  }

  /** The moments of a run, complete or cut off: call `i` is made at `ms[i]` and has outcome `d.script(i)`. */
  ghost predicate Run(d: Setup, ms: seq<Moment>) {
    && ms != [] && ms[0] == Begin(d.before)
    && forall i {:trigger StepAt(d, ms, i)} :: 0 <= i < |ms| - 1 ==> StepAt(d, ms, i)
  }

  predicate StepAt(d: Setup, ms: seq<Moment>, i: int) {
    0 <= i < |ms| - 1 && !ms[i].pc.End? && ms[i + 1] == Next(ms[i], d.script(i), d.sha)
  }

  /** Call `i` of a run is this one; and it works, or takes effect. */
  predicate Makes(d: Setup, ms: seq<Moment>, i: int, call: Call) { 0 <= i < |ms| - 1 && CallOf(ms[i].pc, d.sha) == call }
  predicate Worked(d: Setup, ms: seq<Moment>, i: int, call: Call) { Makes(d, ms, i, call) && d.script(i).Works? }
  predicate Took(d: Setup, ms: seq<Moment>, i: int, call: Call) { Makes(d, ms, i, call) && d.script(i).Took() }

  predicate TouchesServices(call: Call) {
    call.StopServices? || call.ReplaceOverride? || call.StartDb? || call.Migrate? || call.StartServices?
  }

  // ----- where a run can be

  /** On a line of `update`, running or pausing. */
  predicate OnLine(pc: PC) { pc.At? || pc.Pausing? }

  predicate InvPC(pc: PC) {
    && (OnLine(pc) ==> pc.step <= KEEP_BASIS)
    && (pc.At? && pc.failed > 0 ==> pc.step == DB_READY || pc.step == SMOKE)
    && (pc.At? ==> pc.failed < Tries(pc.step))
    && (pc.Pausing? ==> (pc.step == DB_READY || pc.step == SMOKE) && 1 <= pc.failed <= Tries(pc.step))
    && (pc.End? && !pc.result.Raised? ==> !pc.stopped)
    && (pc.Recording? || pc.Halting? ==> pc.phase != InProgress)
  }

  lemma {:induction false} KnownPC(d: Setup, ms: seq<Moment>, n: nat)
    requires Run(d, ms) && n < |ms|
    ensures InvPC(ms[n].pc)
  {
    if n > 0 {
      KnownPC(d, ms, n - 1);
      assert StepAt(d, ms, n - 1);
    }
  }

  /** What `update` has left at each line: staged files, stopped services, the new schema, the new services. */
  predicate Staged(h: Host, sha: Commit, step: nat) {
    && (LOAD_IMAGES < step ==> sha in h.images)
    && (MERGE < step ==> h.head == sha)
    && (WRITE_CANDIDATE < step <= REPLACE_OVERRIDE ==> h.candidate == Some(sha))
    && (REPLACE_OVERRIDE < step ==> h.candidate == None)
  }

  predicate Untouched(h: Host, h': Host) {
    h' == h.(head := h'.head, images := h'.images, candidate := h'.candidate)
  }

  predicate Serving(before: Host, h: Host, sha: Commit, step: nat) {
    && (step <= WRITE_FAILED ==> Untouched(before, h))
    && (step == STOP_SERVICES ==> Untouched(before.(failed := h.failed), h))
    && (WRITE_FAILED < step <= REMOVE_FAILED ==> h.failed.Some?)
    && (STOP_SERVICES < step <= START_SERVICES ==> !h.open)
    && (REPLACE_OVERRIDE < step ==> h.override_ == Some(sha))
    && (MIGRATE < step ==> h.schema == sha)
    && (START_SERVICES < step ==> h.open && h.running == sha)
    && (WRITE_CURRENT < step ==> h.current == Some(sha))
    && (REMOVE_FAILED < step ==> h.failed.None?)
  }

  /** Services up, and everything names the one commit they run. */
  predicate Settled(h: Host) {
    && h.open
    && h.schema == h.running
    && (h.override_.Some? ==> h.override_.value == h.running)
    && (h.current.Some? ==> h.current.value == h.running)
  }

  /** Everything names the candidate and nothing blocks the next run. */
  predicate DeployedAs(h: Host, sha: Commit) {
    && Settled(h) && h.failed.None? && h.current == Some(sha) && h.running == sha && h.override_ == Some(sha)
    && h.head == sha && sha in h.images && h.candidate == None
  }

  predicate Inv(d: Setup, m: Moment) {
    && InvPC(m.pc)
    && (OnLine(m.pc) ==> Staged(m.host, d.sha, m.pc.step) && Serving(d.before, m.host, d.sha, m.pc.step))
    && (m.pc.Superseding? || (m.pc.End? && m.pc.result.Superseded_?) ==> Untouched(d.before, m.host))
    && (m.pc.Unkept? || m.pc.Dropping? || (m.pc.End? && m.pc.result.Deployed?) ==> DeployedAs(m.host, d.sha))
    && (m.pc.End? && !m.pc.stopped ==> Untouched(d.before, m.host) || DeployedAs(m.host, d.sha))
    && (d.before.failed.Some? ==> m == Begin(d.before))
  }

  lemma LineStaged(m: Moment, o: Outcome, sha: Commit)
    requires InvPC(m.pc) && OnLine(m.pc) && OnLine(NextPC(m.pc, o)) && Staged(m.host, sha, m.pc.step)
    ensures Staged(Next(m, o, sha).host, sha, NextPC(m.pc, o).step)
  {
  }

  lemma LineServing(before: Host, m: Moment, o: Outcome, sha: Commit)
    requires InvPC(m.pc) && OnLine(m.pc) && OnLine(NextPC(m.pc, o))
    requires Staged(m.host, sha, m.pc.step) && Serving(before, m.host, sha, m.pc.step)
    ensures Serving(before, Next(m, o, sha).host, sha, NextPC(m.pc, o).step)
  {
  }

  lemma LineInv(d: Setup, m: Moment, o: Outcome)
    requires Inv(d, m) && OnLine(m.pc)
    ensures Inv(d, Next(m, o, d.sha))
  {
    if OnLine(NextPC(m.pc, o)) {
      LineStaged(m, o, d.sha);
      LineServing(d.before, m, o, d.sha);
    }
  }

  lemma OtherInv(d: Setup, m: Moment, o: Outcome)
    requires Inv(d, m) && !OnLine(m.pc) && !m.pc.End?
    ensures Inv(d, Next(m, o, d.sha))
  {
  }

  lemma {:induction false} Reachable(d: Setup, ms: seq<Moment>, n: nat)
    requires Run(d, ms) && n < |ms|
    ensures Inv(d, ms[n])
  {
    if n > 0 {
      Reachable(d, ms, n - 1);
      assert StepAt(d, ms, n - 1);
      if OnLine(ms[n - 1].pc) { LineInv(d, ms[n - 1], d.script(n - 1)); } else { OtherInv(d, ms[n - 1], d.script(n - 1)); }
    }
  }

  // ----- what a line of `update` has behind it

  /** The call of line `step` worked at moment `j`, and the run has been past that line until moment `n`. */
  ghost predicate Passed(d: Setup, ms: seq<Moment>, step: nat, j: int, n: nat) {
    && 0 <= j < n < |ms|
    && ms[j].pc.At? && ms[j].pc.step == step && d.script(j).Works?
    && forall k :: j < k < n ==> OnLine(ms[k].pc) && ms[k].pc.step > step
  }

  /** A line is reached from itself or from the one before it, whose call worked. */
  lemma PreviousLine(pc: PC, o: Outcome)
    requires OnLine(NextPC(pc, o))
    ensures OnLine(pc)
    ensures var next := NextPC(pc, o);
            || (next.step == pc.step && (pc.Pausing? || next.Pausing?))
            || (next.step == pc.step + 1 && pc.At? && o.Works?)
  {
  }

  lemma {:induction false} PassedLine(d: Setup, ms: seq<Moment>, n: nat, step: nat) returns (j: nat)
    requires Run(d, ms) && n < |ms| && OnLine(ms[n].pc) && step < ms[n].pc.step
    ensures Passed(d, ms, step, j, n) && Worked(d, ms, j, Line(step, d.sha))
  {
    assert n > 0;
    assert StepAt(d, ms, n - 1);
    PreviousLine(ms[n - 1].pc, d.script(n - 1));
    if ms[n - 1].pc.At? && ms[n - 1].pc.step == step {
      j := n - 1;
    } else {
      j := PassedLine(d, ms, n - 1, step);
    }
  }

  /** Lines are passed in order; only a retried one is met twice. */
  lemma {:induction false} LineBefore(d: Setup, ms: seq<Moment>, k: nat, n: nat)
    requires Run(d, ms) && k < n < |ms| && OnLine(ms[n].pc)
    ensures OnLine(ms[k].pc) && ms[k].pc.step <= ms[n].pc.step
    ensures ms[k].pc.step == ms[n].pc.step ==> ms[n].pc.step in {DB_READY, SMOKE}
    decreases n
  {
    KnownPC(d, ms, n - 1);
    KnownPC(d, ms, n);
    assert StepAt(d, ms, n - 1);
    PreviousLine(ms[n - 1].pc, d.script(n - 1));
    if k < n - 1 { LineBefore(d, ms, k, n - 1); }
  }

  /** The lines that touch the services. */
  lemma TouchLines(pc: PC, sha: Commit)
    requires OnLine(pc)
    ensures TouchesServices(CallOf(pc, sha)) <==>
            pc.At? && pc.step in {STOP_SERVICES, REPLACE_OVERRIDE, START_DB, MIGRATE, START_SERVICES}
  {
  }

  /** The calls that only one line makes. */
  lemma LineOfCall(pc: PC, sha: Commit)
    requires InvPC(pc) && !pc.End?
    ensures CallOf(pc, sha) == Migrate <==> pc == At(MIGRATE, 0)
    ensures CallOf(pc, sha) == RemoveFailed <==> pc == At(REMOVE_FAILED, 0)
    ensures CallOf(pc, sha) == Smoke <==> pc.At? && pc.step == SMOKE
  {
  }

  /** After line `step` was passed, nothing touches the services before moment `n` if no line between does. */
  lemma QuietSince(d: Setup, ms: seq<Moment>, step: nat, j: nat, n: nat)
    requires Run(d, ms) && Passed(d, ms, step, j, n) && OnLine(ms[n].pc)
    requires (DB_READY <= step && ms[n].pc.step <= MIGRATE) || START_SERVICES <= step
    ensures forall k :: j < k < n ==> !TouchesServices(CallOf(ms[k].pc, d.sha))
  {
    forall k | j < k < n ensures !TouchesServices(CallOf(ms[k].pc, d.sha)) {
      LineBefore(d, ms, k, n);
      TouchLines(ms[k].pc, d.sha);
    }
  }

  /** The database is migrated only closed, marked, under the new override, and seen ready since the last service call. */
  lemma MigrationIsFenced(d: Setup, ms: seq<Moment>, i: nat) returns (j: nat)
    requires Run(d, ms) && Makes(d, ms, i, Migrate)
    ensures !ms[i].host.open && ms[i].host.failed.Some? && ms[i].host.override_ == Some(d.sha)
    ensures j < i && Worked(d, ms, j, DbReady) && forall k :: j < k < i ==> !TouchesServices(CallOf(ms[k].pc, d.sha))
  {
    Reachable(d, ms, i);
    assert StepAt(d, ms, i);
    LineOfCall(ms[i].pc, d.sha);
    j := PassedLine(d, ms, i, DB_READY);
    QuietSince(d, ms, DB_READY, j, i);
  }

  /** The lines on which success is checked after the start of the services. */
  function LineOfCheck(check: Call): Option<nat> {
    match check
    case StartServices => Some(22)
    case CheckRunning(Db) => Some(23)
    case CheckRunning(Runner) => Some(24)
    case CheckRunning(Backend) => Some(25)
    case CheckRunning(Frontend) => Some(26)
    case Smoke => Some(28)
    case WriteCurrent => Some(29)
    case _ => None
  }

  lemma CheckAtLine(sha: Commit, check: Call)
    requires LineOfCheck(check).Some?
    ensures START_SERVICES <= LineOfCheck(check).value < REMOVE_FAILED && Line(LineOfCheck(check).value, sha) == check
  {
  }

  /** FAILED is removed only after every check passed on the services then running, untouched since. */
  lemma RemovalIsChecked(d: Setup, ms: seq<Moment>, i: nat, check: Call) returns (j: nat)
    requires Run(d, ms) && Makes(d, ms, i, RemoveFailed) && LineOfCheck(check).Some?
    ensures j < i && Worked(d, ms, j, check) && forall k :: j < k < i ==> !TouchesServices(CallOf(ms[k].pc, d.sha))
    ensures DeployedAs(ms[i].host.(failed := None), d.sha)
  {
    Reachable(d, ms, i);
    assert StepAt(d, ms, i);
    LineOfCall(ms[i].pc, d.sha);
    CheckAtLine(d.sha, check);
    j := PassedLine(d, ms, i, LineOfCheck(check).value);
    QuietSince(d, ms, LineOfCheck(check).value, j, i);
  }

  predicate Finishing(pc: PC) { pc.Unkept? || pc.Dropping? || (pc.End? && pc.result.Deployed?) }

  lemma FinishedFrom(pc: PC, o: Outcome)
    requires InvPC(pc) && !pc.End? && Finishing(NextPC(pc, o))
    ensures Finishing(pc) || pc == At(KEEP_BASIS, 0)
  {
  }

  // ----- the calls by name

  /** What has to work before anything is stopped. */
  function Preparation(): seq<Call> {
    [CheckHost, CheckRecord, FetchMain, MainIsCandidate, CheckAncestor, CheckOldProject, LoadImages, CheckImages]
    + [FetchMain, MainIsCandidate, Merge, WriteCandidate, CheckCandidate, Announce(Stop)]
  }

  /** From the record to its removal: what has to work with the services stopped. */
  function Replacement(sha: Commit): seq<Call> {
    [WriteFailed(Failure(sha, InProgress)), StopServices, ReplaceOverride]
    + [Announce(Migration), StartDb, DbReady, Migrate]
    + [Announce(Start), StartServices, CheckRunning(Db), CheckRunning(Runner), CheckRunning(Backend), CheckRunning(Frontend)]
    + [Announce(SmokeTest), Smoke, WriteCurrent, RemoveFailed]
  }

  function Lines(sha: Commit, from: nat, end: nat): seq<Call>
    requires from <= end
  {
    seq(end - from, i requires 0 <= i < end - from => Line(from + i, sha))
  }

  lemma PreparationLines(sha: Commit)
    ensures Lines(sha, 0, 14) == Preparation()
  {
    LinesJoin(sha, 0, 8, 14);
    TransferLines(sha);
    AdoptionLines(sha);
  }

  lemma TransferLines(sha: Commit)
    ensures Lines(sha, 0, 8) ==
            [CheckHost, CheckRecord, FetchMain, MainIsCandidate, CheckAncestor, CheckOldProject, LoadImages, CheckImages]
  {
    var l := Lines(sha, 0, 8);
    assert l[0] == Line(0, sha) && l[1] == Line(1, sha) && l[2] == Line(2, sha) && l[3] == Line(3, sha);
    assert l[4] == Line(4, sha) && l[5] == Line(5, sha) && l[6] == Line(6, sha) && l[7] == Line(7, sha);
  }

  lemma AdoptionLines(sha: Commit)
    ensures Lines(sha, 8, 14) == [FetchMain, MainIsCandidate, Merge, WriteCandidate, CheckCandidate, Announce(Stop)]
  {
    var l := Lines(sha, 8, 14);
    assert l[0] == Line(8, sha) && l[1] == Line(9, sha) && l[2] == Line(10, sha) && l[3] == Line(11, sha);
    assert l[4] == Line(12, sha) && l[5] == Line(13, sha);
  }

  lemma LinesJoin(sha: Commit, from: nat, middle: nat, end: nat)
    requires from <= middle <= end
    ensures Lines(sha, from, end) == Lines(sha, from, middle) + Lines(sha, middle, end)
  {
  }

  lemma ReplacementLines(sha: Commit)
    ensures Lines(sha, 14, 31) == Replacement(sha)
  {
    LinesJoin(sha, 14, 17, 31);
    LinesJoin(sha, 17, 21, 31);
    LinesJoin(sha, 21, 27, 31);
    ClosingLines(sha);
    MigratingLines(sha);
    StartingLines(sha);
    FinishingLines(sha);
  }

  lemma ClosingLines(sha: Commit)
    ensures Lines(sha, 14, 17) == [WriteFailed(Failure(sha, InProgress)), StopServices, ReplaceOverride]
  {
    var l := Lines(sha, 14, 17);
    assert l[0] == Line(14, sha) && l[1] == Line(15, sha) && l[2] == Line(16, sha);
  }

  lemma MigratingLines(sha: Commit)
    ensures Lines(sha, 17, 21) == [Announce(Migration), StartDb, DbReady, Migrate]
  {
    var l := Lines(sha, 17, 21);
    assert l[0] == Line(17, sha) && l[1] == Line(18, sha) && l[2] == Line(19, sha) && l[3] == Line(20, sha);
  }

  lemma StartingLines(sha: Commit)
    ensures Lines(sha, 21, 27) ==
            [Announce(Start), StartServices, CheckRunning(Db), CheckRunning(Runner), CheckRunning(Backend), CheckRunning(Frontend)]
  {
    var l := Lines(sha, 21, 27);
    assert l[0] == Line(21, sha) && l[1] == Line(22, sha) && l[2] == Line(23, sha) && l[3] == Line(24, sha);
    assert l[4] == Line(25, sha) && l[5] == Line(26, sha);
  }

  lemma FinishingLines(sha: Commit)
    ensures Lines(sha, 27, 31) == [Announce(SmokeTest), Smoke, WriteCurrent, RemoveFailed]
  {
    var l := Lines(sha, 27, 31);
    assert l[0] == Line(27, sha) && l[1] == Line(28, sha) && l[2] == Line(29, sha) && l[3] == Line(30, sha);
  }

  /** Call `i` of the run was this one and worked; a question whether main still names the candidate was answered yes. */
  predicate Succeeded(d: Setup, ms: seq<Moment>, i: int, call: Call) {
    Worked(d, ms, i, call) && (call == MainIsCandidate ==> d.script(i) == Works(true))
  }

  /** Before call `n` these calls succeeded, in this order. */
  ghost predicate InOrder(d: Setup, ms: seq<Moment>, calls: seq<Call>, n: int)
    decreases |calls|
  {
    calls == [] ||
    exists i {:trigger Succeeded(d, ms, i, calls[|calls| - 1])} ::
      0 <= i < n && Succeeded(d, ms, i, calls[|calls| - 1]) && InOrder(d, ms, calls[..|calls| - 1], i)
  }

  lemma {:induction false} LinesInOrder(d: Setup, ms: seq<Moment>, n: nat, end: nat)
    requires Run(d, ms) && n < |ms| && OnLine(ms[n].pc) && end <= ms[n].pc.step
    ensures InOrder(d, ms, Lines(d.sha, 0, end), n)
    decreases end
  {
    if end > 0 {
      var j := PassedLine(d, ms, n, end - 1);
      SucceededLine(d, ms, n, end - 1, j);
      LinesInOrder(d, ms, j, end - 1);
      LinesGrow(d.sha, end - 1);
      OrderGrows(d, ms, Lines(d.sha, 0, end - 1), j, Line(end - 1, d.sha), n);
    }
  }

  lemma LinesGrow(sha: Commit, end: nat)
    ensures Lines(sha, 0, end + 1) == Lines(sha, 0, end) + [Line(end, sha)]
  {
  }

  lemma {:induction false} OrderGrows(d: Setup, ms: seq<Moment>, calls: seq<Call>, i: int, call: Call, n: int)
    requires InOrder(d, ms, calls, i) && 0 <= i < n && Succeeded(d, ms, i, call)
    ensures InOrder(d, ms, calls + [call], n)
  {
    var more := calls + [call];
    assert more[|more| - 1] == call && more[..|more| - 1] == calls;
  }

  lemma {:induction false} SucceededLine(d: Setup, ms: seq<Moment>, n: nat, step: nat, j: nat)
    requires Run(d, ms) && Passed(d, ms, step, j, n) && OnLine(ms[n].pc) && Worked(d, ms, j, Line(step, d.sha))
    ensures Succeeded(d, ms, j, Line(step, d.sha))
  {
    assert StepAt(d, ms, j);
    assert OnLine(ms[j + 1].pc);
  }

  /** The in-progress record is written, and the services are touched after it, only when the whole preparation worked, in this order. */
  lemma {:induction false} StoppedAfterPreparation(d: Setup, ms: seq<Moment>, w: nat)
    requires Run(d, ms) && w < |ms| - 1
    requires CallOf(ms[w].pc, d.sha) == WriteFailed(Failure(d.sha, InProgress)) || TouchesServices(CallOf(ms[w].pc, d.sha))
    ensures exists k :: k <= w && InOrder(d, ms, Preparation(), k)
  {
    StoppedComesAfter(d, ms, w);
    PreparationLines(d.sha);
  }

  lemma {:induction false} StoppedComesAfter(d: Setup, ms: seq<Moment>, w: nat)
    requires Run(d, ms) && w < |ms| && (StoppedAt(ms[w].pc) || (OnLine(ms[w].pc) && ms[w].pc.step >= WRITE_FAILED))
    ensures exists k :: k <= w && InOrder(d, ms, Lines(d.sha, 0, 14), k)
  {
    if OnLine(ms[w].pc) {
      LinesInOrder(d, ms, w, 14);
    } else {
      assert w > 0;
      assert StepAt(d, ms, w - 1);
      StoppedComesAfter(d, ms, w - 1);
    }
  }

  /**
   * A run that ends deployed asked twice whether main still names the candidate and was answered yes,
   * loaded the images before it checked them and checked them before it asked again, and stopped,
   * migrated, started and checked everything in this order before it removed the record.
   */
  lemma {:induction false} SuccessIsChecked(d: Setup, ms: seq<Moment>, n: nat)
    requires Run(d, ms) && n < |ms| && ms[n].pc.End? && ms[n].pc.result.Deployed?
    ensures InOrder(d, ms, Preparation() + Replacement(d.sha) + [Announce(Success)], n)
    ensures DeployedAs(ms[n].host, d.sha)
  {
    Reachable(d, ms, n);
    var k := FinishingFrom(d, ms, n);
    LinesInOrder(d, ms, k, KEEP_BASIS);
    PreparationLines(d.sha);
    ReplacementLines(d.sha);
    var calls := Preparation() + Replacement(d.sha) + [Announce(Success)];
    assert Lines(d.sha, 0, KEEP_BASIS) == Lines(d.sha, 0, 14) + Lines(d.sha, 14, 31) + [Announce(Success)];
    OrderUntil(d, ms, calls, k, n);
  }

  lemma {:induction false} OrderUntil(d: Setup, ms: seq<Moment>, calls: seq<Call>, k: int, n: int)
    requires InOrder(d, ms, calls, k) && k <= n
    ensures InOrder(d, ms, calls, n)
  {
    if calls != [] {
      var i :| 0 <= i < k && Succeeded(d, ms, i, calls[|calls| - 1]) && InOrder(d, ms, calls[..|calls| - 1], i);
      assert 0 <= i < n && Succeeded(d, ms, i, calls[|calls| - 1]);
    }
  }

  lemma {:induction false} FinishingFrom(d: Setup, ms: seq<Moment>, n: nat) returns (k: nat)
    requires Run(d, ms) && n < |ms| && Finishing(ms[n].pc)
    ensures k < n && ms[k].pc == At(KEEP_BASIS, 0)
  {
    assert n > 0;
    assert StepAt(d, ms, n - 1);
    KnownPC(d, ms, n - 1);
    FinishedFrom(ms[n - 1].pc, d.script(n - 1));
    if Finishing(ms[n - 1].pc) { k := FinishingFrom(d, ms, n - 1); } else { k := n - 1; }
  }

  /** Some question whether main still names the candidate was answered no. */
  ghost predicate AnsweredNo(d: Setup, ms: seq<Moment>) {
    exists i {:trigger Makes(d, ms, i, MainIsCandidate)} :: Makes(d, ms, i, MainIsCandidate) && d.script(i) == Works(false)
  }

  /** A no is always the end: it is announced, nothing else is called, and nothing was touched. */
  lemma {:induction false} SupersededIff(d: Setup, ms: seq<Moment>)
    requires Run(d, ms) && ms[|ms| - 1].pc.End?
    ensures var n := |ms| - 1;
            && (AnsweredNo(d, ms) <==> Makes(d, ms, n - 1, Announce(Phase.Superseded)))
            && (ms[n].pc.result.Superseded_? <==> AnsweredNo(d, ms) && d.script(n - 1).Works?)
            && (AnsweredNo(d, ms) ==> Untouched(d.before, ms[n].host))
            && (AnsweredNo(d, ms) && d.script(n - 1).Fails? ==> ms[n].pc.result == Raised(d.script(n - 1).error))
  {
    var n := |ms| - 1;
    Reachable(d, ms, n);
    if i :| Makes(d, ms, i, MainIsCandidate) && d.script(i) == Works(false) {
      NoEndsIt(d, ms, i);
      assert StepAt(d, ms, n - 1);
    }
    if Makes(d, ms, n - 1, Announce(Phase.Superseded)) || ms[n].pc.result.Superseded_? {
      AfterNo(d, ms);
    }
  }

  lemma {:induction false} AfterNo(d: Setup, ms: seq<Moment>)
    requires Run(d, ms) && ms[|ms| - 1].pc.End?
    requires Makes(d, ms, |ms| - 2, Announce(Phase.Superseded)) || ms[|ms| - 1].pc.result.Superseded_?
    ensures |ms| >= 3 && ms[|ms| - 2].pc.Superseding? && StepAt(d, ms, |ms| - 2) && AnsweredNo(d, ms)
  {
    var n := |ms| - 1;
    assert n > 0;
    assert StepAt(d, ms, n - 1);
    KnownPC(d, ms, n - 1);
    assert n > 1;
    assert StepAt(d, ms, n - 2);
    KnownPC(d, ms, n - 2);
    assert Makes(d, ms, n - 2, MainIsCandidate);
  }

  lemma {:induction false} NoEndsIt(d: Setup, ms: seq<Moment>, i: nat)
    requires Run(d, ms) && ms[|ms| - 1].pc.End? && Makes(d, ms, i, MainIsCandidate) && d.script(i) == Works(false)
    ensures |ms| == i + 3 && ms[i + 1].pc == Superseding
    ensures Untouched(d.before, ms[i + 2].host)
  {
    KnownPC(d, ms, i);
    assert StepAt(d, ms, i);
    assert StepAt(d, ms, i + 1);
    EndIsLast(d, ms, i + 2);
    Reachable(d, ms, i + 1);
  }

  /** How a run ends that does not raise: with the basis kept, or with the archive given up instead. */
  lemma {:induction false} DeployedEnds(d: Setup, ms: seq<Moment>)
    requires Run(d, ms) && ms[|ms| - 1].pc.End? && ms[|ms| - 1].pc.result.Deployed?
    ensures var n := |ms| - 1;
            || Worked(d, ms, n - 1, KeepBasis)
            || (&& Makes(d, ms, n - 3, KeepBasis) && d.script(n - 3).Fails? && d.script(n - 3).error in {Os, Refused}
                && Worked(d, ms, n - 2, Print) && Worked(d, ms, n - 1, DropArchive))
  {
    var n := |ms| - 1;
    var k := LastStep(d, ms, n);
    DeployedFrom(ms[k].pc, d.script(k));
    if ms[k].pc.Dropping? {
      var i := LastStep(d, ms, k);
      DroppingFrom(ms[i].pc, d.script(i));
      var j := LastStep(d, ms, i);
      UnkeptFrom(ms[j].pc, d.script(j));
    }
  }

  /** The step before a moment that is not the first. */
  lemma {:induction false} LastStep(d: Setup, ms: seq<Moment>, n: nat) returns (k: nat)
    requires Run(d, ms) && n < |ms| && ms[n] != Begin(d.before)
    ensures k + 1 == n && InvPC(ms[k].pc) && !ms[k].pc.End? && ms[n] == Next(ms[k], d.script(k), d.sha)
  {
    k := n - 1;
    assert StepAt(d, ms, k);
    KnownPC(d, ms, k);
  }

  lemma DeployedFrom(pc: PC, o: Outcome)
    requires InvPC(pc) && !pc.End? && NextPC(pc, o).End? && NextPC(pc, o).result.Deployed?
    ensures o.Works? && (pc.Dropping? || pc == At(KEEP_BASIS, 0))
  {
  }

  lemma DroppingFrom(pc: PC, o: Outcome)
    requires NextPC(pc, o).Dropping?
    ensures o.Works? && pc.Unkept?
  {
  }

  lemma UnkeptFrom(pc: PC, o: Outcome)
    requires InvPC(pc) && NextPC(pc, o).Unkept?
    ensures pc == At(KEEP_BASIS, 0) && o.Fails? && o.error in {Os, Refused}
  {
  }

  /** The error of a fatal outcome: its own, or what used-up tries raise. */
  function CauseOf(pc: PC, o: Outcome): Error {
    match o
    case Fails(error, _) => error
    case Works(_) => if pc.Pausing? && pc.step == DB_READY then Os else Runtime
  }

  /** What error comes out: the fatal one, unless the handler's record write or its stop call is interrupted for good. */
  lemma {:induction false} RaisesWhat(d: Setup, ms: seq<Moment>, k: nat)
    requires Run(d, ms) && ms[|ms| - 1].pc.End? && k < |ms| - 1 && Fatal(ms[k].pc, d.script(k), d.sha)
    ensures var last, cause := ms[|ms| - 1].pc, CauseOf(ms[k].pc, d.script(k));
            && (!StoppedAt(ms[k].pc) ==> |ms| == k + 2 && last.result == Raised(cause))
            && (StoppedAt(ms[k].pc) ==>
                  && |ms| >= k + 3 && CallOf(ms[k + 1].pc, d.sha).WriteFailed?
                  && if d.script(k + 1).Fails? && d.script(k + 1).error != Os then
                       |ms| == k + 3 && last.result == Raised(d.script(k + 1).error)
                     else
                       && |ms| == k + 4 && CallOf(ms[k + 2].pc, d.sha) == StopServices
                       && last.result == Raised(if d.script(k + 2).Fails? && d.script(k + 2).error == Base then Base else cause))
  {
    KnownPC(d, ms, k);
    assert StepAt(d, ms, k);
    if !StoppedAt(ms[k].pc) {
      EndIsLast(d, ms, k + 1);
    } else {
      assert ms[k + 1].pc.Recording?;
      assert StepAt(d, ms, k + 1);
      if ms[k + 2].pc.End? {
        EndIsLast(d, ms, k + 2);
      } else {
        assert StepAt(d, ms, k + 2);
        EndIsLast(d, ms, k + 3);
      }
    }
  }

  /** At every moment the transfer basis is the candidate exactly if keeping it took effect, and else what it was. */
  lemma {:induction false} BasisIff(d: Setup, ms: seq<Moment>, n: nat)
    requires Run(d, ms) && n < |ms|
    ensures (exists i :: i < n && Took(d, ms, i, KeepBasis)) ==> ms[n].host.basis == Some(d.sha)
    ensures (forall i :: i < n ==> !Took(d, ms, i, KeepBasis)) ==> ms[n].host.basis == d.before.basis
  {
    if n > 0 {
      BasisIff(d, ms, n - 1);
      BasisStep(d, ms, n - 1);
    }
  }

  lemma {:induction false} BasisStep(d: Setup, ms: seq<Moment>, i: nat)
    requires Run(d, ms) && i + 1 < |ms|
    ensures ms[i + 1].host.basis == if Took(d, ms, i, KeepBasis) then Some(d.sha) else ms[i].host.basis
  {
    assert StepAt(d, ms, i);
    EffectByPart(ms[i].host, CallOf(ms[i].pc, d.sha), d.sha);
  }

  /** The phase a failure is recorded with, by the call that was lost. */
  lemma {:induction false} PhaseOfFailure(d: Setup, ms: seq<Moment>, k: nat)
    requires Run(d, ms) && k + 2 < |ms| && OnLine(ms[k].pc) && !OnLine(ms[k + 1].pc) && StoppedAt(ms[k].pc)
    ensures ms[k + 1].pc.Recording? && CallOf(ms[k + 1].pc, d.sha) == WriteFailed(Failure(d.sha, ms[k + 1].pc.phase))
    ensures var call, phase := CallOf(ms[k].pc, d.sha), ms[k + 1].pc.phase;
            && (call.WriteFailed? || call in {StopServices, ReplaceOverride} ==> phase == Stop)
            && (call in {Announce(Migration), StartDb, DbReady, Migrate} ==> phase == Migration)
            && (call in {Announce(Start), StartServices} || call.CheckRunning? ==> phase == Start)
            && (call in {Announce(SmokeTest), Smoke, WriteCurrent, RemoveFailed} ==> phase == SmokeTest)
  {
    KnownPC(d, ms, k);
    assert StepAt(d, ms, k);
  }

  // ----- FAILED blocks, exactly when it stands

  /** The host is as a finished deployment leaves it, or the record blocks further runs. */
  predicate Blocked(h: Host) { h.failed.Some? || Settled(h) }

  predicate Records(d: Setup, ms: seq<Moment>, i: int) {
    0 <= i < |ms| - 1 && CallOf(ms[i].pc, d.sha).WriteFailed? && d.script(i).Took()
  }

  /** Before moment `n` a record was written and not removed since. */
  ghost predicate RecordStands(d: Setup, ms: seq<Moment>, n: nat) {
    n > 0 && (Records(d, ms, n - 1) || (!Took(d, ms, n - 1, RemoveFailed) && RecordStands(d, ms, n - 1)))
  }

  /** Before moment `n` the services were closed, and no removal of a record came after. */
  ghost predicate ClosedSince(d: Setup, ms: seq<Moment>, n: nat) {
    n > 0 && (Took(d, ms, n - 1, StopServices) || (!Took(d, ms, n - 1, RemoveFailed) && ClosedSince(d, ms, n - 1)))
  }

  /** The record is there exactly while it stands; without it the host is settled until the services are closed. */
  predicate Accounted(h: Host, stands: bool, closed: bool) {
    && (h.failed.Some? <==> stands)
    && (h.failed.None? && !closed ==> Settled(h))
    && (h.failed.None? && closed ==> !h.open)
  }

  lemma AccountedStep(d: Setup, m: Moment, o: Outcome, stands: bool, closed: bool)
    requires Inv(d, m) && !m.pc.End? && Accounted(m.host, stands, closed)
    ensures var call := CallOf(m.pc, d.sha);
            Accounted(
              After(m.host, call, o, d.sha),
              (call.WriteFailed? && o.Took()) || (!(call == RemoveFailed && o.Took()) && stands),
              (call == StopServices && o.Took()) || (!(call == RemoveFailed && o.Took()) && closed))
  {
    LineOfCall(m.pc, d.sha);
    match CallOf(m.pc, d.sha)
    case RemoveFailed => assert DeployedAs(m.host.(failed := None), d.sha);
    case ReplaceOverride => assert m.host.failed.Some?;
    case Migrate => assert m.host.failed.Some?;
    case StartServices => assert m.host.failed.Some?;
    case WriteCurrent => assert m.host.failed.Some?;
    case _ =>
  }

  lemma {:induction false} AllAccounted(d: Setup, ms: seq<Moment>, n: nat)
    requires Run(d, ms) && n < |ms| && Settled(d.before) && d.before.failed.None?
    ensures Accounted(ms[n].host, RecordStands(d, ms, n), ClosedSince(d, ms, n))
  {
    if n > 0 {
      AllAccounted(d, ms, n - 1);
      Reachable(d, ms, n - 1);
      assert StepAt(d, ms, n - 1);
      AccountedStep(d, ms[n - 1], d.script(n - 1), RecordStands(d, ms, n - 1), ClosedSince(d, ms, n - 1));
    }
  }

  /**
   * At every moment of every run from a settled host, so after a failure, a crash or the end: the next
   * run is blocked or finds a settled host exactly when a record stands or nothing closed the services
   * since the last removal of one.
   */
  lemma BlockedIff(d: Setup, ms: seq<Moment>, n: nat)
    requires Run(d, ms) && n < |ms| && Settled(d.before) && d.before.failed.None?
    ensures Blocked(ms[n].host) <==> RecordStands(d, ms, n) || !ClosedSince(d, ms, n)
  {
    AllAccounted(d, ms, n);
  }

  /** One run in a series, complete or cut off. */
  ghost predicate Leads(d: Setup, ms: seq<Moment>, h: Host, h': Host) {
    Run(d, ms) && d.before == h && h' == ms[|ms| - 1].host
  }

  /** Nothing was closed over a lost record. */
  ghost predicate RecordKept(d: Setup, ms: seq<Moment>) {
    ms != [] && (d.before.failed.Some? || RecordStands(d, ms, |ms| - 1) || !ClosedSince(d, ms, |ms| - 1))
  }

  ghost predicate Series(hosts: seq<Host>, ds: seq<Setup>, runs: seq<seq<Moment>>) {
    && |hosts| == |ds| + 1 == |runs| + 1
    && forall i :: 0 <= i < |ds| ==> Leads(ds[i], runs[i], hosts[i], hosts[i + 1])
  }

  /** Over any series of runs a failure record ends all change, and if no record was lost the host stays blocked or settled. */
  lemma {:induction false} FailureEndsAllChange(hosts: seq<Host>, ds: seq<Setup>, runs: seq<seq<Moment>>, k: nat, n: nat)
    requires Series(hosts, ds, runs) && k <= n < |hosts|
    ensures hosts[k].failed.Some? ==> hosts[n] == hosts[k]
    ensures Blocked(hosts[k]) && (forall i :: k <= i < n ==> RecordKept(ds[i], runs[i])) ==> Blocked(hosts[n])
    decreases n
  {
    if n > k {
      FailureEndsAllChange(hosts, ds, runs, k, n - 1);
      var d, ms := ds[n - 1], runs[n - 1];
      assert Leads(d, ms, hosts[n - 1], hosts[n - 1 + 1]);
      Reachable(d, ms, |ms| - 1);
      if d.before.failed.None? && Settled(d.before) {
        BlockedIff(d, ms, |ms| - 1);
      }
    }
  }

  // ----- every run ends, in one way

  function Left(pc: PC): nat {
    match pc
    case End(_, _, _) => 0
    case At(step, failed) => if step <= 33 && failed <= 31 then (33 - step) * 100 + 2 * (31 - failed) + 11 else 0
    case Pausing(step, failed) => if step <= 33 && failed <= 31 then (33 - step) * 100 + 2 * (31 - failed) + 12 else 0
    case Halting(_, _) | Dropping => 1
    case _ => 2
  }

  lemma LeftFalls(pc: PC, o: Outcome)
    requires InvPC(pc) && !pc.End?
    ensures Left(NextPC(pc, o)) < Left(pc)
  {
  }

  /** Every run can be completed: no call sequence goes on for ever. */
  lemma {:induction false} Complete(d: Setup, ms: seq<Moment>) returns (whole: seq<Moment>)
    requires Run(d, ms)
    ensures Run(d, whole) && ms <= whole && whole[|whole| - 1].pc.End?
    decreases Left(ms[|ms| - 1].pc)
  {
    whole := ms;
    var last := ms[|ms| - 1];
    if !last.pc.End? {
      var next := Next(last, d.script(|ms| - 1), d.sha);
      var more := ms + [next];
      Extended(d, ms, next);
      KnownPC(d, ms, |ms| - 1);
      LeftFalls(last.pc, d.script(|ms| - 1));
      whole := Complete(d, more);
    }
  }

  /** What the outside does determines the run. */
  lemma {:induction false} SamePrefix(d: Setup, ms: seq<Moment>, e: Setup, ns: seq<Moment>, n: nat)
    requires Run(d, ms) && Run(e, ns) && n < |ms| && n < |ns|
    requires d.before == e.before && d.sha == e.sha && forall i :: 0 <= i < n ==> d.script(i) == e.script(i)
    ensures ms[n] == ns[n]
  {
    if n > 0 {
      SamePrefix(d, ms, e, ns, n - 1);
      assert StepAt(d, ms, n - 1) && StepAt(e, ns, n - 1);
    }
  }

  // ----- failures

  /** The run ended with the failure record and then a stop; what of the two took effect shows in the host. */
  predicate Closed(d: Setup, ms: seq<Moment>, failure: Failure) {
    var n := |ms| - 1;
    && Makes(d, ms, n - 2, WriteFailed(failure)) && Makes(d, ms, n - 1, StopServices)
    && (d.script(n - 2).Took() ==> ms[n].host.failed == Some(failure))
    && (d.script(n - 1).Took() ==> !ms[n].host.open)
  }

  /** Writing the record was itself interrupted by something other than an OSError. */
  predicate RecordInterrupted(d: Setup, ms: seq<Moment>, failure: Failure) {
    var n := |ms| - 1;
    Makes(d, ms, n - 1, WriteFailed(failure)) && d.script(n - 1).Fails? && d.script(n - 1).error != Os
  }

  /** A run that ends with the services stopped ends in the handler: record, then stop. */
  lemma FailureCloses(d: Setup, ms: seq<Moment>)
    requires Run(d, ms) && ms[|ms| - 1].pc.End? && ms[|ms| - 1].pc.stopped
    ensures var failure := Failure(d.sha, ms[|ms| - 1].pc.phase);
            Closed(d, ms, failure) || RecordInterrupted(d, ms, failure)
  {
    var n := |ms| - 1;
    assert n > 0;
    assert StepAt(d, ms, n - 1);
    if ms[n - 1].pc.Halting? {
      assert n > 1;
      assert StepAt(d, ms, n - 2);
    }
  }

  /** An outcome that nothing catches, retries or excuses: the update is lost. */
  predicate Fatal(pc: PC, o: Outcome, sha: Commit) {
    !pc.End? && !pc.Recording? && !pc.Halting? &&
    match CallOf(pc, sha)
    case DbReady => o.Fails? && o.error != Subprocess
    case Smoke => o.Fails? && o.error == Base
    case KeepBasis => o.Fails? && o.error != Os && o.error != Refused
    case Sleep => o.Fails? || (pc.Pausing? && pc.failed >= if pc.step == DB_READY then 30 else 5)
    case _ => o.Fails?
  }

  predicate Lost(pc: PC) { pc.Recording? || pc.Halting? || (pc.End? && pc.result.Raised?) }

  lemma LostFrom(pc: PC, o: Outcome, sha: Commit)
    requires InvPC(pc) && !pc.End?
    ensures Lost(NextPC(pc, o)) <==> Lost(pc) || Fatal(pc, o, sha)
  {
  }

  /** A run raises exactly when FAILED refused it or some outcome was fatal. */
  lemma {:induction false} RaisesIff(d: Setup, ms: seq<Moment>, n: nat)
    requires Run(d, ms) && n < |ms|
    ensures Lost(ms[n].pc) <==> d.before.failed.Some? || exists i :: 0 <= i < n && Fatal(ms[i].pc, d.script(i), d.sha)
  {
    if n > 0 {
      RaisesIff(d, ms, n - 1);
      KnownPC(d, ms, n - 1);
      assert StepAt(d, ms, n - 1);
      LostFrom(ms[n - 1].pc, d.script(n - 1), d.sha);
    }
  }

  // ----- a termination signal

  /** Once in the handler a run stays there until it ends raised. */
  lemma {:induction false} HandlerEnds(d: Setup, ms: seq<Moment>, k: nat, n: nat)
    requires Run(d, ms) && k <= n < |ms| && (ms[k].pc.Recording? || ms[k].pc.Halting?)
    ensures ms[n].pc.Recording? ==> n == k
    ensures ms[n].pc.Recording? || ms[n].pc.Halting? || (ms[n].pc.End? && ms[n].pc.result.Raised? && ms[n].pc.stopped)
    decreases n
  {
    if n > k {
      HandlerEnds(d, ms, k, n - 1);
      assert StepAt(d, ms, n - 1);
    }
  }

  /** The handler's record write raises something that its `except OSError` does not catch: the stop is skipped. */
  predicate SkipsStop(pc: PC, o: Outcome) { pc.Recording? && o.Fails? && o.error != Os }

  lemma LastOfHandler(d: Setup, ms: seq<Moment>)
    requires Run(d, ms) && ms[|ms| - 1].pc.End? && ms[|ms| - 1].pc.stopped
    ensures |ms| >= 2
    ensures ms[|ms| - 2].pc.Halting? || SkipsStop(ms[|ms| - 2].pc, d.script(|ms| - 2))
  {
    assert |ms| >= 2;
    assert StepAt(d, ms, |ms| - 2);
  }

  /** The run raised with the services stopped: the stop was called last, exactly if no record write from call `k` on skips it. */
  ghost predicate EndsInHandler(d: Setup, ms: seq<Moment>, k: nat) {
    && ms != [] && ms[|ms| - 1].pc.End?
    && var last := ms[|ms| - 1].pc;
       && last.result.Raised? && last.stopped
       && (Closed(d, ms, Failure(d.sha, last.phase)) || RecordInterrupted(d, ms, Failure(d.sha, last.phase)))
       && (Closed(d, ms, Failure(d.sha, last.phase)) <==>
             forall j :: k <= j < |ms| - 1 ==> !SkipsStop(ms[j].pc, d.script(j)))
  }

  /** A handler that started ends with the record and a stop exactly if no record write of it skips the stop. */
  lemma HandlerCloses(d: Setup, ms: seq<Moment>, k: nat)
    requires Run(d, ms) && ms[|ms| - 1].pc.End? && k < |ms| - 1 && (ms[k].pc.Recording? || ms[k].pc.Halting?)
    ensures EndsInHandler(d, ms, k)
  {
    var n := |ms| - 1;
    HandlerEnds(d, ms, k, n);
    FailureCloses(d, ms);
    LastOfHandler(d, ms);
    if ms[n - 1].pc.Halting? {
      forall j | k <= j < n ensures !SkipsStop(ms[j].pc, d.script(j)) {
        HandlerEnds(d, ms, k, j);
        assert StepAt(d, ms, j);
        if j == k && SkipsStop(ms[j].pc, d.script(j)) { EndIsLast(d, ms, k + 1); }
      }
    }
  }

  lemma EndIsLast(d: Setup, ms: seq<Moment>, n: nat)
    requires Run(d, ms) && n < |ms| && ms[n].pc.End?
    ensures n == |ms| - 1
  {
    assert n < |ms| - 1 ==> StepAt(d, ms, n);
  }

  /** A termination signal during call `k`, whatever else goes wrong before or after. */
  ghost predicate Signalled(d: Setup, ms: seq<Moment>, k: nat) {
    Run(d, ms) && ms[|ms| - 1].pc.End? && k < |ms| - 1 && d.script(k).Fails? && d.script(k).error == Runtime
  }

  /**
   * What a signal does, in every run and for every call it can hit. While `stopped` is set the update
   * goes on exactly if the signal hits a smoke test. Otherwise the run ends raised in the handler: with
   * the record and then the stop, exactly if no write of the handler's record raises anything but an
   * OSError, the signal itself included; else at that write, and the services are not asked to stop.
   * Outside, the run is over, with the services as they were or deployed.
   */
  lemma SignalClosesUnlessSmoke(d: Setup, ms: seq<Moment>, k: nat)
    requires Signalled(d, ms, k)
    ensures StoppedAt(ms[k].pc) ==> (Makes(d, ms, k, Smoke) <==> OnLine(ms[k + 1].pc))
    ensures StoppedAt(ms[k].pc) && !Makes(d, ms, k, Smoke) ==> EndsInHandler(d, ms, k)
    ensures !StoppedAt(ms[k].pc) ==>
              && |ms| == k + 2 && ms[k + 1].pc == End(Raised(Runtime), false, PhaseOf(ms[k].pc))
              && (Untouched(d.before, ms[k + 1].host) || DeployedAs(ms[k + 1].host, d.sha))
  {
    SignalNext(d, ms, k);
    if !StoppedAt(ms[k].pc) {
      EndIsLast(d, ms, k + 1);
      Reachable(d, ms, k + 1);
    } else if !Makes(d, ms, k, Smoke) {
      SignalEnds(d, ms, k);
    }
  }

  lemma SignalNext(d: Setup, ms: seq<Moment>, k: nat)
    requires Signalled(d, ms, k)
    ensures StoppedAt(ms[k].pc) ==> (Makes(d, ms, k, Smoke) <==> OnLine(ms[k + 1].pc))
    ensures StoppedAt(ms[k].pc) && OnLine(ms[k].pc) && !Makes(d, ms, k, Smoke) ==> ms[k + 1].pc.Recording?
    ensures !StoppedAt(ms[k].pc) ==> ms[k + 1].pc == End(Raised(Runtime), false, PhaseOf(ms[k].pc))
  {
    KnownPC(d, ms, k);
    assert StepAt(d, ms, k);
    LineOfCall(ms[k].pc, d.sha);
  }

  lemma SignalEnds(d: Setup, ms: seq<Moment>, k: nat)
    requires Signalled(d, ms, k) && StoppedAt(ms[k].pc) && !Makes(d, ms, k, Smoke)
    ensures EndsInHandler(d, ms, k)
  {
    assert StepAt(d, ms, k);
    if OnLine(ms[k].pc) {
      SignalNext(d, ms, k);
      HandlerCloses(d, ms, k + 1);
      assert !SkipsStop(ms[k].pc, d.script(k));
    } else {
      HandlerCloses(d, ms, k);
    }
  }

  /** While nothing fails and main still names the candidate, every call moves the run one line on. */
  lemma {:induction false} Smooth(d: Setup, ms: seq<Moment>, k: nat, n: nat)
    requires Run(d, ms) && k <= n < |ms| && ms[k].pc.At? && ms[k].pc.step <= KEEP_BASIS
    requires forall i :: k <= i < n ==> d.script(i) == Works(true)
    ensures var step := ms[k].pc.step + (n - k);
            && step <= KEEP_BASIS + 1
            && (n > k ==> ms[n].pc == if step <= KEEP_BASIS then At(step, 0) else End(Deployed, false, Success))
    decreases n
  {
    if n > k {
      Smooth(d, ms, k, n - 1);
      assert StepAt(d, ms, n - 1);
    }
  }

  /** The whole run works except for one termination signal, delivered during call `k`. */
  ghost predicate OneSignal(d: Setup, ms: seq<Moment>, k: nat) {
    && Run(d, ms) && ms[|ms| - 1].pc.End? && d.before.failed.None?
    && k < |ms| - 1 && d.script(k).Fails? && d.script(k).error == Runtime
    && forall i :: 0 <= i && i != k ==> d.script(i) == Works(true)
  }

  lemma SignalInHandler(d: Setup, ms: seq<Moment>, k: nat)
    requires OneSignal(d, ms, k) && k <= KEEP_BASIS && ms[k].pc == At(k, 0) && k != SMOKE
    ensures StoppedAt(ms[k].pc) ==>
              |ms| == k + 4 && ms[k + 3].pc == End(Raised(Runtime), true, PhaseOf(ms[k].pc))
              && ms[k + 3].host == Next(Next(Next(ms[k], d.script(k), d.sha), Works(true), d.sha), Works(true), d.sha).host
    ensures !StoppedAt(ms[k].pc) ==> |ms| == k + 2 && ms[k + 1].pc == End(Raised(Runtime), false, PhaseOf(ms[k].pc))
  {
    assert StepAt(d, ms, k);
    if StoppedAt(ms[k].pc) {
      assert StepAt(d, ms, k + 1);
      assert StepAt(d, ms, k + 2);
      assert !StepAt(d, ms, k + 3);
    } else {
      assert !StepAt(d, ms, k + 1);
    }
  }

  /**
   * Where nothing else goes wrong, a signal leaves the run deployed exactly if it hits the smoke test;
   * any other that hits the stopped services ends with the record written and the services closed.
   */
  lemma {:induction false} LoneSignal(d: Setup, ms: seq<Moment>, k: nat)
    requires OneSignal(d, ms, k)
    ensures var last := ms[|ms| - 1];
            && (Makes(d, ms, k, Smoke) <==> last.pc == End(Deployed, false, Success))
            && (Makes(d, ms, k, Smoke) ==> StoppedAt(ms[k].pc) && DeployedAs(last.host, d.sha))
            && (StoppedAt(ms[k].pc) && !Makes(d, ms, k, Smoke) ==>
                  last.host.failed == Some(Failure(d.sha, PhaseOf(ms[k].pc))) && !last.host.open)
  {
    Smooth(d, ms, 0, k);
    assert StepAt(d, ms, k);
    LineOfCall(ms[k].pc, d.sha);
    if k == SMOKE { SignalSwallowed(d, ms); } else { SignalEndsIt(d, ms, k); }
  }

  lemma {:induction false} SignalEndsIt(d: Setup, ms: seq<Moment>, k: nat)
    requires OneSignal(d, ms, k) && k <= KEEP_BASIS && ms[k].pc == At(k, 0) && k != SMOKE
    ensures var last := ms[|ms| - 1];
            && last.pc.result.Raised?
            && (StoppedAt(ms[k].pc) ==> last.host.failed == Some(Failure(d.sha, PhaseOf(ms[k].pc))) && !last.host.open)
  {
    SignalInHandler(d, ms, k);
  }

  lemma {:induction false} SignalSwallowed(d: Setup, ms: seq<Moment>)
    requires OneSignal(d, ms, SMOKE) && ms[SMOKE].pc == At(SMOKE, 0)
    ensures ms[|ms| - 1].pc == End(Deployed, false, Success) && DeployedAs(ms[|ms| - 1].host, d.sha)
  {
    Reachable(d, ms, |ms| - 1);
    assert StepAt(d, ms, SMOKE);
    assert StepAt(d, ms, SMOKE + 1);
    Smooth(d, ms, SMOKE + 2, |ms| - 1);
  }

  /**
   * With the record lost twice and the stop working, a run from any settled host ends with the services
   * closed and nothing to block the next run.
   */
  lemma LostRecordUnblocks(h: Host, sha: Commit) returns (d: Setup, ms: seq<Moment>)
    requires Settled(h) && h.failed.None?
    ensures d.before == h && d.sha == sha && Run(d, ms) && |ms| == 18
    ensures forall i :: d.script(i) == if i == 14 || i == 15 then Fails(Os, false) else Works(true)
    ensures ms[17].pc == End(Raised(Os), true, Stop) && !Blocked(ms[17].host)
  {
    d := Setup(h, sha, (i: nat) => if i == 14 || i == 15 then Fails(Os, false) else Works(true));
    ms := Complete(d, [Begin(h)]);
    var n := |ms| - 1;
    if n < WRITE_FAILED { Smooth(d, ms, 0, n); }
    Smooth(d, ms, 0, WRITE_FAILED);
    Reachable(d, ms, WRITE_FAILED);
    assert StepAt(d, ms, 14);
    assert StepAt(d, ms, 15);
    assert StepAt(d, ms, 16);
    assert !StepAt(d, ms, 17);
  }

  lemma Extended(d: Setup, ms: seq<Moment>, next: Moment)
    requires Run(d, ms) && !ms[|ms| - 1].pc.End? && next == Next(ms[|ms| - 1], d.script(|ms| - 1), d.sha)
    ensures Run(d, ms + [next])
  {
    var more := ms + [next];
    forall i | 0 <= i < |more| - 1 ensures StepAt(d, more, i) {
      assert i < |ms| - 1 ==> StepAt(d, ms, i);
    }
  }

  // ----- the deployment as it is written

  datatype Step = Ok | Threw(error: Error) {
    predicate IsFailure() { Threw? }
    function PropagateFailure(): Step { this }
  }

  class Deployment {
    const sha: Commit
    const script: nat -> Outcome // what the outside does, call by call
    ghost const before: Host
    var host: Host
    var calls: nat
    var phase: Phase
    var stopped: bool
    ghost var now: Moment
    ghost var moments: seq<Moment>

    constructor (host: Host, sha: Commit, script: nat -> Outcome)
      ensures this.sha == sha && this.script == script && before == host && this.host == host
      ensures Valid() && calls == 0 && phase == Preflight && !stopped
    {
      this.sha, this.script, this.host, before := sha, script, host, host;
      calls, phase, stopped := 0, Preflight, false;
      now, moments := Begin(host), [Begin(host)];
    }

    ghost function Setting(): Setup { Setup(before, sha, script) }

    /** The object is at the moment of the run that its calls so far lead to. */
    ghost predicate Valid()
      reads this
    {
      && Run(Setting(), moments) && |moments| == calls + 1
      && moments[calls] == now && now.host == host
    }

    /** The code is about to make exactly the call of this place, with its fields as they are there. */
    ghost predicate Ready(pc: PC, call: Call)
      reads this
    {
      Valid() && now.pc == pc && !pc.End? && CallOf(pc, sha) == call && phase == PhaseOf(pc) && stopped == StoppedAt(pc)
    }

    /** One call to the outside; `pc` is the place in the program it is made from. */
    method Do(call: Call, ghost pc: PC) returns (ok: Step, yes: bool)
      requires Ready(pc, call)
      modifies this`host, this`calls, this`now, this`moments
      ensures Valid() && now.pc == NextPC(pc, script(old(calls)))
      ensures ok == match script(old(calls)) { case Works(_) => Ok case Fails(error, _) => Threw(error) }
      ensures yes == (script(old(calls)) == Works(true))
    {
      var o := script(calls);
      ghost var next := Next(now, o, sha);
      Extended(Setting(), moments, next);
      host, calls, now, moments := After(host, call, o, sha), calls + 1, next, moments + [next];
      yes := o == Works(true);
      match o
      case Works(_) => ok := Ok;
      case Fails(error, _) => ok := Threw(error);
    }

    /** A line of `update` that is made once and has no other way on than the next line. */
    method Line(call: Call, ghost step: nat) returns (ok: Step)
      requires Ready(At(step, 0), call)
      requires step !in {STILL_MAIN, MAIN_AGAIN, DB_READY, SMOKE} && step < KEEP_BASIS
      modifies this`host, this`calls, this`now, this`moments
      ensures Valid() && now.pc == if ok.Ok? then At(step + 1, 0) else Thrown(At(step, 0), ok.error)
    {
      var yes;
      ok, yes := Do(call, At(step, 0));
    }

    /** The journal line of a phase, which is set even if the line cannot be written. */
    method Stage(name: Phase, ghost step: nat) returns (ok: Step)
      requires Valid() && now.pc == At(step, 0) && CallOf(At(step, 0), sha) == Announce(name)
      requires name == PhaseOf(At(step, 0)) && stopped == StoppedAt(At(step, 0)) && step < KEEP_BASIS
      requires step !in {STILL_MAIN, MAIN_AGAIN, DB_READY, SMOKE}
      modifies this`host, this`calls, this`now, this`moments, this`phase
      ensures Valid() && phase == name
      ensures now.pc == if ok.Ok? then At(step + 1, 0) else Thrown(At(step, 0), ok.error)
    {
      phase := name;
      ok := Line(Announce(name), step);
    }

    /** Thirty tries at most; only a failed probe is tried again. */
    method WaitDatabase() returns (ok: Step)
      requires Ready(At(DB_READY, 0), DbReady)
      modifies this`host, this`calls, this`now, this`moments
      ensures Valid() && now.pc == if ok.Ok? then At(MIGRATE, 0) else Thrown(At(DB_READY, 0), ok.error)
    {
      for tries := 0 to 30
        invariant Valid() && now.pc == if tries < 30 then At(DB_READY, tries) else Thrown(At(DB_READY, 0), Os)
      {
        var yes;
        ok, yes := Do(DbReady, At(DB_READY, tries));
        if ok.Ok? || ok.error != Subprocess { return; }
        ok, yes := Do(Sleep, Pausing(DB_READY, tries + 1));
        if ok.Threw? { return; }
      }
      return Threw(Os);
    }

    /** Five tries at most; every ordinary exception of a try, even a delivered signal, is tried again. */
    method WaitSmoke() returns (ok: Step)
      requires Ready(At(SMOKE, 0), Smoke)
      modifies this`host, this`calls, this`now, this`moments
      ensures Valid() && now.pc == if ok.Ok? then At(WRITE_CURRENT, 0) else Thrown(At(SMOKE, 0), ok.error)
    {
      for tries := 0 to 5
        invariant Valid() && now.pc == if tries < 5 then At(SMOKE, tries) else Thrown(At(SMOKE, 0), Runtime)
      {
        var yes;
        ok, yes := Do(Smoke, At(SMOKE, tries));
        if ok.Ok? || ok.error == Base { return; }
        ok, yes := Do(Sleep, Pausing(SMOKE, tries + 1));
        if ok.Threw? { return; }
      }
      return Threw(Runtime);
    }

    /** Whether main still names the candidate, asked afresh. */
    method StillCurrent(ghost step: nat) returns (ok: Step, current: bool)
      requires step in {STILL_MAIN - 1, MAIN_AGAIN - 1} && Ready(At(step, 0), FetchMain)
      modifies this`host, this`calls, this`now, this`moments, this`phase
      ensures Valid() && (phase == old(phase) || (ok.Ok? ==> !current))
      ensures ok.Threw? ==> now.pc == End(Raised(ok.error), false, phase)
      ensures ok.Ok? ==> now.pc == if current then At(step + 2, 0) else End(Superseded_, false, phase)
    {
      current := true;
      :- Line(FetchMain, step);
      ok, current := Do(MainIsCandidate, At(step + 1, 0));
      if ok.Ok? && !current {
        phase := Phase.Superseded;
        var yes;
        ok, yes := Do(Announce(Phase.Superseded), Superseding);
      }
    }

    method Inspect() returns (ok: Step)
      requires Ready(At(0, 0), CheckHost)
      modifies this`host, this`calls, this`now, this`moments
      ensures Valid() && now.pc == if ok.Ok? then At(2, 0) else End(Raised(ok.error), false, Preflight)
    {
      ok := Line(CheckHost, 0);
      if ok.Ok? { ok := Line(CheckRecord, 1); }
    }

    /** Everything up to the checked candidate. */
    method Prepare() returns (ok: Step, superseded: bool)
      requires Ready(At(0, 0), CheckHost)
      modifies this`host, this`calls, this`now, this`moments, this`phase
      ensures Valid() && (superseded ==> ok.Ok?)
      ensures ok.Threw? ==> now.pc == End(Raised(ok.error), false, phase)
      ensures ok.Ok? ==> now.pc == if superseded then End(Superseded_, false, phase) else At(13, 0)
    {
      superseded := false;
      ok := Inspect();
      if ok.Threw? { return; }
      var current :- StillCurrent(2);
      if !current { return Ok, true; }
      :- Transfer();
      current :- StillCurrent(8);
      if !current { return Ok, true; }
      ok := Adopt();
    }

    /** The candidate's images are loaded and checked; the running installation is only looked at. */
    method Transfer() returns (ok: Step)
      requires Ready(At(4, 0), CheckAncestor)
      modifies this`host, this`calls, this`now, this`moments
      ensures Valid() && now.pc == if ok.Ok? then At(8, 0) else End(Raised(ok.error), false, Preflight)
    {
      ok := Line(CheckAncestor, 4);
      if ok.Ok? { ok := Line(CheckOldProject, 5); }
      if ok.Ok? { ok := Line(LoadImages, LOAD_IMAGES); }
      if ok.Ok? { ok := Line(CheckImages, CHECK_IMAGES); }
    }

    /** The checkout moves to the candidate, whose configuration is written beside the active one and checked. */
    method Adopt() returns (ok: Step)
      requires Ready(At(MERGE, 0), Merge)
      modifies this`host, this`calls, this`now, this`moments
      ensures Valid() && now.pc == if ok.Ok? then At(13, 0) else End(Raised(ok.error), false, Preflight)
    {
      ok := Line(Merge, MERGE);
      if ok.Ok? { ok := Line(WriteCandidate, WRITE_CANDIDATE); }
      if ok.Ok? { ok := Line(CheckCandidate, CHECK_CANDIDATE); }
    }

    /** From here on a failure closes the services and leaves the record, which is in place before they are asked to stop. */
    method Stop() returns (ok: Step)
      requires Valid() && now.pc == At(13, 0) && !stopped
      modifies this`host, this`calls, this`now, this`moments, this`phase, this`stopped
      ensures Valid() && (ok.Ok? ==> stopped && phase == Phase.Stop && now.pc == At(17, 0))
      ensures ok.Threw? ==> now.pc == if stopped then Recording(ok.error, phase) else End(Raised(ok.error), false, phase)
    {
      ok := Stage(Phase.Stop, 13);
      if ok.Threw? { return; }
      stopped := true;
      ok := Close();
    }

    method Close() returns (ok: Step)
      requires Ready(At(WRITE_FAILED, 0), WriteFailed(Failure(sha, InProgress)))
      modifies this`host, this`calls, this`now, this`moments
      ensures Valid() && now.pc == if ok.Ok? then At(17, 0) else Recording(ok.error, Phase.Stop)
    {
      ok := Line(WriteFailed(Failure(sha, InProgress)), WRITE_FAILED);
      if ok.Ok? { ok := Line(StopServices, STOP_SERVICES); }
      if ok.Ok? { ok := Line(ReplaceOverride, REPLACE_OVERRIDE); }
    }

    method MigrateDatabase() returns (ok: Step)
      requires Valid() && now.pc == At(17, 0) && stopped
      modifies this`host, this`calls, this`now, this`moments, this`phase
      ensures Valid() && phase == Migration
      ensures now.pc == if ok.Ok? then At(21, 0) else Recording(ok.error, phase)
    {
      ok := Stage(Migration, 17);
      if ok.Ok? { ok := Line(StartDb, START_DB); }
      if ok.Ok? { ok := WaitDatabase(); }
      if ok.Ok? { ok := Line(Migrate, MIGRATE); }
    }

    method CheckRunningImages() returns (ok: Step)
      requires Valid() && now.pc == At(23, 0) && stopped && phase == Start
      modifies this`host, this`calls, this`now, this`moments
      ensures Valid() && now.pc == if ok.Ok? then At(27, 0) else Recording(ok.error, Start)
    {
      var names := [Db, Runner, Backend, Frontend];
      ok := Ok;
      for i := 0 to |names|
        invariant Valid() && ok.Ok? && now.pc == At(23 + i, 0)
      {
        ok := Line(CheckRunning(names[i]), 23 + i);
        if ok.Threw? { return; }
      }
    }

    method StartUp() returns (ok: Step)
      requires Valid() && now.pc == At(21, 0) && stopped
      modifies this`host, this`calls, this`now, this`moments, this`phase
      ensures Valid() && phase == Start && now.pc == if ok.Ok? then At(27, 0) else Recording(ok.error, phase)
    {
      ok := Stage(Start, 21);
      if ok.Ok? { ok := Line(StartServices, START_SERVICES); }
      if ok.Ok? { ok := CheckRunningImages(); }
    }

    method Launch() returns (ok: Step)
      requires Valid() && now.pc == At(21, 0) && stopped
      modifies this`host, this`calls, this`now, this`moments, this`phase
      ensures Valid() && (ok.Ok? ==> phase == SmokeTest)
      ensures now.pc == if ok.Ok? then At(WRITE_CURRENT, 0) else Recording(ok.error, phase)
    {
      ok := StartUp();
      if ok.Threw? { return; }
      ok := Stage(SmokeTest, 27);
      if ok.Ok? { ok := WaitSmoke(); }
    }

    /** The candidate becomes the current deployment, and the marker goes. */
    method Record() returns (ok: Step)
      requires Ready(At(WRITE_CURRENT, 0), WriteCurrent)
      modifies this`host, this`calls, this`now, this`moments
      ensures Valid() && now.pc == if ok.Ok? then At(31, 0) else Recording(ok.error, SmokeTest)
    {
      ok := Line(WriteCurrent, WRITE_CURRENT);
      if ok.Ok? { ok := Line(RemoveFailed, REMOVE_FAILED); }
    }

    method Finish() returns (ok: Step)
      requires Valid() && now.pc == At(WRITE_CURRENT, 0) && stopped && phase == SmokeTest
      modifies this`host, this`calls, this`now, this`moments, this`phase, this`stopped
      ensures Valid() && (ok.Ok? ==> !stopped && now.pc == End(Deployed, false, phase))
      ensures ok.Threw? ==> now.pc == if stopped then Recording(ok.error, phase) else End(Raised(ok.error), false, phase)
    {
      ok := Record();
      if ok.Threw? { return; }
      stopped := false;
      ok := Publish();
    }

    method Publish() returns (ok: Step)
      requires Valid() && now.pc == At(31, 0) && !stopped
      modifies this`host, this`calls, this`now, this`moments, this`phase
      ensures Valid() && phase == Success && now.pc == End(if ok.Ok? then Deployed else Raised(ok.error), false, phase)
    {
      ok := Stage(Success, 31);
      if ok.Ok? { ok := KeepTransferBasis(); }
    }

    /** A basis that cannot be kept costs only the archive. */
    method KeepTransferBasis() returns (ok: Step)
      requires Ready(At(KEEP_BASIS, 0), KeepBasis)
      modifies this`host, this`calls, this`now, this`moments
      ensures Valid() && now.pc == End(if ok.Ok? then Deployed else Raised(ok.error), false, Success)
    {
      var yes;
      ok, yes := Do(KeepBasis, At(KEEP_BASIS, 0));
      if ok.Threw? && ok.error in {Os, Refused} {
        ok, yes := Do(Print, Unkept);
        if ok.Ok? { ok, yes := Do(DropArchive, Dropping); }
      }
    }

    method Update() returns (ok: Step, superseded: bool)
      requires Valid() && now == Begin(before) && phase == Preflight && !stopped
      modifies this`host, this`calls, this`now, this`moments, this`phase, this`stopped
      ensures Valid() && (superseded ==> ok.Ok?) && (ok.Ok? ==> !stopped)
      ensures ok.Ok? ==> now.pc == End(if superseded then Superseded_ else Deployed, false, phase)
      ensures ok.Threw? ==> now.pc == if stopped then Recording(ok.error, phase) else End(Raised(ok.error), false, phase)
    {
      superseded := false;
      if host.failed.Some? { return Threw(Runtime), false; }
      ok, superseded := Prepare();
      if ok.Threw? || superseded { return; }
      :- Stop();
      :- MigrateDatabase();
      :- Launch();
      ok := Finish();
    }

    method HandleFailure(cause: Error) returns (ok: Step)
      requires Valid() && stopped && now.pc == Recording(cause, phase)
      modifies this`host, this`calls, this`now, this`moments
      ensures Valid() && ok.Threw? && now.pc == End(Raised(ok.error), true, phase)
    {
      var record, yes := Do(WriteFailed(Failure(sha, phase)), Recording(cause, phase));
      if record.Threw? && record.error != Os { return record; }
      var stop, no := Do(StopServices, Halting(cause, phase));
      return if stop.Threw? && stop.error == Base then stop else Threw(cause);
    }

    /**
     * The whole run is the run of its setting, to its end. A refusal makes no call; success means every
     * line of the update worked, in order, and everything names the candidate; a failure with the
     * services stopped ends with the record and a stop attempt, unless writing the record was itself
     * interrupted; any other failure left the services as they were, or came after the success.
     */
    method Execute() returns (ok: Step, superseded: bool)
      requires Valid() && calls == 0 && phase == Preflight && !stopped
      modifies this`host, this`calls, this`now, this`moments, this`phase, this`stopped
      ensures Valid() && (superseded ==> ok.Ok?)
      ensures now.pc == End(
                if ok.Threw? then Raised(ok.error) else if superseded then Superseded_ else Deployed, stopped, phase)
      ensures before.failed.Some? ==> ok.Threw? && calls == 0 && host == before
      ensures superseded <==> AnsweredNo(Setting(), moments) && script(calls - 1).Works?
      ensures AnsweredNo(Setting(), moments) ==> Untouched(before, host)
      ensures ok.Ok? && !superseded ==>
                DeployedAs(host, sha) && !stopped && AllWorked(Setting(), moments)
      ensures ok.Threw? && !stopped ==> Untouched(before, host) || DeployedAs(host, sha)
      ensures ok.Threw? && stopped ==>
                Closed(Setting(), moments, Failure(sha, phase)) || RecordInterrupted(Setting(), moments, Failure(sha, phase))
    {
      phase := Preflight;
      ok, superseded := Update();
      if ok.Threw? && stopped {
        ok := HandleFailure(ok.error);
      }
      HowRunsEnd(Setting(), moments);
    }
  }

  /** All of the update, call by call. */
  ghost predicate AllWorked(d: Setup, ms: seq<Moment>) {
    InOrder(d, ms, Preparation() + Replacement(d.sha) + [Announce(Success)], |ms| - 1)
  }

  /** What the end of a run says about the host and the way there. */
  lemma {:induction false} HowRunsEnd(d: Setup, ms: seq<Moment>)
    requires Run(d, ms) && ms[|ms| - 1].pc.End?
    ensures var last := ms[|ms| - 1];
            && (d.before.failed.Some? ==> |ms| == 1 && last == Begin(d.before))
            && (last.pc.result.Superseded_? <==> AnsweredNo(d, ms) && d.script(|ms| - 2).Works?)
            && (AnsweredNo(d, ms) ==> Untouched(d.before, last.host))
            && (last.pc.result.Deployed? ==> DeployedAs(last.host, d.sha) && AllWorked(d, ms))
            && (!last.pc.stopped ==> Untouched(d.before, last.host) || DeployedAs(last.host, d.sha))
            && (last.pc.stopped ==>
                  Closed(d, ms, Failure(d.sha, last.pc.phase)) || RecordInterrupted(d, ms, Failure(d.sha, last.pc.phase)))
  {
    Reachable(d, ms, |ms| - 1);
    assert |ms| > 1 ==> StepAt(d, ms, 0);
    if ms[|ms| - 1].pc.stopped { FailureCloses(d, ms); }
    if ms[|ms| - 1].pc.result.Deployed? { SuccessIsChecked(d, ms, |ms| - 1); }
    SupersededIff(d, ms);
  }

  // ----- three runs of the code as it is

  /** A termination signal during the first smoke test: the run goes on and ends deployed. */
  method SignalDuringSmoke(h: Host, sha: Commit) returns (run: Deployment, ok: Step)
    requires h.failed.None?
    ensures ok.Ok? && !run.stopped && DeployedAs(run.host, sha)
    ensures run.Valid() && Makes(run.Setting(), run.moments, SMOKE, Smoke) && run.script(SMOKE) == Fails(Runtime, false)
  {
    run := new Deployment(h, sha, (i: nat) => if i == SMOKE then Fails(Runtime, false) else Works(true));
    var superseded;
    ok, superseded := run.Execute();
    ghost var d, ms := run.Setting(), run.moments;
    if run.calls <= SMOKE { Smooth(d, ms, 0, run.calls); }
    LoneSignal(d, ms, SMOKE);
    Smooth(d, ms, 0, SMOKE);
  }

  /**
   * An image check fails with the new services running, and a termination signal hits the handler's
   * record write: the services are not asked to stop and stay open.
   */
  method SignalDuringRecord(h: Host, sha: Commit) returns (run: Deployment, ok: Step)
    requires h.failed.None?
    ensures ok == Threw(Runtime) && run.stopped && run.host.open && run.host.running == sha
    ensures run.Valid() && run.calls == 25 && run.script(24) == Fails(Runtime, false)
    ensures Makes(run.Setting(), run.moments, 24, WriteFailed(Failure(sha, Start)))
    ensures forall i :: run.script(i) == CheckThenSignal(i)
  {
    run := new Deployment(h, sha, CheckThenSignal);
    var superseded;
    ok, superseded := run.Execute();
    SkippedStop(run.Setting(), run.moments);
  }

  /** The first image check of the running services fails, and then a signal. */
  function CheckThenSignal(i: nat): Outcome {
    if i == 23 then Fails(Subprocess, false) else if i == 24 then Fails(Runtime, false) else Works(true)
  }

  lemma SkippedStop(d: Setup, ms: seq<Moment>)
    requires Run(d, ms) && ms[|ms| - 1].pc.End? && d.before.failed.None? && d.script == CheckThenSignal
    ensures |ms| == 26 && ms[25].pc == End(Raised(Runtime), true, Start)
    ensures ms[25].host.open && ms[25].host.running == d.sha && Makes(d, ms, 24, WriteFailed(Failure(d.sha, Start)))
  {
    if |ms| <= 24 { Smooth(d, ms, 0, |ms| - 1); }
    Smooth(d, ms, 0, 23);
    Reachable(d, ms, 23);
    assert StepAt(d, ms, 23);
    assert StepAt(d, ms, 24);
    EndIsLast(d, ms, 25);
  }

  /** Both failure records lost, the stop working: closed services, and nothing to block the next run. */
  method LoseBothRecords(h: Host, sha: Commit) returns (run: Deployment, ok: Step)
    requires Settled(h) && h.failed.None?
    ensures ok == Threw(Os) && run.stopped && !Blocked(run.host)
  {
    run := new Deployment(h, sha, (i: nat) => if i == 14 || i == 15 then Fails(Os, false) else Works(true));
    var superseded;
    ok, superseded := run.Execute();
    ghost var d, ms := LostRecordUnblocks(h, sha);
    SameRun(d, ms, run.Setting(), run.moments);
    assert run.calls == 17 && run.moments[17] == ms[17];
  }

  /** Two settings with the same host, candidate and answers have the same complete run. */
  lemma SameRun(d: Setup, ms: seq<Moment>, e: Setup, ns: seq<Moment>)
    requires Run(d, ms) && Run(e, ns) && ms[|ms| - 1].pc.End? && ns[|ns| - 1].pc.End?
    requires d.before == e.before && d.sha == e.sha && forall i :: d.script(i) == e.script(i)
    ensures ms == ns
  {
    forall n: nat | n < |ms| && n < |ns| ensures ms[n] == ns[n] {
      SamePrefix(d, ms, e, ns, n);
    }
    assert |ms| < |ns| ==> StepAt(e, ns, |ms| - 1);
    assert |ns| < |ms| ==> StepAt(d, ms, |ns| - 1);
  }
}
