// The backend's path from a runner result to the stored log entry and the public response
// (submit_solution.py, models/execution_log.py, models/submission.py, models/public_api.py).
module Submission {
  import opened Prelude
  import opened OutputCapture
  import opened ExecutionModels
  import opened Judge
  import InputValidation
  import Base64
  import RunnerResult
  import Utf8
  import Watchdog

  // ----- ExecutionLogEntry

  datatype LogEntry = LogEntry(
    problemId: string,
    shellgei: string,
    legacyOutput: string,
    legacyJudge: string,
    status: Status,
    stdout: string,
    stderr: string,
    exitCode: Option<int>,
    timedOut: bool,
    truncated: bool,
    durationMs: int,
    verdict: Verdict,
    reason: Option<Reason>)
  {
    predicate Valid() {
      && InputValidation.ValidProblemId(problemId)
      && 1 <= |shellgei| <= InputValidation.SHELLGEI_CHARS
      && |legacyOutput| <= OUTPUT_CHARS + 3
      && |legacyJudge| == 1
      && |stdout| + |stderr| <= OUTPUT_CHARS
      && durationMs >= 0
      && match status
         case Completed => exitCode.Some? && !timedOut && !truncated
         case TimedOut => timedOut
         case OutputLimit => !timedOut && truncated
         case Error => !timedOut
    }
  }

  /** `ExecutionLogEntry.from_results`. */
  function ToLogEntry(problemId: string, shellgei: string, x: ExecutionResult, j: JudgeResult): Attempt<LogEntry> {
    var e := LogEntry(problemId, shellgei,
      if x.status == Error then "Error during execution" else x.LegacyOutput(),
      j.LegacyCode(), x.status, x.stdout, x.stderr, x.exitCode, x.timedOut, x.truncated, x.durationMs, j.verdict, j.reason);
    if e.Valid() then Made(e) else Rejected
  }

  /** What an entry keeps of the submission: request, output, flags and verdict, and the two legacy columns. */
  ghost predicate Keeps(e: LogEntry, problemId: string, shellgei: string, x: ExecutionResult, j: JudgeResult) {
    && e.problemId == problemId && e.shellgei == shellgei
    && e.status == x.status && e.stdout == x.stdout && e.stderr == x.stderr && e.exitCode == x.exitCode
    && e.timedOut == x.timedOut && e.truncated == x.truncated && e.durationMs == x.durationMs
    && e.verdict == j.verdict && e.reason == j.reason
    && (match x.status
        case Completed => e.legacyOutput == x.stdout + x.stderr
        case TimedOut => // 988 characters and the 12 of the suffix
          && Cut(x.stdout + x.stderr, 988) <= e.legacyOutput
          && e.legacyOutput[|Cut(x.stdout + x.stderr, 988)|..] == "\n[Timed out]"
        case OutputLimit => e.legacyOutput == x.stdout + x.stderr + "..."
        case Error => e.legacyOutput == "Error during execution")
    && (e.legacyJudge == "1" <==> j.verdict == Accepted)
    && (e.legacyJudge == "2" <==> j.verdict == WrongImage)
    && (e.legacyJudge == "3" <==> j.verdict == WrongAnswer)
    && e.legacyJudge in {"1", "2", "3", "4"}
  }

  /** Every valid result of a valid request can be stored, as it is. */
  lemma LogEntryAccepts(problemId: string, shellgei: string, x: ExecutionResult, j: JudgeResult)
    requires InputValidation.ValidProblemId(problemId) && InputValidation.ValidShellgei(shellgei) && x.Valid()
    ensures ToLogEntry(problemId, shellgei, x, j).Made?
    ensures Keeps(ToLogEntry(problemId, shellgei, x, j).value, problemId, shellgei, x, j)
  {
    if x.status == TimedOut {
      var shown := Cut(x.stdout + x.stderr, 988);
      assert |TIMED_OUT_SUFFIX| == 12;
      assert (shown + TIMED_OUT_SUFFIX)[|shown|..] == TIMED_OUT_SUFFIX;
    }
  }

  // ----- SubmissionResult

  datatype SubmissionStatus = Judged | NoSuchProblem | RunnerBusy | RunnerUnavailable
  datatype Persistence = Saved | Unavailable | NotAttempted

  datatype SubmissionResult = SubmissionResult(
    status: SubmissionStatus,
    zoned: bool, // the submission time carries a UTC offset
    execution: Option<ExecutionResult>,
    judgment: Option<JudgeResult>,
    logId: Option<int>,
    persistence: Persistence)
  {
    predicate Valid() {
      && zoned
      && (logId.Some? ==> logId.value > 0)
      && if status == Judged then
           && execution.Some? && judgment.Some?
           && match persistence
              case Saved => logId.Some?
              case Unavailable => logId.None?
              case NotAttempted => false
         else
           execution.None? && judgment.None? && logId.None? && persistence == NotAttempted
    }
  }

  function MakeSubmission(r: SubmissionResult): Attempt<SubmissionResult> { if r.Valid() then Made(r) else Rejected }

  function RejectedSubmission(status: SubmissionStatus): Attempt<SubmissionResult> {
    MakeSubmission(SubmissionResult(status, true, None, None, None, NotAttempted))
  }

  // ----- the use case

  datatype RunnerReply = Busy | NoRunner | Misconfigured | Executed(x: ExecutionResult)
  datatype SaveReply = SavedAs(id: int) | SaveFails

  /** External calls in the order in which they are made. */
  datatype Call = CallRunner | CallSave(e: LogEntry)

  datatype Submitted = Returns(r: SubmissionResult) | Raises

  /** The completed submission: a failed save keeps the result. */
  function CompletedSubmission(x: ExecutionResult, j: JudgeResult, save: SaveReply): SubmissionResult {
    match save
    case SaveFails => SubmissionResult(Judged, true, Some(x), Some(j), None, Unavailable)
    case SavedAs(id) => SubmissionResult(Judged, true, Some(x), Some(j), Some(id), Saved)
  }

  /** `_submit`: rejections return before the runner or the log is used; a failed save keeps the result. */
  method Submit(shellgei: string, problemId: string, record: Option<Problem>, reply: RunnerReply, save: SaveReply, pixels: Decoder)
    returns (s: Submitted, calls: seq<Call>)
    requires InputValidation.ValidProblemId(problemId) && InputValidation.ValidShellgei(shellgei)
    requires (reply.Executed? ==> reply.x.Valid()) && (save.SavedAs? ==> save.id > 0)
    ensures s.Returns? ==> s.r.Valid()
    ensures s.Raises? <==> record.Some? && reply.Misconfigured?
    ensures calls != [] <==> record.Some?
    ensures |calls| == 2 <==> record.Some? && reply.Executed?
    ensures |calls| == 2 ==> calls[0] == CallRunner && calls[1].CallSave? && calls[1].e.Valid()
    ensures s.Returns? && s.r.status == Judged <==> |calls| == 2
    ensures s.Returns? && s.r.status == NoSuchProblem <==> record.None?
    ensures record.Some? ==> (s.Returns? && s.r.status == RunnerBusy <==> reply.Busy?)
    ensures |calls| == 2 ==>
      && s.r.execution == Some(reply.x)
      && s.r.judgment == Some(Judge.Judge(reply.x, problemId, record, pixels))
      && Keeps(calls[1].e, problemId, shellgei, reply.x, s.r.judgment.value)
      && (s.r.persistence == Saved <==> save.SavedAs?)
      && (save.SavedAs? ==> s.r.logId == Some(save.id))
  {
    calls := [];
    if record.None? { return Returns(RejectedSubmission(NoSuchProblem).value), calls; }
    calls := calls + [CallRunner];
    match reply {
      case Busy => return Returns(RejectedSubmission(RunnerBusy).value), calls;
      case NoRunner => return Returns(RejectedSubmission(RunnerUnavailable).value), calls;
      case Misconfigured => return Raises, calls;
      case Executed(x) =>
        var judgment := Judge.Judge(x, problemId, record, pixels);
        LogEntryAccepts(problemId, shellgei, x, judgment);
        var entry := ToLogEntry(problemId, shellgei, x, judgment).value;
        calls := calls + [CallSave(entry)];
        return Returns(MakeSubmission(CompletedSubmission(x, judgment, save)).value), calls;
    }
  }

  // ----- the public response

  datatype PublicArtifact = PublicArtifact(mediaType: MediaType, data: string) {
    ghost predicate Valid() { 4 <= |data| <= Base64.IMAGE_CHARS && Base64.Padded(data) }
  }

  datatype PublicPersistence = PublicSaved | PublicUnavailable

  datatype PublicResponse = PublicResponse(
    submissionId: Option<int>,
    zoned: bool,
    verdict: Verdict,
    reason: Option<Reason>,
    status: Status,
    stdout: string,
    stderr: string,
    exitCode: Option<int>,
    timedOut: bool,
    truncated: bool,
    durationMs: int,
    artifact: Option<PublicArtifact>,
    persistence: PublicPersistence)
  {
    ghost predicate Valid() {
      && zoned
      && (submissionId.Some? ==> submissionId.value > 0)
      && (persistence == PublicSaved <==> submissionId.Some?)
      && |stdout| + |stderr| <= OUTPUT_CHARS
      && durationMs >= 0
      && (artifact.Some? ==> artifact.value.Valid())
    }
  }

  /** `select_display_artifact`: the display GIF if it decodes, else the judged image. */
  function SelectDisplay(x: ExecutionResult, pixels: Decoder): Option<Artifact> {
    if x.display.Some?
       && Base64.Decode(x.display.value.data).Some?
       && MatchesMediaType(Base64.Decode(x.display.value.data).value, Gif)
       && pixels(Base64.Decode(x.display.value.data).value, Gif).Some?
    then x.display else x.artifact
  }

  /** `SubmitSolutionResponseV3.from_submission`. */
  ghost function ToPublic(r: SubmissionResult, pixels: Decoder): Attempt<PublicResponse> {
    if r.status != Judged || r.execution.None? || r.judgment.None? || r.persistence == NotAttempted then Rejected
    else
      var x := r.execution.value;
      var shown := SelectDisplay(x, pixels);
      var p := PublicResponse(r.logId, r.zoned, r.judgment.value.verdict, r.judgment.value.reason,
        x.status, x.stdout, x.stderr, x.exitCode, x.timedOut, x.truncated, x.durationMs,
        match shown case None => None case Some(a) => Some(PublicArtifact(a.mediaType, a.data)),
        if r.persistence == Saved then PublicSaved else PublicUnavailable);
      if p.Valid() then Made(p) else Rejected
  }

  /** The GIF in a text: whole, of the right signature, and with pixels that can be decoded. */
  ghost predicate ShowsGif(data: string, pixels: Decoder) {
    && |data| % 4 == 0 && Base64.Padded(data)
    && exists b :: PayloadOf(data, b) && Signed(b, Gif) && pixels(b, Gif).Some?
  }

  lemma DisplayChosen(x: ExecutionResult, pixels: Decoder)
    ensures SelectDisplay(x, pixels) == if x.display.Some? && ShowsGif(x.display.value.data, pixels) then x.display else x.artifact
  {
    if x.display.Some? {
      var data := x.display.value.data;
      Base64.DecodesIffPadded(data);
      if Base64.Decode(data).Some? {
        SignedIff(Base64.Decode(data).value, Gif);
        assert PayloadOf(data, Base64.Decode(data).value);
      }
    }
  }

  /** What a response shows of a judged submission; no internal error, and no path of an image. */
  ghost predicate Shows(p: PublicResponse, r: SubmissionResult, x: ExecutionResult, j: JudgeResult, pixels: Decoder) {
    && p.submissionId == r.logId && p.zoned && p.verdict == j.verdict && p.reason == j.reason
    && p.status == x.status && p.stdout == x.stdout && p.stderr == x.stderr && p.exitCode == x.exitCode
    && p.timedOut == x.timedOut && p.truncated == x.truncated && p.durationMs == x.durationMs
    && (p.persistence == PublicSaved <==> r.persistence == Saved)
    && var image := if x.display.Some? && ShowsGif(x.display.value.data, pixels) then x.display else x.artifact;
       && (p.artifact.Some? <==> image.Some?)
       && (image.Some? ==> p.artifact.value.data == image.value.data && p.artifact.value.mediaType == image.value.mediaType)
  }

  lemma ResponseShows(r: SubmissionResult, pixels: Decoder)
    requires ToPublic(r, pixels).Made?
    ensures r.execution.Some? && r.judgment.Some?
    ensures Shows(ToPublic(r, pixels).value, r, r.execution.value, r.judgment.value, pixels)
  {
    DisplayChosen(r.execution.value, pixels);
  }

  /** A valid completed submission has a public response exactly when the image to show is padded Base64 text. */
  lemma PublicAcceptsIff(r: SubmissionResult, pixels: Decoder)
    requires r.Valid() && r.status == Judged && r.execution.value.Valid()
    ensures ToPublic(r, pixels).Made? <==>
              var x := r.execution.value;
              var shown := if x.display.Some? && ShowsGif(x.display.value.data, pixels) then x.display else x.artifact;
              shown.None? || (|shown.value.data| >= 4 && Base64.Padded(shown.value.data))
  {
    DisplayChosen(r.execution.value, pixels);
  }

  /** Images the runner encodes are such text. */
  lemma EncodedImageIsPublic(b: seq<byte>)
    requires b != []
    ensures |Base64.Encode(b)| >= 4 && Base64.Padded(Base64.Encode(b))
  {
    Base64.EncodeLength(b);
    Base64.EncodeIsPadded(b);
  }

  /** What the runner answers for a finished run. */
  function RunResult(s: Watchdog.State, c: RunnerResult.Capture, p: Problem): Attempt<ExecutionResult> {
    RunnerResult.ToExecutionResult(RunnerResult.ExecuteInContainer(s, c, OUTPUT_CHARS), p, OUTPUT_CHARS)
  }

  /** The images of a run are what the runner encoded. */
  lemma RunImagesArePublic(s: Watchdog.State, c: RunnerResult.Capture, p: Problem)
    requires Watchdog.Reachable(s) && s.main.Stopped? && p.Valid() && RunnerResult.Captured(s, c, p, OUTPUT_CHARS)
    ensures RunResult(s, c, p).Made? && RunResult(s, c, p).value.Valid()
    ensures forall a :: a in {RunResult(s, c, p).value.artifact, RunResult(s, c, p).value.display} && a.Some? ==>
      |a.value.data| >= 4 && Base64.Padded(a.value.data)
  {
    RunnerResult.StatusIsExact(s, c, p, OUTPUT_CHARS);
    if c.artifact.Some? { EncodedImageIsPublic(c.artifact.value); }
    if c.display.Some? { EncodedImageIsPublic(c.display.value); }
  }

  /** The response of a valid result whose images are padded Base64 text passes every later validator. */
  lemma ResultIsPublished(
    x: ExecutionResult, p: Problem, problemId: string, shellgei: string, save: SaveReply, pixels: Decoder)
    requires x.Valid() && InputValidation.ValidProblemId(problemId) && InputValidation.ValidShellgei(shellgei)
    requires save.SavedAs? ==> save.id > 0
    requires forall a :: a in {x.artifact, x.display} && a.Some? ==> |a.value.data| >= 4 && Base64.Padded(a.value.data)
    ensures var j := Judge.Judge(x, problemId, Some(p), pixels);
            && ToLogEntry(problemId, shellgei, x, j).Made?
            && CompletedSubmission(x, j, save).Valid()
            && ToPublic(CompletedSubmission(x, j, save), pixels).Made?
  {
    var j := Judge.Judge(x, problemId, Some(p), pixels);
    LogEntryAccepts(problemId, shellgei, x, j);
    PublicAcceptsIff(CompletedSubmission(x, j, save), pixels);
  }

  /**
   * The whole path: whatever the sandbox run did, its result is judged, stored and published, and
   * no validator on the way rejects it.
   */
  lemma EveryRunIsPublished(
    s: Watchdog.State, c: RunnerResult.Capture, p: Problem, problemId: string, shellgei: string,
    save: SaveReply, pixels: Decoder)
    requires Watchdog.Reachable(s) && s.main.Stopped? && p.Valid() && RunnerResult.Captured(s, c, p, OUTPUT_CHARS)
    requires InputValidation.ValidProblemId(problemId) && InputValidation.ValidShellgei(shellgei)
    requires save.SavedAs? ==> save.id > 0
    ensures RunResult(s, c, p).Made? && RunResult(s, c, p).value.Valid()
    ensures var x := RunResult(s, c, p).value;
            var j := Judge.Judge(x, problemId, Some(p), pixels);
            && ToLogEntry(problemId, shellgei, x, j).Made?
            && CompletedSubmission(x, j, save).Valid()
            && ToPublic(CompletedSubmission(x, j, save), pixels).Made?
            && Shows(ToPublic(CompletedSubmission(x, j, save), pixels).value, CompletedSubmission(x, j, save), x, j, pixels)
            && (j.verdict == Accepted ==> x.status == Completed && s.reason == None && s.killed)
            && (j.verdict == Accepted && p.exit.ZeroExit? ==> s.seen.exitCode == Some(0))
            && (j.verdict == Accepted && p.judge.TextJudge? && p.stderr.Merge? ==>
                  Agree(Utf8.Decode(Stream(c.frames, false)) + Utf8.Decode(Stream(c.frames, true)), p.judge.expected))
            && (j.verdict == Accepted && p.judge.TextJudge? && !p.stderr.Merge? ==>
                  Agree(Utf8.Decode(Stream(c.frames, false)), p.judge.expected))
  {
    RunImagesArePublic(s, c, p);
    ResultIsPublished(RunResult(s, c, p).value, p, problemId, shellgei, save, pixels);
    RunnerResult.StatusIsExact(s, c, p, OUTPUT_CHARS);
    RunnerResult.ResultCarriesRun(s, c, p, OUTPUT_CHARS);
    var x := RunResult(s, c, p).value;
    var j := Judge.Judge(x, problemId, Some(p), pixels);
    ResponseShows(CompletedSubmission(x, j, save), pixels);
    AcceptedMeans(x, problemId, p, pixels);
  }

  lemma AcceptedMeans(x: ExecutionResult, problemId: string, p: Problem, pixels: Decoder)
    requires x.Valid() && InputValidation.ValidProblemId(problemId)
    ensures Judge.Judge(x, problemId, Some(p), pixels).verdict == Accepted ==>
              && PolicyHolds(p, x)
              && (p.judge.TextJudge? ==> Agree(if p.stderr.Merge? then x.stdout + x.stderr else x.stdout, p.judge.expected))
  {
    match p.judge
    case TextJudge(_) => TextAcceptedIff(x, problemId, p, pixels);
    case ImageJudge(_, _, _, _) => ImageAcceptedIff(x, problemId, p, pixels);
  }
}
