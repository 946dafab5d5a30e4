// The two responses on the wire: the runner's to the backend (runner_protocol.py, runner_client.py) and
// the public one (models/public_api.py, api_shellgei.py), as JSON text and its size in bytes.
module Responses {
  import opened Prelude
  import opened ExecutionModels
  import Base64
  import Json
  import Judge
  import OutputCapture
  import RunnerHttp
  import RunnerResult
  import Submission
  import Utf8
  import Watchdog
  import InputValidation

  const RUNNER_LIMIT: nat := 1_100_000
  const PUBLIC_LIMIT: nat := 1_025_000
  const DIGITS: nat := 64

  // ----- JSON values of the models' fields

  function OptionalInt(n: Option<int>): Json.Value { match n case None => Json.Null case Some(i) => Json.Number(i) }

  function OptionalText(t: Option<string>): Json.Value { match t case None => Json.Null case Some(s) => Json.Text(s) }

  function StatusText(s: Status): (t: string)
    ensures |t| <= 12
  {
    match s case Completed => "completed" case TimedOut => "timed_out" case OutputLimit => "output_limit" case Error => "error"
  }

  function MediaText(m: MediaType): (t: string)
    ensures |t| <= 10
  {
    match m case Jpeg => "image/jpeg" case Gif => "image/gif"
  }

  function VerdictText(v: Judge.Verdict): (t: string)
    ensures |t| <= 20
  {
    match v
    case Accepted => "accepted"
    case WrongAnswer => "wrong_answer"
    case WrongImage => "wrong_image"
    case WrongTextAndImage => "wrong_text_and_image"
    case ExecutionFailure => "execution_failure"
    case JudgeError => "judge_error"
  }

  function ReasonText(r: Judge.Reason): (t: string)
    ensures |t| <= 28
  {
    match r
    case OutputMismatch => "output_mismatch"
    case ImageMismatch => "image_mismatch"
    case OutputAndImageMismatch => "output_and_image_mismatch"
    case ArtifactMissing => "artifact_missing"
    case ArtifactPathMismatch => "artifact_path_mismatch"
    case ArtifactMediaTypeMismatch => "artifact_media_type_mismatch"
    case ArtifactInvalid => "artifact_invalid"
    case NonZeroExit => "non_zero_exit"
    case StderrNotEmpty => "stderr_not_empty"
    case RanTooLong => "timed_out"
    case OutputTruncated => "output_truncated"
    case ExecutionError => "execution_error"
    case InvalidProblemId => "invalid_problem_id"
    case ProblemNotFound => "problem_not_found"
  }

  // ----- sizes of optional members

  predicate Short(n: int) { |Json.PrintInt(n)| <= DIGITS }

  /** Text that JSON writes as it stands, one byte a character: all Base64 text is. */
  predicate Plain(s: string) { forall i :: 0 <= i < |s| ==> ' ' <= s[i] <= '~' && s[i] != '"' && s[i] != '\\' }

  lemma PaddedIsPlain(s: string)
    requires Base64.Padded(s)
    ensures Plain(s)
  {
  }

  lemma OptionalIntRoom(name: string, n: Option<int>)
    requires n.Some? ==> Short(n.value)
    ensures Json.Room(Json.Member(name, OptionalInt(n))) <= 6 * |name| + DIGITS + 9
  {
    match n
    case None => Json.WordRoom(name, Json.Null);
    case Some(i) => Json.IntRoom(name, i);
  }

  lemma OptionalTextRoom(name: string, t: Option<string>, limit: nat)
    requires t.Some? ==> |t.value| <= limit
    ensures Json.Room(Json.Member(name, OptionalText(t))) <= 6 * |name| + 6 * limit + 9
  {
    match t
    case None => Json.WordRoom(name, Json.Null);
    case Some(s) => Json.TextRoom(name, s);
  }

  lemma DataRoom(name: string, data: string)
    requires Plain(data)
    ensures Json.Room(Json.Member(name, Json.Text(data))) <= 6 * |name| + |data| + 6
  {
    Json.QuotedBytes(name);
    Json.PlainBytes(data);
  }

  // ----- the runner's response

  function ArtifactMembers(a: Artifact): seq<Json.Member> {
    [Json.Member("path", Json.Text(a.path)), Json.Member("media_type", Json.Text(MediaText(a.mediaType))),
     Json.Member("data", Json.Text(a.data))]
  }

  function ArtifactValue(a: Option<Artifact>): Json.Value {
    match a case None => Json.Null case Some(b) => Json.Object(ArtifactMembers(b))
  }

  /** The first fields of a result, which both responses have. */
  function OutputMembers(status: Status, stdout: string, stderr: string, exitCode: Option<int>, timedOut: bool): seq<Json.Member> {
    [Json.Member("status", Json.Text(StatusText(status))), Json.Member("stdout", Json.Text(stdout)),
     Json.Member("stderr", Json.Text(stderr)), Json.Member("exit_code", OptionalInt(exitCode)),
     Json.Member("timed_out", Json.Flag(timedOut))]
  }

  function MeterMembers(truncated: bool, durationMs: int): seq<Json.Member> {
    [Json.Member("truncated", Json.Flag(truncated)), Json.Member("duration_ms", Json.Number(durationMs))]
  }

  function DetailMembers(x: ExecutionResult): seq<Json.Member> {
    [Json.Member("artifact", ArtifactValue(x.artifact)), Json.Member("error", OptionalText(x.error)),
     Json.Member("display_artifact", ArtifactValue(x.display))]
  }

  function RunnerMembers(requestId: string, revision: string, x: ExecutionResult): seq<Json.Member> {
    ResponseHead(requestId, revision) + RunnerTail(x)
  }

  function RunnerTail(x: ExecutionResult): seq<Json.Member> { [Json.Member("result", Json.Object(ResultMembers(x)))] }

  function ResultMembers(x: ExecutionResult): seq<Json.Member> {
    OutputMembers(x.status, x.stdout, x.stderr, x.exitCode, x.timedOut) + RestMembers(x)
  }

  function RestMembers(x: ExecutionResult): seq<Json.Member> {
    MeterMembers(x.truncated, x.durationMs) + DetailMembers(x)
  }

  /** Images are written as they stand, and the two integers are of a sane length. */
  predicate WireReady(x: ExecutionResult) {
    && (x.artifact.Some? ==> Plain(x.artifact.value.data)) && (x.display.Some? ==> Plain(x.display.value.data))
    && (x.exitCode.Some? ==> Short(x.exitCode.value)) && Short(x.durationMs)
  }

  function DataSize(a: Option<Artifact>): nat { if a.Some? then |a.value.data| else 0 }

  lemma ArtifactRoom(name: string, a: Option<Artifact>)
    requires |name| <= 16 && (a.Some? ==> a.value.Valid() && Plain(a.value.data))
    ensures Json.Room(Json.Member(name, ArtifactValue(a))) <= DataSize(a) + 2_000
  {
    match a
    case None => Json.WordRoom(name, Json.Null);
    case Some(b) =>
      var ms := ArtifactMembers(b);
      Json.TextRoom("path", b.path);
      Json.TextRoom("media_type", MediaText(b.mediaType));
      DataRoom("data", b.data);
      Json.ThreeRooms(ms[0], ms[1], ms[2]);
      Json.ObjectRoom(name, ms);
  }

  lemma OutputRoom(status: Status, stdout: string, stderr: string, exitCode: Option<int>, timedOut: bool)
    requires |stdout| + |stderr| <= OUTPUT_CHARS && (exitCode.Some? ==> Short(exitCode.value))
    ensures Json.RoomOf(OutputMembers(status, stdout, stderr, exitCode, timedOut)) <= 6 * OUTPUT_CHARS + 1_000
  {
    var ms := OutputMembers(status, stdout, stderr, exitCode, timedOut);
    Json.TextRoom("status", StatusText(status));
    Json.TextRoom("stdout", stdout);
    Json.TextRoom("stderr", stderr);
    OptionalIntRoom("exit_code", exitCode);
    Json.WordRoom("timed_out", Json.Flag(timedOut));
    Json.FiveRooms(ms[0], ms[1], ms[2], ms[3], ms[4]);
  }

  lemma DetailRoom(x: ExecutionResult)
    requires x.Valid() && WireReady(x)
    ensures Json.RoomOf(DetailMembers(x)) <= Base64.IMAGE_CHARS + 6 * ERROR_CHARS + 4_500
  {
    var ms := DetailMembers(x);
    ArtifactRoom("artifact", x.artifact);
    OptionalTextRoom("error", x.error, ERROR_CHARS);
    ArtifactRoom("display_artifact", x.display);
    Json.ThreeRooms(ms[0], ms[1], ms[2]);
  }

  lemma RestRoom(x: ExecutionResult)
    requires x.Valid() && WireReady(x)
    ensures Json.RoomOf(RestMembers(x)) <= Base64.IMAGE_CHARS + 6 * ERROR_CHARS + 5_000
  {
    MeterRoom(x.truncated, x.durationMs);
    DetailRoom(x);
    Json.RoomOfSum(MeterMembers(x.truncated, x.durationMs), DetailMembers(x));
  }

  lemma ResultRoom(x: ExecutionResult)
    requires x.Valid() && WireReady(x)
    ensures Json.RoomOf(ResultMembers(x)) <= Base64.IMAGE_CHARS + 6 * OUTPUT_CHARS + 6 * ERROR_CHARS + 6_000
  {
    OutputRoom(x.status, x.stdout, x.stderr, x.exitCode, x.timedOut);
    RestRoom(x);
    Json.RoomOfSum(OutputMembers(x.status, x.stdout, x.stderr, x.exitCode, x.timedOut), RestMembers(x));
  }

  function ResponseHead(requestId: string, revision: string): seq<Json.Member> {
    [Json.Member("protocol_version", Json.Number(4)), Json.Member("request_id", Json.Text(requestId)),
     Json.Member("problem_revision", Json.Text(revision))]
  }

  lemma ResponseHeadRoom(requestId: string, revision: string)
    requires |requestId| == 32 && |revision| == 64
    ensures Json.RoomOf(ResponseHead(requestId, revision)) <= 1_000
  {
    var ms := ResponseHead(requestId, revision);
    Json.IntRoom("protocol_version", 4);
    assert |Json.PrintInt(4)| == 1;
    Json.TextRoom("request_id", requestId);
    Json.TextRoom("problem_revision", revision);
    Json.ThreeRooms(ms[0], ms[1], ms[2]);
  }

  lemma RunnerTailRoom(x: ExecutionResult)
    requires x.Valid() && WireReady(x)
    ensures Json.RoomOf(RunnerTail(x)) <= Base64.IMAGE_CHARS + 6 * OUTPUT_CHARS + 6 * ERROR_CHARS + 7_000
  {
    ResultRoom(x);
    Json.ObjectRoom("result", ResultMembers(x));
    Json.OneRoom(RunnerTail(x)[0]);
  }

  /** Every valid result whose images are Base64 text fits the runner client's limit, and reads back as itself. */
  lemma RunnerResponseFits(requestId: string, revision: string, x: ExecutionResult)
    requires x.Valid() && WireReady(x) && |requestId| == 32 && |revision| == 64
    ensures Json.Bytes(Json.PrintObject(RunnerMembers(requestId, revision, x))) <= RUNNER_LIMIT
    ensures Json.ParseObject(Json.PrintObject(RunnerMembers(requestId, revision, x))) == Some(RunnerMembers(requestId, revision, x))
  {
    RunnerTailRoom(x);
    ResponseHeadRoom(requestId, revision);
    Json.ObjectFits(ResponseHead(requestId, revision), RunnerTail(x), RUNNER_LIMIT);
  }

  // ----- the public response

  function PublicArtifactValue(a: Option<Submission.PublicArtifact>): Json.Value {
    match a
    case None => Json.Null
    case Some(b) =>
      Json.Object([Json.Member("media_type", Json.Text(MediaText(b.mediaType))), Json.Member("data", Json.Text(b.data))])
  }

  function ExecutionMembers(r: Submission.PublicResponse): seq<Json.Member> {
    OutputMembers(r.status, r.stdout, r.stderr, r.exitCode, r.timedOut) + MeterMembers(r.truncated, r.durationMs)
  }

  function ReasonField(reason: Option<Judge.Reason>): Option<string> {
    match reason case None => None case Some(why) => Some(ReasonText(why))
  }

  /** `submittedAt` is the text of the submission time. */
  function PublicHead(r: Submission.PublicResponse, submittedAt: string): seq<Json.Member> {
    [Json.Member("api_version", Json.Number(3)), Json.Member("submission_id", OptionalInt(r.submissionId)),
     Json.Member("submitted_at", Json.Text(submittedAt)), Json.Member("verdict", Json.Text(VerdictText(r.verdict))),
     Json.Member("reason", OptionalText(ReasonField(r.reason)))]
  }

  function PublicTail(r: Submission.PublicResponse): seq<Json.Member> {
    [Json.Member("execution", Json.Object(ExecutionMembers(r))), Json.Member("artifact", PublicArtifactValue(r.artifact)),
     Json.Member("persistence", Json.Text(if r.persistence == Submission.PublicSaved then "saved" else "unavailable"))]
  }

  function PublicMembers(r: Submission.PublicResponse, submittedAt: string): seq<Json.Member> {
    PublicHead(r, submittedAt) + PublicTail(r)
  }

  predicate PublicReady(r: Submission.PublicResponse, submittedAt: string) {
    && (r.submissionId.Some? ==> Short(r.submissionId.value)) && (r.exitCode.Some? ==> Short(r.exitCode.value))
    && Short(r.durationMs) && |submittedAt| <= DIGITS
  }

  lemma PublicArtifactRoom(a: Option<Submission.PublicArtifact>)
    requires a.Some? ==> a.value.Valid()
    ensures Json.Room(Json.Member("artifact", PublicArtifactValue(a))) <= Base64.IMAGE_CHARS + 500
  {
    match a
    case None => Json.WordRoom("artifact", Json.Null);
    case Some(b) =>
      var media, data := Json.Member("media_type", Json.Text(MediaText(b.mediaType))), Json.Member("data", Json.Text(b.data));
      PaddedIsPlain(b.data);
      Json.TextRoom("media_type", MediaText(b.mediaType));
      DataRoom("data", b.data);
      Json.RoomAfter([media, data], [data]);
      Json.RoomAfter([data], []);
      Json.ObjectRoom("artifact", [media, data]);
  }

  lemma MeterRoom(truncated: bool, durationMs: int)
    requires Short(durationMs)
    ensures Json.RoomOf(MeterMembers(truncated, durationMs)) <= 500
  {
    var meter := MeterMembers(truncated, durationMs);
    Json.WordRoom("truncated", Json.Flag(truncated));
    Json.IntRoom("duration_ms", durationMs);
    Json.TwoRooms(meter[0], meter[1]);
  }

  lemma ExecutionRoom(r: Submission.PublicResponse, submittedAt: string)
    requires r.Valid() && PublicReady(r, submittedAt)
    ensures Json.RoomOf(ExecutionMembers(r)) <= 6 * OUTPUT_CHARS + 2_000
  {
    OutputRoom(r.status, r.stdout, r.stderr, r.exitCode, r.timedOut);
    MeterRoom(r.truncated, r.durationMs);
    Json.RoomOfSum(
      OutputMembers(r.status, r.stdout, r.stderr, r.exitCode, r.timedOut), MeterMembers(r.truncated, r.durationMs));
  }

  lemma VerdictRoom(v: Judge.Verdict, reason: Option<Judge.Reason>)
    ensures Json.Room(Json.Member("verdict", Json.Text(VerdictText(v)))) <= 200
    ensures Json.Room(Json.Member("reason", OptionalText(ReasonField(reason)))) <= 250
  {
    Json.TextRoom("verdict", VerdictText(v));
    OptionalTextRoom("reason", ReasonField(reason), 28);
  }

  lemma HeadRoom(r: Submission.PublicResponse, submittedAt: string)
    requires PublicReady(r, submittedAt)
    ensures Json.RoomOf(PublicHead(r, submittedAt)) <= 2_000
  {
    var ms := PublicHead(r, submittedAt);
    Json.IntRoom("api_version", 3);
    assert |Json.PrintInt(3)| == 1;
    OptionalIntRoom("submission_id", r.submissionId);
    Json.TextRoom("submitted_at", submittedAt);
    VerdictRoom(r.verdict, r.reason);
    Json.FiveRooms(ms[0], ms[1], ms[2], ms[3], ms[4]);
  }

  lemma TailRoom(r: Submission.PublicResponse, submittedAt: string)
    requires r.Valid() && PublicReady(r, submittedAt)
    ensures Json.RoomOf(PublicTail(r)) <= Base64.IMAGE_CHARS + 6 * OUTPUT_CHARS + 3_000
  {
    var ms := PublicTail(r);
    ExecutionRoom(r, submittedAt);
    Json.ObjectRoom("execution", ExecutionMembers(r));
    PublicArtifactRoom(r.artifact);
    Json.TextRoom("persistence", if r.persistence == Submission.PublicSaved then "saved" else "unavailable");
    Json.ThreeRooms(ms[0], ms[1], ms[2]);
  }

  /** Every valid public response fits its limit, so the size check before it is sent never raises. */
  lemma PublicResponseFits(r: Submission.PublicResponse, submittedAt: string)
    requires r.Valid() && PublicReady(r, submittedAt)
    ensures Json.Bytes(Json.PrintObject(PublicMembers(r, submittedAt))) <= PUBLIC_LIMIT
    ensures Json.ParseObject(Json.PrintObject(PublicMembers(r, submittedAt))) == Some(PublicMembers(r, submittedAt))
  {
    HeadRoom(r, submittedAt);
    TailRoom(r, submittedAt);
    Json.ObjectFits(PublicHead(r, submittedAt), PublicTail(r), PUBLIC_LIMIT);
  }

  // ----- what a reader finds under each name

  ghost predicate Shown(ms: seq<Json.Member>, name: string, v: Json.Value) { RunnerHttp.Field(ms, name) == Some(v) }

  lemma FieldAfter(a: seq<Json.Member>, b: seq<Json.Member>, name: string)
    ensures RunnerHttp.Field(a, name).Some? ==> RunnerHttp.Field(a + b, name) == RunnerHttp.Field(a, name)
    ensures RunnerHttp.Field(a, name).None? ==> RunnerHttp.Field(a + b, name) == RunnerHttp.Field(b, name)
  {
    if a == [] {
      assert a + b == b;
    } else {
      assert (a + b)[1..] == a[1..] + b;
      if a[0].name != name { FieldAfter(a[1..], b, name); }
    }
  }

  /** The output of an execution, in either response. */
  lemma OutputFields(status: Status, stdout: string, stderr: string, exitCode: Option<int>, timedOut: bool)
    ensures var ms := OutputMembers(status, stdout, stderr, exitCode, timedOut);
            && Shown(ms, "stdout", Json.Text(stdout)) && Shown(ms, "stderr", Json.Text(stderr))
            && Shown(ms, "exit_code", if exitCode.Some? then Json.Number(exitCode.value) else Json.Null)
            && Shown(ms, "timed_out", Json.Flag(timedOut))
            && (status == Completed ==> Shown(ms, "status", Json.Text("completed")))
            && (status == TimedOut ==> Shown(ms, "status", Json.Text("timed_out")))
            && (status == OutputLimit ==> Shown(ms, "status", Json.Text("output_limit")))
            && (status == Error ==> Shown(ms, "status", Json.Text("error")))
  {
    var ms := OutputMembers(status, stdout, stderr, exitCode, timedOut);
    RunnerHttp.FieldAt(ms, 0);
    RunnerHttp.FieldAt(ms, 1);
    RunnerHttp.FieldAt(ms, 2);
    RunnerHttp.FieldAt(ms, 3);
    RunnerHttp.FieldAt(ms, 4);
  }

  lemma MeterFields(truncated: bool, durationMs: int)
    ensures var ms := MeterMembers(truncated, durationMs);
            Shown(ms, "truncated", Json.Flag(truncated)) && Shown(ms, "duration_ms", Json.Number(durationMs))
  {
    var ms := MeterMembers(truncated, durationMs);
    RunnerHttp.FieldAt(ms, 0);
    RunnerHttp.FieldAt(ms, 1);
  }

  const RESULT_NAMES :=
    ["status", "stdout", "stderr", "exit_code", "timed_out", "truncated", "duration_ms", "artifact", "error", "display_artifact"]

  lemma ResultNames(x: ExecutionResult, i: nat)
    requires i < 10
    ensures |RESULT_NAMES| == |ResultMembers(x)| == 10 && ResultMembers(x)[i].name == RESULT_NAMES[i]
    ensures forall j :: 0 <= j < i ==> RESULT_NAMES[j] != RESULT_NAMES[i]
  {
  }

  lemma ResultFieldAt(x: ExecutionResult, i: nat)
    requires i < 10
    ensures |RESULT_NAMES| == |ResultMembers(x)| == 10 && Shown(ResultMembers(x), RESULT_NAMES[i], ResultMembers(x)[i].value)
  {
    ResultNames(x, i);
    forall j: nat | j < i ensures ResultMembers(x)[j].name != ResultMembers(x)[i].name {
      ResultNames(x, j);
    }
    RunnerHttp.FieldAt(ResultMembers(x), i);
  }

  /** The runner's result, by name. */
  lemma ResultFields(x: ExecutionResult)
    ensures var ms := ResultMembers(x);
            && Shown(ms, "stdout", Json.Text(x.stdout)) && Shown(ms, "stderr", Json.Text(x.stderr))
            && Shown(ms, "exit_code", if x.exitCode.Some? then Json.Number(x.exitCode.value) else Json.Null)
            && Shown(ms, "truncated", Json.Flag(x.truncated)) && Shown(ms, "duration_ms", Json.Number(x.durationMs))
            && Shown(ms, "artifact", ArtifactValue(x.artifact)) && Shown(ms, "display_artifact", ArtifactValue(x.display))
            && Shown(ms, "error", if x.error.Some? then Json.Text(x.error.value) else Json.Null)
  {
    ResultFieldAt(x, 1);
    ResultFieldAt(x, 2);
    ResultFieldAt(x, 3);
    ResultFieldAt(x, 5);
    ResultFieldAt(x, 6);
    ResultFieldAt(x, 7);
    ResultFieldAt(x, 8);
    ResultFieldAt(x, 9);
  }

  lemma VerdictFields(r: Submission.PublicResponse, submittedAt: string)
    ensures var ms := PublicHead(r, submittedAt);
            && Shown(ms, "submission_id", if r.submissionId.Some? then Json.Number(r.submissionId.value) else Json.Null)
            && Shown(ms, "submitted_at", Json.Text(submittedAt))
            && (r.verdict == Judge.Accepted ==> Shown(ms, "verdict", Json.Text("accepted")))
            && (r.verdict == Judge.WrongAnswer ==> Shown(ms, "verdict", Json.Text("wrong_answer")))
            && (r.verdict == Judge.WrongImage ==> Shown(ms, "verdict", Json.Text("wrong_image")))
            && (r.verdict == Judge.ExecutionFailure ==> Shown(ms, "verdict", Json.Text("execution_failure")))
            && (r.verdict == Judge.JudgeError ==> Shown(ms, "verdict", Json.Text("judge_error")))
            && (r.reason == None <==> Shown(ms, "reason", Json.Null))
  {
    var ms := PublicHead(r, submittedAt);
    RunnerHttp.FieldAt(ms, 1);
    RunnerHttp.FieldAt(ms, 2);
    RunnerHttp.FieldAt(ms, 3);
    RunnerHttp.FieldAt(ms, 4);
  }

  const PUBLIC_NAMES :=
    ["api_version", "submission_id", "submitted_at", "verdict", "reason", "execution", "artifact", "persistence"]

  lemma PublicNames(r: Submission.PublicResponse, submittedAt: string, i: nat)
    requires i < 8
    ensures |PUBLIC_NAMES| == |PublicMembers(r, submittedAt)| == 8 && PublicMembers(r, submittedAt)[i].name == PUBLIC_NAMES[i]
    ensures forall j :: 0 <= j < i ==> PUBLIC_NAMES[j] != PUBLIC_NAMES[i]
  {
  }

  lemma PublicFieldAt(r: Submission.PublicResponse, submittedAt: string, i: nat)
    requires i < 8
    ensures |PUBLIC_NAMES| == |PublicMembers(r, submittedAt)| == 8
    ensures Shown(PublicMembers(r, submittedAt), PUBLIC_NAMES[i], PublicMembers(r, submittedAt)[i].value)
  {
    var ms := PublicMembers(r, submittedAt);
    PublicNames(r, submittedAt, i);
    forall j: nat | j < i ensures ms[j].name != ms[i].name {
      PublicNames(r, submittedAt, j);
    }
    RunnerHttp.FieldAt(ms, i);
  }

  /** What the browser finds of the execution in the public response. */
  lemma ExecutionFields(r: Submission.PublicResponse)
    ensures var ms := ExecutionMembers(r);
            && Shown(ms, "stdout", Json.Text(r.stdout)) && Shown(ms, "stderr", Json.Text(r.stderr))
            && Shown(ms, "exit_code", if r.exitCode.Some? then Json.Number(r.exitCode.value) else Json.Null)
            && Shown(ms, "timed_out", Json.Flag(r.timedOut))
  {
    var output := OutputMembers(r.status, r.stdout, r.stderr, r.exitCode, r.timedOut);
    OutputFields(r.status, r.stdout, r.stderr, r.exitCode, r.timedOut);
    FieldAfter(output, MeterMembers(r.truncated, r.durationMs), "stdout");
    FieldAfter(output, MeterMembers(r.truncated, r.durationMs), "stderr");
    FieldAfter(output, MeterMembers(r.truncated, r.durationMs), "exit_code");
    FieldAfter(output, MeterMembers(r.truncated, r.durationMs), "timed_out");
  }

  lemma PublicFields(r: Submission.PublicResponse, submittedAt: string)
    ensures var ms := PublicMembers(r, submittedAt);
            && Shown(ms, "execution", Json.Object(ExecutionMembers(r)))
            && Shown(ms, "artifact", PublicArtifactValue(r.artifact))
            && Shown(ms, "persistence", Json.Text(if r.persistence == Submission.PublicSaved then "saved" else "unavailable"))
  {
    PublicFieldAt(r, submittedAt, 5);
    PublicFieldAt(r, submittedAt, 6);
    PublicFieldAt(r, submittedAt, 7);
  }

  // ----- the whole path

  lemma ConvertedIsWireReady(o: RunnerResult.Outcome, p: Problem)
    requires RunnerResult.ToExecutionResult(o, p, OUTPUT_CHARS).Made?
    requires (o.exitCode.Some? ==> Short(o.exitCode.value)) && Short(o.durationMs)
    ensures WireReady(RunnerResult.ToExecutionResult(o, p, OUTPUT_CHARS).value)
  {
    if o.artifact.Some? {
      Base64.EncodeIsPadded(o.artifact.value);
      PaddedIsPlain(Base64.Encode(o.artifact.value));
    }
    if o.display.Some? {
      Base64.EncodeIsPadded(o.display.value);
      PaddedIsPlain(Base64.Encode(o.display.value));
    }
  }

  /** The public response of a wire-ready result is ready too. */
  lemma PublicIsReady(
    x: ExecutionResult, j: Judge.JudgeResult, save: Submission.SaveReply, pixels: Judge.Decoder, submittedAt: string)
    requires WireReady(x) && |submittedAt| <= DIGITS && (save.SavedAs? ==> Short(save.id))
    requires Submission.ToPublic(Submission.CompletedSubmission(x, j, save), pixels).Made?
    ensures PublicReady(Submission.ToPublic(Submission.CompletedSubmission(x, j, save), pixels).value, submittedAt)
    ensures Submission.ToPublic(Submission.CompletedSubmission(x, j, save), pixels).value.Valid()
  {
  }

  /** Whatever the sandbox run did, both messages about it are within their limits and read back whole. */
  lemma EveryRunTravels(
    s: Watchdog.State, c: RunnerResult.Capture, p: Problem, problemId: string, shellgei: string,
    save: Submission.SaveReply, pixels: Judge.Decoder, requestId: string, revision: string, submittedAt: string)
    requires Watchdog.Reachable(s) && s.main.Stopped? && p.Valid() && RunnerResult.Captured(s, c, p, OUTPUT_CHARS)
    requires InputValidation.ValidProblemId(problemId) && InputValidation.ValidShellgei(shellgei)
    requires save.SavedAs? ==> save.id > 0 && Short(save.id)
    requires (s.seen.exitCode.Some? ==> Short(s.seen.exitCode.value)) && Short(c.durationMs)
    requires |requestId| == 32 && |revision| == 64 && |submittedAt| <= DIGITS
    ensures Submission.RunResult(s, c, p).Made?
    ensures var sent := RunnerMembers(requestId, revision, Submission.RunResult(s, c, p).value);
            && Json.Bytes(Json.PrintObject(sent)) <= RUNNER_LIMIT
            && Json.ParseObject(Json.PrintObject(sent)) == Some(sent)
    ensures var x := Submission.RunResult(s, c, p).value;
            var j := Judge.Judge(x, problemId, Some(p), pixels);
            var answer := Submission.ToPublic(Submission.CompletedSubmission(x, j, save), pixels);
            && answer.Made?
            && Json.Bytes(Json.PrintObject(PublicMembers(answer.value, submittedAt))) <= PUBLIC_LIMIT
  {
    Submission.EveryRunIsPublished(s, c, p, problemId, shellgei, save, pixels);
    ConvertedIsWireReady(RunnerResult.ExecuteInContainer(s, c, OUTPUT_CHARS), p);
    var x := Submission.RunResult(s, c, p).value;
    var j := Judge.Judge(x, problemId, Some(p), pixels);
    RunnerResponseFits(requestId, revision, x);
    PublicIsReady(x, j, save, pixels, submittedAt);
    PublicResponseFits(Submission.ToPublic(Submission.CompletedSubmission(x, j, save), pixels).value, submittedAt);
  }
}
