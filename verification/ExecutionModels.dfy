// The structured execution result and everything that produces or accepts it on the way from the
// sandbox to the public response. A frozen model's constructor either makes a value that passes its
// validator or rejects.
module ExecutionModels {
  import opened Prelude
  import opened OutputCapture
  import Utf8
  import Base64

  const OUTPUT_CHARS: nat := 1_000
  const ERROR_CHARS: nat := 1_000
  const PATH_CHARS: nat := 255
  const ARTIFACT_BYTES: nat := 750_000
  const DISPLAY_GIF_PATH := "media/output.gif"

  datatype Attempt<+T> = Made(value: T) | Rejected

  function Cut(s: string, n: nat): (r: string)
    ensures |r| <= n && r <= s && (|s| <= n ==> r == s)
  {
    if |s| <= n then s else s[..n]
  }

  // ----- artifact paths

  function Split(s: string): (parts: seq<string>)
    ensures parts != []
  {
    if s == "" then [""]
    else
      var rest := Split(s[1..]);
      if s[0] == '/' then [""] + rest else [[s[0]] + rest[0]] + rest[1..]
  }

  /** A normalized relative POSIX path: no empty, `.` or `..` part and no backslash. */
  predicate NormalizedPath(path: string) {
    && path != "" && '\\' !in path
    && var parts := Split(path);
       forall i :: 0 <= i < |parts| ==> parts[i] != "" && parts[i] != "." && parts[i] != ".."
  }

  /** What the problem schema accepts as an artifact path. */
  predicate ProblemPath(path: string) {
    NormalizedPath(path) && '\0' !in path && |Utf8.Encode(path)| <= PATH_CHARS
  }

  datatype MediaType = Jpeg | Gif

  datatype Artifact = Artifact(path: string, mediaType: MediaType, data: string) {
    predicate Valid() { |path| <= PATH_CHARS && |data| <= Base64.IMAGE_CHARS && NormalizedPath(path) }
  }

  /** Every path the problem schema accepts is an acceptable artifact path. */
  lemma ProblemPathIsArtifactPath(path: string)
    requires ProblemPath(path)
    ensures |path| <= PATH_CHARS && NormalizedPath(path)
  {
    Utf8.EncodedSize(path);
  }

  // ----- ExecutionResult

  datatype Status = Completed | TimedOut | OutputLimit | Error

  datatype ExecutionResult = ExecutionResult(
    status: Status,
    stdout: string,
    stderr: string,
    exitCode: Option<int>,
    timedOut: bool,
    truncated: bool,
    durationMs: int,
    artifact: Option<Artifact>,
    error: Option<string>,
    display: Option<Artifact>)
  {
    function ImageChars(): nat {
      (if artifact.Some? then |artifact.value.data| else 0) + (if display.Some? then |display.value.data| else 0)
    }

    predicate Consistent() {
      match status
      case Completed => exitCode.Some? && !timedOut && !truncated && error == None
      case TimedOut => timedOut
      case OutputLimit => !timedOut && truncated
      case Error => !timedOut && error.Some? && error.value != ""
    }

    predicate Valid() {
      && |stdout| + |stderr| <= OUTPUT_CHARS
      && durationMs >= 0
      && (error.Some? ==> |error.value| <= ERROR_CHARS)
      && (artifact.Some? ==> artifact.value.Valid())
      && (display.Some? ==> display.value.Valid())
      && Consistent()
      && ImageChars() <= Base64.IMAGE_CHARS
      && (display.Some? ==> display.value.path == DISPLAY_GIF_PATH && display.value.mediaType == Gif)
      && (status != Completed ==> artifact == None && display == None)
    }

    /** `legacy_output` with its default limit. */
    function LegacyOutput(): string {
      var combined := stdout + stderr;
      match status
      case TimedOut => Cut(combined, OUTPUT_CHARS - |TIMED_OUT_SUFFIX|) + TIMED_OUT_SUFFIX
      case OutputLimit => Cut(combined, OUTPUT_CHARS) + "..."
      case Error => Cut("Error during execution: " + (match error case None => "None" case Some(e) => e), OUTPUT_CHARS)
      case Completed => if |combined| > OUTPUT_CHARS then Cut(combined, OUTPUT_CHARS) + "..." else combined
    }
  }

  const TIMED_OUT_SUFFIX := "\n[Timed out]"

  function MakeResult(r: ExecutionResult): Attempt<ExecutionResult> { if r.Valid() then Made(r) else Rejected }

  // ----- problems

  datatype ExitPolicy = IgnoreExit | ZeroExit
  datatype StderrPolicy = Merge | IgnoreStderr | MustBeEmpty
  datatype JudgeSpec =
    | TextJudge(expected: string)
    | ImageJudge(path: string, mediaType: MediaType, maxBytes: nat, answer: seq<byte>)
  datatype Problem = Problem(exit: ExitPolicy, stderr: StderrPolicy, judge: JudgeSpec) {
    predicate Valid() { judge.ImageJudge? ==> ProblemPath(judge.path) && 0 < judge.maxBytes <= ARTIFACT_BYTES }
  }
}
