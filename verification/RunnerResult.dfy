// From the stopped sandbox to the runner's structured result (sandbox_executor.py, run_shellgei.py).
module RunnerResult {
  import opened Prelude
  import opened OutputCapture
  import opened ExecutionModels
  import Utf8
  import Base64
  import Watchdog

  const BYTES_PER_CHAR: nat := 4

  /** SandboxExecutionOutcome: the structured result before text and Base64. */
  datatype Outcome = Outcome(
    status: Status,
    stdout: seq<byte>,
    stderr: seq<byte>,
    exitCode: Option<int>,
    timedOut: bool,
    truncated: bool,
    durationMs: nat,
    artifact: Option<seq<byte>>,
    display: Option<seq<byte>>,
    error: Option<string>)

  /** What one execution captured besides what the watchdog protocol tracks. */
  datatype Capture = Capture(
    frames: seq<Frame>,
    artifact: Option<seq<byte>>,
    display: Option<seq<byte>>,
    captureMessage: string,
    stopMessage: string,
    durationMs: nat)

  function Size(b: Option<seq<byte>>): nat { match b case None => 0 case Some(x) => |x| }

  /** The captured bytes of one stream: its part of the first bytes that were written. */
  function CapturedBytes(frames: seq<Frame>, limit: nat, stderr: bool): seq<byte> {
    Side(Kept(Written(frames), BYTES_PER_CHAR * limit), stderr)
  }

  /** What capture guarantees for this problem: truncation is exact, images are within their limits. */
  ghost predicate Captured(s: Watchdog.State, c: Capture, p: Problem, limit: nat) {
    && (s.seen.truncated <==> |Written(c.frames)| > BYTES_PER_CHAR * limit)
    && (c.artifact.Some? ==> p.judge.ImageJudge? && 0 < |c.artifact.value| <= p.judge.maxBytes)
    && (c.display.Some? ==> 0 < |c.display.value| <= Base64.DisplayAllowance(Size(c.artifact)))
  }

  /**
   * The captures in their order: the output, then, unless something already went wrong, the judged image
   * and what is left for the display image. `quiet` and `still` say that neither a reason nor an error is
   * recorded before the first image and before the second.
   */
  method CaptureAll(frames: seq<Frame>, limit: nat, p: Problem, quiet: bool, still: bool, image: seq<Read>, gif: seq<Read>)
    returns (stdout: seq<byte>, stderr: seq<byte>, truncated: bool, artifact: Option<seq<byte>>, display: Option<seq<byte>>)
    requires limit >= 1 && p.Valid()
    ensures stdout == CapturedBytes(frames, limit, false) && stderr == CapturedBytes(frames, limit, true)
    ensures if quiet && p.judge.ImageJudge? then FileWithin(artifact, image, p.judge.maxBytes) else artifact == None
    ensures if quiet && still then FileWithin(display, gif, Base64.DisplayAllowance(Size(artifact))) else display == None
    ensures forall s: Watchdog.State, c: Capture ::
              c.frames == frames && c.artifact == artifact && c.display == display && s.seen.truncated == truncated ==>
              Captured(s, c, p, limit)
  {
    artifact, display := None, None;
    stdout, stderr, truncated := CaptureOutput(frames, BYTES_PER_CHAR * limit);
    if quiet && p.judge.ImageJudge? { artifact := CaptureArtifact(image, p.judge.maxBytes); }
    if quiet && still { display := CaptureArtifact(gif, Base64.DisplayAllowance(Size(artifact))); }
  }

  const NO_EXIT_CODE := "Docker exec exit code is unavailable"
  const NO_MESSAGE := "sandbox execution failed"

  /** The end of `_execute_in_container`: the recorded reason decides first, then errors, then a missing exit code. */
  function ExecuteInContainer(s: Watchdog.State, c: Capture, limit: nat): Outcome {
    var raised := if s.seen.captureError then Some(c.captureMessage) else if s.stopError then Some(c.stopMessage) else None;
    var status := match s.reason
      case Some(Timeout) => TimedOut
      case Some(OutputLimit) => Status.OutputLimit
      case None => if raised.Some? || s.seen.exitCode.None? then Error else Completed;
    var error := if status == Error && raised.None? then Some(NO_EXIT_CODE) else raised;
    Outcome(status, CapturedBytes(c.frames, limit, false), CapturedBytes(c.frames, limit, true),
            s.seen.exitCode, status == TimedOut, s.seen.truncated, c.durationMs,
            if status == Completed then c.artifact else None,
            if status == Completed then c.display else None,
            error)
  }

  /** `_decode_output`. */
  function DecodeOutput(stdout: seq<byte>, stderr: seq<byte>, bytesCut: bool, limit: nat): (r: (string, string, bool))
    ensures |r.0| + |r.1| <= limit
    ensures r.0 <= Utf8.Decode(stdout) && |r.0| == Smaller(limit, |Utf8.Decode(stdout)|)
    ensures r.1 <= Utf8.Decode(stderr) && |r.1| == Smaller(limit - |r.0|, |Utf8.Decode(stderr)|)
    ensures r.2 <==> bytesCut || |Utf8.Decode(stdout)| + |Utf8.Decode(stderr)| > limit
  {
    var out, err := Utf8.Decode(stdout), Utf8.Decode(stderr);
    var outShown := Cut(out, limit);
    var errShown := Cut(err, limit - |outShown|);
    (outShown, errShown, bytesCut || |outShown| < |out| || |errShown| < |err|)
  }

  function MakeArtifact(path: string, mediaType: MediaType, b: seq<byte>): Artifact {
    Artifact(path, mediaType, Base64.Encode(b))
  }

  /** `_to_execution_result`. */
  function ToExecutionResult(o: Outcome, p: Problem, limit: nat): Attempt<ExecutionResult> {
    var (stdout, stderr, truncated) := DecodeOutput(o.stdout, o.stderr, o.truncated, limit);
    var status := if truncated && o.status == Completed then Status.OutputLimit else o.status;
    var artifact :=
      if status == Completed && p.judge.ImageJudge? && o.artifact.Some?
      then Some(MakeArtifact(p.judge.path, p.judge.mediaType, o.artifact.value)) else None;
    var display :=
      if status == Completed && o.display.Some?
      then Some(MakeArtifact(DISPLAY_GIF_PATH, Gif, o.display.value)) else None;
    var error := match o.error
      case None => if status == Error then Some(NO_MESSAGE) else None
      case Some(e) => Some(Cut(if status == Error && e == "" then NO_MESSAGE else e, ERROR_CHARS));
    MakeResult(ExecutionResult(status, stdout, stderr, o.exitCode, o.timedOut, truncated, o.durationMs, artifact, error, display))
  }

  // ----- every raced outcome becomes a valid result

  lemma {:induction false} SplitPart(s: string)
    requires '/' !in s
    ensures Split(s) == [s]
  {
    if s != "" {
      SplitPart(s[1..]);
      assert [s[0]] + s[1..] == s;
    }
  }

  lemma {:induction false} SplitJoin(head: string, tail: string)
    requires '/' !in head
    ensures Split(head + "/" + tail) == [head] + Split(tail)
  {
    var s := head + "/" + tail;
    if head == "" {
      assert s[1..] == tail;
    } else {
      SplitJoin(head[1..], tail);
      assert s[1..] == head[1..] + "/" + tail;
      assert ([head[1..]] + Split(tail))[1..] == Split(tail);
      assert [s[0]] + head[1..] == head;
    }
  }

  lemma TwoPartPath(head: string, tail: string)
    requires '/' !in head && '/' !in tail && '\\' !in head && '\\' !in tail && |head| > 2 && |tail| > 2
    ensures NormalizedPath(head + "/" + tail)
  {
    SplitJoin(head, tail);
    SplitPart(tail);
  }

  lemma DisplayPathIsValid()
    ensures NormalizedPath(DISPLAY_GIF_PATH) && |DISPLAY_GIF_PATH| <= PATH_CHARS
  {
    TwoPartPath("media", "output.gif");
    assert DISPLAY_GIF_PATH == "media" + "/" + "output.gif";
  }

  lemma ImagesFit(artifact: Option<seq<byte>>, display: Option<seq<byte>>)
    requires artifact.Some? ==> |artifact.value| <= ARTIFACT_BYTES
    requires display.Some? ==> |display.value| <= Base64.DisplayAllowance(Size(artifact))
    ensures (if artifact.Some? then |Base64.Encode(artifact.value)| else 0)
          + (if display.Some? then |Base64.Encode(display.value)| else 0) <= Base64.IMAGE_CHARS
  {
    Base64.DisplayAllowanceIsLargest(Size(artifact), Size(display));
    if artifact.Some? { Base64.EncodeLength(artifact.value); }
    if display.Some? { Base64.EncodeLength(display.value); }
  }

  /** What every raced outcome has in common. */
  predicate Consistent(o: Outcome, p: Problem) {
    && (o.timedOut <==> o.status == TimedOut)
    && (o.status == Status.OutputLimit ==> o.truncated)
    && (o.truncated ==> o.status == TimedOut || o.status == Status.OutputLimit)
    && (o.status == Completed ==> o.exitCode.Some? && o.error.None?)
    && (o.status != Completed ==> o.artifact.None? && o.display.None?)
    && (o.artifact.Some? ==> p.judge.ImageJudge? && 0 < |o.artifact.value| <= p.judge.maxBytes)
    && (o.display.Some? ==> 0 < |o.display.value| <= Base64.DisplayAllowance(Size(o.artifact)))
  }

  lemma ConsistentConverts(o: Outcome, p: Problem, limit: nat)
    requires p.Valid() && limit <= OUTPUT_CHARS && Consistent(o, p)
    ensures ToExecutionResult(o, p, limit).Made?
  {
    ImagesFit(o.artifact, o.display);
    if o.display.Some? { DisplayIsValid(o.display.value); }
    if o.artifact.Some? { JudgedImageIsValid(p, o.artifact.value); }
  }

  lemma DisplayIsValid(b: seq<byte>)
    requires |Base64.Encode(b)| <= Base64.IMAGE_CHARS
    ensures MakeArtifact(DISPLAY_GIF_PATH, Gif, b).Valid()
  {
    DisplayPathIsValid();
  }

  lemma JudgedImageIsValid(p: Problem, b: seq<byte>)
    requires p.Valid() && p.judge.ImageJudge? && |Base64.Encode(b)| <= Base64.IMAGE_CHARS
    ensures MakeArtifact(p.judge.path, p.judge.mediaType, b).Valid()
  {
    ProblemPathIsArtifactPath(p.judge.path);
  }

  lemma RacedIsConsistent(s: Watchdog.State, c: Capture, p: Problem, limit: nat)
    requires Watchdog.Reachable(s) && s.main.Stopped? && Captured(s, c, p, limit)
    ensures Consistent(ExecuteInContainer(s, c, limit), p)
  {
    Watchdog.TruncationMatchesReason(s);
    Watchdog.ReachableInv(s);
  }

  /**
   * For every interleaving of timer, output limit and cleanup, with any capture error, stop error or
   * missing exit code, the result passes all its validators.
   */
  lemma EveryOutcomeConverts(s: Watchdog.State, c: Capture, p: Problem, limit: nat)
    requires Watchdog.Reachable(s) && s.main.Stopped?
    requires p.Valid() && limit <= OUTPUT_CHARS && Captured(s, c, p, limit)
    ensures ToExecutionResult(ExecuteInContainer(s, c, limit), p, limit).Made?
  {
    RacedIsConsistent(s, c, p, limit);
    ConsistentConverts(ExecuteInContainer(s, c, limit), p, limit);
  }

  /** What the status of the result says about the run. */
  lemma StatusIsExact(s: Watchdog.State, c: Capture, p: Problem, limit: nat)
    requires Watchdog.Reachable(s) && s.main.Stopped?
    requires p.Valid() && limit <= OUTPUT_CHARS && Captured(s, c, p, limit)
    ensures ToExecutionResult(ExecuteInContainer(s, c, limit), p, limit).Made?
    ensures var r := ToExecutionResult(ExecuteInContainer(s, c, limit), p, limit).value;
            && (r.status == TimedOut <==> s.reason == Some(Watchdog.Timeout))
            && (r.status == Completed <==> s.reason == None && s.killed && !s.seen.captureError && s.seen.exitCode.Some? && !r.truncated)
            && (r.status == Error <==> s.reason == None && (s.seen.captureError || !s.killed || s.seen.exitCode.None?))
            && (r.status == Completed ==>
                  r.stdout == Utf8.Decode(Stream(c.frames, false)) && r.stderr == Utf8.Decode(Stream(c.frames, true)))
  {
    EveryOutcomeConverts(s, c, p, limit);
    Watchdog.TruncationMatchesReason(s);
    Watchdog.ReachableInv(s);
    Watchdog.ExactlyOneKill(s);
    ShownIsPrefix(c.frames, limit);
  }

  /** The text of the error a run ends with: the capture's, else the stop's, else that there is no exit code. */
  ghost predicate ErrorOf(s: Watchdog.State, c: Capture, status: Status, error: Option<string>) {
    var raised := if s.seen.captureError then Some(c.captureMessage) else if !s.killed then Some(c.stopMessage) else None;
    && (status == Error && raised == None ==> error == Some("Docker exec exit code is unavailable"))
    && (status == Error && raised == Some("") ==> error == Some("sandbox execution failed"))
    && (raised.Some? && (status == Error ==> raised != Some("")) ==> error == Some(Cut(raised.value, 1_000)))
    && (raised == None && status != Error ==> error == None)
  }

  /** One image of a completed run: at its own place, decoding to what was captured. */
  ghost predicate Carries(a: Option<Artifact>, path: string, mediaType: MediaType, captured: Option<seq<byte>>) {
    && (a.Some? <==> captured.Some?)
    && (a.Some? ==> a.value.path == path && a.value.mediaType == mediaType && Base64.Decode(a.value.data) == captured)
  }

  /** The text of the two streams, as far as it fits, and whether something is missing. */
  ghost predicate TextCarried(s: Watchdog.State, c: Capture, limit: nat, r: ExecutionResult) {
    var whole, wholeErr := Utf8.Decode(Stream(c.frames, false)), Utf8.Decode(Stream(c.frames, true));
    var kept, keptErr := Utf8.Decode(CapturedBytes(c.frames, limit, false)), Utf8.Decode(CapturedBytes(c.frames, limit, true));
    && r.stdout <= whole && |r.stdout| == Smaller(limit, |kept|)
    && r.stderr <= wholeErr && |r.stderr| == Smaller(limit - |r.stdout|, |keptErr|)
    && (r.truncated <==> s.seen.truncated || |whole| + |wholeErr| > limit)
  }

  ghost predicate ImagesCarried(c: Capture, p: Problem, r: ExecutionResult) {
    r.status == Completed ==>
      && (p.judge.ImageJudge? ==> Carries(r.artifact, p.judge.path, p.judge.mediaType, c.artifact))
      && Carries(r.display, "media/output.gif", Gif, c.display)
  }

  lemma TextIsCarried(s: Watchdog.State, c: Capture, p: Problem, limit: nat)
    requires Watchdog.Reachable(s) && s.main.Stopped?
    requires p.Valid() && limit <= OUTPUT_CHARS && Captured(s, c, p, limit)
    ensures ToExecutionResult(ExecuteInContainer(s, c, limit), p, limit).Made?
    ensures TextCarried(s, c, limit, ToExecutionResult(ExecuteInContainer(s, c, limit), p, limit).value)
  {
    EveryOutcomeConverts(s, c, p, limit);
    ShownIsPrefix(c.frames, limit);
  }

  lemma ErrorIsCarried(s: Watchdog.State, c: Capture, p: Problem, limit: nat)
    requires Watchdog.Reachable(s) && s.main.Stopped?
    requires p.Valid() && limit <= OUTPUT_CHARS && Captured(s, c, p, limit)
    ensures ToExecutionResult(ExecuteInContainer(s, c, limit), p, limit).Made?
    ensures var r := ToExecutionResult(ExecuteInContainer(s, c, limit), p, limit).value;
            ErrorOf(s, c, r.status, r.error) && r.timedOut == (s.reason == Some(Watchdog.Timeout))
  {
    EveryOutcomeConverts(s, c, p, limit);
    Watchdog.TruncationMatchesReason(s);
    Watchdog.ReachableInv(s);
  }

  lemma ImagesAreCarried(s: Watchdog.State, c: Capture, p: Problem, limit: nat)
    requires Watchdog.Reachable(s) && s.main.Stopped?
    requires p.Valid() && limit <= OUTPUT_CHARS && Captured(s, c, p, limit)
    ensures ToExecutionResult(ExecuteInContainer(s, c, limit), p, limit).Made?
    ensures ImagesCarried(c, p, ToExecutionResult(ExecuteInContainer(s, c, limit), p, limit).value)
  {
    EveryOutcomeConverts(s, c, p, limit);
    if c.artifact.Some? { Base64.DecodeEncode(c.artifact.value); }
    if c.display.Some? { Base64.DecodeEncode(c.display.value); }
  }

  /** Whatever the run did, its result carries it: exit code, duration, text, error and images. */
  lemma ResultCarriesRun(s: Watchdog.State, c: Capture, p: Problem, limit: nat)
    requires Watchdog.Reachable(s) && s.main.Stopped?
    requires p.Valid() && limit <= OUTPUT_CHARS && Captured(s, c, p, limit)
    ensures ToExecutionResult(ExecuteInContainer(s, c, limit), p, limit).Made?
    ensures var r := ToExecutionResult(ExecuteInContainer(s, c, limit), p, limit).value;
            && r.exitCode == s.seen.exitCode && r.durationMs == c.durationMs
            && r.timedOut == (s.reason == Some(Watchdog.Timeout))
            && TextCarried(s, c, limit, r) && ErrorOf(s, c, r.status, r.error) && ImagesCarried(c, p, r)
  {
    TextIsCarried(s, c, p, limit);
    ErrorIsCarried(s, c, p, limit);
    ImagesAreCarried(s, c, p, limit);
  }

  // ----- the text that is shown

  /** The shown text is a prefix of the whole decoded output, and not truncated means nothing was left out. */
  lemma ShownIsPrefix(frames: seq<Frame>, limit: nat)
    ensures var t := Written(frames);
            var out, err := CapturedBytes(frames, limit, false), CapturedBytes(frames, limit, true);
            var whole, wholeErr := Utf8.Decode(Stream(frames, false)), Utf8.Decode(Stream(frames, true));
            var r := DecodeOutput(out, err, |t| > BYTES_PER_CHAR * limit, limit);
            && r.0 <= whole && r.1 <= wholeErr
            && (!r.2 ==> r.0 == whole && r.1 == wholeErr)
            && (|t| <= BYTES_PER_CHAR * limit ==> (r.2 <==> |whole| + |wholeErr| > limit))
  {
    CapturedPrefixes(frames, BYTES_PER_CHAR * limit);
    DecodedPrefixes(
      CapturedBytes(frames, limit, false), CapturedBytes(frames, limit, true),
      Stream(frames, false), Stream(frames, true), |Written(frames)| > BYTES_PER_CHAR * limit, limit);
  }

  /** Decoding and cutting prefixes of two byte streams, which are the streams themselves unless `bytesCut`. */
  lemma DecodedPrefixes(out: seq<byte>, err: seq<byte>, whole: seq<byte>, wholeErr: seq<byte>, bytesCut: bool, limit: nat)
    requires out <= whole && err <= wholeErr && (!bytesCut ==> out == whole && err == wholeErr)
    ensures var r := DecodeOutput(out, err, bytesCut, limit);
            && r.0 <= Utf8.Decode(whole) && r.1 <= Utf8.Decode(wholeErr)
            && (!r.2 ==> r.0 == Utf8.Decode(whole) && r.1 == Utf8.Decode(wholeErr))
            && (!bytesCut ==> (r.2 <==> |Utf8.Decode(whole)| + |Utf8.Decode(wholeErr)| > limit))
  {
    var r := DecodeOutput(out, err, bytesCut, limit);
    assert out == whole[..|out|] && err == wholeErr[..|err|];
    Utf8.DecodePrefix(whole, |out|);
    Utf8.DecodePrefix(wholeErr, |err|);
    PrefixTransitive(r.0, Utf8.Decode(out), Utf8.Decode(whole));
    PrefixTransitive(r.1, Utf8.Decode(err), Utf8.Decode(wholeErr));
  }

  lemma PrefixTransitive(a: string, b: string, c: string)
    requires a <= b && b <= c
    ensures a <= c
  {
    assert a == b[..|a|] == c[..|b|][..|a|] == c[..|a|];
  }

  /**
   * When the byte cap cuts well-formed output into `i` and `j` bytes, `m` and `n` complete characters are
   * left, and at most one character less than the limit is shown: exactly when the bytes of the two
   * split characters are more than what the complete ones save by being narrower than four bytes. So
   * both cuts then split a character, and the complete ones save at most two bytes.
   */
  lemma CapKeepsText(out: string, err: string, i: nat, j: nat, limit: nat) returns (m: nat, n: nat)
    requires i <= |Utf8.Encode(out)| && j <= |Utf8.Encode(err)| && i + j == BYTES_PER_CHAR * limit
    ensures m <= |out| && n <= |err|
    ensures Utf8.Decode(Utf8.Encode(out)[..i]) == out[..m] && Utf8.Decode(Utf8.Encode(err)[..j]) == err[..n]
    ensures var used, usedErr := |Utf8.Encode(out[..m])|, |Utf8.Encode(err[..n])|;
            var r := DecodeOutput(Utf8.Encode(out)[..i], Utf8.Encode(err)[..j], true, limit);
            && 0 <= i - used <= 3 && 0 <= j - usedErr <= 3
            && limit - 1 <= |r.0| + |r.1| <= limit
            && (|r.0| + |r.1| == limit - 1 <==>
                  (i - used) + (j - usedErr) > Utf8.Saved(out[..m]) + Utf8.Saved(err[..n]))
            && (|r.0| + |r.1| == limit - 1 ==>
                  !Utf8.Between(out, i) && !Utf8.Between(err, j) && Utf8.Saved(out[..m]) + Utf8.Saved(err[..n]) <= 2)
  {
    m := Utf8.DecodeCut(out, i);
    n := Utf8.DecodeCut(err, j);
    Utf8.SavedSize(out[..m]);
    Utf8.SavedSize(err[..n]);
    if Utf8.Between(out, i) { Utf8.CutBetween(out, i, m); }
    if Utf8.Between(err, j) { Utf8.CutBetween(err, j, n); }
  }

  /**
   * For every limit the bound is attained, on streams that are well-formed as a whole: four-byte
   * characters, the last of stdout split by a write to stderr that the cap splits in turn.
   */
  lemma CapMayLoseOneCharacter(limit: nat) returns (frames: seq<Frame>, out: string, err: string)
    requires limit >= 1
    ensures Stream(frames, false) == Utf8.Encode(out) && Stream(frames, true) == Utf8.Encode(err)
    ensures |Written(frames)| > BYTES_PER_CHAR * limit
    ensures var r := DecodeOutput(CapturedBytes(frames, limit, false), CapturedBytes(frames, limit, true), true, limit);
            |r.0| + |r.1| == limit - 1
  {
    var c: char := 0x1_F600 as char;
    out, err := seq(limit, _ => c), [c];
    var b, e := Utf8.Encode(out), Utf8.Encode(err);
    Utf8.WideChars(out);
    Utf8.WideChars(err);
    frames := SplitWrites(b, e, limit);
    WideCut(out, err, limit);
  }

  /** All but the last byte of stdout, four bytes of stderr and then that byte: the cap keeps one byte of stderr. */
  lemma SplitWrites(b: seq<byte>, e: seq<byte>, limit: nat) returns (frames: seq<Frame>)
    requires |b| == 4 * limit && |e| == 4 && limit >= 1
    ensures Stream(frames, false) == b && Stream(frames, true) == e && |Written(frames)| == 4 * limit + 4
    ensures CapturedBytes(frames, limit, false) == b[..4 * limit - 1] && CapturedBytes(frames, limit, true) == e[..1]
  {
    var k := 4 * limit - 1;
    Halves(b, k);
    frames := ThreeWrites(b[..k], e, b[k..]);
    SplitTags(b[..k], e, b[k..], limit);
  }

  lemma Halves(b: seq<byte>, k: nat)
    requires k <= |b|
    ensures b[..k] + b[k..] == b && |b[..k]| == k && |b[k..]| == |b| - k
  {
  }

  predicate Wide(s: string) { forall i :: 0 <= i < |s| ==> s[i] as int >= 0x1_0000 }

  /** Four-byte characters throughout: the cut one byte before the end of `out` leaves both tails incomplete. */
  lemma WideCut(out: string, err: string, limit: nat)
    requires |out| == limit >= 1 && |err| == 1 && Wide(out) && Wide(err)
    ensures |Utf8.Encode(out)| == 4 * limit && |Utf8.Encode(err)| == 4
    ensures var r := DecodeOutput(Utf8.Encode(out)[..4 * limit - 1], Utf8.Encode(err)[..1], true, limit);
            |r.0| + |r.1| == limit - 1
  {
    Utf8.WideChars(out);
    Utf8.WideChars(err);
    WideTail(out, 4 * limit - 1);
    WideTail(err, 1);
  }

  lemma WideTail(s: string, k: nat)
    requires Wide(s) && k <= |Utf8.Encode(s)|
    ensures |Utf8.Decode(Utf8.Encode(s)[..k])| == k / 4
  {
    var m := Utf8.DecodeCut(s, k);
    Utf8.WideChars(s[..m]);
  }

  /** One more frame that carries only one of the streams. */
  lemma OneMore(frames: seq<Frame>, chunk: seq<byte>, stderr: bool) returns (more: seq<Frame>)
    ensures more == frames + [if stderr then Frame(None, Some(chunk)) else Frame(Some(chunk), None)]
    ensures Written(more) == Written(frames) + Tag(chunk, stderr)
    ensures Stream(more, stderr) == Stream(frames, stderr) + chunk
    ensures Stream(more, !stderr) == Stream(frames, !stderr)
  {
    var f := if stderr then Frame(None, Some(chunk)) else Frame(Some(chunk), None);
    more := frames + [f];
    assert more[..|more| - 1] == frames;
    assert FrameBytes(f) == Tag(chunk, stderr);
  }

  /** A write to stdout, one to stderr, and the rest of stdout. */
  lemma ThreeWrites(head: seq<byte>, e: seq<byte>, tail: seq<byte>) returns (frames: seq<Frame>)
    ensures Written(frames) == Tag(head, false) + Tag(e, true) + Tag(tail, false)
    ensures Stream(frames, false) == head + tail && Stream(frames, true) == e
  {
    var one := FirstWrite(head);
    var two := OneMore(one, e, true);
    frames := OneMore(two, tail, false);
    assert Stream(two, true) == e && Stream(two, false) == head;
  }

  lemma FirstWrite(head: seq<byte>) returns (frames: seq<Frame>)
    ensures Written(frames) == Tag(head, false) && Stream(frames, false) == head && Stream(frames, true) == []
  {
    var none: seq<Frame> := [];
    frames := OneMore(none, head, false);
    assert Written(none) == [] && Stream(none, false) == [] && Stream(none, true) == [];
  }

  lemma SplitTags(head: seq<byte>, e: seq<byte>, tail: seq<byte>, limit: nat)
    requires |head| == 4 * limit - 1 && |e| == 4
    ensures var kept := Kept(Tag(head, false) + Tag(e, true) + Tag(tail, false), 4 * limit);
            Side(kept, false) == head && Side(kept, true) == e[..1]
  {
    TagPrefix(e, true, 1);
    var kept := Tag(head, false) + Tag(e[..1], true);
    assert Kept(Tag(head, false) + Tag(e, true) + Tag(tail, false), 4 * limit) == kept;
    SideAppend(Tag(head, false), Tag(e[..1], true), false);
    SideAppend(Tag(head, false), Tag(e[..1], true), true);
    SideOfTag(head, false, false);
    SideOfTag(head, false, true);
    SideOfTag(e[..1], true, false);
    SideOfTag(e[..1], true, true);
  }

  // ----- exec_shellgei and run_with_timeout

  function ErrorResult(message: string): Attempt<ExecutionResult> {
    MakeResult(ExecutionResult(Error, "", "", None, false, false, 0, None, Some(Cut(message, ERROR_CHARS)), None))
  }

  /** What the worker thread meets. */
  datatype Work =
    | BadId
    | NoProblem
    | NotAcquired(message: string)   // get_container raised
    | Unprepared(message: string)    // preparation raised after the lease
    | Broken(message: string)        // anything else that raises, release included
    | Ran(s: Watchdog.State, c: Capture)

  /** What `exec_shellgei` returns; Rejected means that building its error result raised in turn. */
  function ExecShellgei(w: Work, p: Problem, limit: nat): Attempt<ExecutionResult> {
    match w
    case BadId => ErrorResult("invalid problem ID")
    case NoProblem => ErrorResult("problem not found")
    case NotAcquired(message) => ErrorResult("failed to get container: " + message)
    case Unprepared(message) =>
      ToExecutionResult(Outcome(Error, [], [], None, false, false, 0, None, None, Some(message)), p, limit)
    case Broken(message) => ErrorResult(message)
    case Ran(s, c) => ToExecutionResult(ExecuteInContainer(s, c, limit), p, limit)
  }

  datatype Wait = Finished(w: Work) | DeadlinePassed | SubmitRaised(message: string)

  /** `run_with_timeout` after admission; `why` is the text of the exception its handler reports. */
  function RunWithTimeout(wait: Wait, why: string, p: Problem, limit: nat): Attempt<ExecutionResult> {
    match wait
    case DeadlinePassed => ErrorResult("sandbox cleanup timed out")
    case SubmitRaised(message) => ErrorResult("run with timeout: " + message)
    case Finished(w) =>
      match ExecShellgei(w, p, limit)
      case Made(r) => Made(r)
      case Rejected => ErrorResult("run with timeout: " + why)
  }

  ghost predicate Realistic(w: Work, p: Problem, limit: nat) {
    w.Ran? ==> Watchdog.Reachable(w.s) && w.s.main.Stopped? && Captured(w.s, w.c, p, limit)
  }

  /** An exception without text makes exec_shellgei itself raise, and nothing else does. */
  lemma ExecShellgeiRaisesIff(w: Work, p: Problem, limit: nat)
    requires p.Valid() && limit <= OUTPUT_CHARS && Realistic(w, p, limit)
    ensures ExecShellgei(w, p, limit).Rejected? <==> w == Work.Broken("")
  {
    if w.Ran? { EveryOutcomeConverts(w.s, w.c, p, limit); }
    if w.Unprepared? {
      assert Utf8.Decode([]) == "";
    }
  }

  /** A failure outside the sandbox is a result without output that says what failed. */
  ghost predicate Says(a: Attempt<ExecutionResult>, message: string) {
    a == Made(ExecutionResult(Error, "", "", None, false, false, 0, None, Some(Cut(message, 1_000)), None))
  }

  lemma FailuresSay(w: Work, p: Problem, limit: nat)
    requires limit <= OUTPUT_CHARS
    ensures w == BadId ==> Says(ExecShellgei(w, p, limit), "invalid problem ID")
    ensures w == NoProblem ==> Says(ExecShellgei(w, p, limit), "problem not found")
    ensures w.NotAcquired? ==> Says(ExecShellgei(w, p, limit), "failed to get container: " + w.message)
    ensures w.Unprepared? ==> Says(ExecShellgei(w, p, limit), if w.message == "" then "sandbox execution failed" else w.message)
    ensures w.Broken? && w.message != "" ==> Says(ExecShellgei(w, p, limit), w.message)
  {
    assert Utf8.Decode([]) == "";
  }

  /** What the awaiting request gets: the worker's result, or what kept it from one. */
  lemma WaitSays(w: Work, wait: Wait, why: string, p: Problem, limit: nat)
    ensures wait == DeadlinePassed ==> Says(RunWithTimeout(wait, why, p, limit), "sandbox cleanup timed out")
    ensures wait.SubmitRaised? ==> Says(RunWithTimeout(wait, why, p, limit), "run with timeout: " + wait.message)
    ensures wait == Finished(w) && ExecShellgei(w, p, limit).Rejected? ==>
              Says(RunWithTimeout(wait, why, p, limit), "run with timeout: " + why)
    ensures wait == Finished(w) && ExecShellgei(w, p, limit).Made? ==>
              RunWithTimeout(wait, why, p, limit) == ExecShellgei(w, p, limit)
  {
  }

  /** Whatever happens, an admitted request gets a valid result. */
  lemma AdmittedRequestGetsValidResult(wait: Wait, why: string, p: Problem, limit: nat)
    requires p.Valid() && limit <= OUTPUT_CHARS && (wait.Finished? ==> Realistic(wait.w, p, limit))
    ensures RunWithTimeout(wait, why, p, limit).Made? && RunWithTimeout(wait, why, p, limit).value.Valid()
  {
    match wait
    case Finished(w) =>
      if ExecShellgei(w, p, limit).Made? { MadeIsValid(w, p, limit); }
    case _ =>
  }

  lemma MadeIsValid(w: Work, p: Problem, limit: nat)
    requires ExecShellgei(w, p, limit).Made?
    ensures ExecShellgei(w, p, limit).value.Valid()
  {
  }
}
