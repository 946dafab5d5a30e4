// Judging (judge.py): text comparison after normalization, exact-pixel image comparison, and the
// execution policy that comes before both.
module Judge {
  import opened Prelude
  import opened OutputCapture
  import opened ExecutionModels
  import InputValidation
  import Base64

  datatype Verdict = Accepted | WrongAnswer | WrongImage | WrongTextAndImage | ExecutionFailure | JudgeError

  datatype Reason =
    | OutputMismatch | ImageMismatch | OutputAndImageMismatch
    | ArtifactMissing | ArtifactPathMismatch | ArtifactMediaTypeMismatch | ArtifactInvalid
    | NonZeroExit | StderrNotEmpty | RanTooLong | OutputTruncated | ExecutionError
    | InvalidProblemId | ProblemNotFound

  datatype JudgeResult = JudgeResult(verdict: Verdict, reason: Option<Reason>) {
    function LegacyCode(): string {
      match verdict
      case Accepted => "1"
      case WrongImage => "2"
      case WrongAnswer => "3"
      case _ => "4"
    }
  }

  // ----- text

  predicate Blank(c: char) { c == ' ' || c == '\n' }

  function StripBlanks(s: string): string {
    if s != "" && Blank(s[|s| - 1]) then StripBlanks(s[..|s| - 1]) else s
  }

  function Normalize(s: string): string { StripBlanks(InputValidation.RemoveCr(s)) }

  ghost predicate IsNormalFormOf(p: string, s: string) {
    && (p == "" || p[|p| - 1] !in " \n")
    && p <= s
    && forall i :: |p| <= i < |s| ==> s[i] in " \n"
  }

  lemma {:induction false} StripIsNormalForm(s: string)
    ensures IsNormalFormOf(StripBlanks(s), s)
  {
    if s != "" && Blank(s[|s| - 1]) {
      StripIsNormalForm(s[..|s| - 1]);
    }
  }

  lemma LongerEndsBlank(p: string, q: string, t: string)
    requires p <= t && |q| < |p| && IsNormalFormOf(q, t)
    ensures Blank(p[|p| - 1])
  {
    assert p[|p| - 1] == t[|p| - 1];
  }

  /** The normal form is the only text that is the input without its carriage returns and trailing blanks. */
  lemma NormalFormIsUnique(p: string, s: string)
    ensures IsNormalFormOf(p, InputValidation.RemoveCr(s)) <==> p == Normalize(s)
  {
    var t, q := InputValidation.RemoveCr(s), Normalize(s);
    StripIsNormalForm(t);
    if p <= t && |q| < |p| {
      LongerEndsBlank(p, q, t);
    } else if IsNormalFormOf(p, t) && |p| < |q| {
      LongerEndsBlank(q, p, t);
    } else if IsNormalFormOf(p, t) {
      assert p == t[..|p|] && q == t[..|q|];
    }
  }

  lemma {:induction false} RemoveCrIsDone(s: string)
    ensures '\r' !in InputValidation.RemoveCr(s)
    ensures '\r' !in s ==> InputValidation.RemoveCr(s) == s
  {
    if s != "" { RemoveCrIsDone(s[1..]); }
  }

  lemma NormalizeIsIdempotent(s: string)
    ensures Normalize(Normalize(s)) == Normalize(s)
  {
    RemoveCrIsDone(s);
    StripIsNormalForm(InputValidation.RemoveCr(s));
    RemoveCrIsDone(Normalize(s));
  }

  function PolicyFailure(p: Problem, x: ExecutionResult): Option<JudgeResult> {
    var exit := match x.exitCode case None => 0 case Some(code) => code;
    if x.timedOut then Some(JudgeResult(ExecutionFailure, Some(RanTooLong)))
    else if x.truncated then Some(JudgeResult(ExecutionFailure, Some(OutputTruncated)))
    else if p.exit.ZeroExit? && exit != 0 then Some(JudgeResult(ExecutionFailure, Some(NonZeroExit)))
    else if p.stderr.MustBeEmpty? && x.stderr != "" then Some(JudgeResult(ExecutionFailure, Some(StderrNotEmpty)))
    else None
  }

  function JudgedOutput(p: Problem, x: ExecutionResult): string {
    if p.stderr.Merge? then x.stdout + x.stderr else x.stdout
  }

  function JudgeText(p: Problem, expected: string, x: ExecutionResult): JudgeResult {
    match PolicyFailure(p, x)
    case Some(failure) => failure
    case None =>
      if Normalize(JudgedOutput(p, x)) == Normalize(expected) then JudgeResult(Accepted, None)
      else JudgeResult(WrongAnswer, Some(OutputMismatch))
  }

  // ----- images; decoding to pixels is left abstract

  datatype Pixels = Pixels(width: nat, height: nat, frames: seq<seq<byte>>)
  type Decoder = (seq<byte>, MediaType) -> Option<Pixels>

  function MatchesMediaType(b: seq<byte>, m: MediaType): bool {
    match m
    case Jpeg => |b| >= 4 && b[..2] == [0xFF, 0xD8] && b[|b| - 2..] == [0xFF, 0xD9]
    case Gif =>
      |b| >= 7 && b[|b| - 1] == 0x3B
      && b[..4] == [0x47, 0x49, 0x46, 0x38] && (b[4] == 0x37 || b[4] == 0x39) && b[5] == 0x61
  }

  function JudgeImage(spec: JudgeSpec, actual: Option<Artifact>, pixels: Decoder): JudgeResult
    requires spec.ImageJudge?
  {
    if actual.None? then JudgeResult(WrongImage, Some(ArtifactMissing))
    else if actual.value.path != spec.path then JudgeResult(WrongImage, Some(ArtifactPathMismatch))
    else if actual.value.mediaType != spec.mediaType then JudgeResult(WrongImage, Some(ArtifactMediaTypeMismatch))
    else
      match Base64.Decode(actual.value.data)
      case None => JudgeResult(WrongImage, Some(ArtifactInvalid))
      case Some(payload) =>
        if !MatchesMediaType(payload, spec.mediaType) then JudgeResult(WrongImage, Some(ArtifactInvalid))
        else
          var got, want := pixels(payload, spec.mediaType), pixels(spec.answer, spec.mediaType);
          if got.None? || want.None? then JudgeResult(WrongImage, Some(ArtifactInvalid))
          else if got == want then JudgeResult(Accepted, None)
          else JudgeResult(WrongImage, Some(ImageMismatch))
  }

  /** `ShellgeiJudge.judge`; `record` is what the repository holds for the ID. */
  function Judge(x: ExecutionResult, problemId: string, record: Option<Problem>, pixels: Decoder): JudgeResult {
    if !InputValidation.ValidProblemId(problemId) then JudgeResult(JudgeError, Some(InvalidProblemId))
    else if record.None? then JudgeResult(JudgeError, Some(ProblemNotFound))
    else if x.status.Error? then JudgeResult(ExecutionFailure, Some(ExecutionError))
    else
      match record.value.judge
      case TextJudge(expected) => JudgeText(record.value, expected, x)
      case ImageJudge(_, _, _, _) =>
        match PolicyFailure(record.value, x)
        case Some(failure) => failure
        case None => JudgeImage(record.value.judge, x.artifact, pixels)
  }

  /** A valid result that did not complete is an execution failure whose reason is its status, for every problem. */
  lemma IncompleteFails(x: ExecutionResult, id: string, p: Problem, pixels: Decoder)
    requires x.Valid() && InputValidation.ValidProblemId(id)
    ensures x.status != Completed ==>
              Judge(x, id, Some(p), pixels) == JudgeResult(ExecutionFailure, Some(
                match x.status
                case TimedOut => RanTooLong
                case OutputLimit => OutputTruncated
                case _ => ExecutionError))
    ensures x.status == Completed ==>
              forall r :: r in {RanTooLong, OutputTruncated, ExecutionError} ==>
                Judge(x, id, Some(p), pixels).reason != Some(r)
  {
  }

  ghost predicate PolicyHolds(p: Problem, x: ExecutionResult) {
    && x.status == Completed
    && (p.exit.ZeroExit? ==> x.exitCode == Some(0))
    && (p.stderr.MustBeEmpty? ==> x.stderr == "")
  }

  /** What a completed command within no policy fails for, the exit code first. */
  lemma PolicyDecides(x: ExecutionResult, id: string, p: Problem, pixels: Decoder)
    requires x.Valid() && InputValidation.ValidProblemId(id) && x.status == Completed
    ensures var j := Judge(x, id, Some(p), pixels);
            && (j == JudgeResult(ExecutionFailure, Some(NonZeroExit)) <==> p.exit.ZeroExit? && x.exitCode != Some(0))
            && (j == JudgeResult(ExecutionFailure, Some(StderrNotEmpty)) <==>
                  p.stderr.MustBeEmpty? && x.stderr != "" && (p.exit.ZeroExit? ==> x.exitCode == Some(0)))
            && (PolicyHolds(p, x) <==> j.verdict != ExecutionFailure)
  {
  }

  /** Two texts have one normal form in common. */
  ghost predicate Agree(a: string, b: string) {
    exists n :: IsNormalFormOf(n, InputValidation.RemoveCr(a)) && IsNormalFormOf(n, InputValidation.RemoveCr(b))
  }

  lemma AgreeIff(a: string, b: string)
    ensures Agree(a, b) <==> Normalize(a) == Normalize(b)
  {
    NormalFormIsUnique(Normalize(a), a);
    NormalFormIsUnique(Normalize(a), b);
    if n :| IsNormalFormOf(n, InputValidation.RemoveCr(a)) && IsNormalFormOf(n, InputValidation.RemoveCr(b)) {
      NormalFormIsUnique(n, a);
      NormalFormIsUnique(n, b);
    }
  }

  /**
   * A text answer is accepted exactly when the command completed within policy and its output agrees with
   * the expected text up to carriage returns and trailing blanks: stdout followed by stderr where the
   * policy merges them, else stdout alone.
   */
  lemma TextAcceptedIff(x: ExecutionResult, id: string, p: Problem, pixels: Decoder)
    requires x.Valid() && InputValidation.ValidProblemId(id) && p.judge.TextJudge?
    ensures var j := Judge(x, id, Some(p), pixels);
            && (p.stderr.Merge? ==>
                  (j.verdict == Accepted <==> PolicyHolds(p, x) && Agree(x.stdout + x.stderr, p.judge.expected)))
            && (!p.stderr.Merge? ==> (j.verdict == Accepted <==> PolicyHolds(p, x) && Agree(x.stdout, p.judge.expected)))
            && (PolicyHolds(p, x) ==> j.verdict in {Accepted, WrongAnswer})
  {
    AgreeIff(x.stdout + x.stderr, p.judge.expected);
    AgreeIff(x.stdout, p.judge.expected);
  }

  /** A whole JPEG or GIF by its first and last bytes. */
  ghost predicate Enclosed(b: seq<byte>, first: seq<byte>, middle: seq<byte>, last: seq<byte>) { b == first + middle + last }

  ghost predicate Signed(b: seq<byte>, m: MediaType) {
    match m
    case Jpeg => exists middle :: Enclosed(b, [0xFF, 0xD8], middle, [0xFF, 0xD9])
    case Gif => // GIF87a or GIF89a
      || (exists middle :: Enclosed(b, [0x47, 0x49, 0x46, 0x38, 0x37, 0x61], middle, [0x3B]))
      || (exists middle :: Enclosed(b, [0x47, 0x49, 0x46, 0x38, 0x39, 0x61], middle, [0x3B]))
  }

  lemma SignedIff(b: seq<byte>, m: MediaType)
    ensures MatchesMediaType(b, m) <==> Signed(b, m)
  {
    match m
    case Jpeg =>
      if |b| >= 4 { EnclosedIff(b, [0xFF, 0xD8], [0xFF, 0xD9]); }
    case Gif =>
      if |b| >= 7 {
        EnclosedIff(b, [0x47, 0x49, 0x46, 0x38, 0x37, 0x61], [0x3B]);
        EnclosedIff(b, [0x47, 0x49, 0x46, 0x38, 0x39, 0x61], [0x3B]);
        assert b[|b| - 1..] == [b[|b| - 1]] && b[..6] == b[..4] + [b[4], b[5]];
        assert b[4] == b[..6][4] && b[5] == b[..6][5] && b[..4] == b[..6][..4];
      }
  }

  lemma EnclosedIff(b: seq<byte>, first: seq<byte>, last: seq<byte>)
    requires |b| >= |first| + |last|
    ensures (exists middle :: Enclosed(b, first, middle, last)) <==> b[..|first|] == first && b[|b| - |last|..] == last
  {
    if b[..|first|] == first && b[|b| - |last|..] == last {
      var middle := b[|first|..|b| - |last|];
      assert Enclosed(b, first, middle, last);
    }
  }

  /** Padded Base64 text in whole groups, of a payload that has the expected signature and the pixels of the answer. */
  ghost predicate ShowsAnswer(spec: JudgeSpec, data: string, pixels: Decoder)
    requires spec.ImageJudge?
  {
    && |data| % 4 == 0 && Base64.Padded(data)
    && exists payload :: PayloadOf(data, payload)
                         && Signed(payload, spec.mediaType)
                         && pixels(payload, spec.mediaType).Some?
                         && pixels(payload, spec.mediaType) == pixels(spec.answer, spec.mediaType)
  }

  ghost predicate PayloadOf(data: string, payload: seq<byte>) { Base64.Decode(data) == Some(payload) }

  lemma JudgeImageIff(spec: JudgeSpec, a: Artifact, pixels: Decoder)
    requires spec.ImageJudge?
    ensures JudgeImage(spec, Some(a), pixels).verdict == Accepted <==>
              a.path == spec.path && a.mediaType == spec.mediaType && ShowsAnswer(spec, a.data, pixels)
  {
    Base64.DecodesIffPadded(a.data);
    if Base64.Decode(a.data).Some? { SignedIff(Base64.Decode(a.data).value, spec.mediaType); }
    assert Base64.Decode(a.data).Some? ==> PayloadOf(a.data, Base64.Decode(a.data).value);
  }

  /** An image answer is accepted exactly when it is at the right place and shows the expected image; what was encoded is compared. */
  lemma ImageAcceptedIff(x: ExecutionResult, id: string, p: Problem, pixels: Decoder)
    requires x.Valid() && InputValidation.ValidProblemId(id) && p.judge.ImageJudge?
    ensures Judge(x, id, Some(p), pixels).verdict == Accepted <==>
              && PolicyHolds(p, x) && x.artifact.Some?
              && x.artifact.value.path == p.judge.path && x.artifact.value.mediaType == p.judge.mediaType
              && ShowsAnswer(p.judge, x.artifact.value.data, pixels)
    ensures forall b :: PayloadOf(Base64.Encode(b), b)
  {
    forall b ensures PayloadOf(Base64.Encode(b), b) { Base64.DecodeEncode(b); }
    if x.artifact.Some? { JudgeImageIff(p.judge, x.artifact.value, pixels); }
  }

  /** Why an image answer within policy is refused, the first of these that applies. */
  lemma ImageReason(x: ExecutionResult, id: string, p: Problem, pixels: Decoder)
    requires x.Valid() && InputValidation.ValidProblemId(id) && p.judge.ImageJudge? && PolicyHolds(p, x)
    ensures var j := Judge(x, id, Some(p), pixels);
            && j.verdict in {Accepted, WrongImage}
            && (j.reason == Some(ArtifactMissing) <==> x.artifact.None?)
            && (j.reason == Some(ArtifactPathMismatch) <==> x.artifact.Some? && x.artifact.value.path != p.judge.path)
            && (j.reason == Some(ArtifactMediaTypeMismatch) <==>
                  x.artifact.Some? && x.artifact.value.path == p.judge.path && x.artifact.value.mediaType != p.judge.mediaType)
            && (j.reason == Some(ImageMismatch) ==>
                  var b := Base64.Decode(x.artifact.value.data);
                  b.Some? && Signed(b.value, p.judge.mediaType) && pixels(b.value, p.judge.mediaType).Some?
                  && pixels(b.value, p.judge.mediaType) != pixels(p.judge.answer, p.judge.mediaType))
  {
    if x.artifact.Some? && Base64.Decode(x.artifact.value.data).Some? {
      SignedIff(Base64.Decode(x.artifact.value.data).value, p.judge.mediaType);
    }
  }

  /** A verdict carries a reason exactly when it is not an acceptance, and the reason fits the verdict. */
  lemma ReasonFitsVerdict(x: ExecutionResult, id: string, record: Option<Problem>, pixels: Decoder)
    ensures var j := Judge(x, id, record, pixels);
            && (j.verdict == Accepted <==> j.reason == None)
            && (j.verdict == WrongAnswer <==> j.reason == Some(OutputMismatch))
            && (j.verdict == WrongImage ==> record.Some? && record.value.judge.ImageJudge?)
            && (j.verdict == JudgeError <==> !InputValidation.ValidProblemId(id) || record.None?)
            && j.verdict != WrongTextAndImage
  {
  }
}
