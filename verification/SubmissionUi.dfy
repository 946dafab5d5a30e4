// The browser's submission generations (run.tsx, submit.tsx, escape_str.tsx): clicks, responses in any
// order and unmounting. What is typed is a sequence of UTF-16 code units, not always well paired.
module SubmissionUi {
  import opened Prelude
  import opened Utf16
  import InputValidation

  const CR: Unit := 13
  const LF: Unit := 10
  const NUL: Unit := 0

  // ----- preparing a submission

  /** What JavaScript's trim removes. */
  predicate Space(n: Unit) {
    || 9 <= n <= 13 || n == 0x20 || n == 0xA0 || n == 0x1680 || 0x2000 <= n <= 0x200A || n == 0x2028 || n == 0x2029
    || n == 0x202F || n == 0x205F || n == 0x3000 || n == 0xFEFF
  }

  predicate Blank(s: seq<Unit>) { forall i :: 0 <= i < |s| ==> Space(s[i]) }

  function RemoveCr(s: seq<Unit>): seq<Unit> {
    if s == [] then [] else (if s[0] == CR then [] else [s[0]]) + RemoveCr(s[1..])
  }

  function TrimStart(s: seq<Unit>): seq<Unit> { if s != [] && Space(s[0]) then TrimStart(s[1..]) else s }

  function TrimEnd(s: seq<Unit>): seq<Unit> {
    if s != [] && Space(s[|s| - 1]) then TrimEnd(s[..|s| - 1]) else s
  }

  /** `replace(/\n$/g, "")`: one line feed at the very end. */
  function DropFinalNewline(s: seq<Unit>): seq<Unit> { if s != [] && s[|s| - 1] == LF then s[..|s| - 1] else s }

  function EscapeShellgei(text: seq<Unit>): seq<Unit> { DropFinalNewline(TrimEnd(TrimStart(RemoveCr(text)))) }

  datatype Prepared =
    | ValidationError(tooLong: bool)
    | Run(requestKey: seq<Unit>, shellgei: seq<Unit>, problemId: string)

  function Key(problem: string, shellgei: seq<Unit>): seq<Unit> { Encode(problem) + [NUL] + shellgei }

  function Prepare(limit: nat, shellgei: seq<Unit>, problem: string): Prepared {
    if |shellgei| == 0 then ValidationError(false)
    else if |shellgei| > limit then ValidationError(true)
    else Run(Key(problem, EscapeShellgei(shellgei)), EscapeShellgei(shellgei), problem)
  }

  lemma {:induction false} NoCr(s: seq<Unit>)
    ensures CR !in RemoveCr(s) && |RemoveCr(s)| <= |s|
  {
    if s != [] { NoCr(s[1..]); }
  }

  /** Trimming leaves a piece of the text whose ends are not blank. */
  lemma {:induction false} TrimmedStart(s: seq<Unit>) returns (k: nat)
    ensures k <= |s| && TrimStart(s) == s[k..] && (k < |s| ==> !Space(s[k]))
    ensures forall i :: 0 <= i < k ==> Space(s[i])
  {
    k := 0;
    if s != [] && Space(s[0]) {
      var j := TrimmedStart(s[1..]);
      k := j + 1;
      assert s[1..][j..] == s[k..];
      assert forall i :: 1 <= i < k ==> s[i] == s[1..][i - 1];
    }
  }

  lemma {:induction false} TrimmedEnd(s: seq<Unit>) returns (k: nat)
    ensures k <= |s| && TrimEnd(s) == s[..k] && (k > 0 ==> !Space(s[k - 1]))
    ensures forall i :: k <= i < |s| ==> Space(s[i])
    decreases |s|
  {
    k := |s|;
    if s != [] && Space(s[|s| - 1]) {
      var t := s[..|s| - 1];
      k := TrimmedEnd(t);
      assert forall i :: k <= i < |t| ==> s[i] == t[i];
    }
  }

  /** The normal form: a piece of the command without carriage returns, not blank at either end, nothing but blanks lost. */
  lemma NormalForm(text: seq<Unit>) returns (from: nat, to: nat)
    ensures var s := RemoveCr(text);
            && from <= to <= |s| && EscapeShellgei(text) == s[from..to]
            && (forall i :: 0 <= i < from || to <= i < |s| ==> Space(s[i]))
            && (from < to ==> !Space(s[from]) && !Space(s[to - 1]))
  {
    var s := RemoveCr(text);
    from := TrimmedStart(s);
    var k := TrimmedEnd(s[from..]);
    to := from + k;
    assert s[from..][..k] == s[from..to];
    forall i | to <= i < |s| ensures Space(s[i]) {
      assert s[i] == s[from..][i - from];
    }
  }

  /** What the browser refuses: nothing typed, and more code units than the limit; the rest goes on in normal form. */
  lemma PrepareIff(limit: nat, shellgei: seq<Unit>, problem: string)
    ensures Prepare(limit, shellgei, problem) == ValidationError(false) <==> shellgei == []
    ensures Prepare(limit, shellgei, problem) == ValidationError(true) <==> |shellgei| > limit
    ensures Prepare(limit, shellgei, problem).Run? ==>
              && Prepare(limit, shellgei, problem).shellgei == EscapeShellgei(shellgei)
              && Prepare(limit, shellgei, problem).problemId == problem
              && Prepare(limit, shellgei, problem).requestKey == Encode(problem) + [0] + EscapeShellgei(shellgei)
  {
  }

  /** What the server makes of the code units the browser sends: text, if they are well paired, and valid text. */
  predicate ServerAccepts(sent: seq<Unit>) {
    Decode(sent).Some? && InputValidation.ValidShellgei(Decode(sent).value)
  }

  /**
   * What the browser sends passes the server's validation exactly when something other than blanks was
   * typed, the normal form holds no NUL, and its surrogates are paired; the two length limits never
   * disagree.
   */
  lemma SentIsAcceptedIff(shellgei: seq<Unit>, problem: string)
    requires Prepare(InputValidation.SHELLGEI_CHARS, shellgei, problem).Run?
    ensures var sent := EscapeShellgei(shellgei);
            && (ServerAccepts(sent) <==> !Blank(shellgei) && NUL !in sent && Paired(sent))
            && (sent == [] <==> Blank(shellgei))
  {
    var sent := EscapeShellgei(shellgei);
    var from, to := NormalForm(shellgei);
    NoCr(shellgei);
    BlankUnlessCr(shellgei);
    BlankUnlessEmpty(RemoveCr(shellgei), from, to);
    DecodesIffPaired(sent);
    if Decode(sent).Some? {
      EncodeDecode(sent);
      assert '\r' !in Decode(sent).value by { assert CR !in sent; }
      assert '\0' in Decode(sent).value <==> NUL in sent;
      assert Decode(sent).value == "" <==> sent == [];
    }
  }

  lemma BlankUnlessEmpty(s: seq<Unit>, from: nat, to: nat)
    requires from <= to <= |s| && (forall i :: 0 <= i < from || to <= i < |s| ==> Space(s[i]))
    requires from < to ==> !Space(s[from])
    ensures s[from..to] == [] <==> Blank(s)
  {
  }

  /** Three inputs the browser sends and the server rejects: blanks, a NUL, and a lone surrogate. */
  lemma RejectedInputs(problem: string)
    ensures forall text :: text in {[0x20], [0x61, NUL], [0xD800]} ==>
              Prepare(InputValidation.SHELLGEI_CHARS, text, problem).Run? && !ServerAccepts(EscapeShellgei(text))
  {
    forall text | text in {[0x20], [0x61, NUL], [0xD800]} ensures !ServerAccepts(EscapeShellgei(text)) {
      SentIsAcceptedIff(text, problem);
      WithoutCr(text);
      var from, to := NormalForm(text);
      if text == [0xD800] { assert from == 0 && to == 1 && !PairedAt(text, 0); }
      if text == [0x61, NUL] { assert from == 0 && to == 2; }
    }
  }

  lemma {:induction false} WithoutCr(s: seq<Unit>)
    requires CR !in s
    ensures RemoveCr(s) == s
  {
    if s != [] {
      WithoutCr(s[1..]);
      assert [s[0]] + s[1..] == s;
    }
  }

  lemma BlankCons(c: Unit, s: seq<Unit>)
    ensures Blank([c] + s) <==> Space(c) && Blank(s)
  {
    var t := [c] + s;
    assert t[0] == c;
    assert forall i :: 0 <= i < |s| ==> t[i + 1] == s[i];
    assert forall i :: 1 <= i < |t| ==> t[i] == s[i - 1];
  }

  lemma {:induction false} BlankUnlessCr(s: seq<Unit>)
    ensures Blank(RemoveCr(s)) <==> Blank(s)
  {
    if s != [] {
      var rest := RemoveCr(s[1..]);
      BlankUnlessCr(s[1..]);
      BlankCons(s[0], s[1..]);
      assert [s[0]] + s[1..] == s;
      BlankCons(s[0], rest);
      assert RemoveCr(s) == if s[0] == CR then rest else [s[0]] + rest;
    }
  }

  function FirstNul(s: seq<Unit>): (n: nat)
    ensures n <= |s|
  {
    if s == [] || s[0] == NUL then 0 else 1 + FirstNul(s[1..])
  }

  lemma {:induction false} FirstNulAfter(p: seq<Unit>, s: seq<Unit>)
    requires NUL !in p
    ensures FirstNul(p + [NUL] + s) == |p|
  {
    var key := p + [NUL] + s;
    if p == [] {
      assert key[0] == NUL;
    } else {
      assert key[0] == p[0] && key[1..] == p[1..] + [NUL] + s;
      FirstNulAfter(p[1..], s);
    }
  }

  lemma ProblemHasNoNul(p: string)
    requires InputValidation.ValidProblemId(p)
    ensures NUL !in Encode(p)
  {
    DecodeEncode(p);
    EncodeDecode(Encode(p));
    assert '\0' !in p;
  }

  /** Problem IDs hold no NUL, so a request key stands for one problem and one normalized command. */
  lemma RequestKeyIsInjective(p: string, s: seq<Unit>, q: string, t: seq<Unit>)
    requires InputValidation.ValidProblemId(p) && InputValidation.ValidProblemId(q) && Key(p, s) == Key(q, t)
    ensures p == q && s == t
  {
    var a, b := Encode(p), Encode(q);
    ProblemHasNoNul(p);
    ProblemHasNoNul(q);
    FirstNulAfter(a, s);
    FirstNulAfter(b, t);
    assert Key(p, s)[..|a|] == a && Key(q, t)[..|b|] == b;
    assert Key(p, s)[|a| + 1..] == s && Key(q, t)[|b| + 1..] == t;
    DecodeEncode(p);
    DecodeEncode(q);
  }

  // ----- the component

  datatype Result = Result(ok: bool, text: string)

  /** The submission state, with the version that set it. */
  datatype Shown =
    | Idle
    | Running(run: Prepared)
    | Refused(tooLong: bool)
    | Settled(run: Prepared, result: Result)

  datatype Active = Active(version: nat, requestKey: seq<Unit>)

  /** One request: what was sent, whether its controller was aborted, whether its promise has settled. */
  datatype Request = Request(run: Prepared, aborted: bool, settled: bool)

  datatype State = State(
    mounted: bool, version: nat, active: Option<Active>, shown: Shown, requests: map<nat, Request>)

  const INITIAL := State(true, 0, None, Idle, map[])

  function AbortActive(s: State): map<nat, Request> {
    if s.active.None? || s.active.value.version !in s.requests then s.requests
    else s.requests[s.active.value.version := s.requests[s.active.value.version].(aborted := true)]
  }

  function Click(s: State, limit: nat, shellgei: seq<Unit>, problem: string): State {
    var prepared := Prepare(limit, shellgei, problem);
    if prepared.ValidationError? then
      s.(version := s.version + 1, active := None, shown := Refused(prepared.tooLong), requests := AbortActive(s))
    else if s.active.Some? && s.active.value.requestKey == prepared.requestKey then s
    else
      var version := s.version + 1;
      s.(version := version, active := Some(Active(version, prepared.requestKey)), shown := Running(prepared),
         requests := AbortActive(s)[version := Request(prepared, false, false)])
  }

  /** The promise of request `version` settles, aborted or not. */
  function Respond(s: State, version: nat, result: Result): State
    requires version in s.requests
  {
    var settled := s.(requests := s.requests[version := s.requests[version].(settled := true)]);
    if version != s.version then settled
    else settled.(active := None, shown := Settled(s.requests[version].run, result))
  }

  function Unmount(s: State): State {
    s.(mounted := false, version := s.version + 1, active := None, requests := AbortActive(s))
  }

  datatype Event = Clicked(shellgei: seq<Unit>, problem: string) | Responded(version: nat, result: Result) | Unmounted

  /** A click and unmounting need the component; a promise settles once. */
  predicate Enabled(s: State, e: Event) {
    match e
    case Clicked(_, problem) => s.mounted && InputValidation.ValidProblemId(problem)
    case Responded(version, _) => version in s.requests && !s.requests[version].settled
    case Unmounted => s.mounted
  }

  function Next(s: State, limit: nat, e: Event): State
    requires Enabled(s, e)
  {
    match e
    case Clicked(shellgei, problem) => Click(s, limit, shellgei, problem)
    case Responded(version, result) => Respond(s, version, result)
    case Unmounted => Unmount(s)
  }

  /** The component's refs and the state it sets. */
  class SojRun {
    var submissionVersion: nat
    var activeSubmission: Option<Active>
    var submissionState: Shown
    var requests: map<nat, Request>
    ghost var mounted: bool

    constructor ()
      ensures Abstract() == INITIAL
    {
      submissionVersion, activeSubmission, submissionState, requests, mounted := 0, None, Idle, map[], true;
    }

    ghost function Abstract(): State
      reads this
    {
      State(mounted, submissionVersion, activeSubmission, submissionState, requests)
    }

    method Abort()
      modifies this`requests
      ensures requests == AbortActive(old(Abstract()))
    {
      if activeSubmission.Some? && activeSubmission.value.version in requests {
        var version := activeSubmission.value.version;
        requests := requests[version := requests[version].(aborted := true)];
      }
    }

    method SubmitClick(limit: nat, shellgei: seq<Unit>, problem: string)
      modifies this
      ensures Abstract() == Click(old(Abstract()), limit, shellgei, problem)
    {
      var prepared := Prepare(limit, shellgei, problem);
      if prepared.ValidationError? {
        submissionVersion := submissionVersion + 1;
        Abort();
        activeSubmission := None;
        submissionState := Refused(prepared.tooLong);
        return;
      }
      if activeSubmission.Some? && activeSubmission.value.requestKey == prepared.requestKey { return; }
      Abort();
      submissionVersion := submissionVersion + 1;
      var version := submissionVersion;
      activeSubmission := Some(Active(version, prepared.requestKey));
      submissionState := Running(prepared);
      requests := requests[version := Request(prepared, false, false)];
    }

    method Settle(version: nat, result: Result)
      requires version in requests
      modifies this
      ensures Abstract() == Respond(old(Abstract()), version, result)
    {
      requests := requests[version := requests[version].(settled := true)];
      if version != submissionVersion { return; }
      activeSubmission := None;
      submissionState := Settled(requests[version].run, result);
    }

    method Cleanup()
      modifies this
      ensures Abstract() == Unmount(old(Abstract()))
    {
      submissionVersion := submissionVersion + 1;
      Abort();
      activeSubmission := None;
      mounted := false;
    }
  }

  // ----- every reachable state

  /** What the latest click asked for that was not a repetition of the running submission. */
  datatype Latest = Nothing | Of(prepared: Prepared)

  /** The same command, up to normalization, for the same problem as the submission shown running. */
  predicate Repeats(s: State, limit: nat, shellgei: seq<Unit>, problem: string) {
    && s.shown.Running? && Prepare(limit, shellgei, problem).Run?
    && s.shown.run.Run? && s.shown.run.problemId == problem && s.shown.run.shellgei == EscapeShellgei(shellgei)
  }

  function LatestAfter(l: Latest, s: State, limit: nat, e: Event): Latest {
    match e
    case Clicked(shellgei, problem) =>
      if Repeats(s, limit, shellgei, problem) then l else Of(Prepare(limit, shellgei, problem))
    case _ => l
  }

  predicate Keyed(p: Prepared) {
    p.Run? ==> InputValidation.ValidProblemId(p.problemId) && p.requestKey == Key(p.problemId, p.shellgei)
  }

  predicate Inv(s: State, l: Latest) {
    && (l.Of? ==> Keyed(l.prepared))
    && (s.active.Some? ==>
          && s.mounted && s.active.value.version == s.version && s.version in s.requests
          && !s.requests[s.version].aborted && !s.requests[s.version].settled
          && l.Of? && l.prepared.Run? && s.requests[s.version].run == l.prepared
          && s.active.value.requestKey == l.prepared.requestKey && s.shown == Running(l.prepared))
    && (forall v :: v in s.requests ==> 1 <= v <= s.version && s.requests[v].run.Run?)
    && (forall v :: v in s.requests && !s.requests[v].settled && !s.requests[v].aborted ==> s.active.Some? && v == s.version)
    && (s.mounted && s.version in s.requests && !s.requests[s.version].settled ==> s.active.Some?)
    && (s.mounted && s.active.None? ==> !s.shown.Running?)
    && (!s.mounted ==> s.version !in s.requests)
    && (match s.shown
        case Idle => l.Nothing?
        case Running(run) => run.Run? && l == Of(run)
        case Refused(tooLong) => l == Of(ValidationError(tooLong))
        case Settled(run, _) => run.Run? && l == Of(run))
  }

  /** A click changes nothing exactly when it repeats the running submission. */
  lemma IgnoredIffRepeats(s: State, l: Latest, limit: nat, shellgei: seq<Unit>, problem: string)
    requires Inv(s, l) && s.mounted && InputValidation.ValidProblemId(problem)
    ensures Click(s, limit, shellgei, problem) == s <==> Repeats(s, limit, shellgei, problem)
  {
    var s' := Click(s, limit, shellgei, problem);
    var prepared := Prepare(limit, shellgei, problem);
    if prepared.Run? && s.active.Some? && s.active.value.requestKey == prepared.requestKey {
      RequestKeyIsInjective(l.prepared.problemId, l.prepared.shellgei, problem, prepared.shellgei);
    } else {
      assert s'.version == s.version + 1;
    }
  }

  lemma StepInv(s: State, l: Latest, limit: nat, e: Event)
    requires Inv(s, l) && Enabled(s, e)
    ensures Inv(Next(s, limit, e), LatestAfter(l, s, limit, e))
  {
    if e.Clicked? { IgnoredIffRepeats(s, l, limit, e.shellgei, e.problem); }
  }

  ghost predicate History(states: seq<State>, latest: seq<Latest>, limit: nat, events: seq<Event>) {
    && |states| == |latest| == |events| + 1
    && states[0] == INITIAL && latest[0] == Nothing
    && forall i {:trigger Moves(states, latest, limit, events, i)} :: 0 <= i < |events| ==> Moves(states, latest, limit, events, i)
  }

  ghost predicate Moves(states: seq<State>, latest: seq<Latest>, limit: nat, events: seq<Event>, i: nat)
    requires |states| == |latest| == |events| + 1
  {
    && i < |events| && Enabled(states[i], events[i])
    && states[i + 1] == Next(states[i], limit, events[i])
    && latest[i + 1] == LatestAfter(latest[i], states[i], limit, events[i])
  }

  lemma {:induction false} Reachable(states: seq<State>, latest: seq<Latest>, limit: nat, events: seq<Event>, n: nat)
    requires History(states, latest, limit, events) && n <= |events|
    ensures Inv(states[n], latest[n])
  {
    if n > 0 {
      Reachable(states, latest, limit, events, n - 1);
      assert Moves(states, latest, limit, events, n - 1);
      StepInv(states[n - 1], latest[n - 1], limit, events[n - 1]);
    }
  }

  /**
   * In every reachable state: a submission is active exactly while a mounted page shows it running,
   * every other request still under way has been aborted, and what is shown is of the latest click.
   */
  lemma ShownIsLatest(states: seq<State>, latest: seq<Latest>, limit: nat, events: seq<Event>, n: nat)
    requires History(states, latest, limit, events) && n <= |events|
    ensures var s := states[n];
            && (s.active.Some? <==> s.mounted && s.shown.Running?)
            && (forall v :: v in s.requests && !s.requests[v].settled && (v < s.version || !s.mounted) ==> s.requests[v].aborted)
            && (match latest[n]
                case Nothing => s.shown == Idle
                case Of(ValidationError(tooLong)) => s.shown == Refused(tooLong)
                case Of(run) => s.shown == Running(run) || (s.shown.Settled? && s.shown.run == run))
  {
    Reachable(states, latest, limit, events, n);
  }

  /** After unmounting nothing is shown, aborted or started any more. */
  lemma {:induction false} NothingAfterUnmount(
    states: seq<State>, latest: seq<Latest>, limit: nat, events: seq<Event>, k: nat, n: nat)
    requires History(states, latest, limit, events) && k <= n <= |events| && !states[k].mounted
    ensures !states[n].mounted && states[n].shown == states[k].shown && states[n].active.None?
    ensures states[n].requests.Keys == states[k].requests.Keys
    decreases n
  {
    Reachable(states, latest, limit, events, n);
    if n > k {
      NothingAfterUnmount(states, latest, limit, events, k, n - 1);
      assert Moves(states, latest, limit, events, n - 1);
      Reachable(states, latest, limit, events, n - 1);
    }
  }

  /** The first settlement of the current request is shown, whatever the others did meanwhile. */
  lemma CurrentResponseIsShown(s: State, l: Latest, limit: nat, v: nat, result: Result)
    requires Inv(s, l) && Enabled(s, Responded(v, result))
    ensures Next(s, limit, Responded(v, result)).shown ==
            if s.active.Some? && v == s.active.value.version then Settled(l.prepared, result) else s.shown
  {
  }
}
