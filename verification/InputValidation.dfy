// The submission fields both APIs validate (input_validation.py, submission_request.py).
module InputValidation {
  const PROBLEM_ID_CHARS: nat := 64
  const SHELLGEI_CHARS: nat := 1000

  predicate Alphanumeric(c: char) { 'A' <= c <= 'Z' || 'a' <= c <= 'z' || '0' <= c <= '9' }

  /** Groups of letters and digits joined by single hyphens. */
  predicate ValidProblemId(id: string) {
    && 1 <= |id| <= PROBLEM_ID_CHARS
    && (forall i :: 0 <= i < |id| ==> Alphanumeric(id[i]) || id[i] == '-')
    && id[0] != '-' && id[|id| - 1] != '-'
    && forall i :: 0 < i < |id| ==> !(id[i - 1] == '-' && id[i] == '-')
  }

  function RemoveCr(s: string): string {
    if s == "" then "" else (if s[0] == '\r' then "" else [s[0]]) + RemoveCr(s[1..])
  }

  // ----- the pattern of a problem ID

  predicate IsGroup(g: string) { g != "" && forall i :: 0 <= i < |g| ==> Alphanumeric(g[i]) }

  function Joined(groups: seq<string>): string
    requires groups != []
  {
    if |groups| == 1 then groups[0] else groups[0] + ("-" + Joined(groups[1..]))
  }

  ghost predicate AllGroups(groups: seq<string>) { groups != [] && forall i :: 0 <= i < |groups| ==> IsGroup(groups[i]) }

  /** `^[A-Za-z0-9]+(?:-[A-Za-z0-9]+)*$` */
  ghost predicate MatchesPattern(id: string) { exists groups :: AllGroups(groups) && id == Joined(groups) }

  predicate WellHyphened(id: string) {
    && id != ""
    && (forall i :: 0 <= i < |id| ==> Alphanumeric(id[i]) || id[i] == '-')
    && id[0] != '-' && id[|id| - 1] != '-'
    && forall i :: 0 < i < |id| ==> !(id[i - 1] == '-' && id[i] == '-')
  }

  function FirstHyphen(id: string): (n: nat)
    ensures n <= |id| && (n < |id| ==> id[n] == '-') && forall i :: 0 <= i < n ==> id[i] != '-'
  {
    if id == "" || id[0] == '-' then 0 else 1 + FirstHyphen(id[1..])
  }

  lemma {:induction false} CutIntoGroups(id: string) returns (groups: seq<string>)
    requires WellHyphened(id)
    ensures AllGroups(groups) && id == Joined(groups)
    decreases |id|
  {
    var n := FirstHyphen(id);
    if n == |id| {
      groups := [id];
    } else {
      var rest := id[n + 1..];
      RestIsWellHyphened(id, n);
      var more := CutIntoGroups(rest);
      groups := [id[..n]] + more;
      assert groups[1..] == more;
      assert id == id[..n] + ("-" + rest);
    }
  }

  lemma RestIsWellHyphened(id: string, n: nat)
    requires WellHyphened(id) && n < |id| && id[n] == '-'
    ensures n + 1 < |id| && WellHyphened(id[n + 1..])
  {
    var rest := id[n + 1..];
    assert n != |id| - 1;
    assert forall i :: 0 <= i < |rest| ==> rest[i] == id[n + 1 + i];
    assert rest[0] == id[n + 1];
    assert rest[|rest| - 1] == id[|id| - 1];
    forall i | 0 < i < |rest| ensures !(rest[i - 1] == '-' && rest[i] == '-') {
      assert rest[i - 1] == id[n + i] && rest[i] == id[n + 1 + i];
    }
  }

  lemma {:induction false} JoinedIsWellHyphened(groups: seq<string>)
    requires AllGroups(groups)
    ensures WellHyphened(Joined(groups))
    decreases |groups|
  {
    assert IsGroup(groups[0]);
    if |groups| > 1 {
      JoinedIsWellHyphened(groups[1..]);
      HyphenBetween(groups[0], Joined(groups[1..]));
    }
  }

  lemma HyphenBetween(g: string, rest: string)
    requires IsGroup(g) && WellHyphened(rest)
    ensures WellHyphened(g + ("-" + rest))
  {
    var s := g + ("-" + rest);
    assert forall i :: 0 <= i < |s| ==> s[i] == if i < |g| then g[i] else if i == |g| then '-' else rest[i - |g| - 1];
  }

  /** A problem ID is accepted exactly when it has at most 64 characters and matches the pattern. */
  lemma ProblemIdIff(id: string)
    ensures ValidProblemId(id) <==> |id| <= 64 && MatchesPattern(id)
  {
    if ValidProblemId(id) { var groups := CutIntoGroups(id); }
    if groups :| AllGroups(groups) && id == Joined(groups) { JoinedIsWellHyphened(groups); }
  }

  lemma {:induction false} RemoveCrOfSum(a: string, b: string)
    ensures RemoveCr(a + b) == RemoveCr(a) + RemoveCr(b)
  {
    if a == "" {
      assert a + b == b;
    } else {
      RemoveCrOfSum(a[1..], b);
      RestOfSum(a, b);
    }
  }

  lemma RestOfSum(a: string, b: string)
    requires a != ""
    ensures (a + b)[0] == a[0] && (a + b)[1..] == a[1..] + b
  {
  }

  lemma RemoveCrOfOne(c: char)
    ensures RemoveCr([c]) == if c == '\r' then "" else [c]
  {
  }

  /** Wherever it stands, a carriage return is removed and any other character stays. */
  lemma RemoveCrMeans(a: string, c: char, b: string)
    ensures RemoveCr(a + [c] + b) == if c == '\r' then RemoveCr(a) + RemoveCr(b) else RemoveCr(a) + [c] + RemoveCr(b)
  {
    RemoveCrOfSum(a + [c], b);
    RemoveCrOfSum(a, [c]);
    RemoveCrOfOne(c);
  }

  /** The command as the validators leave it, or nothing if they reject it. */
  predicate ValidShellgei(s: string) {
    1 <= |s| <= SHELLGEI_CHARS && '\r' !in s && '\0' !in s
  }
}
