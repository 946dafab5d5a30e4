// The runner's request path: what the client sends (runner_client.py, runner_protocol.py) and what the
// security middleware lets through (runner_http_security.py).
module RunnerHttp {
  import opened Prelude
  import opened OutputCapture
  import Utf8
  import Json
  import opened InputValidation

  const BODY_LIMIT: nat := 8192
  const PROTOCOL_VERSION: nat := 4

  // ----- the request

  datatype Request = Request(shellgei: string, problemId: string, requestId: string, revision: string) {
    predicate Valid() {
      && ValidShellgei(shellgei) && ValidProblemId(problemId)
      && |requestId| == 32 && LowerHex(requestId) && |revision| == 64 && LowerHex(revision)
    }

    /** The members in the order the model declares them. */
    function Members(): seq<Json.Member> {
      [Json.Member("shellgei", Json.Text(shellgei)), Json.Member("problem_id", Json.Text(problemId)),
       Json.Member("protocol_version", Json.Number(PROTOCOL_VERSION)),
       Json.Member("request_id", Json.Text(requestId)), Json.Member("problem_revision", Json.Text(revision))]
    }

    function Body(): seq<byte> { Utf8.Encode(Json.PrintObject(Members())) }
  }

  predicate LowerHex(s: string) { forall i :: 0 <= i < |s| ==> Json.Digit(s[i]) || 'a' <= s[i] <= 'f' }

  /** The value of a member, by its name. */
  function Field(ms: seq<Json.Member>, name: string): Option<Json.Value> {
    if ms == [] then None else if ms[0].name == name then Some(ms[0].value) else Field(ms[1..], name)
  }

  /** What the runner reads under each name. */
  lemma RequestFields(r: Request)
    ensures |r.Members()| == 5
    ensures Field(r.Members(), "protocol_version") == Some(Json.Number(4))
    ensures Field(r.Members(), "shellgei") == Some(Json.Text(r.shellgei))
    ensures Field(r.Members(), "problem_id") == Some(Json.Text(r.problemId))
    ensures Field(r.Members(), "request_id") == Some(Json.Text(r.requestId))
    ensures Field(r.Members(), "problem_revision") == Some(Json.Text(r.revision))
  {
    var ms := r.Members();
    FieldAt(ms, 0);
    FieldAt(ms, 1);
    FieldAt(ms, 2);
    FieldAt(ms, 3);
    FieldAt(ms, 4);
  }

  /** Of members with distinct names, each is found under its own. */
  lemma {:induction false} FieldAt(ms: seq<Json.Member>, i: nat)
    requires i < |ms| && forall j :: 0 <= j < i ==> ms[j].name != ms[i].name
    ensures Field(ms, ms[i].name) == Some(ms[i].value)
    decreases i
  {
    if i > 0 { FieldAt(ms[1..], i - 1); }
  }

  /** Every valid request fits the body limit, whatever must be escaped, and reads back as itself. */
  lemma RequestFits(r: Request)
    requires r.Valid()
    ensures |r.Body()| <= BODY_LIMIT
    ensures Json.ParseObject(Utf8.Decode(r.Body())) == Some(r.Members())
  {
    Utf8.DecodeEncode(Json.PrintObject(r.Members()));
    Json.ParsePrinted(r.Members());
    Json.ObjectBytes(r.Members());
    RequestRoom(r);
  }

  lemma RequestRoom(r: Request)
    requires |r.shellgei| <= SHELLGEI_CHARS && |r.problemId| <= PROBLEM_ID_CHARS && |r.requestId| == 32 && |r.revision| == 64
    ensures Json.RoomOf(r.Members()) < BODY_LIMIT
  {
    var ms := r.Members();
    Json.TextRoom("shellgei", r.shellgei);
    Json.TextRoom("problem_id", r.problemId);
    Json.IntRoom("protocol_version", PROTOCOL_VERSION);
    Json.TextRoom("request_id", r.requestId);
    Json.TextRoom("problem_revision", r.revision);
    assert |Json.PrintInt(PROTOCOL_VERSION)| == 1;
    Json.FiveRooms(ms[0], ms[1], ms[2], ms[3], ms[4]);
  }

  // ----- reading the body

  /** An ASGI message: a piece of the body, or anything else (a disconnect). */
  datatype Message = Piece(body: seq<byte>, more: bool) | Other

  function Payload(m: Message): seq<byte> { match m case Piece(body, _) => body case Other => [] }

  /** The body bytes of messages, one after another. */
  function Received(ms: seq<Message>): seq<byte> { Concat(Payloads(ms)) }

  function Payloads(ms: seq<Message>): seq<seq<byte>> { seq(|ms|, i requires 0 <= i < |ms| => Payload(ms[i])) }

  /** The messages are pieces that all announce another. */
  predicate Unfinished(ms: seq<Message>) { forall i :: 0 <= i < |ms| ==> ms[i].Piece? && ms[i].more }

  lemma ReceivedGrows(ms: seq<Message>, k: nat)
    requires k <= |ms|
    ensures Received(ms[..k]) <= Received(ms)
  {
    ConcatPrefix(Payloads(ms), k);
    assert Payloads(ms)[..k] == Payloads(ms[..k]);
  }

  lemma ReceivedNext(ms: seq<Message>, n: nat)
    requires n < |ms|
    ensures Received(ms[..n + 1]) == Received(ms[..n]) + Payload(ms[n])
  {
    assert Payloads(ms[..n + 1])[..n] == Payloads(ms[..n]);
  }

  /** What reading ended with: the body and the message that cut it off, or too much; Pending waits for ever. */
  datatype Reading = Read(body: seq<byte>, terminal: Option<Message>) | TooLarge | Pending

  /** What reading the arriving messages may end with, after `n` of them. */
  ghost predicate Reads(arriving: seq<Message>, r: Reading, n: nat) {
    n <= |arriving| &&
    match r {
      case Read(body, None) =>
        && 1 <= n && Unfinished(arriving[..n - 1]) && arriving[n - 1].Piece? && !arriving[n - 1].more
        && body == Received(arriving[..n]) && |body| <= BODY_LIMIT
      case Read(body, Some(end)) =>
        && 1 <= n && Unfinished(arriving[..n - 1]) && arriving[n - 1] == end == Other
        && body == Received(arriving[..n - 1]) && |body| <= BODY_LIMIT
      case TooLarge =>
        && 1 <= n && Unfinished(arriving[..n - 1]) && arriving[n - 1].Piece?
        && |Received(arriving[..n - 1])| <= BODY_LIMIT < |Received(arriving[..n])|
      case Pending => n == |arriving| && Unfinished(arriving) && |Received(arriving)| <= BODY_LIMIT
    }
  }

  lemma UnfinishedNext(ms: seq<Message>, n: nat)
    requires n < |ms| && Unfinished(ms[..n])
    ensures Unfinished(ms[..n + 1]) <==> ms[n].Piece? && ms[n].more
  {
    assert forall i :: 0 <= i < n ==> ms[..n + 1][i] == ms[..n][i];
  }

  lemma WholeSlice(ms: seq<Message>)
    ensures ms[..|ms|] == ms
  {
  }

  /** `_read_bounded_body` over the messages that will arrive, and how many of them it takes. */
  method ReadBoundedBody(arriving: seq<Message>) returns (r: Reading, n: nat)
    ensures Reads(arriving, r, n)
  {
    var body: seq<byte> := [];
    n := 0;
    while n < |arriving|
      invariant n <= |arriving| && Unfinished(arriving[..n]) && body == Received(arriving[..n]) && |body| <= BODY_LIMIT
    {
      ReceivedNext(arriving, n);
      UnfinishedNext(arriving, n);
      var message := arriving[n];
      n := n + 1;
      if message.Other? { return Read(body, Some(message)), n; }
      body := body + message.body;
      if |body| > BODY_LIMIT { return TooLarge, n; }
      if !message.more { return Read(body, None), n; }
    }
    WholeSlice(arriving);
    return Pending, n;
  }

  /** The first `k` messages are a complete body in any number of pieces. */
  ghost predicate Chunked(arriving: seq<Message>, body: seq<byte>, k: nat) {
    && 1 <= k <= |arriving|
    && Unfinished(arriving[..k - 1]) && arriving[k - 1].Piece? && !arriving[k - 1].more
    && body == Received(arriving[..k])
  }

  /** However a body is cut into pieces, it is read whole, or refused exactly when it exceeds the limit. */
  lemma ChunkingDoesNotMatter(arriving: seq<Message>, body: seq<byte>, k: nat, r: Reading, n: nat)
    requires Chunked(arriving, body, k) && Reads(arriving, r, n)
    ensures |body| <= BODY_LIMIT ==> r == Read(body, None) && n == k
    ensures |body| > BODY_LIMIT ==> r == TooLarge && n <= k
  {
    UnfinishedAt(arriving, n - 1, k - 1);
    UnfinishedAt(arriving, k - 1, n - 1);
    if n <= k {
      ReceivedGrows(arriving[..k], n);
      assert arriving[..k][..n] == arriving[..n];
      ReceivedGrows(arriving[..k], k - 1);
      assert arriving[..k][..k - 1] == arriving[..k - 1];
    }
  }

  /** A message before the end of an unfinished stretch is a piece that announces another. */
  lemma UnfinishedAt(ms: seq<Message>, m: int, i: int)
    ensures 0 <= i < m <= |ms| && Unfinished(ms[..m]) ==> ms[i].Piece? && ms[i].more
  {
    assert 0 <= i < m <= |ms| ==> ms[..m][i] == ms[i];
  }

  // ----- the middleware

  datatype Scope = Scope(http: bool, path: string, headers: seq<(string, string)>)

  const EXECUTE_PATH := "/internal/execute"

  function Lower(s: string): string {
    seq(|s|, i requires 0 <= i < |s| => if 'A' <= s[i] <= 'Z' then (s[i] as int + 32) as char else s[i])
  }

  function Values(headers: seq<(string, string)>, name: string): seq<string> {
    if headers == [] then []
    else (if Lower(headers[0].0) == name then [headers[0].1] else []) + Values(headers[1..], name)
  }

  const EXAMPLE_SECRET := "replace-with-at-least-32-random-characters"

  predicate SecretChar(c: char) {
    'A' <= c <= 'Z' || 'a' <= c <= 'z' || '0' <= c <= '9' || c == '_' || c == '-'
  }

  /** What `get_runner_shared_secret` accepts from the environment; it raises for anything else. */
  predicate ValidSecret(secret: string) {
    32 <= |secret| <= 256 && (forall i :: 0 <= i < |secret| ==> SecretChar(secret[i])) && secret != EXAMPLE_SECRET
  }

  predicate Authenticated(scope: Scope, secret: string) {
    ValidSecret(secret) && Values(scope.headers, "authorization") == ["Bearer " + secret]
  }

  /** A single Authorization header is compared with a secret that the environment does not hold. */
  predicate Misconfigured(scope: Scope, secret: string) {
    |Values(scope.headers, "authorization")| == 1 && !ValidSecret(secret)
  }

  datatype Declared = Absent | Length(n: nat) | Invalid

  /** `parse` is Python's `int` on header bytes; a repeated header is invalid. */
  function DeclaredLength(scope: Scope, parse: string -> Option<int>): Declared {
    var values := Values(scope.headers, "content-length");
    if values == [] then Absent
    else if |values| > 1 || parse(values[0]).None? || parse(values[0]).value < 0 then Invalid
    else Length(parse(values[0]).value)
  }

  datatype Answer = PassThrough | Raises | Status(code: nat) | Forward(body: seq<byte>, terminal: Option<Message>) | Waiting

  /** The answer and the number of messages taken for it. */
  ghost predicate Answers(
    scope: Scope, secret: string, parse: string -> Option<int>, arriving: seq<Message>, a: Answer, n: nat)
  {
    if !scope.http || scope.path != EXECUTE_PATH then a == PassThrough && n == 0
    else if Misconfigured(scope, secret) then a == Raises && n == 0
    else if !Authenticated(scope, secret) then a == Status(401) && n == 0
    else
      match DeclaredLength(scope, parse)
      case Invalid => a == Status(400) && n == 0
      case Length(length) => if length > BODY_LIMIT then a == Status(413) && n == 0 else Buffered(arriving, a, n)
      case Absent => Buffered(arriving, a, n)
  }

  ghost predicate Buffered(arriving: seq<Message>, a: Answer, n: nat) {
    match a
    case Forward(body, terminal) => Reads(arriving, Read(body, terminal), n)
    case Status(code) => code == 413 && Reads(arriving, TooLarge, n)
    case Waiting => Reads(arriving, Pending, n)
    case _ => false
  }

  method Call(scope: Scope, secret: string, parse: string -> Option<int>, arriving: seq<Message>)
    returns (a: Answer, n: nat)
    ensures Answers(scope, secret, parse, arriving, a, n)
  {
    if !scope.http || scope.path != EXECUTE_PATH { return PassThrough, 0; }
    if |Values(scope.headers, "authorization")| != 1 { return Status(401), 0; }
    if !ValidSecret(secret) { return Raises, 0; }
    if Values(scope.headers, "authorization") != ["Bearer " + secret] { return Status(401), 0; }
    var declared := DeclaredLength(scope, parse);
    if declared.Invalid? { return Status(400), 0; }
    if declared.Length? && declared.n > BODY_LIMIT { return Status(413), 0; }
    var reading;
    reading, n := ReadBoundedBody(arriving);
    match reading
    case Read(body, terminal) => a := Forward(body, terminal);
    case TooLarge => a := Status(413);
    case Pending => a := Waiting;
  }

  /** A valid request from the real client is never refused: in any pieces, exactly its body goes on. */
  lemma ValidRequestIsForwarded(
    r: Request, scope: Scope, secret: string, parse: string -> Option<int>, arriving: seq<Message>, k: nat, a: Answer, n: nat)
    requires r.Valid() && Chunked(arriving, r.Body(), k) && Answers(scope, secret, parse, arriving, a, n)
    requires scope.http && scope.path == EXECUTE_PATH && Authenticated(scope, secret)
    requires DeclaredLength(scope, parse) in {Absent, Length(|r.Body()|)}
    ensures a == Forward(r.Body(), None) && n == k
  {
    RequestFits(r);
    assert Buffered(arriving, a, n);
    match a
    case Forward(body, terminal) => ChunkingDoesNotMatter(arriving, r.Body(), k, Read(body, terminal), n);
    case Status(_) => ChunkingDoesNotMatter(arriving, r.Body(), k, TooLarge, n);
    case Waiting => ChunkingDoesNotMatter(arriving, r.Body(), k, Pending, n);
  }

  predicate LengthAllowed(d: Declared) { d == Absent || (d.Length? && d.n <= BODY_LIMIT) }

  /** The first message that announces no other is number `k`, and the body up to it is within the limit. */
  ghost predicate EndsWithin(arriving: seq<Message>, k: nat) {
    && 1 <= k <= |arriving|
    && Unfinished(arriving[..k - 1]) && !(arriving[k - 1].Piece? && arriving[k - 1].more)
    && |Received(arriving[..k])| <= BODY_LIMIT
  }

  /** Messages that end within the limit are read to their end. */
  lemma EndIsRead(arriving: seq<Message>, k: nat, r: Reading, n: nat)
    requires EndsWithin(arriving, k) && Reads(arriving, r, n)
    ensures r.Read?
  {
    assert arriving[..|arriving|] == arriving;
    if r.Pending? {
      UnfinishedAt(arriving, |arriving|, k - 1);
    } else if n <= k {
      assert arriving[..k][..n] == arriving[..n];
      ReceivedGrows(arriving[..k], n);
    } else {
      UnfinishedAt(arriving, n - 1, k - 1);
    }
  }

  /** On the execute path a body goes on exactly when it is authenticated, declared no longer than allowed and ends in time. */
  lemma ForwardedIff(
    scope: Scope, secret: string, parse: string -> Option<int>, arriving: seq<Message>, a: Answer, n: nat)
    requires Answers(scope, secret, parse, arriving, a, n) && scope.http && scope.path == EXECUTE_PATH
    ensures a.Forward? <==>
      && Authenticated(scope, secret) && LengthAllowed(DeclaredLength(scope, parse))
      && exists k: nat :: EndsWithin(arriving, k)
  {
    if Authenticated(scope, secret) && LengthAllowed(DeclaredLength(scope, parse)) {
      if a.Forward? {
        ReceivedNext(arriving, n - 1);
        assert EndsWithin(arriving, n);
      } else if k: nat :| EndsWithin(arriving, k) {
        EndIsRead(arriving, k, if a == Waiting then Pending else TooLarge, n);
      }
    }
  }

  // ----- the headers, one by one

  /** A header name, which may be written with capitals. */
  predicate Names(written: string, name: string) {
    |written| == |name| && forall i :: 0 <= i < |name| ==>
      written[i] == name[i] || ('a' <= name[i] <= 'z' && written[i] as int == name[i] as int - 32)
  }

  predicate LowerCase(name: string) { forall i :: 0 <= i < |name| ==> !('A' <= name[i] <= 'Z') }

  ghost predicate NoHeader(headers: seq<(string, string)>, name: string) {
    forall i :: 0 <= i < |headers| ==> !Names(headers[i].0, name)
  }

  /** The header at `i` is the only one of this name. */
  ghost predicate OnlyAt(headers: seq<(string, string)>, name: string, i: int) {
    && 0 <= i < |headers| && Names(headers[i].0, name)
    && forall j :: 0 <= j < |headers| && j != i ==> !Names(headers[j].0, name)
  }

  ghost predicate OnlyHeader(headers: seq<(string, string)>, name: string, value: string) {
    exists i :: OnlyAt(headers, name, i) && headers[i].1 == value
  }

  lemma LowerIs(written: string, name: string)
    requires LowerCase(name)
    ensures Lower(written) == name <==> Names(written, name)
  {
    if Lower(written) == name {
      assert |written| == |name|;
      forall i | 0 <= i < |name|
        ensures written[i] == name[i] || ('a' <= name[i] <= 'z' && written[i] as int == name[i] as int - 32)
      {
        assert name[i] == Lower(written)[i];
      }
    }
    if Names(written, name) {
      forall i | 0 <= i < |name| ensures Lower(written)[i] == name[i] {
      }
    }
  }

  lemma {:induction false} NoValues(headers: seq<(string, string)>, name: string)
    requires LowerCase(name)
    ensures Values(headers, name) == [] <==> NoHeader(headers, name)
  {
    if headers != [] {
      var rest := headers[1..];
      NoValues(rest, name);
      LowerIs(headers[0].0, name);
      assert NoHeader(headers, name) <==> !Names(headers[0].0, name) && NoHeader(rest, name) by {
        assert forall i :: 0 < i < |headers| ==> headers[i] == rest[i - 1];
        assert forall i :: 0 <= i < |rest| ==> rest[i] == headers[i + 1];
      }
    }
  }

  lemma {:induction false} OneValue(headers: seq<(string, string)>, name: string, value: string)
    requires LowerCase(name)
    ensures Values(headers, name) == [value] <==> OnlyHeader(headers, name, value)
  {
    if headers != [] {
      var rest := headers[1..];
      LowerIs(headers[0].0, name);
      NoValues(rest, name);
      OneValue(rest, name, value);
      OnlyCons(headers, name, value);
    }
  }

  lemma {:induction false} OnlyCons(headers: seq<(string, string)>, name: string, value: string)
    requires headers != []
    ensures OnlyHeader(headers, name, value) <==>
            if Names(headers[0].0, name) then headers[0].1 == value && NoHeader(headers[1..], name)
            else OnlyHeader(headers[1..], name, value)
  {
    var rest := headers[1..];
    assert forall i :: 0 < i < |headers| ==> headers[i] == rest[i - 1];
    assert forall i :: 0 <= i < |rest| ==> rest[i] == headers[i + 1];
    if i :| OnlyAt(headers, name, i) && headers[i].1 == value {
      if i > 0 { assert OnlyAt(rest, name, i - 1); }
    }
    if Names(headers[0].0, name) {
      if NoHeader(rest, name) { assert OnlyAt(headers, name, 0); }
    } else if i :| OnlyAt(rest, name, i) && rest[i].1 == value {
      assert OnlyAt(headers, name, i + 1);
    }
  }

  /** Authenticated is exactly: a sound secret, and one Authorization header, which is that secret. */
  lemma AuthenticatedIff(scope: Scope, secret: string)
    ensures Authenticated(scope, secret) <==>
            ValidSecret(secret) && OnlyHeader(scope.headers, "authorization", "Bearer " + secret)
    ensures Misconfigured(scope, secret) <==>
            !ValidSecret(secret) && exists value :: OnlyHeader(scope.headers, "authorization", value)
  {
    OneValue(scope.headers, "authorization", "Bearer " + secret);
    forall value ensures Values(scope.headers, "authorization") == [value] <==> OnlyHeader(scope.headers, "authorization", value) {
      OneValue(scope.headers, "authorization", value);
    }
    var values := Values(scope.headers, "authorization");
    assert |values| == 1 ==> values == [values[0]];
  }

  /** The declared length is accepted exactly if there is none, or one header that is a number up to the limit. */
  lemma LengthAllowedIff(scope: Scope, parse: string -> Option<int>)
    ensures LengthAllowed(DeclaredLength(scope, parse)) <==>
            || NoHeader(scope.headers, "content-length")
            || exists v :: OnlyHeader(scope.headers, "content-length", v) && parse(v).Some? && 0 <= parse(v).value <= 8192
    ensures DeclaredLength(scope, parse) == Invalid <==>
            && !NoHeader(scope.headers, "content-length")
            && forall v :: OnlyHeader(scope.headers, "content-length", v) ==> parse(v).None? || parse(v).value < 0
  {
    NoValues(scope.headers, "content-length");
    forall value ensures Values(scope.headers, "content-length") == [value] <==> OnlyHeader(scope.headers, "content-length", value) {
      OneValue(scope.headers, "content-length", value);
    }
    var values := Values(scope.headers, "content-length");
    assert |values| == 1 ==> values == [values[0]];
  }

  /** How the execute path is answered, in the order of the checks; any other path passes. */
  lemma AnswersAre(scope: Scope, secret: string, parse: string -> Option<int>, arriving: seq<Message>, a: Answer, n: nat)
    requires Answers(scope, secret, parse, arriving, a, n)
    ensures a == PassThrough <==> !scope.http || scope.path != "/internal/execute"
    ensures a != PassThrough ==>
      var sole := exists value :: OnlyHeader(scope.headers, "authorization", value);
      var known := ValidSecret(secret) && OnlyHeader(scope.headers, "authorization", "Bearer " + secret);
      && (a == Raises <==> sole && !ValidSecret(secret))
      && (a == Status(401) <==> !known && !(sole && !ValidSecret(secret)))
      && (a == Status(400) <==> known && DeclaredLength(scope, parse) == Invalid)
      && (known && DeclaredLength(scope, parse) != Invalid && !LengthAllowed(DeclaredLength(scope, parse)) ==> a == Status(413) && n == 0)
  {
    AuthenticatedIff(scope, secret);
  }

  // ----- the replayed channel

  /** `replay_receive`: the buffered body once, then the terminal message or what still arrives. */
  class Replay {
    const body: seq<byte>
    const terminal: Option<Message>
    var replayed: bool
    var rest: seq<Message>
    ghost const arriving: seq<Message>
    ghost var delivered: seq<Message>

    constructor (body: seq<byte>, terminal: Option<Message>, rest: seq<Message>)
      ensures Valid() && delivered == [] && this.body == body && this.terminal == terminal && arriving == rest
    {
      this.body, this.terminal, this.rest, arriving := body, terminal, rest, rest;
      replayed, delivered := false, [];
    }

    /** The body is delivered once and first; after it only the terminal message, or the channel in order. */
    ghost predicate Valid()
      reads this
    {
      if !replayed then delivered == [] && rest == arriving
      else
        && delivered != [] && delivered[0] == Piece(body, false)
        && match terminal {
          case None => arriving == delivered[1..] + rest
          case Some(end) => forall i :: 1 <= i < |delivered| ==> delivered[i] == end
        }
    }

    /** Nothing is returned when the application would wait for ever. */
    method Receive() returns (message: Option<Message>)
      requires Valid()
      modifies this`replayed, this`rest, this`delivered
      ensures Valid() && replayed
      ensures message.Some? ==> delivered == old(delivered) + [message.value]
      ensures message.None? ==> delivered == old(delivered) && old(replayed) && terminal.None? && rest == []
    {
      if !replayed {
        replayed := true;
        message := Some(Piece(body, false));
      } else if terminal.Some? {
        message := terminal;
      } else if rest == [] {
        return None;
      } else {
        message, rest := Some(rest[0]), rest[1..];
      }
      delivered := delivered + [message.value];
    }
  }
}
