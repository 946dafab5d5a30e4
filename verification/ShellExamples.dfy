// The copyable curl example (submission_examples.ts) against the shell that reads it: quoting as in
// section 2.2, token recognition as in 2.3 and here-documents as in 2.7.4 of the Shell Command
// Language of POSIX.1-2017. Anything the shell would expand is not read at all.
module ShellExamples {
  import opened Prelude
  import Json

  // ----- the writer

  /** `value.replaceAll("'", "'\\''")`. */
  function ReplaceQuotes(value: string): string {
    if value == "" then "" else (if value[0] == '\'' then "'\\''" else [value[0]]) + ReplaceQuotes(value[1..])
  }

  function QuoteShell(value: string): string { "'" + ReplaceQuotes(value) + "'" }

  function StripSlashes(url: string): string {
    if url != "" && url[|url| - 1] == '/' then StripSlashes(url[..|url| - 1]) else url
  }

  const SAMPLE := "printf '%s\\n' 'test'"

  function Payload(shellgei: string, problem: string): seq<Json.Member> {
    [Json.Member("shellgei", Json.Text(if shellgei == "" then SAMPLE else shellgei)),
     Json.Member("problem_id", Json.Text(problem))]
  }

  /** The fixed words of the example. */
  datatype Template =
    Template(program: string, header: string, contentType: string, data: string, input: string, delimiter: string)

  const CURL := Template("curl", "-H", "Content-Type: application/json", "--data-binary", "@-", "JSON")
  const CONTINUED := " \\\n  "

  function CommandText(t: Template, endpoint: string, body: string): string {
    t.program + (" " + QuoteShell(endpoint) + (CONTINUED +
    t.header + (" " + ("'" + t.contentType + "'") + (CONTINUED +
    t.data + (" " + t.input + (" <<" + ("'" + t.delimiter + "'") + ("\n" +
    (body + "\n" + (t.delimiter + "\n")))))))))
  }

  function Endpoint(origin: string): string { StripSlashes(origin) + "/api/v3/submissions" }

  function BuildCurlCommand(origin: string, shellgei: string, problem: string): string {
    CommandText(CURL, Endpoint(origin), Json.PrintObject(Payload(shellgei, problem)))
  }

  // ----- the shell

  predicate Blank(c: char) { c == ' ' || c == '\t' }

  /** Characters that end an unquoted word. */
  predicate Delimits(c: char) { Blank(c) || c in {'\n', ';', '&', '|', '<', '>', '(', ')'} }

  /** Characters that an unquoted word is not read across: they may start an expansion, a pattern or a comment. */
  predicate Active(c: char) { c in {'"', '$', '`', '*', '?', '[', '~', '#', '{', '!', '='} }

  /** Text up to the closing single quote, where everything stands for itself. */
  function ReadQuoted(s: string): (r: Option<(string, string)>)
    ensures r.Some? ==> |r.value.1| < |s|
  {
    if s == "" then None
    else if s[0] == '\'' then Some(("", s[1..]))
    else
      match ReadQuoted(s[1..])
      case None => None
      case Some((text, rest)) => Some(([s[0]] + text, rest))
  }

  /** The rest of a word and the text after it. */
  function ReadWord(s: string): (r: Option<(string, string)>)
    ensures r.Some? ==> |r.value.1| <= |s|
    ensures r.Some? && s != "" && !Delimits(s[0]) ==> |r.value.1| < |s|
    decreases |s|
  {
    if s == "" || Delimits(s[0]) then Some(("", s))
    else if s[0] == '\'' then
      match ReadQuoted(s[1..])
      case None => None
      case Some((text, rest)) => Joined(text, ReadWord(rest))
    else if s[0] == '\\' then
      if |s| < 2 then None else if s[1] == '\n' then ReadWord(s[2..]) else Joined([s[1]], ReadWord(s[2..]))
    else if Active(s[0]) then None
    else Joined([s[0]], ReadWord(s[1..]))
  }

  function Joined(text: string, r: Option<(string, string)>): Option<(string, string)> {
    match r
    case None => None
    case Some((more, rest)) => Some((text + more, rest))
  }

  /** Blanks and continued lines between words. */
  function SkipBlanks(s: string): (r: string)
    ensures |r| <= |s|
    decreases |s|
  {
    if s != "" && Blank(s[0]) then SkipBlanks(s[1..])
    else if |s| >= 2 && s[0] == '\\' && s[1] == '\n' then SkipBlanks(s[2..])
    else s
  }

  /** The words of a command up to an operator or the end of the line. */
  function ReadWords(s: string): (r: Option<(seq<string>, string)>)
    decreases |s|
  {
    var t := SkipBlanks(s);
    if t == "" || Delimits(t[0]) then Some(([], t))
    else
      match ReadWord(t)
      case None => None
      case Some((word, rest)) =>
        match ReadWords(rest)
        case None => None
        case Some((words, end)) => Some(([word] + words, end))
  }

  function LineOf(s: string): (n: nat)
    ensures n <= |s| && (forall i :: 0 <= i < n ==> s[i] != '\n') && (n < |s| ==> s[n] == '\n')
  {
    if s == "" || s[0] == '\n' then 0 else 1 + LineOf(s[1..])
  }

  /** The lines up to the one that is the delimiter, as they stand. */
  function ReadHereDoc(s: string, delimiter: string): (r: Option<(string, string)>)
    decreases |s|
  {
    var n := LineOf(s);
    if n == |s| then None
    else if s[..n] == delimiter then Some(("", s[n + 1..]))
    else Joined(s[..n + 1], ReadHereDoc(s[n + 1..], delimiter))
  }

  /** What a simple command with one here-document runs, and the text after it; the delimiter must be quoted. */
  datatype Command = Command(words: seq<string>, input: string, rest: string)

  function ReadCommand(s: string): Option<Command> {
    match ReadWords(s)
    case None => None
    case Some((words, t)) =>
      if |t| < 3 || t[0] != '<' || t[1] != '<' || t[2] != '\'' then None
      else
        match ReadWord(t[2..])
        case None => None
        case Some((delimiter, u)) =>
          if u == "" || u[0] != '\n' then None
          else
            match ReadHereDoc(u[1..], delimiter)
            case None => None
            case Some((input, rest)) => Some(Command(words, input, rest))
  }

  // ----- quoting

  predicate EndsWord(rest: string) { rest == "" || Delimits(rest[0]) }

  /** A word read from inside single quotes. */
  function InQuotes(s: string): Option<(string, string)> {
    match ReadQuoted(s)
    case None => None
    case Some((text, rest)) => Joined(text, ReadWord(rest))
  }

  lemma OpenQuote(s: string)
    ensures ReadWord("'" + s) == InQuotes(s)
  {
    var t := "'" + s;
    assert t[0] == '\'' && t[1..] == s;
  }

  lemma JoinedTwice(a: string, b: string, r: Option<(string, string)>)
    ensures Joined(a, Joined(b, r)) == Joined(a + b, r) && Joined("", r) == r
  {
    match r
    case None =>
    case Some((more, rest)) => assert a + (b + more) == a + b + more && "" + more == more;
  }

  lemma PlainStep(c: char, tail: string)
    requires c != '\''
    ensures InQuotes([c] + tail) == Joined([c], InQuotes(tail))
  {
    var s := [c] + tail;
    assert s[0] == c && s[1..] == tail;
    match ReadQuoted(tail)
    case None =>
    case Some((text, rest)) =>
      assert ReadQuoted(s) == Some(([c] + text, rest));
      JoinedTwice([c], text, ReadWord(rest));
  }

  /** A quote, an escaped quote and a quote: the word goes on inside quotes after one quote character. */
  lemma QuoteStep(tail: string)
    ensures InQuotes(['\'', '\\', '\'', '\''] + tail) == Joined(['\''], InQuotes(tail))
  {
    var s := ['\'', '\\', '\'', '\''] + tail;
    var u := ['\\', '\''] + ("'" + tail);
    assert s[0] == '\'' && s[1..] == u;
    assert ReadQuoted(s) == Some(("", u));
    JoinedTwice("", "", ReadWord(u));
    assert u[0] == '\\' && u[1] == '\'' && u[2..] == "'" + tail;
    assert ReadWord(u) == Joined([u[1]], ReadWord(u[2..]));
    OpenQuote(tail);
  }

  lemma ClosingQuote(rest: string)
    requires EndsWord(rest)
    ensures InQuotes("'" + rest) == Some(("", rest))
  {
    var s := "'" + rest;
    assert s[0] == '\'' && s[1..] == rest;
    assert ReadQuoted(s) == Some(("", rest));
    JoinedTwice("", "", ReadWord(rest));
  }

  lemma ReplacedTail(value: string, rest: string)
    requires value != ""
    ensures var tail := ReplaceQuotes(value[1..]) + "'" + rest;
            ReplaceQuotes(value) + "'" + rest ==
            (if value[0] == '\'' then ['\'', '\\', '\'', '\''] else [value[0]]) + tail
  {
  }

  /** Inside the quotes: what the writer left of `value` reads as `value`. */
  lemma {:induction false} ReadReplaced(value: string, rest: string)
    requires EndsWord(rest)
    ensures InQuotes(ReplaceQuotes(value) + "'" + rest) == Some((value, rest))
  {
    if value == "" {
      ClosingQuote(rest);
      assert ReplaceQuotes(value) + "'" + rest == "'" + rest;
    } else {
      var tail := ReplaceQuotes(value[1..]) + "'" + rest;
      ReadReplaced(value[1..], rest);
      ReplacedTail(value, rest);
      assert value == [value[0]] + value[1..];
      if value[0] == '\'' { QuoteStep(tail); } else { PlainStep(value[0], tail); }
    }
  }

  /** The shell reads the quoted value as exactly one word, equal to the value. */
  lemma QuoteIsOneWord(value: string, rest: string)
    requires EndsWord(rest)
    ensures ReadWord(QuoteShell(value) + rest) == Some((value, rest))
  {
    ReadReplaced(value, rest);
    OpenQuote(ReplaceQuotes(value) + "'" + rest);
    assert QuoteShell(value) + rest == "'" + (ReplaceQuotes(value) + "'" + rest);
  }

  // ----- the whole command

  predicate Plain(c: char) { !Delimits(c) && !Active(c) && c != '\'' && c != '\\' }

  lemma {:induction false} PlainIsOneWord(word: string, rest: string)
    requires EndsWord(rest) && forall i :: 0 <= i < |word| ==> Plain(word[i])
    ensures ReadWord(word + rest) == Some((word, rest))
  {
    if word == "" {
      assert word + rest == rest;
    } else {
      var s := word + rest;
      assert s[0] == word[0] && s[1..] == word[1..] + rest;
      PlainIsOneWord(word[1..], rest);
      assert [word[0]] + word[1..] == word;
    }
  }

  /** A word as it is written, after a gap that may continue on the next line. */
  datatype Source = Source(continued: bool, quoted: bool, value: string) {
    predicate Valid() { quoted || (value != "" && forall i :: 0 <= i < |value| ==> Plain(value[i])) }
    function Gap(): string { if continued then CONTINUED else " " }
    function Text(): string { if quoted then QuoteShell(value) else value }
  }

  function Render(sources: seq<Source>, end: string): string {
    if sources == [] then end else sources[0].Gap() + sources[0].Text() + Render(sources[1..], end)
  }

  function ValuesOf(sources: seq<Source>): seq<string> {
    if sources == [] then [] else [sources[0].value] + ValuesOf(sources[1..])
  }

  lemma SkipGap(source: Source, rest: string)
    requires source.Valid()
    ensures SkipBlanks(source.Gap() + source.Text() + rest) == source.Text() + rest
    ensures source.Text() != "" && !Delimits(source.Text()[0])
  {
    TextStarts(source);
    var t := source.Text() + rest;
    assert t[0] == source.Text()[0];
    if source.continued { SkipContinued(t); } else { SkipOne(t); }
    Regroup(source.Gap(), source.Text(), rest);
  }

  lemma TextStarts(source: Source)
    requires source.Valid()
    ensures source.Text() != "" && !Delimits(source.Text()[0]) && source.Text()[0] != '\\'
  {
  }

  lemma Regroup(a: string, b: string, c: string)
    ensures a + b + c == a + (b + c)
  {
  }

  lemma SkipContinued(t: string)
    requires t != "" && !Blank(t[0]) && t[0] != '\\'
    ensures SkipBlanks(CONTINUED + t) == t
  {
    var two, one := " " + (" " + t), " " + t;
    SkipOne(t);
    SkipBlank(one);
    SkipBackslash(two);
    SkipBlank("\\\n" + two);
    assert CONTINUED + t == " " + ("\\\n" + two);
  }

  lemma SkipBlank(t: string)
    ensures SkipBlanks(" " + t) == SkipBlanks(t)
  {
    assert (" " + t)[1..] == t;
  }

  lemma SkipBackslash(t: string)
    ensures SkipBlanks("\\\n" + t) == SkipBlanks(t)
  {
    assert ("\\\n" + t)[2..] == t;
  }

  /** The words of a command written source by source, up to where an operator ends it. */
  lemma {:induction false} ReadRendered(sources: seq<Source>, end: string)
    requires forall i :: 0 <= i < |sources| ==> sources[i].Valid()
    requires end != "" && Delimits(end[0]) && (SkipBlanks(end) == "" || Delimits(SkipBlanks(end)[0]))
    ensures EndsWord(Render(sources, end))
    ensures ReadWords(Render(sources, end)) == Some((ValuesOf(sources), SkipBlanks(end)))
  {
    if sources != [] {
      var tail := Render(sources[1..], end);
      ReadRendered(sources[1..], end);
      SkipGap(sources[0], tail);
      if sources[0].quoted {
        QuoteIsOneWord(sources[0].value, tail);
      } else {
        PlainIsOneWord(sources[0].value, tail);
      }
      assert (sources[0].Text() + tail)[0] == sources[0].Text()[0];
    }
  }

  // ----- the here-document

  lemma {:induction false} LineLength(line: string, rest: string)
    requires '\n' !in line
    ensures LineOf(line + "\n" + rest) == |line|
  {
    var s := line + "\n" + rest;
    if line == "" {
      assert s[0] == '\n';
    } else {
      assert s[0] == line[0] && s[1..] == line[1..] + "\n" + rest;
      LineLength(line[1..], rest);
    }
  }

  /** One line that is not the delimiter is delivered as it stands. */
  lemma OneLineHereDoc(line: string, delimiter: string)
    requires '\n' !in line && line != delimiter && '\n' !in delimiter
    ensures ReadHereDoc(line + "\n" + (delimiter + "\n"), delimiter) == Some((line + "\n", ""))
  {
    var end := delimiter + "\n";
    var s := line + "\n" + end;
    LineLength(line, end);
    LineLength(delimiter, "");
    assert delimiter + "\n" + "" == end;
    assert s[..|line|] == line && s[..|line| + 1] == line + "\n" && s[|line| + 1..] == end;
    assert end[..|delimiter|] == delimiter && end[|delimiter| + 1..] == "";
    assert ReadHereDoc(end, delimiter) == Some(("", ""));
    assert line + "\n" + "" == line + "\n";
  }

  lemma QuoteIsOneLine(s: string)
    ensures '\n' !in Json.Quote(s)
  {
    Json.EscapedIsOneLine(s);
    assert '\n' !in Json.Escape(s);
  }

  lemma IntIsOneLine(n: int)
    ensures '\n' !in Json.PrintInt(n)
  {
    var m: nat := if n < 0 then -n else n;
    Json.ReadDecimal(m);
    assert '\n' !in Json.Decimal(m);
  }

  /** JSON text holds no line feed. */
  lemma ValueIsOneLine(v: Json.Value)
    ensures '\n' !in Json.PrintValue(v)
    decreases v, 1
  {
    match v
    case Number(n) => IntIsOneLine(n);
    case Text(text) => QuoteIsOneLine(text);
    case Object(ms) => ObjectIsOneLine(ms);
    case _ =>
  }

  lemma MemberIsOneLine(m: Json.Member)
    ensures '\n' !in Json.PrintMember(m)
    decreases m, 1
  {
    QuoteIsOneLine(m.name);
    ValueIsOneLine(m.value);
  }

  lemma MoreIsOneLine(ms: seq<Json.Member>)
    ensures '\n' !in Json.PrintMore(ms)
    decreases ms, 0
  {
    if ms != [] {
      MemberIsOneLine(ms[0]);
      MoreIsOneLine(ms[1..]);
    }
  }

  lemma ObjectIsOneLine(ms: seq<Json.Member>)
    ensures '\n' !in Json.PrintObject(ms) && Json.PrintObject(ms)[0] == '{'
    decreases ms, 1
  {
    if ms != [] {
      MemberIsOneLine(ms[0]);
      MoreIsOneLine(ms[1..]);
    }
  }

  /** The words are plain or need no quotes replaced, and the delimiter is a line no JSON text is. */
  predicate Sound(t: Template) {
    && IsPlain(t.program) && IsPlain(t.header) && IsPlain(t.data) && IsPlain(t.input)
    && '\'' !in t.contentType && '\'' !in t.delimiter && '\n' !in t.delimiter
    && t.delimiter != "" && t.delimiter[0] != '{'
  }

  predicate IsPlain(word: string) { word != "" && forall i :: 0 <= i < |word| ==> Plain(word[i]) }

  lemma CurlIsSound()
    ensures Sound(CURL)
  {
    PlainWords();
    OtherWords();
  }

  lemma PlainWords()
    ensures IsPlain("curl") && IsPlain("-H") && IsPlain("--data-binary") && IsPlain("@-")
  {
  }

  lemma OtherWords()
    ensures '\'' !in "Content-Type: application/json" && '\'' !in "JSON" && '\n' !in "JSON"
  {
  }

  /** The words of the example after the program's name. */
  function Arguments(t: Template, endpoint: string): seq<Source> {
    [Source(false, true, endpoint), Source(true, false, t.header), Source(false, true, t.contentType),
     Source(true, false, t.data), Source(false, false, t.input)]
  }

  function HereDocStart(t: Template, doc: string): string { " <<" + ("'" + t.delimiter + "'") + ("\n" + doc) }

  lemma {:induction false} NothingToReplace(value: string)
    requires '\'' !in value
    ensures ReplaceQuotes(value) == value
  {
    if value != "" {
      NothingToReplace(value[1..]);
      assert value == [value[0]] + value[1..];
    }
  }

  lemma RenderCons(source: Source, more: seq<Source>, end: string)
    ensures Render([source] + more, end) == Piece(source) + Render(more, end)
    ensures ValuesOf([source] + more) == [source.value] + ValuesOf(more)
  {
    assert ([source] + more)[1..] == more;
  }

  function Piece(s: Source): string { s.Gap() + s.Text() }

  lemma RenderFive(a: Source, b: Source, c: Source, d: Source, e: Source, end: string)
    ensures Render([a, b, c, d, e], end) == Piece(a) + (Piece(b) + (Piece(c) + (Piece(d) + (Piece(e) + end))))
    ensures ValuesOf([a, b, c, d, e]) == [a.value, b.value, c.value, d.value, e.value]
  {
    assert [a] + [b, c, d, e] == [a, b, c, d, e] && [b] + [c, d, e] == [b, c, d, e] && [c] + [d, e] == [c, d, e];
    assert [d] + [e] == [d, e] && [e] + [] == [e];
    RenderCons(a, [b, c, d, e], end);
    RenderCons(b, [c, d, e], end);
    RenderCons(c, [d, e], end);
    RenderCons(d, [e], end);
    RenderCons(e, [], end);
  }

  lemma SkipOne(t: string)
    requires t != "" && !Blank(t[0]) && t[0] != '\\'
    ensures SkipBlanks(" " + t) == t
  {
    assert (" " + t)[1..] == t;
  }

  /** The operator and its quoted delimiter, after the words. */
  lemma HereDocOpens(t: Template, doc: string)
    requires Sound(t)
    ensures var u := SkipBlanks(HereDocStart(t, doc));
            && |u| >= 3 && u[0] == u[1] == '<' && u[2] == '\'' && ReadWord(u[2..]) == Some((t.delimiter, "\n" + doc))
  {
    StartIsQuoted(t, doc);
    QuoteIsOneWord(t.delimiter, "\n" + doc);
    OperatorOpens(QuoteShell(t.delimiter) + ("\n" + doc));
  }

  lemma StartIsQuoted(t: Template, doc: string)
    requires Sound(t)
    ensures HereDocStart(t, doc) == " " + ("<<" + (QuoteShell(t.delimiter) + ("\n" + doc)))
  {
    NothingToReplace(t.delimiter);
  }

  lemma OperatorOpens(word: string)
    requires word != ""
    ensures var u := SkipBlanks(" " + ("<<" + word)); |u| >= 3 && u[0] == u[1] == '<' && u[2] == word[0] && u[2..] == word
  {
    SkipOne("<<" + word);
  }

  lemma CommandWords(t: Template, endpoint: string, doc: string)
    requires Sound(t)
    ensures ReadWords(t.program + Render(Arguments(t, endpoint), HereDocStart(t, doc))) ==
            Some(([t.program] + ValuesOf(Arguments(t, endpoint)), SkipBlanks(HereDocStart(t, doc))))
  {
    var end := HereDocStart(t, doc);
    var text := Render(Arguments(t, endpoint), end);
    HereDocOpens(t, doc);
    ReadRendered(Arguments(t, endpoint), end);
    PlainIsOneWord(t.program, text);
    var whole := t.program + text;
    assert whole[0] == t.program[0] && Plain(whole[0]);
    assert SkipBlanks(whole) == whole;
  }

  lemma CommandIsRendered(t: Template, endpoint: string, body: string)
    requires Sound(t)
    ensures CommandText(t, endpoint, body) ==
            t.program + Render(Arguments(t, endpoint), HereDocStart(t, body + "\n" + (t.delimiter + "\n")))
    ensures ValuesOf(Arguments(t, endpoint)) == [endpoint, t.header, t.contentType, t.data, t.input]
  {
    var a := Arguments(t, endpoint);
    RenderFive(a[0], a[1], a[2], a[3], a[4], HereDocStart(t, body + "\n" + (t.delimiter + "\n")));
    assert a == [a[0], a[1], a[2], a[3], a[4]];
    NothingToReplace(t.contentType);
  }

  lemma CommandReads(t: Template, endpoint: string, body: string)
    requires Sound(t) && '\n' !in body && body != t.delimiter
    ensures ReadCommand(CommandText(t, endpoint, body)) == Some(Command(
              [t.program] + [endpoint, t.header, t.contentType, t.data, t.input], body + "\n", ""))
  {
    var doc := body + "\n" + (t.delimiter + "\n");
    OneLineHereDoc(body, t.delimiter);
    CommandWords(t, endpoint, doc);
    CommandIsRendered(t, endpoint, body);
    HereDocOpens(t, doc);
    assert ("\n" + doc)[1..] == doc;
  }

  /** The origin up to its last character that is no slash. */
  predicate WithoutSlashes(base: string, origin: string) {
    && base <= origin && (base == "" || base[|base| - 1] != '/')
    && forall i :: |base| <= i < |origin| ==> origin[i] == '/'
  }

  lemma {:induction false} StrippedIsBase(url: string)
    ensures WithoutSlashes(StripSlashes(url), url)
  {
    if url != "" && url[|url| - 1] == '/' { StrippedIsBase(url[..|url| - 1]); }
  }

  /**
   * Whatever was typed, the shell runs curl with exactly these words, expanding nothing, and gives it
   * exactly the JSON body on standard input; the body reads back as the request.
   */
  lemma CurlExampleSendsTheRequest(origin: string, shellgei: string, problem: string) returns (base: string, body: string)
    ensures WithoutSlashes(base, origin)
    ensures ReadCommand(BuildCurlCommand(origin, shellgei, problem)) == Some(Command(
              ["curl", base + "/api/v3/submissions", "-H", "Content-Type: application/json", "--data-binary", "@-"], body + "\n", ""))
    ensures Json.ParseObject(body) == Some(
              [Json.Member("shellgei", Json.Text(if shellgei == "" then "printf '%s\\n' 'test'" else shellgei)),
               Json.Member("problem_id", Json.Text(problem))])
  {
    base, body := StripSlashes(origin), Json.PrintObject(Payload(shellgei, problem));
    StrippedIsBase(origin);
    CurlReads(base + "/api/v3/submissions", Payload(shellgei, problem));
    CurlWords(base + "/api/v3/submissions");
    Json.ParsePrinted(Payload(shellgei, problem));
  }

  lemma CurlReads(endpoint: string, payload: seq<Json.Member>)
    ensures ReadCommand(CommandText(CURL, endpoint, Json.PrintObject(payload))) == Some(Command(
              [CURL.program] + [endpoint, CURL.header, CURL.contentType, CURL.data, CURL.input],
              Json.PrintObject(payload) + "\n", ""))
  {
    CurlIsSound();
    ObjectIsOneLine(payload);
    CommandReads(CURL, endpoint, Json.PrintObject(payload));
  }

  lemma CurlWords(endpoint: string)
    ensures [CURL.program] + [endpoint, CURL.header, CURL.contentType, CURL.data, CURL.input]
         == ["curl", endpoint, "-H", "Content-Type: application/json", "--data-binary", "@-"]
  {
  }
}
