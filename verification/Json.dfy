// JSON text as both sides of the runner channel and the browser write it: section 7 of RFC 8259 for
// strings; integers, flags, nulls and nested objects, all without insignificant whitespace.
module Json {
  import opened Prelude
  import opened OutputCapture
  import Utf8

  // ----- strings

  function HexDigit(n: nat): char
    requires n < 16
  {
    if n < 10 then ('0' as int + n) as char else ('a' as int + n - 10) as char
  }

  /** The writers escape what section 7 requires, with the short forms where there are any. */
  function EscapeChar(c: char): (e: string)
    ensures 1 <= |e| <= 6
    ensures forall i :: 0 <= i < |e| ==> e[i] >= ' '
  {
    if c == '"' then "\\\""
    else if c == '\\' then "\\\\"
    else if c as int == 8 then "\\b"
    else if c as int == 12 then "\\f"
    else if c == '\n' then "\\n"
    else if c == '\r' then "\\r"
    else if c == '\t' then "\\t"
    else if c < ' ' then "\\u00" + [HexDigit(c as int / 16), HexDigit(c as int % 16)]
    else [c]
  }

  function Escape(s: string): string { if s == "" then "" else EscapeChar(s[0]) + Escape(s[1..]) }

  function Quote(s: string): string { "\"" + Escape(s) + "\"" }

  predicate Digit(c: char) { '0' <= c <= '9' }

  /** A hexadecimal digit of either case; 16 for anything else. */
  function HexValue(c: char): (v: nat)
    ensures v <= 16
  {
    if Digit(c) then c as int - '0' as int
    else if 'a' <= c <= 'f' then c as int - 'a' as int + 10
    else if 'A' <= c <= 'F' then c as int - 'A' as int + 10
    else 16
  }

  /** The UTF-16 code unit of an escape that starts `s`. */
  function CodeUnit(s: string): (unit: Option<nat>)
    ensures unit.Some? ==> |s| >= 6 && unit.value < 0x1_0000
  {
    if |s| < 6 || s[0] != '\\' || s[1] != 'u' then None
    else
      var a, b, c, d := HexValue(s[2]), HexValue(s[3]), HexValue(s[4]), HexValue(s[5]);
      if a == 16 || b == 16 || c == 16 || d == 16 then None else Some(a * 4096 + b * 256 + c * 16 + d)
  }

  /** One character and how much text it takes; surrogates only in pairs. */
  function ReadUnicode(s: string): (r: Option<(char, nat)>)
    ensures r.Some? ==> 0 < r.value.1 <= |s|
  {
    match CodeUnit(s)
    case None => None
    case Some(unit) =>
      if unit < 0xD800 || 0xE000 <= unit then Some((unit as char, 6))
      else if unit >= 0xDC00 then None
      else
        match CodeUnit(s[6..])
        case None => None
        case Some(low) =>
          if 0xDC00 <= low < 0xE000 then Some(((0x1_0000 + (unit - 0xD800) * 1024 + (low - 0xDC00)) as char, 12)) else None
  }

  function ReadChar(s: string): (r: Option<(char, nat)>)
    requires s != ""
    ensures r.Some? ==> 0 < r.value.1 <= |s|
  {
    if s[0] < ' ' then None
    else if s[0] != '\\' then Some((s[0], 1))
    else if |s| < 2 then None
    else
      match s[1]
      case '"' => Some(('"', 2))
      case '\\' => Some(('\\', 2))
      case '/' => Some(('/', 2))
      case 'b' => Some((8 as char, 2))
      case 'f' => Some((12 as char, 2))
      case 'n' => Some(('\n', 2))
      case 'r' => Some(('\r', 2))
      case 't' => Some(('\t', 2))
      case _ => ReadUnicode(s)
  }

  /** A string up to its closing quote, and the text after it. */
  function ReadString(s: string): (r: Option<(string, string)>)
    ensures r.Some? ==> |r.value.1| < |s|
    decreases |s|
  {
    if s == "" then None
    else if s[0] == '"' then Some(("", s[1..]))
    else
      match ReadChar(s)
      case None => None
      case Some((c, n)) =>
        match ReadString(s[n..])
        case None => None
        case Some((text, rest)) => Some(([c] + text, rest))
  }

  lemma ReadEscapedChar(c: char, rest: string)
    ensures EscapeChar(c)[0] != '"'
    ensures ReadChar(EscapeChar(c) + rest) == Some((c, |EscapeChar(c)|))
  {
    var e := EscapeChar(c);
    assert forall i :: 0 <= i < |e| ==> (e + rest)[i] == e[i];
  }

  lemma ReadStep(c: char, tail: string, text: string, rest: string)
    requires ReadString(tail) == Some((text, rest))
    ensures ReadString(EscapeChar(c) + tail) == Some(([c] + text, rest))
  {
    ReadEscapedChar(c, tail);
    var whole, n := EscapeChar(c) + tail, |EscapeChar(c)|;
    assert whole[0] == EscapeChar(c)[0] && whole[n..] == tail;
  }

  lemma ReadClosingQuote(rest: string)
    ensures ReadString("\"" + rest) == Some(("", rest))
  {
    var t := "\"" + rest;
    assert t[0] == '"' && t[1..] == rest;
  }

  lemma EscapedTail(s: string, rest: string)
    requires s != ""
    ensures Escape(s) + "\"" + rest == EscapeChar(s[0]) + (Escape(s[1..]) + "\"" + rest)
  {
  }

  /** Every string is read back from what the writer makes of it, whatever follows. */
  lemma {:induction false} ReadEscaped(s: string, rest: string)
    ensures ReadString(Escape(s) + "\"" + rest) == Some((s, rest))
  {
    if s == "" {
      ReadClosingQuote(rest);
      assert Escape(s) + "\"" + rest == "\"" + rest;
    } else {
      ReadEscaped(s[1..], rest);
      ReadStep(s[0], Escape(s[1..]) + "\"" + rest, s[1..], rest);
      EscapedTail(s, rest);
      assert [s[0]] + s[1..] == s;
    }
  }

  lemma {:induction false} EscapedIsOneLine(s: string)
    ensures forall i :: 0 <= i < |Escape(s)| ==> Escape(s)[i] >= ' '
  {
    if s != "" { EscapedIsOneLine(s[1..]); }
  }

  // ----- numbers

  function Decimal(n: nat): string {
    (if n < 10 then "" else Decimal(n / 10)) + [('0' as int + n % 10) as char]
  }

  function NumberOf(digits: string): nat
    requires forall i :: 0 <= i < |digits| ==> Digit(digits[i])
  {
    if digits == "" then 0
    else
      var last := digits[|digits| - 1];
      assert Digit(last);
      NumberOf(digits[..|digits| - 1]) * 10 + (last as int - '0' as int)
  }

  /** How many digits start `s`. */
  function DigitsOf(s: string): (n: nat)
    ensures n <= |s| && forall i :: 0 <= i < n ==> Digit(s[i])
    ensures n < |s| ==> !Digit(s[n])
  {
    if s == "" || !Digit(s[0]) then 0 else 1 + DigitsOf(s[1..])
  }

  lemma DecimalStep(n: nat)
    requires n >= 10
    ensures Decimal(n)[..|Decimal(n)| - 1] == Decimal(n / 10)
    ensures |Decimal(n)| == |Decimal(n / 10)| + 1 && Decimal(n)[|Decimal(n)| - 1] == ('0' as int + n % 10) as char
  {
  }

  lemma {:induction false} ReadDecimal(n: nat)
    ensures Decimal(n) != "" && forall i :: 0 <= i < |Decimal(n)| ==> Digit(Decimal(n)[i])
    ensures NumberOf(Decimal(n)) == n
    ensures if n == 0 then |Decimal(n)| == 1 else Decimal(n)[0] != '0'
  {
    var d := Decimal(n);
    if n >= 10 {
      ReadDecimal(n / 10);
      DecimalStep(n);
      assert forall i :: 0 <= i < |d| - 1 ==> d[i] == d[..|d| - 1][i];
    } else {
      assert d == [('0' as int + n) as char] && d[..0] == "";
    }
  }

  // ----- values

  datatype Value = Null | Flag(b: bool) | Number(n: int) | Text(text: string) | Object(members: seq<Member>)
  datatype Member = Member(name: string, value: Value)

  function PrintInt(n: int): string { if n < 0 then "-" + Decimal(-n) else Decimal(n) }

  function PrintValue(v: Value): string
    decreases v
  {
    match v
    case Null => "null"
    case Flag(b) => if b then "true" else "false"
    case Number(n) => PrintInt(n)
    case Text(text) => Quote(text)
    case Object(members) => PrintObject(members)
  }

  function PrintMember(m: Member): string
    decreases m
  {
    Quote(m.name) + ":" + PrintValue(m.value)
  }

  /** Members from the second on, each after its comma. */
  function PrintMore(ms: seq<Member>): string
    decreases ms
  {
    if ms == [] then "" else "," + PrintMember(ms[0]) + PrintMore(ms[1..])
  }

  function PrintObject(ms: seq<Member>): string
    decreases ms
  {
    "{" + (if ms == [] then "" else PrintMember(ms[0]) + PrintMore(ms[1..])) + "}"
  }

  predicate StartsWith(s: string, word: string) { |word| <= |s| && s[..|word|] == word }

  /** A natural number without leading zeros. */
  function ReadNat(t: string): (r: Option<(nat, string)>)
    ensures r.Some? ==> |r.value.1| < |t|
  {
    var n := DigitsOf(t);
    if n == 0 || (n > 1 && t[0] == '0') then None else Some((NumberOf(t[..n]), t[n..]))
  }

  function ReadInt(s: string): (r: Option<(Value, string)>)
    ensures r.Some? ==> |r.value.1| < |s|
  {
    var minus := s != "" && s[0] == '-';
    match ReadNat(if minus then s[1..] else s)
    case None => None
    case Some((n, rest)) => Some((Number(if minus then 0 - n else n), rest))
  }

  function ReadValue(s: string): (r: Option<(Value, string)>)
    ensures r.Some? ==> |r.value.1| < |s|
    decreases |s|, 1
  {
    if s == "" then None
    else if s[0] == '"' then
      match ReadString(s[1..])
      case None => None
      case Some((text, rest)) => Some((Text(text), rest))
    else if s[0] == '{' then
      match ReadObject(s)
      case None => None
      case Some((members, rest)) => Some((Object(members), rest))
    else if StartsWith(s, "null") then Some((Null, s[4..]))
    else if StartsWith(s, "true") then Some((Flag(true), s[4..]))
    else if StartsWith(s, "false") then Some((Flag(false), s[5..]))
    else ReadInt(s)
  }

  function ReadMember(s: string): (r: Option<(Member, string)>)
    ensures r.Some? ==> |r.value.1| < |s|
    decreases |s|, 0
  {
    if s == "" || s[0] != '"' then None
    else
      match ReadString(s[1..])
      case None => None
      case Some((name, rest)) =>
        if rest == "" || rest[0] != ':' then None
        else
          match ReadValue(rest[1..])
          case None => None
          case Some((value, end)) => Some((Member(name, value), end))
  }

  function ReadMore(s: string): (r: Option<(seq<Member>, string)>)
    ensures r.Some? ==> |r.value.1| <= |s|
    decreases |s|, 0
  {
    if s == "" || s[0] != ',' then Some(([], s))
    else
      match ReadMember(s[1..])
      case None => None
      case Some((m, rest)) =>
        match ReadMore(rest)
        case None => None
        case Some((ms, end)) => Some(([m] + ms, end))
  }

  function ReadObject(s: string): (r: Option<(seq<Member>, string)>)
    ensures r.Some? ==> |r.value.1| < |s|
    decreases |s|, 0
  {
    if |s| < 2 || s[0] != '{' then None
    else if s[1] == '}' then Some(([], s[2..]))
    else
      match ReadMember(s[1..])
      case None => None
      case Some((m, rest)) =>
        match ReadMore(rest)
        case None => None
        case Some((ms, end)) => if end != "" && end[0] == '}' then Some(([m] + ms, end[1..])) else None
  }

  /** The whole text is one object, or nothing is read. */
  function ParseObject(s: string): Option<seq<Member>> {
    match ReadObject(s)
    case None => None
    case Some((ms, rest)) => if rest == "" then Some(ms) else None
  }

  /** No digit that would join a number follows. */
  predicate Ends(rest: string) { rest == "" || !Digit(rest[0]) }

  lemma {:induction false} DigitsStop(digits: string, rest: string)
    requires forall i :: 0 <= i < |digits| ==> Digit(digits[i])
    requires Ends(rest)
    ensures DigitsOf(digits + rest) == |digits|
  {
    if digits == "" {
      assert digits + rest == rest;
    } else {
      assert (digits + rest)[0] == digits[0] && (digits + rest)[1..] == digits[1..] + rest;
      DigitsStop(digits[1..], rest);
    }
  }

  lemma ReadDigits(d: string, rest: string)
    requires d != "" && forall i :: 0 <= i < |d| ==> Digit(d[i])
    requires (|d| > 1 ==> d[0] != '0') && Ends(rest)
    ensures ReadNat(d + rest) == Some((NumberOf(d), rest)) && (d + rest)[0] == d[0]
  {
    var t := d + rest;
    DigitsStop(d, rest);
    assert t[..|d|] == d && t[|d|..] == rest && t[0] == d[0];
  }

  lemma AfterMinus(t: string)
    ensures ("-" + t)[0] == '-' && ("-" + t)[1..] == t
  {
  }

  lemma ReadInteger(d: string, rest: string)
    requires d != "" && forall i :: 0 <= i < |d| ==> Digit(d[i])
    requires (|d| > 1 ==> d[0] != '0') && Ends(rest)
    ensures ReadValue(d + rest) == Some((Number(NumberOf(d)), rest))
    ensures ReadValue("-" + (d + rest)) == Some((Number(0 - NumberOf(d)), rest))
  {
    ReadDigits(d, rest);
    AfterMinus(d + rest);
    assert Digit(d[0]);
    NotAWord(d + rest);
    NotAWord("-" + (d + rest));
  }

  lemma ReadPrintedInt(n: int, rest: string)
    requires Ends(rest)
    ensures ReadValue(PrintInt(n) + rest) == Some((Number(n), rest))
  {
    var m: nat := if n < 0 then -n else n;
    IntText(n, m, rest);
    ReadNatural(m, rest);
  }

  lemma ReadNatural(m: nat, rest: string)
    requires Ends(rest)
    ensures ReadValue(Decimal(m) + rest) == Some((Number(m), rest))
    ensures ReadValue("-" + (Decimal(m) + rest)) == Some((Number(0 - m), rest))
  {
    ReadDecimal(m);
    ReadInteger(Decimal(m), rest);
  }

  lemma IntText(n: int, m: nat, rest: string)
    requires m == if n < 0 then -n else n
    ensures PrintInt(n) + rest == if n < 0 then "-" + (Decimal(m) + rest) else Decimal(m) + rest
  {
  }

  /** What starts with a digit or a minus is read as an integer. */
  lemma NotAWord(s: string)
    requires s != "" && (Digit(s[0]) || s[0] == '-')
    ensures ReadValue(s) == ReadInt(s)
  {
    StartOf(s, "null");
    StartOf(s, "true");
    StartOf(s, "false");
  }

  lemma StartOf(s: string, word: string)
    requires word != ""
    ensures StartsWith(s, word) ==> s != "" && s[0] == word[0]
  {
    assert StartsWith(s, word) ==> s[..|word|][0] == s[0];
  }

  lemma ReadPrintedText(text: string, rest: string)
    ensures ReadValue(Quote(text) + rest) == Some((Text(text), rest))
  {
    var s := Quote(text) + rest;
    assert s[0] == '"' && s[1..] == Escape(text) + "\"" + rest;
    ReadEscaped(text, rest);
  }

  lemma ReadPrintedWord(v: Value, rest: string)
    requires v.Null? || v.Flag?
    ensures ReadValue(PrintValue(v) + rest) == Some((v, rest))
  {
    var word := PrintValue(v);
    var s := word + rest;
    assert s[..|word|] == word && s[|word|..] == rest;
    assert s[0] == word[0];
    assert v == Flag(true) ==> "null"[0] != s[0];
    assert v == Flag(false) ==> "null"[0] != s[0] && "true"[0] != s[0];
  }

  /** What closes an object's text, from its second member on. */
  function Closing(ms: seq<Member>, rest: string): (s: string)
    ensures s != "" && !Digit(s[0]) && (s[0] == ',' <==> ms != [])
  {
    PrintMore(ms) + ("}" + rest)
  }

  lemma Regroup(a: string, b: string, c: string, d: string)
    ensures a + b + c + d == a + (b + (c + d)) && (a + (b + (c + d)))[|a|..] == b + (c + d)
  {
  }

  lemma ReadMemberText(name: string, text: string, value: Value, rest: string)
    requires ReadValue(text + rest) == Some((value, rest))
    ensures ReadMember(Quote(name) + ":" + text + rest) == Some((Member(name, value), rest))
  {
    var tail := ":" + (text + rest);
    QuotedFirst(Escape(name), text, rest);
    ReadEscaped(name, tail);
    assert tail[0] == ':' && tail[1..] == text + rest;
  }

  lemma QuotedFirst(e: string, text: string, rest: string)
    ensures var s := "\"" + e + "\"" + ":" + text + rest;
            s[0] == '"' && s[1..] == e + "\"" + (":" + (text + rest))
  {
  }

  lemma ReadPrintedMember(m: Member, rest: string)
    requires Ends(rest)
    ensures ReadMember(PrintMember(m) + rest) == Some((m, rest))
    decreases m, 1
  {
    ReadPrintedValue(m.value, rest);
    ReadMemberText(m.name, PrintValue(m.value), m.value, rest);
  }

  /** Every value is read back from its text, whatever follows it. */
  lemma ReadPrintedValue(v: Value, rest: string)
    requires Ends(rest)
    ensures ReadValue(PrintValue(v) + rest) == Some((v, rest))
    decreases v, 1
  {
    match v
    case Number(n) => ReadPrintedInt(n, rest);
    case Text(text) => ReadPrintedText(text, rest);
    case Object(members) =>
      ReadPrintedObject(members, rest);
      assert (PrintObject(members) + rest)[0] == '{';
    case _ => ReadPrintedWord(v, rest);
  }

  lemma ReadClosing(ms: seq<Member>, rest: string)
    ensures ReadMore(Closing(ms, rest)) == Some((ms, "}" + rest))
    decreases ms, 0
  {
    var s := Closing(ms, rest);
    if ms == [] {
      assert s == "}" + rest;
    } else {
      Regroup(",", PrintMember(ms[0]), PrintMore(ms[1..]), "}" + rest);
      assert s[1..] == PrintMember(ms[0]) + Closing(ms[1..], rest);
      ReadPrintedMember(ms[0], Closing(ms[1..], rest));
      ReadClosing(ms[1..], rest);
      assert [ms[0]] + ms[1..] == ms;
    }
  }

  lemma ReadPrintedObject(ms: seq<Member>, rest: string)
    ensures ReadObject(PrintObject(ms) + rest) == Some((ms, rest))
    decreases ms, 1
  {
    var s := PrintObject(ms) + rest;
    if ms == [] {
      assert s[0] == '{' && s[1] == '}' && s[2..] == rest;
    } else {
      var tail := Closing(ms[1..], rest);
      assert s == "{" + (PrintMember(ms[0]) + tail);
      assert s[1..] == PrintMember(ms[0]) + tail;
      assert s[1] == s[1..][0] == PrintMember(ms[0])[0] == '"';
      ReadPrintedMember(ms[0], tail);
      ReadClosing(ms[1..], rest);
      assert ("}" + rest)[1..] == rest;
      assert [ms[0]] + ms[1..] == ms;
    }
  }

  /** Every object is read back from its text. */
  lemma ParsePrinted(ms: seq<Member>)
    ensures ParseObject(PrintObject(ms)) == Some(ms)
  {
    ReadPrintedObject(ms, "");
    assert PrintObject(ms) + "" == PrintObject(ms);
  }

  // ----- sizes

  function Bytes(s: string): nat { |Utf8.Encode(s)| }

  lemma {:induction false} BytesOfSum(a: string, b: string)
    ensures Bytes(a + b) == Bytes(a) + Bytes(b)
  {
    if a == "" {
      assert a + b == b;
    } else {
      assert (a + b)[1..] == a[1..] + b;
      BytesOfSum(a[1..], b);
    }
  }

  lemma {:induction false} AsciiBytes(s: string)
    requires forall i :: 0 <= i < |s| ==> s[i] as int < 0x80
    ensures Bytes(s) == |s|
  {
    if s == "" {
      assert Utf8.Encode(s) == [];
    } else {
      assert s[0] as int < 0x80;
      AsciiBytes(s[1..]);
      assert Utf8.Encode(s) == Utf8.EncodeChar(s[0]) + Utf8.Encode(s[1..]);
    }
  }

  /** A character takes at most six bytes: an escaped control character, or four raw ones. */
  lemma EscapedCharBytes(c: char)
    ensures Bytes(EscapeChar(c)) <= 6
  {
    var e := EscapeChar(c);
    if c >= ' ' && c != '"' && c != '\\' {
      assert e == [c] && e[1..] == "" && Utf8.Encode(e[1..]) == [];
      assert Utf8.Encode(e) == Utf8.EncodeChar(c) + Utf8.Encode(e[1..]);
    } else {
      AsciiBytes(e);
    }
  }

  lemma {:induction false} EscapedBytes(s: string)
    ensures Bytes(Escape(s)) <= 6 * |s|
  {
    if s != "" {
      BytesOfSum(EscapeChar(s[0]), Escape(s[1..]));
      EscapedCharBytes(s[0]);
      EscapedBytes(s[1..]);
    }
  }

  lemma QuotedBytes(s: string)
    ensures Bytes(Quote(s)) <= 6 * |s| + 2
  {
    BytesOfSum("\"" + Escape(s), "\"");
    BytesOfSum("\"", Escape(s));
    AsciiBytes("\"");
    EscapedBytes(s);
  }

  /** Text that needs no escape takes one byte a character. */
  lemma {:induction false} PlainBytes(s: string)
    requires forall i :: 0 <= i < |s| ==> ' ' <= s[i] <= '~' && s[i] != '"' && s[i] != '\\'
    ensures Bytes(Quote(s)) == |s| + 2
  {
    PlainEscape(s);
    AsciiBytes(Quote(s));
  }

  lemma {:induction false} PlainEscape(s: string)
    requires forall i :: 0 <= i < |s| ==> ' ' <= s[i] <= '~' && s[i] != '"' && s[i] != '\\'
    ensures Escape(s) == s
  {
    if s != "" {
      PlainEscape(s[1..]);
      assert [s[0]] + s[1..] == s;
    }
  }

  lemma IntBytes(n: int)
    ensures Bytes(PrintInt(n)) == |PrintInt(n)|
  {
    ReadDecimal(if n < 0 then -n else n);
    AsciiBytes(PrintInt(n));
  }

  lemma WordBytes(v: Value)
    requires v.Null? || v.Flag?
    ensures Bytes(PrintValue(v)) <= 5
  {
    AsciiBytes(PrintValue(v));
  }

  /** The bytes of a member, with its comma or brace. */
  function Room(m: Member): nat { Bytes(Quote(m.name)) + Bytes(PrintValue(m.value)) + 2 }

  function RoomOf(ms: seq<Member>): nat { if ms == [] then 0 else Room(ms[0]) + RoomOf(ms[1..]) }

  lemma MemberBytes(m: Member)
    ensures Bytes(PrintMember(m)) + 1 == Room(m)
  {
    BytesOfSum(Quote(m.name) + ":", PrintValue(m.value));
    BytesOfSum(Quote(m.name), ":");
    AsciiBytes(":");
  }

  lemma {:induction false} MoreBytes(ms: seq<Member>)
    ensures Bytes(PrintMore(ms)) == RoomOf(ms)
  {
    if ms == [] {
      assert Utf8.Encode(PrintMore(ms)) == [];
    } else {
      BytesOfSum("," + PrintMember(ms[0]), PrintMore(ms[1..]));
      BytesOfSum(",", PrintMember(ms[0]));
      AsciiBytes(",");
      MemberBytes(ms[0]);
      MoreBytes(ms[1..]);
    }
  }

  /** The size of an object: its members with a separator each, and the other brace. */
  lemma ObjectBytes(ms: seq<Member>)
    requires ms != []
    ensures Bytes(PrintObject(ms)) == RoomOf(ms) + 1
  {
    var inner := PrintMember(ms[0]) + PrintMore(ms[1..]);
    BytesOfSum("{" + inner, "}");
    BytesOfSum("{", inner);
    AsciiBytes("{");
    AsciiBytes("}");
    BytesOfSum(PrintMember(ms[0]), PrintMore(ms[1..]));
    MemberBytes(ms[0]);
    MoreBytes(ms[1..]);
  }

  lemma TextRoom(name: string, text: string)
    ensures Room(Member(name, Text(text))) <= 6 * |name| + 6 * |text| + 6
  {
    QuotedBytes(name);
    QuotedBytes(text);
  }

  lemma IntRoom(name: string, n: int)
    ensures Room(Member(name, Number(n))) <= 6 * |name| + |PrintInt(n)| + 4
  {
    QuotedBytes(name);
    IntBytes(n);
  }

  lemma WordRoom(name: string, v: Value)
    requires v.Null? || v.Flag?
    ensures Room(Member(name, v)) <= 6 * |name| + 9
  {
    QuotedBytes(name);
    WordBytes(v);
  }

  lemma ObjectRoom(name: string, ms: seq<Member>)
    requires ms != []
    ensures Room(Member(name, Object(ms))) <= 6 * |name| + RoomOf(ms) + 5
  {
    QuotedBytes(name);
    ObjectBytes(ms);
  }

  lemma RoomAfter(ms: seq<Member>, more: seq<Member>)
    requires ms != [] && more == ms[1..]
    ensures RoomOf(ms) == Room(ms[0]) + RoomOf(more)
  {
  }

  lemma {:induction false} RoomOfSum(a: seq<Member>, b: seq<Member>)
    ensures RoomOf(a + b) == RoomOf(a) + RoomOf(b)
  {
    if a == [] {
      assert a + b == b;
    } else {
      assert (a + b)[1..] == a[1..] + b;
      RoomOfSum(a[1..], b);
    }
  }

  lemma FiveRooms(a: Member, b: Member, c: Member, d: Member, e: Member)
    ensures RoomOf([a, b, c, d, e]) == Room(a) + Room(b) + Room(c) + Room(d) + Room(e)
  {
    RoomAfter([a, b, c, d, e], [b, c, d, e]);
    RoomAfter([b, c, d, e], [c, d, e]);
    RoomAfter([c, d, e], [d, e]);
    RoomAfter([d, e], [e]);
    RoomAfter([e], []);
  }

  lemma ThreeRooms(a: Member, b: Member, c: Member)
    ensures RoomOf([a, b, c]) == Room(a) + Room(b) + Room(c)
  {
    RoomAfter([a, b, c], [b, c]);
    RoomAfter([b, c], [c]);
    RoomAfter([c], []);
  }

  lemma OneRoom(a: Member)
    ensures RoomOf([a]) == Room(a)
  {
    RoomAfter([a], []);
  }

  lemma TwoRooms(a: Member, b: Member)
    ensures RoomOf([a, b]) == Room(a) + Room(b)
  {
    RoomAfter([a, b], [b]);
    OneRoom(b);
  }

  /** An object in two parts fits, and reads back, when its parts leave room. */
  lemma ObjectFits(a: seq<Member>, b: seq<Member>, limit: nat)
    requires a != [] && RoomOf(a) + RoomOf(b) < limit
    ensures Bytes(PrintObject(a + b)) <= limit && ParseObject(PrintObject(a + b)) == Some(a + b)
  {
    RoomOfSum(a, b);
    ObjectBytes(a + b);
    ParsePrinted(a + b);
  }
}
