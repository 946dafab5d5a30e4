// Base64 text of captured images (section 4 of RFC 4648), its length, and the allowance arithmetic
// that keeps two images within one limit.
module Base64 {
  import opened Prelude
  import opened OutputCapture

  function Digit(n: nat): char
    requires n < 64
  {
    if n < 26 then 'A' + n as char
    else if n < 52 then 'a' + (n - 26) as char
    else if n < 62 then '0' + (n - 52) as char
    else if n == 62 then '+' else '/'
  }

  predicate InAlphabet(c: char) {
    'A' <= c <= 'Z' || 'a' <= c <= 'z' || '0' <= c <= '9' || c == '+' || c == '/'
  }

  function Value(c: char): (n: nat)
    requires InAlphabet(c)
    ensures n < 64
  {
    if 'A' <= c <= 'Z' then c as int - 'A' as int
    else if 'a' <= c <= 'z' then c as int - 'a' as int + 26
    else if '0' <= c <= '9' then c as int - '0' as int + 52
    else if c == '+' then 62 else 63
  }

  lemma DigitValue(n: nat)
    requires n < 64
    ensures InAlphabet(Digit(n)) && Value(Digit(n)) == n
  {
  }

  function FourDigits(v: nat, w: nat, x: nat, y: nat): string
    requires v < 64 && w < 64 && x < 64 && y < 64
  {
    [Digit(v), Digit(w), Digit(x), Digit(y)]
  }

  /** The four digits of three bytes. */
  function Group(a: byte, b: byte, c: byte): string {
    FourDigits(a / 4, a % 4 * 16 + b / 16, b % 16 * 4 + c / 64, c % 64)
  }

  function Encode(b: seq<byte>): string {
    if |b| == 0 then ""
    else if |b| == 1 then Group(b[0], 0, 0)[..2] + "=="
    else if |b| == 2 then Group(b[0], b[1], 0)[..3] + "="
    else Group(b[0], b[1], b[2]) + Encode(b[3..])
  }

  /** The three bytes of four digits. */
  function Ungroup(v: nat, w: nat, x: nat, y: nat): seq<byte>
    requires v < 64 && w < 64 && x < 64 && y < 64
  {
    [v * 4 + w / 16, w % 16 * 16 + x / 4, x % 4 * 64 + y]
  }

  predicate Digits(s: string) { forall i :: 0 <= i < |s| ==> InAlphabet(s[i]) }

  /** Padded groups of four; None for anything else. */
  function Decode(s: string): Option<seq<byte>> {
    if |s| == 0 then Some([])
    else if |s| < 4 || !Digits(s[..2]) then None
    else if |s| == 4 && s[2..] == "==" then Some(Ungroup(Value(s[0]), Value(s[1]), 0, 0)[..1])
    else if |s| == 4 && s[3] == '=' && InAlphabet(s[2]) then Some(Ungroup(Value(s[0]), Value(s[1]), Value(s[2]), 0)[..2])
    else if !InAlphabet(s[2]) || !InAlphabet(s[3]) then None
    else
      match Decode(s[4..])
      case None => None
      case Some(rest) => Some(Ungroup(Value(s[0]), Value(s[1]), Value(s[2]), Value(s[3])) + rest)
  }

  lemma Quotients(a: byte, b: byte, c: byte)
    ensures Ungroup(a / 4, a % 4 * 16 + b / 16, b % 16 * 4 + c / 64, c % 64) == [a, b, c]
  {
    assert (a % 4 * 16 + b / 16) / 16 == a % 4 && (a % 4 * 16 + b / 16) % 16 == b / 16;
    assert (b % 16 * 4 + c / 64) / 4 == b % 16 && (b % 16 * 4 + c / 64) % 4 == c / 64;
  }

  lemma ValuesBack(v: nat, w: nat, x: nat, y: nat)
    requires v < 64 && w < 64 && x < 64 && y < 64
    ensures var g := FourDigits(v, w, x, y);
            Digits(g) && Value(g[0]) == v && Value(g[1]) == w && Value(g[2]) == x && Value(g[3]) == y
  {
    DigitValue(v);
    DigitValue(w);
    DigitValue(x);
    DigitValue(y);
  }

  lemma UngroupGroup(a: byte, b: byte, c: byte)
    ensures Digits(Group(a, b, c))
    ensures var g := Group(a, b, c); Ungroup(Value(g[0]), Value(g[1]), Value(g[2]), Value(g[3])) == [a, b, c]
  {
    ValuesBack(a / 4, a % 4 * 16 + b / 16, b % 16 * 4 + c / 64, c % 64);
    Quotients(a, b, c);
  }

  lemma DecodeOneByte(x: byte)
    ensures Decode(Encode([x])) == Some([x])
  {
    var e, g := Encode([x]), Group(x, 0, 0);
    UngroupGroup(x, 0, 0);
    DigitValue(0);
    assert e[0] == g[0] && e[1] == g[1] && e[2..] == "==";
    assert Digits(e[..2]);
    assert Value(g[2]) == 0 && Value(g[3]) == 0;
    assert Ungroup(Value(e[0]), Value(e[1]), 0, 0)[..1] == [x];
  }

  lemma DecodeTwoBytes(x: byte, y: byte)
    ensures Decode(Encode([x, y])) == Some([x, y])
  {
    var e, g := Encode([x, y]), Group(x, y, 0);
    UngroupGroup(x, y, 0);
    DigitValue(0);
    assert e[0] == g[0] && e[1] == g[1] && e[2] == g[2] && e[3] == '=';
    assert Digits(e[..2]) && e[2..] != "==";
    assert Value(g[3]) == 0;
    assert Ungroup(Value(e[0]), Value(e[1]), Value(e[2]), 0)[..2] == [x, y];
  }

  lemma DecodeGroup(a: byte, b: byte, c: byte, tail: string, rest: seq<byte>)
    requires Decode(tail) == Some(rest)
    ensures Decode(Group(a, b, c) + tail) == Some([a, b, c] + rest)
  {
    var g := Group(a, b, c);
    var s := g + tail;
    UngroupGroup(a, b, c);
    assert s[0] == g[0] && s[1] == g[1] && s[2] == g[2] && s[3] == g[3] && s[4..] == tail;
    assert InAlphabet(g[3]) && s[2..][1] == g[3];
  }

  lemma ThreeAndRest(b: seq<byte>)
    requires |b| >= 3
    ensures [b[0], b[1], b[2]] + b[3..] == b
  {
  }

  lemma EncodeNext(b: seq<byte>)
    requires |b| >= 3
    ensures Encode(b) == Group(b[0], b[1], b[2]) + Encode(b[3..])
  {
  }

  lemma DecodeNext(b: seq<byte>)
    requires |b| >= 3 && Decode(Encode(b[3..])) == Some(b[3..])
    ensures Decode(Encode(b)) == Some(b)
  {
    EncodeNext(b);
    DecodeGroup(b[0], b[1], b[2], Encode(b[3..]), b[3..]);
    ThreeAndRest(b);
  }

  lemma DecodeShort(b: seq<byte>)
    requires |b| <= 2
    ensures Decode(Encode(b)) == Some(b)
  {
    if |b| == 1 {
      assert b == [b[0]];
      DecodeOneByte(b[0]);
    } else if |b| == 2 {
      assert b == [b[0], b[1]];
      DecodeTwoBytes(b[0], b[1]);
    }
  }

  lemma {:induction false} DecodeEncode(b: seq<byte>)
    ensures Decode(Encode(b)) == Some(b)
  {
    if |b| <= 2 {
      DecodeShort(b);
    } else {
      DecodeEncode(b[3..]);
      DecodeNext(b);
    }
  }

  function EncodedLength(n: nat): nat { 4 * ((n + 2) / 3) }

  lemma GroupLength(a: byte, b: byte, c: byte)
    ensures |Group(a, b, c)| == 4
  {
  }

  lemma ShortLength(b: seq<byte>)
    requires |b| <= 2
    ensures |Encode(b)| == EncodedLength(|b|)
  {
    if b != [] {
      GroupLength(b[0], 0, 0);
      if |b| == 2 { GroupLength(b[0], b[1], 0); }
    }
  }

  lemma {:induction false} EncodeLength(b: seq<byte>)
    ensures |Encode(b)| == EncodedLength(|b|)
  {
    if |b| >= 3 {
      EncodeLength(b[3..]);
      EncodeNext(b);
      GroupLength(b[0], b[1], b[2]);
    } else {
      ShortLength(b);
    }
  }

  /** `^[A-Za-z0-9+/]*={0,2}$` */
  ghost predicate Padded(s: string) { exists n: nat :: PaddedAt(s, n) }

  predicate PaddedAt(s: string, n: nat) { n <= |s| && Digits(s[..n]) && Padding(s[n..]) }

  predicate Padding(s: string) { s == "" || s == "=" || s == "==" }

  lemma SplitSum(g: string, s: string, n: nat)
    requires n <= |s|
    ensures (g + s)[..|g| + n] == g + s[..n] && (g + s)[|g| + n..] == s[n..]
  {
  }

  lemma PaddedPrepend(g: string, s: string)
    requires Digits(g) && Padded(s)
    ensures Padded(g + s)
  {
    var n: nat :| PaddedAt(s, n);
    SplitSum(g, s, n);
    assert PaddedAt(g + s, |g| + n);
  }

  lemma {:induction false} EncodeIsPadded(b: seq<byte>)
    ensures Padded(Encode(b))
  {
    var e := Encode(b);
    if |b| == 0 {
      assert PaddedAt(e, 0);
    } else if |b| == 1 {
      UngroupGroup(b[0], 0, 0);
      assert e[..2] == Group(b[0], 0, 0)[..2] && e[2..] == "==";
      assert PaddedAt(e, 2);
    } else if |b| == 2 {
      UngroupGroup(b[0], b[1], 0);
      assert e[..3] == Group(b[0], b[1], 0)[..3] && e[3..] == "=";
      assert PaddedAt(e, 3);
    } else {
      UngroupGroup(b[0], b[1], b[2]);
      EncodeIsPadded(b[3..]);
      PaddedPrepend(Group(b[0], b[1], b[2]), Encode(b[3..]));
    }
  }

  lemma PaddedDrop(s: string)
    requires |s| > 6
    ensures Padded(s) <==> Digits(s[..4]) && Padded(s[4..])
  {
    var g, rest := s[..4], s[4..];
    assert g + rest == s;
    if Digits(g) && Padded(rest) { PaddedPrepend(g, rest); }
    if n: nat :| PaddedAt(s, n) {
      assert n >= 4;
      assert rest[n - 4..] == s[n..];
      assert forall i :: 0 <= i < n ==> s[..n][i] == s[i];
      assert PaddedAt(rest, n - 4);
    }
  }

  lemma PaddedFour(s: string)
    requires |s| == 4
    ensures Padded(s) <==> Digits(s[..2]) && (s[2..] == "==" || (InAlphabet(s[2]) && (s[3] == '=' || InAlphabet(s[3]))))
  {
    if n: nat :| PaddedAt(s, n) {
      assert n == 2 || n == 3 || n == 4;
      assert forall i :: 0 <= i < n ==> InAlphabet(s[..n][i]) && s[..n][i] == s[i];
      if n == 3 { assert s[3] == s[3..][0] == '='; }
    }
    if Digits(s[..2]) {
      if s[2..] == "==" { assert PaddedAt(s, 2); }
      assert forall i :: 0 <= i < 2 ==> InAlphabet(s[..2][i]) && s[..2][i] == s[i];
      if InAlphabet(s[2]) && s[3] == '=' { assert PaddedAt(s, 3) by { assert s[3..] == "="; } }
      if InAlphabet(s[2]) && InAlphabet(s[3]) { assert PaddedAt(s, 4); }
    }
  }

  lemma FourDecodes(s: string)
    requires |s| == 4
    ensures Decode(s).Some? <==> Padded(s)
  {
    PaddedFour(s);
    assert s[4..] == "";
  }

  lemma DigitsOfFour(s: string)
    requires |s| >= 4
    ensures Digits(s[..4]) <==> Digits(s[..2]) && InAlphabet(s[2]) && InAlphabet(s[3])
  {
    assert s[..2] == s[..4][..2] && s[2] == s[..4][2] && s[3] == s[..4][3];
  }

  lemma LongDecodes(s: string)
    requires |s| > 4
    ensures Decode(s).Some? <==> Digits(s[..4]) && Decode(s[4..]).Some?
  {
    DigitsOfFour(s);
  }

  /** The decoder takes exactly the padded text of a length that is a multiple of four. */
  lemma {:induction false} DecodesIffPadded(s: string)
    ensures Decode(s).Some? <==> |s| % 4 == 0 && Padded(s)
  {
    if |s| == 0 {
      assert PaddedAt(s, 0);
    } else if |s| == 4 {
      FourDecodes(s);
    } else if |s| > 4 {
      DecodesIffPadded(s[4..]);
      LongDecodes(s);
      if |s| > 6 { PaddedDrop(s); }
    }
  }

  // ----- the encoding of section 4 of RFC 4648, by value

  const UPPER := "ABCDEFGHIJKLMNOPQRSTUVWXYZ"
  const LOWER := "abcdefghijklmnopqrstuvwxyz"
  const ALPHABET := UPPER + LOWER + "0123456789+/"

  lemma UpperAt(n: nat)
    requires n < 26
    ensures |UPPER| == 26 && UPPER[n] == 'A' + n as char
  {
  }

  lemma LowerAt(n: nat)
    requires n < 26
    ensures |LOWER| == 26 && LOWER[n] == 'a' + n as char
  {
  }

  lemma DigitIsInAlphabet(n: nat)
    requires n < 64
    ensures |ALPHABET| == 64 && Digit(n) == ALPHABET[n]
  {
    if n < 26 {
      UpperAt(n);
      LowerAt(0);
    } else if n < 52 {
      UpperAt(0);
      LowerAt(n - 26);
    } else {
      UpperAt(0);
      LowerAt(0);
      var rest := "0123456789+/";
      assert ALPHABET[n] == rest[n - 52];
    }
  }

  /** A byte, or zero where there is none. */
  function ByteAt(b: seq<byte>, i: nat): nat { if i < |b| then b[i] else 0 }

  /** Three bytes and four six-bit numbers are the same 24 bits. */
  predicate SameBits(a: nat, b: nat, c: nat, v: nat, w: nat, x: nat, y: nat) {
    v < 64 && w < 64 && x < 64 && y < 64 && a * 65536 + b * 256 + c == v * 262144 + w * 4096 + x * 64 + y
  }

  /** Letters for four six-bit numbers, and for the two or three that one or two bytes need. */
  ghost predicate Letters(e: string, v: nat, w: nat, x: nat, y: nat, bytes: nat) {
    && |ALPHABET| == 64 && v < 64 && w < 64 && x < 64 && y < 64
    && |e| == 4 && e[0] == ALPHABET[v] && e[1] == ALPHABET[w]
    && e[2] == (if bytes > 1 then ALPHABET[x] else '=') && e[3] == (if bytes > 2 then ALPHABET[y] else '=')
  }

  /** Four characters that spell these three bytes, of which the first `bytes` are there. */
  ghost predicate SpellsGroup(a: nat, b: nat, c: nat, bytes: nat, e: string) {
    exists v, w, x, y {:trigger SameBits(a, b, c, v, w, x, y)} ::
      SameBits(a, b, c, v, w, x, y) && Letters(e, v, w, x, y, bytes)
  }

  /** Group i of the text spells the bits of the bytes from 3 * i on, with `=` for each missing byte. */
  ghost predicate Spells(b: seq<byte>, e: string, i: nat)
    requires 3 * i < |b|
  {
    && 4 * i + 4 <= |e|
    && SpellsGroup(ByteAt(b, 3 * i), ByteAt(b, 3 * i + 1), ByteAt(b, 3 * i + 2), |b| - 3 * i, e[4 * i..4 * i + 4])
  }

  lemma GroupBits(a: byte, b: byte, c: byte)
    ensures SameBits(a, b, c, a / 4, a % 4 * 16 + b / 16, b % 16 * 4 + c / 64, c % 64)
  {
  }

  lemma GroupLetters(a: byte, b: byte, c: byte, bytes: nat, e: string)
    requires bytes >= 1
    requires e == Group(a, b, c)[..if bytes < 3 then bytes + 1 else 4] + (if bytes == 1 then "==" else if bytes == 2 then "=" else "")
    ensures Letters(e, a / 4, a % 4 * 16 + b / 16, b % 16 * 4 + c / 64, c % 64, bytes)
  {
    DigitIsInAlphabet(a / 4);
    DigitIsInAlphabet(a % 4 * 16 + b / 16);
    DigitIsInAlphabet(b % 16 * 4 + c / 64);
    DigitIsInAlphabet(c % 64);
  }

  lemma FirstGroup(b: seq<byte>)
    requires b != []
    ensures |Encode(b)| >= 4
    ensures Encode(b)[..4] ==
      Group(b[0], ByteAt(b, 1), ByteAt(b, 2))[..if |b| < 3 then |b| + 1 else 4] + (if |b| == 1 then "==" else if |b| == 2 then "=" else "")
  {
    GroupLength(b[0], ByteAt(b, 1), ByteAt(b, 2));
    if |b| >= 3 { EncodeNext(b); }
  }

  lemma GroupSpelled(a: byte, b: byte, c: byte, bytes: nat, e: string)
    requires bytes >= 1
    requires e == Group(a, b, c)[..if bytes < 3 then bytes + 1 else 4] + (if bytes == 1 then "==" else if bytes == 2 then "=" else "")
    ensures SpellsGroup(a, b, c, bytes, e)
  {
    GroupBits(a, b, c);
    GroupLetters(a, b, c, bytes, e);
  }

  lemma FirstSpelled(b: seq<byte>)
    requires b != []
    ensures Spells(b, Encode(b), 0)
  {
    FirstGroup(b);
    GroupSpelled(b[0], ByteAt(b, 1), ByteAt(b, 2), |b|, Encode(b)[..4]);
    AtStart(Encode(b));
  }

  lemma AtStart(e: string)
    requires |e| >= 4
    ensures e[4 * 0..4 * 0 + 4] == e[..4]
  {
  }

  /** Every encoding is the one of the standard. */
  lemma {:induction false} EncodeSpells(b: seq<byte>, i: nat)
    requires 3 * i < |b|
    ensures Spells(b, Encode(b), i)
    decreases i
  {
    if i == 0 {
      FirstSpelled(b);
    } else {
      EncodeSpells(b[3..], i - 1);
      SpellsNext(b, i - 1);
    }
  }

  lemma SpellsNext(b: seq<byte>, k: nat)
    requires 3 * k + 3 < |b| && Spells(b[3..], Encode(b[3..]), k)
    ensures Spells(b, Encode(b), k + 1)
  {
    EncodeNext(b);
    GroupLength(b[0], b[1], b[2]);
    Shifted(b, Group(b[0], b[1], b[2]), Encode(b[3..]), k);
  }

  lemma Shifted(b: seq<byte>, g: string, rest: string, k: nat)
    requires 3 * k + 3 < |b| && |g| == 4 && Spells(b[3..], rest, k)
    ensures Spells(b, g + rest, k + 1)
  {
    SameGroup(g, rest, k);
    BytesShifted(b, k);
  }

  lemma SameGroup(g: string, rest: string, k: nat)
    requires |g| == 4 && 4 * k + 4 <= |rest|
    ensures (g + rest)[4 * (k + 1)..4 * (k + 1) + 4] == rest[4 * k..4 * k + 4]
  {
  }

  lemma BytesShifted(b: seq<byte>, k: nat)
    requires 3 * k + 3 < |b|
    ensures ByteAt(b[3..], 3 * k) == ByteAt(b, 3 * (k + 1))
    ensures ByteAt(b[3..], 3 * k + 1) == ByteAt(b, 3 * (k + 1) + 1)
    ensures ByteAt(b[3..], 3 * k + 2) == ByteAt(b, 3 * (k + 1) + 2)
  {
  }

  // ----- the display allowance

  const IMAGE_CHARS: nat := 1_000_000

  /** The bytes left for the display image when the judged image has `used` bytes; Python's `//` floors. */
  function DisplayAllowance(used: nat): int {
    (IMAGE_CHARS - EncodedLength(used)) / 4 * 3
  }

  /** It is the largest safe byte count: a display image fits the common limit iff it is within the allowance. */
  lemma DisplayAllowanceIsLargest(used: nat, n: nat)
    ensures EncodedLength(used) + EncodedLength(n) <= IMAGE_CHARS && EncodedLength(used) <= IMAGE_CHARS
       <==> n <= DisplayAllowance(used)
    ensures used <= 750_000 ==> EncodedLength(used) <= IMAGE_CHARS
  {
  }
}
