// UTF-8 as section 3 of RFC 3629 defines it, and the decoder with `errors="ignore"` that
// run_shellgei.py applies to captured output: each ill-formed subsequence is skipped.
module Utf8 {
  import opened OutputCapture

  function EncodeChar(c: char): (b: seq<byte>)
    ensures 1 <= |b| <= 4
  {
    var n := c as int;
    if n < 0x80 then [n]
    else if n < 0x800 then [0xC0 + n / 64, 0x80 + n % 64]
    else if n < 0x1_0000 then [0xE0 + n / 4096, 0x80 + n / 64 % 64, 0x80 + n % 64]
    else [0xF0 + n / 262144, 0x80 + n / 4096 % 64, 0x80 + n / 64 % 64, 0x80 + n % 64]
  }

  function Encode(s: string): seq<byte> {
    if s == "" then [] else EncodeChar(s[0]) + Encode(s[1..])
  }

  predicate Continues(b: byte) { 0x80 <= b < 0xC0 }

  /** The length a lead byte announces; 0 for a byte that cannot lead. */
  function Announced(lead: byte): nat {
    if lead < 0x80 then 1
    else if 0xC2 <= lead < 0xE0 then 2
    else if 0xE0 <= lead < 0xF0 then 3
    else if 0xF0 <= lead < 0xF5 then 4
    else 0
  }

  /** The second bytes a lead byte allows: no overlong forms, no surrogates, nothing above U+10FFFF. */
  predicate SecondAllowed(lead: byte, b: byte) {
    && Continues(b)
    && (lead == 0xE0 ==> b >= 0xA0)
    && (lead == 0xED ==> b < 0xA0)
    && (lead == 0xF0 ==> b >= 0x90)
    && (lead == 0xF4 ==> b < 0x90)
  }

  /** How many bytes from the start of `b` can belong to one character that `b[0]` leads. */
  function Matched(b: seq<byte>): (n: nat)
    requires b != []
    ensures 1 <= n <= |b|
  {
    var need := Announced(b[0]);
    if need < 2 || |b| < 2 || !SecondAllowed(b[0], b[1]) then 1
    else if need < 3 || |b| < 3 || !Continues(b[2]) then 2
    else if need < 4 || |b| < 4 || !Continues(b[3]) then 3
    else 4
  }

  /** The character that starts `b`, when it is complete. */
  predicate Complete(b: seq<byte>)
    requires b != []
  {
    Matched(b) == Announced(b[0])
  }

  /** The payload bits of a byte whose fixed bits are `mark`. */
  function Bits(b: byte, mark: int): int { b as int - mark }

  function CodePoint(b: seq<byte>): int
    requires b != [] && Complete(b)
  {
    match Matched(b)
    case 1 => b[0]
    case 2 => Bits(b[0], 0xC0) * 64 + Bits(b[1], 0x80)
    case 3 => Bits(b[0], 0xE0) * 4096 + Bits(b[1], 0x80) * 64 + Bits(b[2], 0x80)
    case _ =>
      Bits(b[0], 0xF0) * 262144 + Bits(b[1], 0x80) * 4096 + Bits(b[2], 0x80) * 64 + Bits(b[3], 0x80)
  }

  lemma CodePointIsScalar(b: seq<byte>)
    requires b != [] && Complete(b)
    ensures 0 <= CodePoint(b) < 0xD800 || 0xE000 <= CodePoint(b) < 0x11_0000
  {
  }

  function First(b: seq<byte>): string
    requires b != []
  {
    if Complete(b) then CodePointIsScalar(b); [CodePoint(b) as char] else ""
  }

  /** `bytes.decode("utf-8", errors="ignore")`. */
  function Decode(b: seq<byte>): string {
    if b == [] then "" else First(b) + Decode(b[Matched(b)..])
  }

  // ----- decoding inverts encoding

  /** The six-bit groups of a code point, and the bounds on its leading group. */
  lemma SixBitGroups(n: nat)
    requires n < 0x11_0000
    ensures n == n / 64 * 64 + n % 64
    ensures n / 64 == n / 4096 * 64 + n / 64 % 64
    ensures n / 4096 == n / 262144 * 64 + n / 4096 % 64
  {
    assert n / 4096 == n / 64 / 64;
    assert n / 262144 == n / 4096 / 64;
  }

  lemma Encoded2(n: nat, b: seq<byte>)
    requires 0x80 <= n < 0x800 && |b| >= 2
    requires b[0] == 0xC0 + n / 64 && b[1] == 0x80 + n % 64
    ensures Matched(b) == 2 && Complete(b) && CodePoint(b) == n
  {
    SixBitGroups(n);
  }

  lemma Encoded3(n: nat, b: seq<byte>)
    requires 0x800 <= n < 0x1_0000 && !(0xD800 <= n < 0xE000) && |b| >= 3
    requires b[0] == 0xE0 + n / 4096 && b[1] == 0x80 + n / 64 % 64 && b[2] == 0x80 + n % 64
    ensures Matched(b) == 3 && Complete(b) && CodePoint(b) == n
  {
    SixBitGroups(n);
  }

  lemma Encoded4(n: nat, b: seq<byte>)
    requires 0x1_0000 <= n < 0x11_0000 && |b| >= 4
    requires b[0] == 0xF0 + n / 262144 && b[1] == 0x80 + n / 4096 % 64 && b[2] == 0x80 + n / 64 % 64 && b[3] == 0x80 + n % 64
    ensures Matched(b) == 4 && Complete(b) && CodePoint(b) == n
  {
    SixBitGroups(n);
  }

  lemma FirstOfEncoded(c: char, rest: seq<byte>)
    ensures var b := EncodeChar(c) + rest;
            Matched(b) == |EncodeChar(c)| && Complete(b) && First(b) == [c]
  {
    var n, b := c as int, EncodeChar(c) + rest;
    assert forall i :: 0 <= i < |EncodeChar(c)| ==> b[i] == EncodeChar(c)[i];
    if n < 0x80 {
    } else if n < 0x800 {
      Encoded2(n, b);
    } else if n < 0x1_0000 {
      Encoded3(n, b);
    } else {
      Encoded4(n, b);
    }
  }

  lemma {:induction false} DecodeEncode(s: string)
    ensures Decode(Encode(s)) == s
  {
    if s != "" {
      FirstOfEncoded(s[0], Encode(s[1..]));
      DecodeEncode(s[1..]);
      assert (EncodeChar(s[0]) + Encode(s[1..]))[|EncodeChar(s[0])|..] == Encode(s[1..]);
    }
  }

  lemma {:induction false} EncodedSize(s: string)
    ensures |s| <= |Encode(s)| <= 4 * |s|
  {
    if s != "" { EncodedSize(s[1..]); }
  }

  lemma {:induction false} DecodedSize(b: seq<byte>)
    ensures |Decode(b)| <= |b|
  {
    if b != [] { DecodedSize(b[Matched(b)..]); }
  }

  /** The bytes of a character carry its code point, seven, five, four or three bits first and then six a byte (section 3 of RFC 3629). */
  lemma EncodedBits(c: char)
    ensures var b, n := EncodeChar(c), c as int;
            && |b| == (if n < 0x80 then 1 else if n < 0x800 then 2 else if n < 0x1_0000 then 3 else 4)
            && (forall i :: 1 <= i < |b| ==> 0x80 <= b[i] < 0xC0)
            && (|b| == 1 ==> n == b[0])
            && (|b| == 2 ==> n == Bits(b[0], 0xC0) * 64 + Bits(b[1], 0x80))
            && (|b| == 3 ==> n == Bits(b[0], 0xE0) * 4096 + Bits(b[1], 0x80) * 64 + Bits(b[2], 0x80))
            && (|b| == 4 ==> n == Bits(b[0], 0xF0) * 262144 + Bits(b[1], 0x80) * 4096 + Bits(b[2], 0x80) * 64 + Bits(b[3], 0x80))
  {
    SixBitGroups(c as int);
  }

  // ----- decoding a cut stream

  lemma MatchedOfPrefix(b: seq<byte>, k: nat)
    requires 0 < k <= |b|
    ensures Matched(b[..k]) == Smaller(k, Matched(b))
    ensures Matched(b) <= k ==> First(b[..k]) == First(b)
    ensures k < Matched(b) ==> First(b[..k]) == ""
  {
    var p := b[..k];
    assert p[0] == b[0] && (k > 1 ==> p[1] == b[1]) && (k > 2 ==> p[2] == b[2]) && (k > 3 ==> p[3] == b[3]);
  }

  lemma Dropped(a: seq<byte>, b: seq<byte>)
    ensures (a + b)[|a|..] == b
  {
  }

  lemma DropOfCut(b: seq<byte>, n: nat, k: nat)
    requires n <= k <= |b|
    ensures b[..k][n..] == b[n..][..k - n]
  {
  }

  lemma CutAfterFirst(b: seq<byte>, k: nat)
    requires b != [] && Matched(b) <= k <= |b|
    ensures Decode(b[..k]) == First(b) + Decode(b[Matched(b)..][..k - Matched(b)])
  {
    MatchedOfPrefix(b, k);
    DropOfCut(b, Matched(b), k);
  }

  /** Cutting any byte stream, well-formed or not, only cuts the decoded text. */
  lemma {:induction false} DecodePrefix(b: seq<byte>, k: nat)
    requires k <= |b|
    ensures Decode(b[..k]) <= Decode(b)
    decreases |b|
  {
    if k > 0 {
      MatchedOfPrefix(b, k);
      var n := Matched(b);
      if n <= k {
        DecodePrefix(b[n..], k - n);
        CutAfterFirst(b, k);
      } else {
        assert b[..k][k..] == [];
        assert Decode(b[..k]) == "";
      }
    }
  }

  /** Prepending a character, to the text and to the bytes that encode it. */
  lemma EncodeNext(s: string, m: nat)
    requires s != "" && m < |s|
    ensures Encode(s[..m + 1]) == EncodeChar(s[0]) + Encode(s[1..][..m]) && [s[0]] + s[1..][..m] == s[..m + 1]
  {
    assert s[..m + 1][1..] == s[1..][..m];
  }

  lemma CutInRest(s: string, k: nat)
    requires s != "" && |EncodeChar(s[0])| <= k <= |Encode(s)|
    ensures var n := |EncodeChar(s[0])|;
            Decode(Encode(s)[..k]) == [s[0]] + Decode(Encode(s[1..])[..k - n])
  {
    FirstOfEncoded(s[0], Encode(s[1..]));
    CutAfterFirst(Encode(s), k);
    Dropped(EncodeChar(s[0]), Encode(s[1..]));
  }

  lemma CutInFirst(s: string, k: nat)
    requires s != "" && 0 < k < |EncodeChar(s[0])|
    ensures k <= |Encode(s)| && Decode(Encode(s)[..k]) == ""
  {
    FirstOfEncoded(s[0], Encode(s[1..]));
    MatchedOfPrefix(Encode(s), k);
    assert Encode(s)[..k][k..] == [];
  }

  /** Of a cut well-formed stream at most three bytes are lost: those of the character the cut splits. */
  lemma {:induction false} DecodeCut(s: string, k: nat) returns (m: nat)
    requires k <= |Encode(s)|
    ensures m <= |s| && Decode(Encode(s)[..k]) == s[..m]
    ensures |Encode(s[..m])| <= k <= |Encode(s[..m])| + 3
    decreases |s|
  {
    if s == "" || k == 0 {
      m := 0;
      assert Encode(s)[..0] == [];
    } else if |EncodeChar(s[0])| <= k {
      CutInRest(s, k);
      var rest := DecodeCut(s[1..], k - |EncodeChar(s[0])|);
      EncodeNext(s, rest);
      m := rest + 1;
    } else {
      CutInFirst(s, k);
      m := 0;
    }
  }

  /** A cut after `k` bytes falls between two characters. */
  ghost predicate Between(s: string, k: nat) { exists q: nat :: q <= |s| && |Encode(s[..q])| == k }

  /** What a text saves by characters narrower than four bytes. */
  function Saved(s: string): nat { if s == "" then 0 else 4 - |EncodeChar(s[0])| + Saved(s[1..]) }

  lemma {:induction false} SavedSize(s: string)
    ensures |Encode(s)| + Saved(s) == 4 * |s|
  {
    if s != "" { SavedSize(s[1..]); }
  }

  lemma {:induction false} EncodePrefix(s: string, q: nat)
    requires q <= |s|
    ensures Encode(s[..q]) <= Encode(s)
  {
    if q > 0 {
      EncodePrefix(s[1..], q - 1);
      EncodeNext(s, q - 1);
    }
  }

  /** Such a cut leaves no incomplete character. */
  lemma CutBetween(s: string, k: nat, m: nat)
    requires Between(s, k) && k <= |Encode(s)| && m <= |s| && Decode(Encode(s)[..k]) == s[..m]
    ensures |Encode(s[..m])| == k
  {
    var q: nat :| q <= |s| && |Encode(s[..q])| == k;
    EncodePrefix(s, q);
    WholePrefix(Encode(s), s[..q], k);
  }

  lemma WholePrefix(b: seq<byte>, a: string, k: nat)
    requires Encode(a) <= b && |Encode(a)| == k
    ensures Decode(b[..k]) == a
  {
    DecodeEncode(a);
    assert b[..k] == Encode(a);
  }

  lemma {:induction false} WideChars(s: string)
    requires forall i :: 0 <= i < |s| ==> s[i] as int >= 0x1_0000
    ensures |Encode(s)| == 4 * |s|
  {
    if s != "" { WideChars(s[1..]); }
  }
}
