// Browser strings: sequences of UTF-16 code units, which need not be well paired.
module Utf16 {
  import opened Prelude

  type Unit = n: int | 0 <= n < 0x1_0000

  predicate High(u: Unit) { 0xD800 <= u < 0xDC00 }
  predicate Low(u: Unit) { 0xDC00 <= u < 0xE000 }

  function EncodeChar(c: char): (u: seq<Unit>)
    ensures 1 <= |u| <= 2
  {
    var n := c as int;
    if n < 0x1_0000 then [n] else [0xD800 + (n - 0x1_0000) / 1024, 0xDC00 + (n - 0x1_0000) % 1024]
  }

  function Encode(s: string): seq<Unit> { if s == "" then [] else EncodeChar(s[0]) + Encode(s[1..]) }

  function Pair(high: Unit, low: Unit): (c: char)
    requires High(high) && Low(low)
    ensures EncodeChar(c) == [high, low]
  {
    (0x1_0000 + (high - 0xD800) * 1024 + (low - 0xDC00)) as char
  }

  /** The text of well-paired units; nothing for a lone surrogate. */
  function Decode(u: seq<Unit>): Option<string> {
    if u == [] then Some("")
    else if Low(u[0]) || (High(u[0]) && (|u| < 2 || !Low(u[1]))) then None
    else
      var n := if High(u[0]) then 2 else 1;
      match Decode(u[n..])
      case None => None
      case Some(rest) => Some([if n == 2 then Pair(u[0], u[1]) else u[0] as char] + rest)
  }

  /** Every high surrogate is followed by a low one, and every low one follows a high one. */
  predicate Paired(u: seq<Unit>) { forall i :: 0 <= i < |u| ==> PairedAt(u, i) }

  predicate PairedAt(u: seq<Unit>, i: int)
    requires 0 <= i < |u|
  {
    && (High(u[i]) ==> i + 1 < |u| && Low(u[i + 1]))
    && (Low(u[i]) ==> i > 0 && High(u[i - 1]))
  }

  /** A complete first character does not matter for the rest. */
  lemma PairedTail(u: seq<Unit>)
    requires u != [] && !Low(u[0]) && (High(u[0]) ==> |u| >= 2 && Low(u[1]))
    ensures var n := if High(u[0]) then 2 else 1; Paired(u) <==> Paired(u[n..])
  {
    var n := if High(u[0]) then 2 else 1;
    var t := u[n..];
    forall i | 0 <= i < |t| ensures PairedAt(u, i + n) ==> PairedAt(t, i) {
    }
    if Paired(t) {
      forall i | 0 <= i < |u| ensures PairedAt(u, i) {
        if i >= n {
          assert PairedAt(t, i - n);
        } else {
          assert n < |u| ==> PairedAt(t, 0);
        }
      }
    }
  }

  lemma {:induction false} DecodesIffPaired(u: seq<Unit>)
    ensures Decode(u).Some? <==> Paired(u)
    decreases |u|
  {
    if u != [] {
      if Low(u[0]) || (High(u[0]) && (|u| < 2 || !Low(u[1]))) {
        assert !PairedAt(u, 0);
      } else {
        PairedTail(u);
        DecodesIffPaired(u[if High(u[0]) then 2 else 1..]);
      }
    }
  }

  lemma {:induction false} EncodeDecode(u: seq<Unit>)
    requires Decode(u).Some?
    ensures Encode(Decode(u).value) == u && |Decode(u).value| <= |u|
    ensures forall c: char :: c as int < 0xD800 ==> (c in Decode(u).value <==> c as int in u)
    decreases |u|
  {
    if u != [] {
      var n := if High(u[0]) then 2 else 1;
      EncodeDecode(u[n..]);
      var s := Decode(u).value;
      assert s[1..] == Decode(u[n..]).value;
      assert u == u[..n] + u[n..];
      forall c: char | c as int < 0xD800 ensures c in s <==> c as int in u {
        assert c in s <==> c == s[0] || c in s[1..];
        assert c as int in u <==> c as int in u[..n] || c as int in u[n..];
      }
    }
  }

  lemma PairOf(c: char)
    requires c as int >= 0x1_0000
    ensures var e := EncodeChar(c); High(e[0]) && |e| == 2 && Low(e[1]) && Pair(e[0], e[1]) == c
  {
    var n := c as int - 0x1_0000;
    assert n / 1024 * 1024 + n % 1024 == n;
  }

  lemma {:induction false} DecodeEncode(s: string)
    ensures Decode(Encode(s)) == Some(s)
  {
    if s != "" {
      DecodeEncode(s[1..]);
      var u, e := Encode(s), EncodeChar(s[0]);
      if s[0] as int >= 0x1_0000 { PairOf(s[0]); }
      assert u == e + Encode(s[1..]);
      assert u[0] == e[0] && (|e| == 2 ==> u[1] == e[1]) && u[|e|..] == Encode(s[1..]);
      assert s == [s[0]] + s[1..];
    }
  }
}
