/** UTF-8, the bytes of a Go string: RFC 3629, section 3. Ill-formed bytes decode as Go decodes them. */
module Utf8 {
  import opened Common
  import opened ByteStreams

  function EncodeChar(c: char): (bs: Bytes)
    ensures bs != []
  {
    var n := c as int;
    if n < 0x80 then [n as byte]
    else if n < 0x800 then [(0xC0 + n / 64) as byte, Tail(n)]
    else if n < 0x1_0000 then [(0xE0 + n / 4096) as byte, Tail(n / 64), Tail(n)]
    else [(0xF0 + n / 262144) as byte, Tail(n / 4096), Tail(n / 64), Tail(n)]
  }

  function Tail(n: nat): byte {
    (0x80 + n % 64) as byte
  }

  function Encode(s: string): Bytes {
    if s == "" then [] else EncodeChar(s[0]) + Encode(s[1..])
  }

  predicate IsTail(bs: Bytes, i: nat) {
    i < |bs| && 0x80 <= bs[i] < 0xC0
  }

  function Low(bs: Bytes, i: nat): nat
    requires IsTail(bs, i)
  {
    bs[i] as int - 0x80
  }

  predicate Scalar(n: int) {
    0 <= n < 0xD800 || 0xE000 <= n < 0x11_0000
  }

  const REPLACEMENT := '\U{FFFD}'

  /** The first character and its width; an ill-formed start is one replacement character of width 1. */
  function DecodeChar(bs: Bytes): (r: (char, nat))
    requires bs != []
    ensures 0 < r.1 <= |bs|
  {
    var b := bs[0] as int;
    if b < 0x80 then (b as char, 1)
    else if 0xC2 <= b < 0xE0 && IsTail(bs, 1) then (((b - 0xC0) * 64 + Low(bs, 1)) as char, 2)
    else if 0xE0 <= b < 0xF0 && IsTail(bs, 1) && IsTail(bs, 2) then
      var n := (b - 0xE0) * 4096 + Low(bs, 1) * 64 + Low(bs, 2);
      if n >= 0x800 && Scalar(n) then (n as char, 3) else (REPLACEMENT, 1)
    else if 0xF0 <= b < 0xF5 && IsTail(bs, 1) && IsTail(bs, 2) && IsTail(bs, 3) then
      var n := (b - 0xF0) * 262144 + Low(bs, 1) * 4096 + Low(bs, 2) * 64 + Low(bs, 3);
      if n >= 0x1_0000 && Scalar(n) then (n as char, 4) else (REPLACEMENT, 1)
    else (REPLACEMENT, 1)
  }

  function Decode(bs: Bytes): string {
    if bs == [] then "" else
      var (c, width) := DecodeChar(bs);
      [c] + Decode(bs[width..])
  }

  lemma SixBits(n: nat)
    ensures n == n / 64 * 64 + n % 64
    ensures n / 64 == n / 4096 * 64 + n / 64 % 64
    ensures n / 4096 == n / 262144 * 64 + n / 4096 % 64
  {
    assert n / 64 / 64 == n / 4096 && n / 4096 / 64 == n / 262144;
  }

  lemma DecodeFour(c: char, bs: Bytes)
    requires 0x1_0000 <= c as int && EncodeChar(c) <= bs
    ensures DecodeChar(bs) == (c, |EncodeChar(c)|)
  {
    var n := c as int;
    assert forall i | 0 <= i < 4 :: bs[i] == EncodeChar(c)[i];
    assert IsTail(bs, 1) && Low(bs, 1) == n / 4096 % 64;
    assert IsTail(bs, 2) && Low(bs, 2) == n / 64 % 64;
    assert IsTail(bs, 3) && Low(bs, 3) == n % 64;
    SixBits(n);
    assert bs[0] as int == 0xF0 + n / 262144;
  }

  lemma DecodeFirst(c: char, rest: Bytes)
    ensures DecodeChar(EncodeChar(c) + rest) == (c, |EncodeChar(c)|)
  {
    var bs := EncodeChar(c) + rest;
    SixBits(c as int);
    if c as int >= 0x1_0000 {
      DecodeFour(c, bs);
    }
  }

  lemma {:induction false} DecodeEncode(s: string)
    ensures Decode(Encode(s)) == s
  {
    if s != "" {
      DecodeFirst(s[0], Encode(s[1..]));
      assert Encode(s)[|EncodeChar(s[0])|..] == Encode(s[1..]);
      DecodeEncode(s[1..]);
    }
  }

  /** An ASCII byte stands for an ASCII character and for nothing else. */
  lemma {:induction false} AsciiBytes(s: string, b: byte)
    requires b < 0x80 && b as int as char !in s
    ensures b !in Encode(s)
  {
    if s != "" {
      assert s[0] in s && forall c :: c in s[1..] ==> c in s;
      AsciiBytes(s[1..], b);
      assert b !in EncodeChar(s[0]);
    }
  }

  lemma {:induction false} EncodeAppend(s: string, t: string)
    ensures Encode(s + t) == Encode(s) + Encode(t)
  {
    hide EncodeChar;
    if s == "" {
      assert s + t == t;
    } else {
      EncodeAppend(s[1..], t);
      assert (s + t)[1..] == s[1..] + t;
      ConcatAssociates(EncodeChar(s[0]), Encode(s[1..]), Encode(t));
    }
  }

  /** The four forms of RFC 3629: how many bytes a character has, and what the first one and the tails are. */
  lemma EncodedForm(c: char)
    ensures var bs, n := EncodeChar(c), c as int;
            && (n < 0x80 ==> |bs| == 1 && bs[0] as int == n)
            && (0x80 <= n < 0x800 ==> |bs| == 2 && 0xC2 <= bs[0] < 0xE0)
            && (0x800 <= n < 0x1_0000 ==> |bs| == 3 && 0xE0 <= bs[0] < 0xF0)
            && (0x1_0000 <= n ==> |bs| == 4 && 0xF0 <= bs[0] < 0xF5)
            && (forall i :: 1 <= i < |bs| ==> 0x80 <= bs[i] < 0xC0)
  {
  }
}
