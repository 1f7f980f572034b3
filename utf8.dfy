/** UTF-8 as defined in RFC 3629: the encoding Python's `str.encode("utf-8")`
    applies, and the matching decoder. */
module Utf8 {
  import opened PyValues

  /** The one to four bytes that encode one character. */
  function EncodeChar(c: char): (r: seq<Byte>)
    ensures 1 <= |r| <= 4
    ensures (c as int < 128) <==> r == [c as int]
  {
    var n := c as int;
    if n < 0x80 then [n]
    else if n < 0x800 then [0xC0 + n / 0x40, 0x80 + n % 0x40]
    else if n < 0x10000 then [0xE0 + n / 0x1000, 0x80 + n / 0x40 % 0x40, 0x80 + n % 0x40]
    else [0xF0 + n / 0x40000, 0x80 + n / 0x1000 % 0x40, 0x80 + n / 0x40 % 0x40, 0x80 + n % 0x40]
  }

  /** `s.encode("utf-8")`. */
  function Encode(s: string): (r: seq<Byte>)
    ensures |r| >= |s|
    decreases |s|
  {
    if s == [] then [] else EncodeChar(s[0]) + Encode(s[1..])
  }

  /** The length of the sequence a lead byte starts, or 0 for a byte that cannot lead. */
  function LeadLength(b: Byte): nat {
    if b < 0x80 then 1
    else if 0xC2 <= b < 0xE0 then 2
    else if 0xE0 <= b < 0xF0 then 3
    else if 0xF0 <= b < 0xF5 then 4
    else 0
  }

  predicate IsContinuation(b: Byte) {
    0x80 <= b < 0xC0
  }

  /** The character a complete sequence encodes, rejecting overlong forms,
      surrogates and values beyond U+10FFFF. */
  function DecodeChar(bs: seq<Byte>): Option<char>
    requires 1 <= |bs| <= 4 && LeadLength(bs[0]) == |bs|
  {
    if exists i :: 1 <= i < |bs| && !IsContinuation(bs[i]) then None
    else
      var b: seq<int> := bs;
      var n: int :=
        if |b| == 1 then b[0]
        else if |b| == 2 then (b[0] - 0xC0) * 0x40 + (b[1] - 0x80)
        else if |b| == 3 then (b[0] - 0xE0) * 0x1000 + (b[1] - 0x80) * 0x40 + (b[2] - 0x80)
        else (b[0] - 0xF0) * 0x40000 + (b[1] - 0x80) * 0x1000 + (b[2] - 0x80) * 0x40 + (b[3] - 0x80);
      var least: int := if |b| == 1 then 0 else if |b| == 2 then 0x80 else if |b| == 3 then 0x800 else 0x10000;
      if n < least || (0xD800 <= n < 0xE000) || n > 0x10FFFF then None
      else Some(n as char)
  }

  /** `b.decode("utf-8")` in strict mode: `None` where Python raises `UnicodeDecodeError`. */
  function Decode(bs: seq<Byte>): Option<string>
    decreases |bs|
  {
    if bs == [] then Some([])
    else
      var k := LeadLength(bs[0]);
      if k == 0 || |bs| < k then None
      else
        match DecodeChar(bs[..k])
        case None => None
        case Some(c) =>
          match Decode(bs[k..])
          case None => None
          case Some(rest) => Some([c] + rest)
  }

  lemma DecodeEncodeChar(c: char)
    ensures LeadLength(EncodeChar(c)[0]) == |EncodeChar(c)|
    ensures DecodeChar(EncodeChar(c)) == Some(c)
  {
    var n := c as int;
    if n < 0x80 {
    } else if n < 0x800 {
      DecodeTwo(c);
    } else if n < 0x10000 {
      DecodeThree(c);
    } else {
      DecodeFour(c);
    }
  }

  lemma DecodeTwo(c: char)
    requires 0x80 <= c as int < 0x800
    ensures LeadLength(EncodeChar(c)[0]) == 2
    ensures DecodeChar(EncodeChar(c)) == Some(c)
  {
    var n := c as int;
    var q, m := n / 0x40, n % 0x40;
    assert n == q * 0x40 + m;
    assert EncodeChar(c) == [0xC0 + q, 0x80 + m];
  }

  lemma DecodeThree(c: char)
    requires 0x800 <= c as int < 0x10000
    ensures LeadLength(EncodeChar(c)[0]) == 3
    ensures DecodeChar(EncodeChar(c)) == Some(c)
  {
    var n := c as int;
    var q1, m1 := n / 0x40, n % 0x40;
    var q2, m2 := q1 / 0x40, q1 % 0x40;
    assert n == q1 * 0x40 + m1;
    assert q1 == q2 * 0x40 + m2;
    assert n / 0x1000 == q2;
    assert EncodeChar(c) == [0xE0 + q2, 0x80 + m2, 0x80 + m1];
    assert n == q2 * 0x1000 + m2 * 0x40 + m1;
  }

  lemma DecodeFour(c: char)
    requires 0x10000 <= c as int
    ensures LeadLength(EncodeChar(c)[0]) == 4
    ensures DecodeChar(EncodeChar(c)) == Some(c)
  {
    var n := c as int;
    var q1, m1 := n / 0x40, n % 0x40;
    var q2, m2 := q1 / 0x40, q1 % 0x40;
    var q3, m3 := q2 / 0x40, q2 % 0x40;
    assert n == q1 * 0x40 + m1;
    assert q1 == q2 * 0x40 + m2;
    assert q2 == q3 * 0x40 + m3;
    assert n / 0x1000 == q2;
    assert n / 0x40000 == q3;
    assert EncodeChar(c) == [0xF0 + q3, 0x80 + m3, 0x80 + m2, 0x80 + m1];
    assert n == q3 * 0x40000 + m3 * 0x1000 + m2 * 0x40 + m1;
  }

  /** Decoding the UTF-8 encoding of a string gives the string back. */
  lemma {:induction false} DecodeEncode(s: string)
    ensures Decode(Encode(s)) == Some(s)
    decreases |s|
  {
    if s != [] {
      var head := EncodeChar(s[0]);
      var bs := Encode(s);
      assert bs == head + Encode(s[1..]);
      DecodeEncodeChar(s[0]);
      assert bs[..|head|] == head;
      assert bs[|head|..] == Encode(s[1..]);
      DecodeEncode(s[1..]);
      assert [s[0]] + s[1..] == s;
    }
  }

  /** ASCII text encodes to one byte per character, the character's code. */
  lemma {:induction false} EncodeAscii(s: string)
    requires forall i :: 0 <= i < |s| ==> s[i] as int < 128
    ensures |Encode(s)| == |s|
    ensures forall i :: 0 <= i < |s| ==> Encode(s)[i] == s[i] as int
    decreases |s|
  {
    if s != [] {
      EncodeAscii(s[1..]);
    }
  }
}
