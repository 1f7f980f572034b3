/** The base64 encoding of section 4 of RFC 4648, as Python's `base64.b64encode`
    produces it (standard alphabet, `=` padding), and a decoder for it. */
module Base64 {
  import opened PyValues

  /** The alphabet of section 4 of RFC 4648: `A-Z`, `a-z`, `0-9`, `+`, `/`. */
  function CharOf(d: int): (c: char)
    requires 0 <= d < 64
    ensures IsBase64Char(c)
  {
    if d < 26 then ('A' as int + d) as char
    else if d < 52 then ('a' as int + d - 26) as char
    else if d < 62 then ('0' as int + d - 52) as char
    else if d == 62 then '+'
    else '/'
  }

  predicate IsBase64Char(c: char) {
    ('A' <= c <= 'Z') || ('a' <= c <= 'z') || ('0' <= c <= '9') || c == '+' || c == '/'
  }

  function IndexOf(c: char): (d: int)
    requires IsBase64Char(c)
    ensures 0 <= d < 64
  {
    if 'A' <= c <= 'Z' then c as int - 'A' as int
    else if 'a' <= c <= 'z' then c as int - 'a' as int + 26
    else if '0' <= c <= '9' then c as int - '0' as int + 52
    else if c == '+' then 62
    else 63
  }

  lemma IndexOfCharOf(d: int)
    requires 0 <= d < 64
    ensures IndexOf(CharOf(d)) == d
  {
  }

  /** Three bytes read as one 24-bit big-endian number. */
  function Triple(b0: Byte, b1: Byte, b2: Byte): (n: int)
    ensures 0 <= n < 0x1000000
  {
    b0 * 0x10000 + b1 * 0x100 + b2
  }

  /** The four characters of a 24-bit group, of which the first `count + 1` are
      kept and the rest replaced by `=` padding. */
  function EncodeGroup(n: int, count: nat): (r: string)
    requires 0 <= n < 0x1000000 && 1 <= count <= 3
    ensures |r| == 4
  {
    var digits := [CharOf(n / 0x40000), CharOf(n / 0x1000 % 0x40), CharOf(n / 0x40 % 0x40), CharOf(n % 0x40)];
    digits[..count + 1] + seq(3 - count, _ => '=')
  }

  /** `base64.b64encode(bs)`, as text. */
  function Encode(bs: seq<Byte>): (r: string)
    ensures |r| % 4 == 0
    decreases |bs|
  {
    if bs == [] then []
    else if |bs| == 1 then EncodeGroup(Triple(bs[0], 0, 0), 1)
    else if |bs| == 2 then EncodeGroup(Triple(bs[0], bs[1], 0), 2)
    else
      var rest := Encode(bs[3..]);
      LengthAfterGroup(|rest|);
      EncodeGroup(Triple(bs[0], bs[1], bs[2]), 3) + rest
  }

  /** The test vectors of section 10 of RFC 4648 for one, two and three
      bytes: "f", "fo" and "foo". */
  lemma EncodeTestVectors(f: seq<Byte>, fo: seq<Byte>, foo: seq<Byte>)
    requires f == [0x66] && fo == [0x66, 0x6f] && foo == [0x66, 0x6f, 0x6f]
    ensures Encode(f) == "Zg=="
    ensures Encode(fo) == "Zm8="
    ensures Encode(foo) == "Zm9v"
  {
    EncodeF(f);
    EncodeFo(fo);
    EncodeFoo(foo);
  }

  /** "f" is one byte: two letters and two `=`. */
  lemma EncodeF(f: seq<Byte>)
    requires f == [0x66]
    ensures Encode(f) == "Zg=="
  {
    assert Triple(f[0], 0, 0) == 25 * 0x40000 + 32 * 0x1000;
    EncodeGroupOf(25, 32, 0, 0, 1);
  }

  /** "fo" is two bytes: three letters and one `=`. */
  lemma EncodeFo(fo: seq<Byte>)
    requires fo == [0x66, 0x6f]
    ensures Encode(fo) == "Zm8="
  {
    assert Triple(fo[0], fo[1], 0) == 25 * 0x40000 + 38 * 0x1000 + 60 * 0x40;
    EncodeGroupOf(25, 38, 60, 0, 2);
  }

  /** "foo" is one full group: four letters, no padding. */
  lemma EncodeFoo(foo: seq<Byte>)
    requires foo == [0x66, 0x6f, 0x6f]
    ensures Encode(foo) == "Zm9v"
  {
    assert Triple(foo[0], foo[1], foo[2]) == 25 * 0x40000 + 38 * 0x1000 + 61 * 0x40 + 47;
    EncodeGroupOf(25, 38, 61, 47, 3);
    EncodeFront(foo);
    assert foo[3..] == [];
  }

  /** The credentials `user:pass` encode to `dXNlcjpwYXNz`. */
  lemma EncodeUserPass(bs: seq<Byte>)
    requires bs == [0x75, 0x73, 0x65, 0x72, 0x3a, 0x70, 0x61, 0x73, 0x73]
    ensures Encode(bs) == "dXNlcjpwYXNz"
  {
    assert Triple(bs[0], bs[1], bs[2]) == 29 * 0x40000 + 23 * 0x1000 + 13 * 0x40 + 37;
    EncodeGroupOf(29, 23, 13, 37, 3);
    assert Triple(bs[3], bs[4], bs[5]) == 28 * 0x40000 + 35 * 0x1000 + 41 * 0x40 + 48;
    EncodeGroupOf(28, 35, 41, 48, 3);
    assert Triple(bs[6], bs[7], bs[8]) == 24 * 0x40000 + 23 * 0x1000 + 13 * 0x40 + 51;
    EncodeGroupOf(24, 23, 13, 51, 3);
    EncodeFront(bs);
    EncodeFront(bs[3..]);
    EncodeFront(bs[6..]);
    assert bs[3..][3..] == bs[6..] && bs[6..][3..] == [];
  }

  /** Three or more bytes encode as their first group followed by the rest. */
  lemma EncodeFront(bs: seq<Byte>)
    requires |bs| >= 3
    ensures Encode(bs) == EncodeGroup(Triple(bs[0], bs[1], bs[2]), 3) + Encode(bs[3..])
  {
  }

  /** A group whose number has the sextets `d0 d1 d2 d3` encodes them in order,
      the first `count + 1` as letters of the alphabet and the rest as `=`. */
  lemma EncodeGroupOf(d0: int, d1: int, d2: int, d3: int, count: nat)
    requires 0 <= d0 < 64 && 0 <= d1 < 64 && 0 <= d2 < 64 && 0 <= d3 < 64 && 1 <= count <= 3
    ensures EncodeGroup(d0 * 0x40000 + d1 * 0x1000 + d2 * 0x40 + d3, count) ==
              [CharOf(d0), CharOf(d1), if count >= 2 then CharOf(d2) else '=', if count == 3 then CharOf(d3) else '=']
  {
    SextetsOf(d0, d1, d2, d3);
  }

  /** The sextets of a 24-bit number, read back by the divisions `EncodeGroup` makes. */
  lemma SextetsOf(d0: int, d1: int, d2: int, d3: int)
    requires 0 <= d0 < 64 && 0 <= d1 < 64 && 0 <= d2 < 64 && 0 <= d3 < 64
    ensures var n := d0 * 0x40000 + d1 * 0x1000 + d2 * 0x40 + d3;
      n / 0x40000 == d0 && n / 0x1000 % 0x40 == d1 && n / 0x40 % 0x40 == d2 && n % 0x40 == d3
  {
    var high := d0 * 0x40 + d1;
    var n := d0 * 0x40000 + d1 * 0x1000 + d2 * 0x40 + d3;
    DivModOf(n, high * 0x40 + d2, d3, 0x40);
    DivModOf(high * 0x40 + d2, high, d2, 0x40);
    DivModOf(n, high, d2 * 0x40 + d3, 0x1000);
    DivModOf(high, d0, d1, 0x40);
    DivModOf(n, d0, d1 * 0x1000 + d2 * 0x40 + d3, 0x40000);
  }

  /** Euclidean division recovers the quotient and remainder it is given. */
  lemma DivModOf(n: int, q: int, r: int, m: int)
    requires m == 0x40 || m == 0x1000 || m == 0x40000
    requires 0 <= r < m && n == q * m + r
    ensures n / m == q && n % m == r
  {
    if m == 0x40 {
    } else if m == 0x1000 {
    } else {
    }
  }

  lemma LengthAfterGroup(n: nat)
    requires n % 4 == 0
    ensures (4 + n) % 4 == 0
  {
  }

  /** The number of bytes a four-character group carries, judged by its padding. */
  function GroupCount(q: string): nat
    requires |q| == 4
  {
    if q[2] == '=' && q[3] == '=' then 1 else if q[3] == '=' then 2 else 3
  }

  /** The characters before a group's padding all belong to the alphabet. */
  predicate GroupChars(q: string, count: nat)
    requires |q| == 4
  {
    IsBase64Char(q[0]) && IsBase64Char(q[1])
    && (count >= 2 ==> IsBase64Char(q[2])) && (count >= 3 ==> IsBase64Char(q[3]))
  }

  /** The 24-bit number a group's first `count + 1` characters carry; the
      characters replaced by padding count as zero sextets. */
  function GroupValue(q: string, count: nat): (n: int)
    requires |q| == 4 && 1 <= count <= 3
    requires GroupChars(q, count)
    ensures 0 <= n < 0x1000000
  {
    IndexOf(q[0]) * 0x40000 + IndexOf(q[1]) * 0x1000
    + (if count >= 2 then IndexOf(q[2]) * 0x40 else 0)
    + (if count == 3 then IndexOf(q[3]) else 0)
  }

  /** The bytes one four-character group stands for, or `None` for a malformed group. */
  function DecodeGroup(q: string): (r: Option<seq<Byte>>)
    requires |q| == 4
    ensures r.Some? ==> |r.value| == GroupCount(q)
  {
    var count := GroupCount(q);
    if !GroupChars(q, count) then None
    else
      var n := GroupValue(q, count);
      Some([n / 0x10000, n / 0x100 % 0x100, n % 0x100][..count])
  }

  /** Decodes base64 text; `None` for text that is not a padded base64 encoding. */
  function Decode(s: string): Option<seq<Byte>>
    decreases |s|
  {
    if s == [] then Some([])
    else if |s| < 4 then None
    else
      match DecodeGroup(s[..4])
      case None => None
      case Some(bytes) =>
        if |bytes| < 3 then (if |s| > 4 then None else Some(bytes))
        else
          match Decode(s[4..])
          case None => None
          case Some(rest) => Some(bytes + rest)
  }

  /** The four sextets of a 24-bit number put back together give the number. */
  lemma Sextets(n: int)
    requires 0 <= n < 0x1000000
    ensures n / 0x40000 * 0x40000 + n / 0x1000 % 0x40 * 0x1000 + n / 0x40 % 0x40 * 0x40 + n % 0x40 == n
  {
    var q1, m1 := n / 0x40, n % 0x40;
    var q2, m2 := q1 / 0x40, q1 % 0x40;
    var q3, m3 := q2 / 0x40, q2 % 0x40;
    assert n == q1 * 0x40 + m1;
    assert q1 == q2 * 0x40 + m2;
    assert q2 == q3 * 0x40 + m3;
    assert n / 0x1000 == q2;
    assert n / 0x40000 == q3;
  }

  /** The bytes of a 24-bit group read back out of its number. */
  lemma TripleBytes(b0: Byte, b1: Byte, b2: Byte)
    ensures Triple(b0, b1, b2) / 0x10000 == b0
    ensures Triple(b0, b1, b2) / 0x100 % 0x100 == b1
    ensures Triple(b0, b1, b2) % 0x100 == b2
  {
    var n := Triple(b0, b1, b2);
    assert n / 0x100 == b0 * 0x100 + b1;
  }

  /** The characters of an encoded group read back as the number it was made from. */
  lemma GroupValueOfEncoding(n: int, count: nat)
    requires 0 <= n < 0x1000000 && 1 <= count <= 3
    requires count <= 2 ==> n % 0x40 == 0
    requires count == 1 ==> n / 0x40 % 0x40 == 0
    ensures var q := EncodeGroup(n, count);
      && GroupCount(q) == count
      && GroupChars(q, count)
      && GroupValue(q, count) == n
  {
    var q := EncodeGroup(n, count);
    IndexOfCharOf(n / 0x40000);
    IndexOfCharOf(n / 0x1000 % 0x40);
    IndexOfCharOf(n / 0x40 % 0x40);
    IndexOfCharOf(n % 0x40);
    assert IndexOf(q[0]) == n / 0x40000;
    assert IndexOf(q[1]) == n / 0x1000 % 0x40;
    assert count >= 2 ==> IndexOf(q[2]) == n / 0x40 % 0x40;
    assert count == 3 ==> IndexOf(q[3]) == n % 0x40;
    Sextets(n);
  }

  /** An encoded group decodes to the bytes it was made from. */
  lemma DecodeEncodedGroup(b0: Byte, b1: Byte, b2: Byte, count: nat)
    requires 1 <= count <= 3
    requires count < 3 ==> b2 == 0
    requires count == 1 ==> b1 == 0
    ensures DecodeGroup(EncodeGroup(Triple(b0, b1, b2), count)) == Some([b0, b1, b2][..count])
  {
    var n := Triple(b0, b1, b2);
    assert count <= 2 ==> n % 0x40 == 0 by {
      if count <= 2 { assert n == (b0 * 0x400 + b1 * 4) * 0x40; }
    }
    assert count == 1 ==> n / 0x40 % 0x40 == 0 by {
      if count == 1 { assert n / 0x40 == b0 * 0x400; }
    }
    GroupValueOfEncoding(n, count);
    TripleBytes(b0, b1, b2);
  }

  /** A full group in front of `rest` contributes its three bytes to the decoding. */
  lemma DecodeAfterFullGroup(g: string, rest: string)
    requires |g| == 4 && DecodeGroup(g).Some? && |DecodeGroup(g).value| == 3
    ensures Decode(g + rest) ==
              if Decode(rest).Some? then Some(DecodeGroup(g).value + Decode(rest).value) else None
  {
    var s := g + rest;
    assert s[..4] == g;
    assert s[4..] == rest;
  }

  /** A lone final group decodes as that group. */
  lemma DecodeLastGroup(g: string)
    requires |g| == 4 && DecodeGroup(g).Some?
    ensures Decode(g) == DecodeGroup(g)
  {
    assert g[..4] == g;
    if |DecodeGroup(g).value| == 3 {
      assert g[4..] == [];
      assert DecodeGroup(g).value + [] == DecodeGroup(g).value;
    }
  }

  /** A padded final group decodes to the one or two bytes it was made from. */
  lemma DecodeTail(b0: Byte, b1: Byte, count: nat)
    requires 1 <= count <= 2 && (count == 1 ==> b1 == 0)
    ensures Decode(EncodeGroup(Triple(b0, b1, 0), count)) == Some([b0, b1, 0][..count])
  {
    DecodeEncodedGroup(b0, b1, 0, count);
    DecodeLastGroup(EncodeGroup(Triple(b0, b1, 0), count));
  }

  lemma DecodeEncodeOne(bs: seq<Byte>)
    requires |bs| == 1
    ensures Decode(Encode(bs)) == Some(bs)
  {
    var b0 := bs[0];
    assert Encode(bs) == EncodeGroup(Triple(b0, 0, 0), 1);
    DecodeTail(b0, 0, 1);
    assert [b0, 0, 0][..1] == bs;
  }

  lemma DecodeEncodeTwo(bs: seq<Byte>)
    requires |bs| == 2
    ensures Decode(Encode(bs)) == Some(bs)
  {
    var b0, b1 := bs[0], bs[1];
    assert Encode(bs) == EncodeGroup(Triple(b0, b1, 0), 2);
    DecodeTail(b0, b1, 2);
    assert [b0, b1, 0][..2] == bs;
  }

  /** A full group in front of an encoding of `bs[3..]` decodes to all of `bs`. */
  lemma DecodeFront(bs: seq<Byte>, rest: string)
    requires |bs| >= 3 && Decode(rest) == Some(bs[3..])
    ensures Decode(EncodeGroup(Triple(bs[0], bs[1], bs[2]), 3) + rest) == Some(bs)
  {
    DecodeEncodedGroup(bs[0], bs[1], bs[2], 3);
    DecodeAfterFullGroup(EncodeGroup(Triple(bs[0], bs[1], bs[2]), 3), rest);
    assert [bs[0], bs[1], bs[2]][..3] + bs[3..] == bs;
  }

  /** Decoding the base64 encoding of a byte string gives the byte string back. */
  lemma {:induction false} DecodeEncode(bs: seq<Byte>)
    ensures Decode(Encode(bs)) == Some(bs)
    decreases |bs|
  {
    if |bs| == 1 {
      DecodeEncodeOne(bs);
    } else if |bs| == 2 {
      DecodeEncodeTwo(bs);
    } else if |bs| >= 3 {
      var rest := Encode(bs[3..]);
      DecodeEncode(bs[3..]);
      assert Encode(bs) == EncodeGroup(Triple(bs[0], bs[1], bs[2]), 3) + rest;
      DecodeFront(bs, rest);
    }
  }
}
