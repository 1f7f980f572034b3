/** Percent-encoding (section 2.1 of RFC 3986) as urllib's `quote` applies it
    to a bytes value, and `unquote_to_bytes`, which undoes it. */
module Percent {
  import opened PyValues
  import opened Strings
  import Utf8

  /** Bytes `quote` never escapes: ASCII letters, digits and `_.-~`
      (the unreserved characters of section 2.3 of RFC 3986). */
  predicate AlwaysSafe(b: Byte) {
    || ('A' as int <= b <= 'Z' as int)
    || ('a' as int <= b <= 'z' as int)
    || ('0' as int <= b <= '9' as int)
    || b == '_' as int || b == '.' as int || b == '-' as int || b == '~' as int
  }

  /** `quote` keeps a byte when it is always safe or an ASCII byte of `safe`. */
  predicate IsSafe(b: Byte, safe: seq<Byte>) {
    AlwaysSafe(b) || (b in safe && b < 128)
  }

  function HexUpper(d: int): (c: char)
    requires 0 <= d < 16
    ensures IsHexDigit(c)
  {
    if d < 10 then DigitChar(d) else ('A' as int + d - 10) as char
  }

  predicate IsHexDigit(c: char) {
    ('0' <= c <= '9') || ('a' <= c <= 'f') || ('A' <= c <= 'F')
  }

  function HexValue(c: char): (d: int)
    requires IsHexDigit(c)
    ensures 0 <= d < 16
  {
    if '0' <= c <= '9' then c as int - '0' as int
    else if 'a' <= c <= 'f' then c as int - 'a' as int + 10
    else c as int - 'A' as int + 10
  }

  /** A character `quote` can emit: a kept byte, `%`, or an upper-case hex digit. */
  predicate QuotedChar(c: char, safe: seq<Byte>) {
    (c as int < 256 && IsSafe(c as int, safe)) || c == '%' || ('0' <= c <= '9') || ('A' <= c <= 'F')
  }

  /** What `quote` emits for one byte: the byte itself when it is safe; otherwise
      three characters, `%` and two upper-case hex digits that read back as the byte. */
  function QuoteByte(b: Byte, safe: seq<Byte>): (r: string)
    ensures IsSafe(b, safe) ==> r == [b as char]
    ensures !IsSafe(b, safe) ==>
              && |r| == 3 && r[0] == '%'
              && ('0' <= r[1] <= '9' || 'A' <= r[1] <= 'F') && ('0' <= r[2] <= '9' || 'A' <= r[2] <= 'F')
              && HexValue(r[1]) * 16 + HexValue(r[2]) == b
  {
    if IsSafe(b, safe) then [b as char]
    else
      assert HexValue(HexUpper(b / 16)) == b / 16;
      assert HexValue(HexUpper(b % 16)) == b % 16;
      ['%', HexUpper(b / 16), HexUpper(b % 16)]
  }

  /** `quote(bs, safe)` for a bytes value `bs`. */
  function Quote(bs: seq<Byte>, safe: seq<Byte>): (r: string)
    ensures forall i :: 0 <= i < |r| ==> QuotedChar(r[i], safe)
    decreases |bs|
  {
    if bs == [] then [] else QuoteByte(bs[0], safe) + Quote(bs[1..], safe)
  }

  /** `quote` works byte by byte: quoting a concatenation quotes each half. */
  lemma {:induction false} QuoteAppend(a: seq<Byte>, b: seq<Byte>, safe: seq<Byte>)
    ensures Quote(a + b, safe) == Quote(a, safe) + Quote(b, safe)
    decreases |a|
  {
    if a == [] {
      assert a + b == b;
    } else {
      assert (a + b)[1..] == a[1..] + b;
      QuoteAppend(a[1..], b, safe);
    }
  }

  /** The byte at position `i` appears in the output as its own `QuoteByte`,
      between the quoted bytes before it and the quoted bytes after it. */
  lemma QuoteAt(bs: seq<Byte>, safe: seq<Byte>, i: nat)
    requires i < |bs|
    ensures Quote(bs, safe) == Quote(bs[..i], safe) + QuoteByte(bs[i], safe) + Quote(bs[i + 1..], safe)
  {
    assert bs == bs[..i] + ([bs[i]] + bs[i + 1..]);
    QuoteAppend(bs[..i], [bs[i]] + bs[i + 1..], safe);
    assert ([bs[i]] + bs[i + 1..])[1..] == bs[i + 1..];
  }

  /** The bytes as characters of the same code. */
  function Chars(bs: seq<Byte>): (r: string)
    ensures |r| == |bs| && forall i :: 0 <= i < |bs| ==> r[i] as int == bs[i]
  {
    seq(|bs|, i requires 0 <= i < |bs| => bs[i] as char)
  }

  /** `quote` leaves its input as it is exactly when every byte is safe; an
      unsafe byte makes the output longer. */
  lemma {:induction false} QuoteKeepsSafe(bs: seq<Byte>, safe: seq<Byte>)
    ensures Quote(bs, safe) == Chars(bs) <==> forall i :: 0 <= i < |bs| ==> IsSafe(bs[i], safe)
    ensures (exists i :: 0 <= i < |bs| && !IsSafe(bs[i], safe)) ==> |Quote(bs, safe)| >= |bs| + 2
    decreases |bs|
  {
    if bs != [] {
      QuoteKeepsSafe(bs[1..], safe);
      QuoteLength(bs[1..], safe);
      assert forall i :: 1 <= i < |bs| ==> bs[1..][i - 1] == bs[i];
      if IsSafe(bs[0], safe) {
        assert Chars(bs) == [bs[0] as char] + Chars(bs[1..]);
        if exists i :: 0 <= i < |bs| && !IsSafe(bs[i], safe) {
          var i :| 0 <= i < |bs| && !IsSafe(bs[i], safe);
          assert !IsSafe(bs[1..][i - 1], safe);
        }
      }
    }
  }

  /** `quote` never shortens its input. */
  lemma {:induction false} QuoteLength(bs: seq<Byte>, safe: seq<Byte>)
    ensures |Quote(bs, safe)| >= |bs|
    decreases |bs|
  {
    if bs != [] {
      QuoteLength(bs[1..], safe);
    }
  }

  /** `unquote_to_bytes(s)`: each `%XX` with two hex digits becomes that byte;
      every other character becomes its UTF-8 encoding. */
  function Unquote(s: string): seq<Byte>
    decreases |s|
  {
    if s == [] then []
    else if s[0] == '%' && |s| >= 3 && IsHexDigit(s[1]) && IsHexDigit(s[2]) then
      [HexValue(s[1]) * 16 + HexValue(s[2])] + Unquote(s[3..])
    else Utf8.EncodeChar(s[0]) + Unquote(s[1..])
  }

  lemma UnquoteQuoteByte(b: Byte, safe: seq<Byte>, t: string)
    requires '%' as int !in safe
    ensures Unquote(QuoteByte(b, safe) + t) == [b] + Unquote(t)
  {
    var s := QuoteByte(b, safe) + t;
    if IsSafe(b, safe) {
      assert s[0] == b as char && s[0] != '%';
      assert s[1..] == t;
    } else {
      assert s[3..] == t;
    }
  }

  /** Percent-decoding undoes `quote` whenever `%` itself is not declared safe. */
  lemma {:induction false} UnquoteQuote(bs: seq<Byte>, safe: seq<Byte>)
    requires '%' as int !in safe
    ensures Unquote(Quote(bs, safe)) == bs
    decreases |bs|
  {
    if bs != [] {
      UnquoteQuoteByte(bs[0], safe, Quote(bs[1..], safe));
      UnquoteQuote(bs[1..], safe);
      assert [bs[0]] + bs[1..] == bs;
    }
  }

  /** A separator that is neither always safe nor declared safe never appears in `quote`'s output. */
  lemma QuoteAvoids(bs: seq<Byte>, safe: seq<Byte>, sep: char)
    requires sep as int < 256 && !IsSafe(sep as int, safe)
    requires sep != '%' && !('0' <= sep <= '9') && !('A' <= sep <= 'F')
    ensures sep !in Quote(bs, safe)
  {
    var r := Quote(bs, safe);
    assert forall i :: 0 <= i < |r| ==> r[i] != sep by {
      forall i | 0 <= i < |r| ensures r[i] != sep {
        assert QuotedChar(r[i], safe);
      }
    }
  }
}
