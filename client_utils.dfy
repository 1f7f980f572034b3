/** The request-shaping helpers of `elasticsearch/client/utils.py`: escaping of
    URL parts and query parameters, URL path building, bulk bodies, HTTP Basic
    credentials, host normalisation and the `query_params` wrapper. */
module ClientUtils {
  import opened PyValues
  import opened Strings
  import Utf8
  import Percent
  import Base64

  // ================================================================ _escape

  /** `_escape(value)`: the bytes a URL part or query parameter value stands for.
      Lists and tuples are comma-joined, dates use their ISO 8601 form, booleans
      become `true`/`false`, bytes pass through, anything else is the UTF-8
      encoding of its `str()`. */
  function Escape(v: PyValue): (r: Result<seq<Byte>>)
    ensures v.PyBytes? ==> r == Success(v.bytes)
    ensures v.PyBool? ==> r == Success(if v.b then [116, 114, 117, 101] else [102, 97, 108, 115, 101])
    ensures (v.PyList? || v.PyTuple?) ==> (r.Success? <==> AllStr(v.items))
    ensures r.Failure? ==> r.error == TypeError && (v.PyList? || v.PyTuple?)
  {
    match v
    case PyList(items) =>
      (match JoinStrs(",", items)
       case Success(s) => Success(Utf8.Encode(s))
       case Failure(e) => Failure(e))
    case PyTuple(items) =>
      (match JoinStrs(",", items)
       case Success(s) => Success(Utf8.Encode(s))
       case Failure(e) => Failure(e))
    case PyDate(_, iso, _, _) => Success(Utf8.Encode(iso))
    case PyBool(b) =>
      assert Utf8.Encode("true") == [116, 114, 117, 101] by {
        Utf8.EncodeAscii("true");
      }
      assert Utf8.Encode("false") == [102, 97, 108, 115, 101] by {
        Utf8.EncodeAscii("false");
      }
      Success(Utf8.Encode(if b then "true" else "false"))
    case PyBytes(bs) => Success(bs)
    case _ => Success(Utf8.Encode(Str(v)))
  }

  /** The text `_escape` encodes for a value that is not bytes. */
  function EscapedText(v: PyValue): string
    requires !v.PyBytes?
    requires (v.PyList? || v.PyTuple?) ==> AllStr(v.items)
  {
    match v
    case PyList(items) => Join(",", Texts(items))
    case PyTuple(items) => Join(",", Texts(items))
    case PyDate(_, iso, _, _) => iso
    case PyBool(b) => if b then "true" else "false"
    case _ => Str(v)
  }

  /** Whatever `_escape` returns for a non-bytes value is valid UTF-8 that decodes
      to the value's text form: its `str()`, its ISO date, `true`/`false`, or the
      comma-joined items. */
  lemma EscapeDecodes(v: PyValue)
    requires !v.PyBytes? && Escape(v).Success?
    ensures (v.PyList? || v.PyTuple?) ==> AllStr(v.items)
    ensures Utf8.Decode(Escape(v).value) == Some(EscapedText(v))
  {
    Utf8.DecodeEncode(EscapedText(v));
  }

  /** A list of comma-free strings comes back item by item when the escaped
      value is decoded and split at commas. */
  lemma EscapeListRoundTrip(items: seq<PyValue>)
    requires |items| >= 1 && AllStr(items)
    requires forall i :: 0 <= i < |items| ==> ',' !in items[i].s
    ensures Escape(PyList(items)).Success?
    ensures Utf8.Decode(Escape(PyList(items)).value) == Some(Join(",", Texts(items)))
    ensures Split(Join(",", Texts(items)), ',') == Texts(items)
  {
    EscapeDecodes(PyList(items));
    SplitJoin(Texts(items), ',');
  }

  /** A non-negative integer is escaped as its decimal digits, which read back as the integer. */
  lemma EscapeNatRoundTrip(n: nat)
    ensures Escape(PyInt(n)) == Success(Utf8.Encode(NatToDecimal(n)))
    ensures Utf8.Decode(Escape(PyInt(n)).value) == Some(NatToDecimal(n))
    ensures DecimalValue(NatToDecimal(n)) == n
  {
    Utf8.DecodeEncode(NatToDecimal(n));
    DecimalRoundTrip(n);
  }

  // ================================================================ _make_path

  /** `p in SKIP_IN_PATH`: `None`, `""`, `b""`, `[]` or `()`. */
  predicate InSkipInPath(p: PyValue) {
    p == PyNone || p == PyStr("") || p == PyBytes([]) || p == PyList([]) || p == PyTuple([])
  }

  /** The parts `_make_path` keeps, in their order. */
  function Kept(parts: seq<PyValue>): (r: seq<PyValue>)
    ensures |r| <= |parts|
    ensures forall x :: x in r <==> x in parts && !InSkipInPath(x)
    decreases |parts|
  {
    if parts == [] then []
    else (if InSkipInPath(parts[0]) then [] else [parts[0]]) + Kept(parts[1..])
  }

  /** `_escape` applied to every part; the first failure wins. */
  function EscapeAll(parts: seq<PyValue>): (r: Result<seq<seq<Byte>>>)
    ensures r.Success? <==> forall i :: 0 <= i < |parts| ==> Escape(parts[i]).Success?
    ensures r.Success? ==> |r.value| == |parts|
    ensures r.Success? ==> forall i :: 0 <= i < |parts| ==> r.value[i] == Escape(parts[i]).value
    ensures r.Failure? ==> r.error == TypeError
    decreases |parts|
  {
    if parts == [] then Success([])
    else
      match Escape(parts[0])
      case Failure(e) => Failure(e)
      case Success(head) =>
        match EscapeAll(parts[1..])
        case Failure(e) => Failure(e)
        case Success(tail) => Success([head] + tail)
  }

  /** The bytes `quote(..., b",*")` keeps besides the always-safe ones. */
  const PathSafe: seq<Byte> := [',' as int, '*' as int]

  /** One path segment: the escaped part, percent-encoded with `,` and `*` kept. */
  function Segment(escaped: seq<Byte>): string {
    Percent.Quote(escaped, PathSafe)
  }

  /** The segments of the path, one per escaped part. */
  function Segments(escaped: seq<seq<Byte>>): (r: seq<string>)
    ensures |r| == |escaped| && forall i :: 0 <= i < |escaped| ==> r[i] == Segment(escaped[i])
  {
    seq(|escaped|, i requires 0 <= i < |escaped| => Segment(escaped[i]))
  }

  /** `_make_path(*parts)`. */
  function MakePath(parts: seq<PyValue>): (r: Result<string>)
    ensures r.Success? ==> |r.value| >= 1 && r.value[0] == '/'
    ensures r.Success? <==> forall x :: x in Kept(parts) ==> Escape(x).Success?
    ensures r.Failure? ==> r.error == TypeError
  {
    var kept := Kept(parts);
    match EscapeAll(kept)
    case Failure(e) =>
      assert exists i :: 0 <= i < |kept| && Escape(kept[i]).Failure?;
      Failure(e)
    case Success(escaped) =>
      Success("/" + Join("/", Segments(escaped)))
  }

  lemma {:induction false} KeptAppend(a: seq<PyValue>, b: seq<PyValue>)
    ensures Kept(a + b) == Kept(a) + Kept(b)
    decreases |a|
  {
    if a == [] {
      assert a + b == b;
    } else {
      assert (a + b)[1..] == a[1..] + b;
      KeptAppend(a[1..], b);
    }
  }

  /** A part from SKIP_IN_PATH can be dropped from the call without changing the path. */
  lemma MakePathSkips(parts: seq<PyValue>, i: nat)
    requires i < |parts| && InSkipInPath(parts[i])
    ensures MakePath(parts) == MakePath(parts[..i] + parts[i + 1..])
  {
    assert parts == parts[..i] + ([parts[i]] + parts[i + 1..]);
    KeptAppend(parts[..i], [parts[i]] + parts[i + 1..]);
    KeptAppend(parts[..i], parts[i + 1..]);
    assert Kept([parts[i]] + parts[i + 1..]) == Kept(parts[i + 1..]) by {
      assert ([parts[i]] + parts[i + 1..])[1..] == parts[i + 1..];
    }
  }

  /** The path is `/` followed by one percent-encoded segment per kept part, in
      order, separated by single slashes: splitting after the leading slash gives
      the segments back, and percent-decoding a segment gives the escaped part. */
  lemma MakePathSegments(parts: seq<PyValue>)
    requires MakePath(parts).Success?
    ensures var path := MakePath(parts).value;
      && (Kept(parts) == [] ==> path == "/")
      && (Kept(parts) != [] ==>
            && |Split(path[1..], '/')| == |Kept(parts)|
            && (forall i :: 0 <= i < |Kept(parts)| ==>
                  Split(path[1..], '/')[i] == Segment(Escape(Kept(parts)[i]).value))
            && forall i :: 0 <= i < |Kept(parts)| ==>
                 Percent.Unquote(Split(path[1..], '/')[i]) == Escape(Kept(parts)[i]).value)
  {
    var kept := Kept(parts);
    var escaped := EscapeAll(kept).value;
    var path := MakePath(parts).value;
    assert path == "/" + Join("/", Segments(escaped));
    if kept != [] {
      PathSplits(escaped);
      assert path[1..] == Join("/", Segments(escaped));
      forall i | 0 <= i < |kept|
        ensures Percent.Unquote(Split(path[1..], '/')[i]) == Escape(kept[i]).value
      {
        Percent.UnquoteQuote(escaped[i], PathSafe);
      }
    }
  }

  /** The segments joined by slashes split back at the slashes. */
  lemma PathSplits(escaped: seq<seq<Byte>>)
    requires escaped != []
    ensures Split(Join("/", Segments(escaped)), '/') == Segments(escaped)
  {
    var segments := Segments(escaped);
    forall i | 0 <= i < |segments| ensures '/' !in segments[i] {
      Percent.QuoteAvoids(escaped[i], PathSafe, '/');
    }
    SplitJoin(segments, '/');
  }

  /** A kept part appears literally as its segment exactly when all its escaped
      bytes are safe for the path: letters, digits, `_.-~`, and also `,` and `*`. */
  lemma MakePathLiteral(parts: seq<PyValue>, i: nat)
    requires MakePath(parts).Success? && i < |Kept(parts)|
    ensures var escaped := Escape(Kept(parts)[i]).value;
      && i < |Split(MakePath(parts).value[1..], '/')|
      && (Split(MakePath(parts).value[1..], '/')[i] == Percent.Chars(escaped) <==>
            forall j :: 0 <= j < |escaped| ==> Percent.IsSafe(escaped[j], PathSafe))
  {
    MakePathSegments(parts);
    Percent.QuoteKeepsSafe(Escape(Kept(parts)[i]).value, PathSafe);
  }

  /** The parts `"a,b"` and `"*"` make the path with the segments `a,b` and `*`:
      commas and asterisks are not escaped. */
  lemma MakePathKeepsCommaAndStar()
    ensures MakePath([PyStr("a,b"), PyStr("*")]) == Success("/a,b/*")
  {
    var parts := [PyStr("a,b"), PyStr("*")];
    var ab: seq<Byte> := [97, 44, 98];
    var star: seq<Byte> := [42];
    CommaAndStarKept();
    CommaAndStarEscaped();
    CommaAndStarQuoted();
    assert EscapeAll(Kept(parts)) == Success([ab, star]);
    assert MakePath(parts) == Success("/" + Join("/", Segments([ab, star])));
    assert Segments([ab, star]) == ["a,b", "*"];
    CommaAndStarJoined();
  }

  lemma CommaAndStarJoined()
    ensures "/" + Join("/", ["a,b", "*"]) == "/a,b/*"
  {
    var segments := ["a,b", "*"];
    assert segments[1..] == ["*"];
    assert Join("/", segments) == "a,b" + "/" + "*";
  }

  lemma CommaAndStarKept()
    ensures Kept([PyStr("a,b"), PyStr("*")]) == [PyStr("a,b"), PyStr("*")]
  {
    var parts := [PyStr("a,b"), PyStr("*")];
    assert parts[1..][1..] == [];
  }

  lemma CommaAndStarEscaped()
    ensures EscapeAll([PyStr("a,b"), PyStr("*")]) == Success([[97, 44, 98], [42]])
  {
    var parts := [PyStr("a,b"), PyStr("*")];
    var ab: seq<Byte> := [97, 44, 98];
    var star: seq<Byte> := [42];
    AsciiEscaped("a,b", ab);
    AsciiEscaped("*", star);
    assert EscapeAll(parts[1..]) == Success([star]) by {
      assert parts[1..][1..] == [];
      assert [star] + [] == [star];
    }
    assert [ab] + [star] == [ab, star];
  }

  lemma AsciiEscaped(s: string, bs: seq<Byte>)
    requires |s| == |bs| && forall i :: 0 <= i < |s| ==> s[i] as int < 128 && bs[i] == s[i] as int
    ensures Escape(PyStr(s)) == Success(bs)
  {
    Utf8.EncodeAscii(s);
    assert Utf8.Encode(s) == bs;
  }

  lemma CommaAndStarQuoted()
    ensures Segment([97, 44, 98]) == "a,b"
    ensures Segment([42]) == "*"
  {
    var ab: seq<Byte> := [97, 44, 98];
    assert ab[1..][1..][1..] == [];
    assert [42][1..] == [];
  }

  // ================================================================ _bulk_body

  /** `s` with a newline appended unless it already ends with one. */
  function Terminated<T(==)>(s: seq<T>, newline: T): (r: seq<T>)
    ensures |r| >= 1 && r[|r| - 1] == newline
    ensures |s| <= |r| <= |s| + 1 && r[..|s|] == s
  {
    if |s| > 0 && s[|s| - 1] == newline then s else s + [newline]
  }

  /** Terminating an already terminated body changes nothing. */
  lemma TerminatedIdempotent<T>(s: seq<T>, newline: T)
    ensures Terminated(Terminated(s, newline), newline) == Terminated(s, newline)
  {
  }

  /** A `str` or `bytes` value that ends with a newline. */
  predicate EndsWithNewline(v: PyValue) {
    || (v.PyStr? && |v.s| > 0 && v.s[|v.s| - 1] == '\n')
    || (v.PyBytes? && |v.bytes| > 0 && v.bytes[|v.bytes| - 1] == 10)
  }

  /** `map(dumps, items)` as `str.join` consumes it: every item serialised in
      order, the first failure raised. */
  function DumpAll(dumps: PyValue -> Result<string>, items: seq<PyValue>): (r: Result<seq<string>>)
    ensures r.Success? <==> forall i :: 0 <= i < |items| ==> dumps(items[i]).Success?
    ensures r.Success? ==> |r.value| == |items| && forall i :: 0 <= i < |items| ==> r.value[i] == dumps(items[i]).value
    ensures r.Failure? ==> exists i :: 0 <= i < |items| && dumps(items[i]) == Failure(r.error) &&
                                       forall j :: 0 <= j < i ==> dumps(items[j]).Success?
    decreases |items|
  {
    if items == [] then Success([])
    else
      match dumps(items[0])
      case Failure(e) => Failure(e)
      case Success(head) =>
        match DumpAll(dumps, items[1..])
        case Failure(e) =>
          var i :| 0 <= i < |items[1..]| && dumps(items[1..][i]) == Failure(e) &&
                   forall j :: 0 <= j < i ==> dumps(items[1..][j]).Success?;
          assert dumps(items[i + 1]) == Failure(e);
          assert forall j :: 0 <= j < i + 1 ==> dumps(items[j]).Success? by {
            forall j | 0 <= j < i + 1 ensures dumps(items[j]).Success? {
              if j > 0 {
                assert items[j] == items[1..][j - 1];
              }
            }
          }
          Failure(e)
        case Success(tail) => Success([head] + tail)
  }

  /** `_bulk_body(serializer, body)`; `dumps` is the serializer's `dumps`, which
      may raise. */
  method BulkBody(dumps: PyValue -> Result<string>, body: PyValue) returns (r: Result<PyValue>)
    ensures r.Success? ==> EndsWithNewline(r.value)
    ensures body.PyStr? ==> r == Success(PyStr(Terminated(body.s, '\n')))
    ensures body.PyBytes? ==> r == Success(PyBytes(Terminated(body.bytes, 10)))
    ensures EndsWithNewline(body) ==> r == Success(body)
    ensures !body.PyStr? && !body.PyBytes? ==>
              r == match Iterate(body)
                   case Failure(e) => Failure(e)
                   case Success(items) =>
                     match DumpAll(dumps, items)
                     case Failure(e) => Failure(e)
                     case Success(texts) => Success(PyStr(Terminated(Join("\n", texts), '\n')))
  {
    var b := body;
    if !b.PyStr? && !b.PyBytes? {
      var items :- Iterate(b);
      var texts :- DumpAll(dumps, items);
      b := PyStr(Join("\n", texts));
    }
    if b.PyBytes? {
      if !(|b.bytes| > 0 && b.bytes[|b.bytes| - 1] == 10) {
        b := PyBytes(b.bytes + [10]);
      }
    } else if b.PyStr? && !(|b.s| > 0 && b.s[|b.s| - 1] == '\n') {
      b := PyStr(b.s + "\n");
    }
    return Success(b);
  }

  // ================================================================ _base64_auth_header

  /** `to_bytes(s)`: `s.encode("ascii")`. */
  function AsciiBytes(s: string): (r: Result<seq<Byte>>)
    ensures r.Success? <==> forall i :: 0 <= i < |s| ==> s[i] as int < 128
    ensures r.Success? ==> r.value == Utf8.Encode(s)
  {
    if forall i :: 0 <= i < |s| ==> s[i] as int < 128 then
      Utf8.EncodeAscii(s);
      Success(seq(|s|, i requires 0 <= i < |s| => s[i] as int))
    else Failure(UnicodeEncodeError)
  }

  /** `to_str(bs)`: `bs.decode("ascii")`. */
  function AsciiText(bs: seq<Byte>): (r: Result<string>)
    ensures r.Success? <==> forall i :: 0 <= i < |bs| ==> bs[i] < 128
    ensures r.Success? ==> |r.value| == |bs| && forall i :: 0 <= i < |bs| ==> r.value[i] as int == bs[i]
  {
    if forall i :: 0 <= i < |bs| ==> bs[i] < 128 then
      Success(seq(|bs|, i requires 0 <= i < |bs| => bs[i] as char))
    else Failure(UnicodeDecodeError)
  }

  /** `_base64_auth_header(auth_value)`: a list or tuple is `:`-joined, encoded as
      ASCII and base64-encoded; a string is returned as it is; bytes are decoded
      as ASCII. */
  function Base64AuthHeader(v: PyValue): (r: Result<string>)
    ensures v.PyStr? ==> r == Success(v.s)
    ensures v.PyBytes? ==> (r.Success? <==> forall i :: 0 <= i < |v.bytes| ==> v.bytes[i] < 128)
    ensures v.PyBytes? && r.Success? ==> Utf8.Encode(r.value) == v.bytes
    ensures v.PyBytes? && r.Failure? ==> r.error == UnicodeDecodeError
    ensures (v.PyList? || v.PyTuple?) ==> r == Credentials(v.items)
    ensures !(v.PyList? || v.PyTuple? || v.PyStr? || v.PyBytes?) ==> r == Failure(AttributeError)
  {
    match v
    case PyList(items) => Credentials(items)
    case PyTuple(items) => Credentials(items)
    case PyStr(s) => Success(s)
    case PyBytes(bs) =>
      AsciiTextEncodes(bs);
      AsciiText(bs)
    case _ => Failure(AttributeError)
  }

  /** The credentials from a list or tuple: they exist exactly when every item
      is a string and the `:`-joined text is ASCII; then they base64-decode back
      to that text's bytes. A non-string item raises `TypeError`, non-ASCII text
      `UnicodeEncodeError`. */
  function Credentials(items: seq<PyValue>): (r: Result<string>)
    ensures !AllStr(items) ==> r == Failure(TypeError)
    ensures AllStr(items) ==>
              (r.Success? <==> forall i :: 0 <= i < |Join(":", Texts(items))| ==> Join(":", Texts(items))[i] as int < 128)
    ensures AllStr(items) && r.Failure? ==> r.error == UnicodeEncodeError
    ensures r.Success? ==> AllStr(items) && Base64.Decode(r.value) == Some(Utf8.Encode(Join(":", Texts(items))))
  {
    var joined :- JoinStrs(":", items);
    assert joined == Join(":", Texts(items));
    var raw :- AsciiBytes(joined);
    Base64.DecodeEncode(raw);
    Success(Base64.Encode(raw))
  }

  /** Text decoded from ASCII bytes encodes back to the same bytes. */
  lemma AsciiTextEncodes(bs: seq<Byte>)
    ensures AsciiText(bs).Success? ==> Utf8.Encode(AsciiText(bs).value) == bs
  {
    if AsciiText(bs).Success? {
      Utf8.EncodeAscii(AsciiText(bs).value);
    }
  }

  /** For a `(user, password)` pair, the header value is the base64 form of the
      ASCII bytes of `user:password` (section 2 of RFC 7617), and decoding it
      gives those bytes back; non-ASCII credentials raise `UnicodeEncodeError`. */
  lemma BasicCredentials(user: string, password: string)
    ensures var r := Base64AuthHeader(PyTuple([PyStr(user), PyStr(password)]));
      && (r.Success? <==> forall i :: 0 <= i < |user + ":" + password| ==> (user + ":" + password)[i] as int < 128)
      && (r.Failure? ==> r.error == UnicodeEncodeError)
      && (r.Success? ==> Base64.Decode(r.value) == Some(Utf8.Encode(user + ":" + password)))
  {
    var joined := user + ":" + password;
    JoinPair(user, password);
    assert Base64AuthHeader(PyTuple([PyStr(user), PyStr(password)])) == Credentials([PyStr(user), PyStr(password)]);
    if AsciiBytes(joined).Success? {
      Base64.DecodeEncode(AsciiBytes(joined).value);
    }
  }

  /** `":".join((user, password))`. */
  lemma JoinPair(user: string, password: string)
    ensures JoinStrs(":", [PyStr(user), PyStr(password)]) == Success(user + ":" + password)
  {
    var items := [PyStr(user), PyStr(password)];
    assert Texts(items) == [user, password];
    assert Join(":", [user, password]) == user + ":" + password;
  }

  // ================================================================ _normalize_hosts

  /** The fields of `urlparse(url)` that `_normalize_hosts` reads. */
  datatype ParsedUrl = ParsedUrl(
    scheme: string,
    hostname: Option<string>,
    port: Option<int>,
    username: Option<string>,
    password: Option<string>,
    path: string)

  predicate PortGiven(u: ParsedUrl) {
    u.port.Some? && u.port.value != 0
  }

  predicate CredentialsGiven(u: ParsedUrl) {
    (u.username.Some? && u.username.value != "") || (u.password.Some? && u.password.value != "")
  }

  /** A host string without a scheme separator is parsed as a network location. */
  function WithNetloc(host: string): string {
    if IsSubstring("://", host) then host else "//" + host
  }

  /** `d[key] = value` on a dict: replaces the value in place or appends the key. */
  function DictSet(d: seq<(string, PyValue)>, key: string, value: PyValue): (r: seq<(string, PyValue)>)
    ensures DictLookup(r, key) == Some(value)
    ensures forall k :: k != key ==> DictLookup(r, k) == DictLookup(d, k)
    decreases |d|
  {
    if d == [] then [(key, value)]
    else if d[0].0 == key then [(key, value)] + d[1..]
    else [d[0]] + DictSet(d[1..], key, value)
  }

  /** The keys of a dict's entries. */
  function Keys(entries: seq<(string, PyValue)>): set<string> {
    set i | 0 <= i < |entries| :: entries[i].0
  }

  /** Assignment adds no key but `key`, so a dict with distinct keys keeps them distinct. */
  lemma {:induction false} DictSetKeys(d: seq<(string, PyValue)>, key: string, value: PyValue)
    ensures Keys(DictSet(d, key, value)) <= Keys(d) + {key}
    ensures DistinctKeys(d) ==> DistinctKeys(DictSet(d, key, value))
    decreases |d|
  {
    var r := DictSet(d, key, value);
    if d == [] {
    } else if d[0].0 == key {
      assert forall i :: 1 <= i < |r| ==> r[i] == d[i];
    } else {
      var rest := DictSet(d[1..], key, value);
      DictSetKeys(d[1..], key, value);
      assert r == [d[0]] + rest;
      assert Keys(d[1..]) <= Keys(d) by {
        forall k | k in Keys(d[1..]) ensures k in Keys(d) {
          var i :| 0 <= i < |d[1..]| && d[1..][i].0 == k;
          assert d[i + 1].0 == k;
        }
      }
      assert Keys(r) <= Keys(d) + {key} by {
        forall k | k in Keys(r) ensures k in Keys(d) + {key} {
          var i :| 0 <= i < |r| && r[i].0 == k;
          if i > 0 {
            assert r[i] == rest[i - 1];
            assert k in Keys(rest);
          } else {
            assert d[0].0 == k;
          }
        }
      }
      if DistinctKeys(d) {
        assert DistinctKeys(d[1..]) by {
          forall i, j | 0 <= i < j < |d[1..]| ensures d[1..][i].0 != d[1..][j].0 {
            assert d[1..][i] == d[i + 1] && d[1..][j] == d[j + 1];
          }
        }
        assert d[0].0 !in Keys(d[1..]) by {
          forall i | 0 <= i < |d[1..]| ensures d[1..][i].0 != d[0].0 {
            assert d[1..][i] == d[i + 1];
          }
        }
        forall i, j | 0 <= i < j < |r| ensures r[i].0 != r[j].0 {
          assert r[j] == rest[j - 1];
          assert r[j].0 in Keys(rest);
          if i > 0 {
            assert r[i] == rest[i - 1];
          }
        }
      }
    }
  }

  /** A dict with a single entry. */
  lemma SingleEntry(key: string, value: PyValue)
    ensures forall k :: DictLookup([(key, value)], k) == if k == key then Some(value) else None
  {
    assert [(key, value)][1..] == [];
  }

  /** What `_normalize_hosts` promises of the connection dict it builds for a
      parsed host URL: its `host`, `port`, `use_ssl`, `http_auth` and `url_prefix`
      entries, and no others. */
  ghost predicate DescribesUrl(d: seq<(string, PyValue)>, u: ParsedUrl, unquote: string -> string) {
    && DictLookup(d, "host") == Some(HostEntry(u))
    && DictLookup(d, "port") == PortEntry(u)
    && DictLookup(d, "use_ssl") == SslEntry(u)
    && DictLookup(d, "http_auth") == AuthEntry(u, unquote)
    && DictLookup(d, "url_prefix") == PrefixEntry(u)
    && forall k :: k !in HostKeys ==> DictLookup(d, k) == None
  }

  /** `host`: the URL's host name, or `None`. */
  function HostEntry(u: ParsedUrl): PyValue {
    if u.hostname.Some? then PyStr(u.hostname.value) else PyNone
  }

  /** `port`: the URL's port; 443 for `https` without one. */
  function PortEntry(u: ParsedUrl): Option<PyValue> {
    if u.scheme == "https" then Some(PyInt(if PortGiven(u) then u.port.value else 443))
    else if PortGiven(u) then Some(PyInt(u.port.value))
    else None
  }

  /** `use_ssl`: set for `https` only. */
  function SslEntry(u: ParsedUrl): Option<PyValue> {
    if u.scheme == "https" then Some(PyBool(true)) else None
  }

  /** `http_auth`: the unquoted `user:password` when the URL carries credentials. */
  function AuthEntry(u: ParsedUrl, unquote: string -> string): Option<PyValue> {
    if CredentialsGiven(u) && u.username.Some? && u.password.Some? then
      Some(PyStr(unquote(u.username.value) + ":" + unquote(u.password.value)))
    else None
  }

  /** `url_prefix`: the path, unless it is empty or `/`. */
  function PrefixEntry(u: ParsedUrl): Option<PyValue> {
    if u.path != "" && u.path != "/" then Some(PyStr(u.path)) else None
  }

  /** The keys a connection dict built from a URL can hold. */
  const HostKeys: set<string> := {"host", "port", "use_ssl", "http_auth", "url_prefix"}

  /** Whether a host string can be normalised: credentials need both halves,
      since `unquote(None)` raises `TypeError`. */
  predicate UrlUsable(u: ParsedUrl) {
    CredentialsGiven(u) ==> u.username.Some? && u.password.Some?
  }

  /** The hosts `_normalize_hosts` visits: a lone string (or bytes) is wrapped in a list. */
  function HostsToVisit(hosts: PyValue): Result<seq<PyValue>> {
    if hosts.PyStr? || hosts.PyBytes? then Success([hosts]) else Iterate(hosts)
  }

  /** The body of `_normalize_hosts`'s loop for one host string, from the parsed
      URL on: the connection dict, filled in key by key. */
  method HostEntries(u: ParsedUrl, unquote: string -> string) returns (r: Result<seq<(string, PyValue)>>)
    ensures r.Success? <==> UrlUsable(u)
    ensures r.Failure? ==> r.error == TypeError
    ensures r.Success? ==> DescribesUrl(r.value, u, unquote)
  {
    var h: seq<(string, PyValue)> := [("host", HostEntry(u))];
    SingleEntry("host", HostEntry(u));
    if PortGiven(u) {
      h := DictSet(h, "port", PyInt(u.port.value));
    }
    if u.scheme == "https" {
      h := DictSet(h, "port", PyInt(if PortGiven(u) then u.port.value else 443));
      h := DictSet(h, "use_ssl", PyBool(true));
    }
    assert DictLookup(h, "host") == Some(HostEntry(u));
    assert DictLookup(h, "port") == PortEntry(u);
    assert DictLookup(h, "use_ssl") == SslEntry(u);
    assert forall k :: k != "host" && k != "port" && k != "use_ssl" ==> DictLookup(h, k) == None;
    if CredentialsGiven(u) {
      if u.username.None? || u.password.None? {
        return Failure(TypeError);
      }
      h := DictSet(h, "http_auth", PyStr(unquote(u.username.value) + ":" + unquote(u.password.value)));
    }
    assert DictLookup(h, "http_auth") == AuthEntry(u, unquote);
    if u.path != "" && u.path != "/" {
      h := DictSet(h, "url_prefix", PyStr(u.path));
    }
    return Success(h);
  }

  /** `_normalize_hosts(hosts)`; `urlparse` and `unquote` are urllib's. */
  method NormalizeHosts(hosts: PyValue, urlparse: string -> ParsedUrl, unquote: string -> string)
    returns (r: Result<seq<PyValue>>)
    ensures hosts == PyNone ==> r == Success([PyDict([])])
    ensures hosts != PyNone ==>
      (r.Success? <==>
         && HostsToVisit(hosts).Success?
         && forall i :: 0 <= i < |HostsToVisit(hosts).value| ==>
              var h := HostsToVisit(hosts).value[i];
              !h.PyBytes? && (h.PyStr? ==> UrlUsable(urlparse(WithNetloc(h.s)))))
    ensures r.Failure? ==> r.error == TypeError
    ensures hosts != PyNone && r.Success? ==>
      var items := HostsToVisit(hosts).value;
      && |r.value| == |items|
      && forall i :: 0 <= i < |items| ==>
           if items[i].PyStr? then
             r.value[i].PyDict? && DescribesUrl(r.value[i].entries, urlparse(WithNetloc(items[i].s)), unquote)
           else r.value[i] == items[i]
  {
    if hosts == PyNone {
      return Success([PyDict([])]);
    }
    var items :- HostsToVisit(hosts);
    var out: seq<PyValue> := [];
    var i := 0;
    while i < |items|
      invariant 0 <= i <= |items| && |out| == i
      invariant forall j :: 0 <= j < i ==>
                  !items[j].PyBytes? && (items[j].PyStr? ==> UrlUsable(urlparse(WithNetloc(items[j].s))))
      invariant forall j :: 0 <= j < i ==>
                  if items[j].PyStr? then
                    out[j].PyDict? && DescribesUrl(out[j].entries, urlparse(WithNetloc(items[j].s)), unquote)
                  else out[j] == items[j]
    {
      var host := items[i];
      if host.PyBytes? {
        return Failure(TypeError);
      } else if host.PyStr? {
        var h :- HostEntries(urlparse(WithNetloc(host.s)), unquote);
        out := out + [PyDict(h)];
      } else {
        out := out + [host];
      }
      i := i + 1;
    }
    return Success(out);
  }

  // ================================================================ query_params

  /** Parameters every API method accepts. */
  const GLOBAL_PARAMS: seq<string> := ["pretty", "human", "error_trace", "format", "filter_path"]

  const AuthConflict: string := "Only one of 'http_auth' and 'api_key' may be passed at a time"

  /** The keyword arguments of a wrapped API call: `params` and `headers` (each
      possibly absent or `None`), and all the others. */
  datatype CallArgs = CallArgs(
    params: Option<map<string, PyValue>>,
    headers: Option<seq<(string, PyValue)>>,
    kwargs: map<string, PyValue>)

  /** The wrapper pops `params` and `headers` first, so neither is among the
      keyword arguments it goes on to read. */
  type Call = c: CallArgs | "params" !in c.kwargs && "headers" !in c.kwargs
    witness CallArgs(None, None, map[])

  /** What the wrapped function receives: `params`, `headers` and the remaining keyword arguments. */
  datatype Request = Request(params: map<string, PyValue>, headers: map<string, PyValue>, kwargs: map<string, PyValue>)

  /** `{k.lower(): v for k, v in items}`: later entries win when lower-cased names collide. */
  function LowerKeys(items: seq<(string, PyValue)>): (m: map<string, PyValue>)
    ensures forall k :: k in m ==> IsLowerAscii(k)
    ensures forall k :: k in m <==> exists i :: 0 <= i < |items| && LowerAscii(items[i].0) == k
    decreases |items|
  {
    if items == [] then map[]
    else
      var last := items[|items| - 1];
      var m := LowerKeys(items[..|items| - 1])[LowerAscii(last.0) := last.1];
      assert forall k :: k in m ==> exists i :: 0 <= i < |items| && LowerAscii(items[i].0) == k by {
        forall k | k in m ensures exists i :: 0 <= i < |items| && LowerAscii(items[i].0) == k {
          if k != LowerAscii(last.0) {
            var i :| 0 <= i < |items[..|items| - 1]| && LowerAscii(items[..|items| - 1][i].0) == k;
            assert items[i] == items[..|items| - 1][i];
          }
        }
      }
      assert forall k :: (exists i :: 0 <= i < |items| && LowerAscii(items[i].0) == k) ==> k in m by {
        forall k | exists i :: 0 <= i < |items| && LowerAscii(items[i].0) == k ensures k in m {
          var i :| 0 <= i < |items| && LowerAscii(items[i].0) == k;
          if i < |items| - 1 {
            assert items[..|items| - 1][i] == items[i];
          }
        }
      }
      m
  }

  /** The `authorization` header for `http_auth` or `api_key`, or none when neither is given. */
  function Authorization(httpAuth: PyValue, apiKey: PyValue): Result<Option<string>> {
    if httpAuth != PyNone && apiKey != PyNone then Failure(ValueError(AuthConflict))
    else if httpAuth != PyNone then
      var token :- Base64AuthHeader(httpAuth);
      Success(Some("Basic " + token))
    else if apiKey != PyNone then
      var token :- Base64AuthHeader(apiKey);
      Success(Some("ApiKey " + token))
    else Success(None)
  }

  /** `kwargs.get(key)`, `None` when absent. */
  function Arg(kwargs: map<string, PyValue>, key: string): PyValue {
    if key in kwargs then kwargs[key] else PyNone
  }

  /** The names whose values are escaped into `params`. */
  function ParamNames(accepted: seq<string>): set<string> {
    set p | p in accepted + GLOBAL_PARAMS
  }

  /** The keyword arguments left once `opaque_id`, `http_auth` and `api_key` are taken. */
  function Remaining(kwargs: map<string, PyValue>): map<string, PyValue> {
    kwargs - {"opaque_id", "http_auth", "api_key"}
  }

  /** The headers before `authorization`: the caller's, lower-cased, and `x-opaque-id`. */
  function CallerHeaders(call: Call): map<string, PyValue> {
    var h := LowerKeys(if call.headers.Some? then call.headers.value else []);
    if "opaque_id" in call.kwargs then h["x-opaque-id" := call.kwargs["opaque_id"]] else h
  }

  /** The parameter names whose non-`None` values are escaped. */
  function Given(names: set<string>, rest: map<string, PyValue>): set<string> {
    set p | p in names && p in rest && rest[p] != PyNone
  }

  /** The headers the wrapper sends: the caller's, `x-opaque-id` and `authorization`. */
  function Headers(call: Call): Result<map<string, PyValue>> {
    var auth :- Authorization(Arg(call.kwargs, "http_auth"), Arg(call.kwargs, "api_key"));
    Success(if auth.Some? then CallerHeaders(call)["authorization" := PyStr(auth.value)] else CallerHeaders(call))
  }

  /** `params` once the keyword arguments named in `names` are moved into it
      (escaped, `None` values dropped), and the keyword arguments left. */
  ghost function MovedParams(names: set<string>, rest: map<string, PyValue>, base: map<string, PyValue>)
    : Result<(map<string, PyValue>, map<string, PyValue>)>
  {
    var given := Given(names, rest);
    if exists p :: p in given && Escape(rest[p]).Failure? then Failure(TypeError)
    else Success((base + EscapedMap(given, rest), rest - names))
  }

  /** The escaped values of the keyword arguments in `given`. */
  function EscapedMap(given: set<string>, rest: map<string, PyValue>): map<string, PyValue>
    requires forall p :: p in given ==> p in rest && Escape(rest[p]).Success?
  {
    map p | p in given :: PyBytes(Escape(rest[p]).value)
  }

  lemma MovedParamsFails(names: set<string>, rest: map<string, PyValue>, base: map<string, PyValue>, p: string)
    requires p in names && p in rest && rest[p] != PyNone && Escape(rest[p]).Failure?
    ensures MovedParams(names, rest, base) == Failure(TypeError)
  {
    assert p in Given(names, rest);
  }

  lemma MovedParamsSucceeds(names: set<string>, rest: map<string, PyValue>, base: map<string, PyValue>)
    requires forall q :: q in Given(names, rest) ==> q in rest && Escape(rest[q]).Success?
    ensures MovedParams(names, rest, base) == Success((base + EscapedMap(Given(names, rest), rest), rest - names))
  {
  }

  /** Moving one more given name into `params` keeps the loop's account of it. */
  lemma MoveStep(seen: set<string>, p: string, rest: map<string, PyValue>, base: map<string, PyValue>)
    requires forall q :: q in Given(seen, rest) ==> q in rest && Escape(rest[q]).Success?
    requires p in rest && rest[p] != PyNone && Escape(rest[p]).Success?
    ensures forall q :: q in Given(seen + {p}, rest) ==> q in rest && Escape(rest[q]).Success?
    ensures base + EscapedMap(Given(seen + {p}, rest), rest) ==
              (base + EscapedMap(Given(seen, rest), rest))[p := PyBytes(Escape(rest[p]).value)]
  {
    GivenAdd(seen, p, rest);
    EscapedMapAdd(Given(seen, rest), p, rest);
    MergeUpdate(base, EscapedMap(Given(seen, rest), rest), p, PyBytes(Escape(rest[p]).value));
  }

  /** A name already seen, absent or `None` adds nothing to `params`. */
  lemma SkipStep(seen: set<string>, p: string, rest: map<string, PyValue>)
    requires p in seen || p !in rest || rest[p] == PyNone
    ensures Given(seen + {p}, rest) == Given(seen, rest)
  {
    GivenAdd(seen, p, rest);
  }

  lemma MergeUpdate<K, V>(a: map<K, V>, b: map<K, V>, k: K, v: V)
    ensures a + b[k := v] == (a + b)[k := v]
  {
  }

  lemma GivenAdd(seen: set<string>, p: string, rest: map<string, PyValue>)
    ensures Given(seen + {p}, rest) == Given(seen, rest) + (if p in rest && rest[p] != PyNone then {p} else {})
  {
  }

  lemma EscapedMapAdd(given: set<string>, p: string, rest: map<string, PyValue>)
    requires forall q :: q in given + {p} ==> q in rest && Escape(rest[q]).Success?
    ensures EscapedMap(given + {p}, rest) == EscapedMap(given, rest)[p := PyBytes(Escape(rest[p]).value)]
  {
  }

  /** Keyword arguments copied into `params` without escaping. */
  const PassThrough: set<string> := {"ignore", "request_timeout"}

  /** `params` with `ignore` and `request_timeout` moved into it, and the keyword arguments left. */
  function PassedThrough(rest: map<string, PyValue>, params: map<string, PyValue>)
    : (map<string, PyValue>, map<string, PyValue>)
  {
    (params + Picked(PassThrough, rest), rest - PassThrough)
  }

  /** The keyword arguments among `names`, as they were given. */
  function Picked(names: set<string>, rest: map<string, PyValue>): map<string, PyValue> {
    map p | p in names && p in rest :: rest[p]
  }

  /** Picking one more name adds its argument, if given. */
  lemma PickStep(seen: set<string>, p: string, rest: map<string, PyValue>, base: map<string, PyValue>)
    ensures base + Picked(seen + {p}, rest) ==
              if p in rest then (base + Picked(seen, rest))[p := rest[p]] else base + Picked(seen, rest)
  {
  }

  /** What the wrapper built by `query_params(*accepted)` hands to the API method,
      stated without reference to the order in which it does the work. */
  ghost function ShapeRequest(accepted: seq<string>, call: Call): Result<Request> {
    var headers :- Headers(call);
    var base := if call.params.Some? then call.params.value else map[];
    var moved :- MovedParams(ParamNames(accepted), Remaining(call.kwargs), base);
    var passed := PassedThrough(moved.1, moved.0);
    Success(Request(passed.0, headers, passed.1))
  }

  /** The header part of the wrapper: lower-cased caller headers, `x-opaque-id`,
      then `authorization` from `http_auth` or `api_key`; also pops those three
      keyword arguments. */
  method TakeHeaders(call: Call) returns (r: Result<map<string, PyValue>>, kwargs: map<string, PyValue>)
    ensures r == Headers(call)
    ensures kwargs == Remaining(call.kwargs)
  {
    var headers := LowerKeys(if call.headers.Some? then call.headers.value else []);
    kwargs := call.kwargs;
    if "opaque_id" in kwargs {
      headers := headers["x-opaque-id" := kwargs["opaque_id"]];
      kwargs := kwargs - {"opaque_id"};
    }
    var httpAuth := Arg(kwargs, "http_auth");
    kwargs := kwargs - {"http_auth"};
    var apiKey := Arg(kwargs, "api_key");
    kwargs := kwargs - {"api_key"};
    if httpAuth != PyNone && apiKey != PyNone {
      return Failure(ValueError(AuthConflict)), kwargs;
    } else if httpAuth != PyNone {
      var token := Base64AuthHeader(httpAuth);
      if token.Failure? {
        return Failure(token.error), kwargs;
      }
      headers := headers["authorization" := PyStr("Basic " + token.value)];
    } else if apiKey != PyNone {
      var token := Base64AuthHeader(apiKey);
      if token.Failure? {
        return Failure(token.error), kwargs;
      }
      headers := headers["authorization" := PyStr("ApiKey " + token.value)];
    }
    return Success(headers), kwargs;
  }

  /** The loop over `es_query_params + GLOBAL_PARAMS`: pops each name present in
      the keyword arguments and stores its escaped value in `params` unless it is `None`. */
  method MoveParams(names: seq<string>, kwargs0: map<string, PyValue>, params0: map<string, PyValue>)
    returns (r: Result<(map<string, PyValue>, map<string, PyValue>)>)
    ensures r == MovedParams((set p | p in names), kwargs0, params0)
  {
    var kwargs, params := kwargs0, params0;
    ghost var seen: set<string> := {};
    var i := 0;
    while i < |names|
      invariant 0 <= i <= |names|
      invariant forall q :: q in seen <==> q in names[..i]
      invariant kwargs == kwargs0 - seen
      invariant forall q :: q in Given(seen, kwargs0) ==> q in kwargs0 && Escape(kwargs0[q]).Success?
      invariant params == params0 + EscapedMap(Given(seen, kwargs0), kwargs0)
    {
      var p := names[i];
      assert names[..i + 1] == names[..i] + [p];
      if p in kwargs {
        var v := kwargs[p];
        kwargs := kwargs - {p};
        if v != PyNone {
          var e := Escape(v);
          if e.Failure? {
            MovedParamsFails((set q | q in names), kwargs0, params0, p);
            return Failure(e.error);
          }
          MoveStep(seen, p, kwargs0, params0);
          params := params[p := PyBytes(e.value)];
        } else {
          SkipStep(seen, p, kwargs0);
        }
      } else {
        SkipStep(seen, p, kwargs0);
      }
      seen := seen + {p};
      i := i + 1;
    }
    assert names[..|names|] == names;
    assert seen == (set p | p in names);
    MovedParamsSucceeds(seen, kwargs0, params0);
    return Success((params, kwargs));
  }

  /** The loop over `("ignore", "request_timeout")`: moves each present one into `params` as it is. */
  method MovePassThrough(kwargs0: map<string, PyValue>, params0: map<string, PyValue>)
    returns (params: map<string, PyValue>, kwargs: map<string, PyValue>)
    ensures (params, kwargs) == PassedThrough(kwargs0, params0)
  {
    var names := ["ignore", "request_timeout"];
    params, kwargs := params0, kwargs0;
    ghost var seen: set<string> := {};
    var k := 0;
    while k < |names|
      invariant 0 <= k <= |names|
      invariant forall q :: q in seen <==> q in names[..k]
      invariant kwargs == kwargs0 - seen
      invariant params == params0 + Picked(seen, kwargs0)
    {
      var p := names[k];
      assert names[..k + 1] == names[..k] + [p];
      PickStep(seen, p, kwargs0, params0);
      if p in kwargs {
        params := params[p := kwargs[p]];
        kwargs := kwargs - {p};
      }
      seen := seen + {p};
      k := k + 1;
    }
    assert names[..2] == names;
    assert seen == PassThrough;
  }

  /** `query_params(*accepted)(func)(**kwargs)`, up to the call of `func`: moves
      accepted parameters from the keyword arguments into `params`, builds
      `headers`, and returns what `func` is called with. */
  method QueryParams(accepted: seq<string>, call: Call) returns (r: Result<Request>)
    ensures r == ShapeRequest(accepted, call)
  {
    var params: map<string, PyValue> := if call.params.Some? then call.params.value else map[];
    var headers, kwargs := TakeHeaders(call);
    if headers.Failure? {
      return Failure(headers.error);
    }
    var moved := MoveParams(accepted + GLOBAL_PARAMS, kwargs, params);
    if moved.Failure? {
      return Failure(moved.error);
    }
    params, kwargs := MovePassThrough(moved.value.1, moved.value.0);
    return Success(Request(params, headers.value, kwargs));
  }

  /** Of two caller headers whose names differ only in case, the later one wins. */
  lemma {:induction false} LowerKeysLastWins(items: seq<(string, PyValue)>, i: nat)
    requires i < |items|
    requires forall j :: i < j < |items| ==> LowerAscii(items[j].0) != LowerAscii(items[i].0)
    ensures LowerAscii(items[i].0) in LowerKeys(items)
    ensures LowerKeys(items)[LowerAscii(items[i].0)] == items[i].1
    decreases |items|
  {
    if i < |items| - 1 {
      var init := items[..|items| - 1];
      assert init[i] == items[i];
      assert forall j :: i < j < |init| ==> init[j] == items[j];
      LowerKeysLastWins(init, i);
    }
  }

  /** Both `http_auth` and `api_key` given: the call is refused with `ValueError`. */
  lemma AuthConflictRefused(accepted: seq<string>, call: Call)
    requires Arg(call.kwargs, "http_auth") != PyNone && Arg(call.kwargs, "api_key") != PyNone
    ensures ShapeRequest(accepted, call) == Failure(ValueError(AuthConflict))
  {
    assert Authorization(Arg(call.kwargs, "http_auth"), Arg(call.kwargs, "api_key")).Failure?;
  }

  /** Every header name the API method receives is lower case. */
  lemma HeaderNamesLowerCase(accepted: seq<string>, call: Call)
    requires ShapeRequest(accepted, call).Success?
    ensures forall k :: k in ShapeRequest(accepted, call).value.headers ==> IsLowerAscii(k)
  {
    assert ShapeRequest(accepted, call).value.headers == Headers(call).value;
    HeadersLowerCase(call);
  }

  lemma HeadersLowerCase(call: Call)
    requires Headers(call).Success?
    ensures forall k :: k in Headers(call).value ==> IsLowerAscii(k)
  {
    assert IsLowerAscii("x-opaque-id") && IsLowerAscii("authorization");
    var h := LowerKeys(if call.headers.Some? then call.headers.value else []);
    assert forall k :: k in CallerHeaders(call) ==> k in h || k == "x-opaque-id";
  }

  /** `x-opaque-id` carries `opaque_id`, and `authorization` is `Basic` or
      `ApiKey` followed by the encoded credentials; without either, only the
      caller can have sent `authorization`. */
  lemma SentHeaders(accepted: seq<string>, call: Call)
    requires ShapeRequest(accepted, call).Success?
    ensures var h := ShapeRequest(accepted, call).value.headers;
      && ("opaque_id" in call.kwargs ==> h["x-opaque-id"] == call.kwargs["opaque_id"])
      && (Arg(call.kwargs, "http_auth") != PyNone ==>
            Base64AuthHeader(Arg(call.kwargs, "http_auth")).Success?
            && h["authorization"] == PyStr("Basic " + Base64AuthHeader(Arg(call.kwargs, "http_auth")).value))
      && (Arg(call.kwargs, "api_key") != PyNone ==>
            Base64AuthHeader(Arg(call.kwargs, "api_key")).Success?
            && h["authorization"] == PyStr("ApiKey " + Base64AuthHeader(Arg(call.kwargs, "api_key")).value))
      && (Arg(call.kwargs, "http_auth") == PyNone && Arg(call.kwargs, "api_key") == PyNone ==>
            "authorization" in h ==> "authorization" in CallerHeaders(call))
  {
    var h := ShapeRequest(accepted, call).value.headers;
    assert h == Headers(call).value;
  }

  /** A caller header survives, lower-cased and with the value given last,
      unless `x-opaque-id` or `authorization` replaces it. */
  lemma CallerHeaderKept(accepted: seq<string>, call: Call, i: nat)
    requires ShapeRequest(accepted, call).Success?
    requires call.headers.Some? && i < |call.headers.value|
    requires forall j :: i < j < |call.headers.value| ==>
               LowerAscii(call.headers.value[j].0) != LowerAscii(call.headers.value[i].0)
    requires LowerAscii(call.headers.value[i].0) == "x-opaque-id" ==> "opaque_id" !in call.kwargs
    requires LowerAscii(call.headers.value[i].0) == "authorization" ==>
               Arg(call.kwargs, "http_auth") == PyNone && Arg(call.kwargs, "api_key") == PyNone
    ensures var h := ShapeRequest(accepted, call).value.headers;
      LowerAscii(call.headers.value[i].0) in h && h[LowerAscii(call.headers.value[i].0)] == call.headers.value[i].1
  {
    LowerKeysLastWins(call.headers.value, i);
    assert ShapeRequest(accepted, call).value.headers == Headers(call).value;
  }

  /** An accepted parameter given as a keyword argument leaves the keyword
      arguments; unless it is `None` it reaches `params` escaped, and a `None`
      leaves `params` as the caller passed it. */
  lemma AcceptedParamMoved(accepted: seq<string>, call: Call, p: string)
    requires ShapeRequest(accepted, call).Success?
    requires p in ParamNames(accepted) && p in Remaining(call.kwargs)
    ensures var r := ShapeRequest(accepted, call).value;
      var base := if call.params.Some? then call.params.value else map[];
      && p !in r.kwargs
      && (call.kwargs[p] != PyNone ==>
            Escape(call.kwargs[p]).Success? && p in r.params && r.params[p] == PyBytes(Escape(call.kwargs[p]).value))
      && (call.kwargs[p] == PyNone ==> (p in r.params <==> p in base) && (p in base ==> r.params[p] == base[p]))
  {
    var base := if call.params.Some? then call.params.value else map[];
    var rest := Remaining(call.kwargs);
    var given := Given(ParamNames(accepted), rest);
    var moved := MovedParams(ParamNames(accepted), rest, base);
    assert moved.Success?;
    assert moved.value.0 == base + EscapedMap(given, rest);
    assert p !in moved.value.1;
    if call.kwargs[p] != PyNone {
      assert p in given;
    } else {
      assert p !in given;
    }
  }

  /** An accepted parameter that cannot be escaped makes the call fail with `TypeError`
      once the headers are built. */
  lemma UnescapableParamRefused(accepted: seq<string>, call: Call, p: string)
    requires Headers(call).Success?
    requires p in ParamNames(accepted) && p in Remaining(call.kwargs) && call.kwargs[p] != PyNone
    requires Escape(call.kwargs[p]).Failure?
    ensures ShapeRequest(accepted, call) == Failure(TypeError)
  {
    var base := if call.params.Some? then call.params.value else map[];
    MovedParamsFails(ParamNames(accepted), Remaining(call.kwargs), base, p);
  }

  /** `ignore` and `request_timeout`, when not accepted parameters, reach
      `params` exactly as given, without escaping. */
  lemma PassThroughUnescaped(accepted: seq<string>, call: Call, p: string)
    requires ShapeRequest(accepted, call).Success?
    requires p in PassThrough && p !in ParamNames(accepted) && p in call.kwargs
    ensures var r := ShapeRequest(accepted, call).value;
      p !in r.kwargs && p in r.params && r.params[p] == call.kwargs[p]
  {
    var base := if call.params.Some? then call.params.value else map[];
    var rest := Remaining(call.kwargs);
    var moved := MovedParams(ParamNames(accepted), rest, base);
    assert moved.Success?;
    assert moved.value.1 == rest - ParamNames(accepted);
    assert p in moved.value.1 && moved.value.1[p] == call.kwargs[p];
  }

  /** The keyword arguments passed on are exactly those the wrapper does not
      consume, with their values unchanged; every key of `params` was passed in
      `params`, is an accepted name or is one of the pass-through names. */
  lemma OtherArgumentsKept(accepted: seq<string>, call: Call)
    requires ShapeRequest(accepted, call).Success?
    ensures var r := ShapeRequest(accepted, call).value;
      var base := if call.params.Some? then call.params.value else map[];
      && (forall k :: k in r.kwargs <==>
            k in call.kwargs && k !in ParamNames(accepted) && k !in PassThrough
            && k != "opaque_id" && k != "http_auth" && k != "api_key")
      && (forall k :: k in r.kwargs ==> r.kwargs[k] == call.kwargs[k])
      && (forall k :: k in r.params ==> k in base || k in ParamNames(accepted) || k in PassThrough)
  {
    var base := if call.params.Some? then call.params.value else map[];
    var rest := Remaining(call.kwargs);
    var moved := MovedParams(ParamNames(accepted), rest, base);
    assert moved.Success?;
    assert moved.value == (base + EscapedMap(Given(ParamNames(accepted), rest), rest), rest - ParamNames(accepted));
  }
}
