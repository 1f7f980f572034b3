/** The Python values the client helpers receive and return, the built-in
    errors they can raise, and the built-in operations on values they use:
    truthiness, `str()`, `repr()`, `type(v).__name__`, subscription `v[k]`,
    membership `k in v`, `dict.get` and iteration. */
module PyValues {
  import opened Strings

  /** One element of a Python `bytes` object. */
  type Byte = b: int | 0 <= b < 256

  /** A Python value. Dictionaries have string keys and keep insertion order;
      their keys are meant to be distinct (`DistinctKeys`), and a lookup reads
      the first entry with the key.
      Dates and other objects carry the results of the library calls made on
      them (`isoformat()`, `str()`, `repr()`), which are not modelled. An
      object that can be iterated (a set, a generator, a custom iterable) also
      carries the elements a `for` loop over it visits. */
  datatype PyValue =
    | PyNone
    | PyBool(b: bool)
    | PyInt(i: int)
    | PyStr(s: string)
    | PyBytes(bytes: seq<Byte>)
    | PyList(items: seq<PyValue>)
    | PyTuple(items: seq<PyValue>)
    | PyDict(entries: seq<(string, PyValue)>)
    | PyDate(className: string, iso: string, text: string, reprText: string)
    | PyObject(className: string, text: string, reprText: string, elements: Option<seq<PyValue>>)

  /** The exceptions the modelled code can raise: Python's built-in ones, and
      the client's `SerializationError`, which a serializer raises for a value
      it cannot encode. */
  datatype PyError =
    | TypeError
    | IndexError
    | KeyError
    | AttributeError
    | ValueError(message: string)
    | UnicodeEncodeError
    | UnicodeDecodeError
    | SerializationError
  {
    /** `except LookupError` catches exactly these two. */
    predicate IsLookupError() {
      IndexError? || KeyError?
    }
  }

  /** The outcome of a Python call: a value, or the exception it raised. */
  datatype Result<+T> = Success(value: T) | Failure(error: PyError)
  {
    predicate IsFailure() {
      Failure?
    }

    function PropagateFailure<U>(): Result<U>
      requires Failure?
    {
      Failure(error)
    }

    function Extract(): T
      requires Success?
    {
      value
    }
  }

  /** `bool(v)`. Dates and other objects are taken to be true. */
  predicate Truthy(v: PyValue) {
    match v
    case PyNone => false
    case PyBool(b) => b
    case PyInt(i) => i != 0
    case PyStr(s) => s != []
    case PyBytes(bs) => bs != []
    case PyList(items) => items != []
    case PyTuple(items) => items != []
    case PyDict(entries) => entries != []
    case PyDate(_, _, _, _) => true
    case PyObject(_, _, _, _) => true
  }

  /** `type(v).__name__`. */
  function ClassName(v: PyValue): string {
    match v
    case PyNone => "NoneType"
    case PyBool(_) => "bool"
    case PyInt(_) => "int"
    case PyStr(_) => "str"
    case PyBytes(_) => "bytes"
    case PyList(_) => "list"
    case PyTuple(_) => "tuple"
    case PyDict(_) => "dict"
    case PyDate(name, _, _, _) => name
    case PyObject(name, _, _, _) => name
  }

  // ---------------------------------------------------------------- repr

  function HexLower(d: int): (c: char)
    requires 0 <= d < 16
  {
    if d < 10 then DigitChar(d) else ('a' as int + d - 10) as char
  }

  /** The character `repr` writes for code point `c` inside quotes `q`. */
  function EscapeCode(c: int, q: char): string
    requires 0 <= c < 256
  {
    if c == '\\' as int then "\\\\"
    else if c == q as int then ['\\', q]
    else if c == '\t' as int then "\\t"
    else if c == '\n' as int then "\\n"
    else if c == '\r' as int then "\\r"
    else if c < 32 || c == 127 then ['\\', 'x', HexLower(c / 16), HexLower(c % 16)]
    else [c as char]
  }

  function EscapeText(s: string, q: char): string
    decreases |s|
  {
    if s == [] then []
    else (if s[0] as int < 128 then EscapeCode(s[0] as int, q) else [s[0]]) + EscapeText(s[1..], q)
  }

  function EscapeBytes(bs: seq<Byte>, q: char): string
    decreases |bs|
  {
    if bs == [] then []
    else (if bs[0] < 128 then EscapeCode(bs[0], q) else ['\\', 'x', HexLower(bs[0] / 16), HexLower(bs[0] % 16)])
         + EscapeBytes(bs[1..], q)
  }

  /** `repr(s)` for a string: double quotes only when the text holds a single
      quote and no double quote. */
  function StrRepr(s: string): (r: string)
    ensures |r| >= 2
  {
    var q := if '\'' in s && '"' !in s then '"' else '\'';
    [q] + EscapeText(s, q) + [q]
  }

  /** `repr(b)` for a bytes object. */
  function BytesRepr(bs: seq<Byte>): string {
    var q := if '\'' as int in bs && '"' as int !in bs then '"' else '\'';
    "b" + [q] + EscapeBytes(bs, q) + [q]
  }

  /** Printable ASCII other than quote and backslash: `repr` leaves it alone. */
  predicate PlainChar(c: char) {
    ' ' <= c <= '~' && c != '\'' && c != '\\'
  }

  lemma {:induction false} EscapePlainText(s: string, q: char)
    requires forall i :: 0 <= i < |s| ==> PlainChar(s[i]) && s[i] != q
    ensures EscapeText(s, q) == s
    decreases |s|
  {
    if s != [] {
      EscapePlainText(s[1..], q);
      assert [s[0]] + s[1..] == s;
    }
  }

  /** `repr` of a string of plain characters is that string in single quotes. */
  lemma ReprOfPlainString(s: string)
    requires forall i :: 0 <= i < |s| ==> PlainChar(s[i])
    ensures StrRepr(s) == "'" + s + "'"
  {
    assert forall i :: 0 <= i < |s| ==> s[i] != '\'';
    EscapePlainText(s, '\'');
  }

  /** `repr(v)`. */
  function Repr(v: PyValue): string
    decreases v
  {
    match v
    case PyNone => "None"
    case PyBool(b) => if b then "True" else "False"
    case PyInt(i) => IntToDecimal(i)
    case PyStr(s) => StrRepr(s)
    case PyBytes(bs) => BytesRepr(bs)
    case PyList(items) =>
      "[" + Join(", ", seq(|items|, k requires 0 <= k < |items| => Repr(items[k]))) + "]"
    case PyTuple(items) =>
      if |items| == 1 then "(" + Repr(items[0]) + ",)"
      else "(" + Join(", ", seq(|items|, k requires 0 <= k < |items| => Repr(items[k]))) + ")"
    case PyDict(entries) =>
      "{" + Join(", ", seq(|entries|, k requires 0 <= k < |entries| =>
                             StrRepr(entries[k].0) + ": " + Repr(entries[k].1))) + "}"
    case PyDate(_, _, _, reprText) => reprText
    case PyObject(_, _, reprText, _) => reprText
  }

  /** `str(v)`: strings are themselves, containers and bytes use `repr`. */
  function Str(v: PyValue): string {
    match v
    case PyStr(s) => s
    case PyDate(_, _, text, _) => text
    case PyObject(_, text, _, _) => text
    case _ => Repr(v)
  }

  // ---------------------------------------------------------------- lookups

  /** The keys of a dict are distinct, as in Python. */
  predicate DistinctKeys(entries: seq<(string, PyValue)>) {
    forall i, j :: 0 <= i < j < |entries| ==> entries[i].0 != entries[j].0
  }

  function DictLookup(entries: seq<(string, PyValue)>, key: string): Option<PyValue>
    decreases |entries|
  {
    if entries == [] then None
    else if entries[0].0 == key then Some(entries[0].1)
    else DictLookup(entries[1..], key)
  }

  datatype Option<+T> = None | Some(value: T)

  /** An integer usable as a sequence index (`bool` is a subclass of `int`). */
  function AsIndex(key: PyValue): Option<int> {
    match key
    case PyInt(i) => Some(i)
    case PyBool(b) => Some(if b then 1 else 0)
    case _ => None
  }

  /** Resolves a possibly negative index against a length. */
  function Position(i: int, n: nat): Option<nat> {
    var j := if i < 0 then i + n else i;
    if 0 <= j < n then Some(j) else None
  }

  /** `container[key]`. Missing keys and indices raise lookup errors; the wrong
      kind of key or an unsubscriptable container raises `TypeError`. */
  function GetItem(container: PyValue, key: PyValue): (r: Result<PyValue>)
    ensures container.PyDict? && key.PyStr? ==>
              (r.Success? <==> DictLookup(container.entries, key.s).Some?)
    ensures r.Failure? && r.error.IsLookupError() ==>
              container.PyDict? || container.PyList? || container.PyTuple? ||
              container.PyStr? || container.PyBytes?
    ensures r.Failure? ==> r.error == TypeError || r.error.IsLookupError()
  {
    match container
    case PyDict(entries) =>
      if key.PyList? || key.PyDict? then Failure(TypeError)
      else if key.PyStr? && DictLookup(entries, key.s).Some? then Success(DictLookup(entries, key.s).value)
      else Failure(KeyError)
    case PyList(items) => IndexInto(items, key)
    case PyTuple(items) => IndexInto(items, key)
    case PyStr(s) =>
      (match AsIndex(key)
       case None => Failure(TypeError)
       case Some(i) =>
         (match Position(i, |s|)
          case None => Failure(IndexError)
          case Some(j) => Success(PyStr([s[j]]))))
    case PyBytes(bs) =>
      (match AsIndex(key)
       case None => Failure(TypeError)
       case Some(i) =>
         (match Position(i, |bs|)
          case None => Failure(IndexError)
          case Some(j) => Success(PyInt(bs[j]))))
    case _ => Failure(TypeError)
  }

  function IndexInto(items: seq<PyValue>, key: PyValue): (r: Result<PyValue>)
    ensures r.Failure? ==> r.error == TypeError || r.error == IndexError
  {
    match AsIndex(key)
    case None => Failure(TypeError)
    case Some(i) =>
      match Position(i, |items|)
      case None => Failure(IndexError)
      case Some(j) => Success(items[j])
  }

  /** Whether `needle` occurs in `s` as a contiguous run. */
  predicate IsSubstring(needle: string, s: string) {
    exists i :: 0 <= i <= |s| && needle <= s[i..]
  }

  /** `needle in container` for a string `needle`: a key of a dict, an element
      of a list, tuple or iterable object, a substring of a string; anything
      else raises `TypeError`. */
  function Contains(container: PyValue, needle: string): Result<bool> {
    match container
    case PyDict(entries) => Success(DictLookup(entries, needle).Some?)
    case PyList(items) => Success(PyStr(needle) in items)
    case PyTuple(items) => Success(PyStr(needle) in items)
    case PyStr(s) => Success(IsSubstring(needle, s))
    case PyObject(_, _, _, Some(elements)) => Success(PyStr(needle) in elements)
    case _ => Failure(TypeError)
  }

  /** `container.get(key)`: only dicts have the method. */
  function DictGet(container: PyValue, key: string): Result<PyValue> {
    match container
    case PyDict(entries) =>
      Success(if DictLookup(entries, key).Some? then DictLookup(entries, key).value else PyNone)
    case _ => Failure(AttributeError)
  }

  /** Every element is a `str`. */
  predicate AllStr(items: seq<PyValue>) {
    forall i :: 0 <= i < |items| ==> items[i].PyStr?
  }

  function Texts(items: seq<PyValue>): (r: seq<string>)
    requires AllStr(items)
    ensures |r| == |items|
  {
    seq(|items|, i requires 0 <= i < |items| => items[i].s)
  }

  /** `sep.join(items)`: only strings can be joined. */
  function JoinStrs(sep: string, items: seq<PyValue>): (r: Result<string>)
    ensures r.Success? <==> AllStr(items)
    ensures r.Failure? ==> r.error == TypeError
  {
    if AllStr(items) then Success(Join(sep, Texts(items))) else Failure(TypeError)
  }

  /** `list(filter(None, vs))`: the truthy values, in order. */
  function FilterTruthy(vs: seq<PyValue>): (r: seq<PyValue>)
    ensures |r| <= |vs|
    ensures forall v :: v in r <==> v in vs && Truthy(v)
    decreases |vs|
  {
    if vs == [] then []
    else (if Truthy(vs[0]) then [vs[0]] else []) + FilterTruthy(vs[1..])
  }

  /** Filtering distributes over concatenation: the truthy values of each half
      stay in their order, those of the first half before those of the second. */
  lemma {:induction false} FilterTruthyAppend(a: seq<PyValue>, b: seq<PyValue>)
    ensures FilterTruthy(a + b) == FilterTruthy(a) + FilterTruthy(b)
    decreases |a|
  {
    if a == [] {
      assert a + b == b;
    } else {
      assert (a + b)[1..] == a[1..] + b;
      FilterTruthyAppend(a[1..], b);
    }
  }

  /** One value is kept exactly when it is truthy. With `FilterTruthyAppend`
      this fixes the result of every list: each truthy value once per
      occurrence, in order. */
  lemma FilterTruthyOne(v: PyValue)
    ensures FilterTruthy([v]) == (if Truthy(v) then [v] else [])
  {
    assert [v][1..] == [];
  }

  /** A value occurs in the result as often as it does in the input when it is
      truthy, and not at all otherwise. */
  lemma {:induction false} FilterTruthyCount(vs: seq<PyValue>, v: PyValue)
    ensures multiset(FilterTruthy(vs))[v] == if Truthy(v) then multiset(vs)[v] else 0
    decreases |vs|
  {
    if vs != [] {
      assert vs == [vs[0]] + vs[1..];
      FilterTruthyCount(vs[1..], v);
    }
  }

  /** `list(v)`: the elements a `for` loop over `v` visits. */
  function Iterate(v: PyValue): (r: Result<seq<PyValue>>)
    ensures (v.PyList? || v.PyTuple?) ==> r == Success(v.items)
    ensures v.PyObject? ==> (r.Success? <==> v.elements.Some?) && (r.Success? ==> r.value == v.elements.value)
    ensures r.Failure? <==> v.PyNone? || v.PyBool? || v.PyInt? || v.PyDate? || (v.PyObject? && v.elements.None?)
    ensures r.Failure? ==> r.error == TypeError
  {
    match v
    case PyList(items) => Success(items)
    case PyTuple(items) => Success(items)
    case PyDict(entries) => Success(seq(|entries|, k requires 0 <= k < |entries| => PyStr(entries[k].0)))
    case PyStr(s) => Success(seq(|s|, k requires 0 <= k < |s| => PyStr([s[k]])))
    case PyBytes(bs) => Success(seq(|bs|, k requires 0 <= k < |bs| => PyInt(bs[k])))
    case PyObject(_, _, _, Some(elements)) => Success(elements)
    case _ => Failure(TypeError)
  }
}
