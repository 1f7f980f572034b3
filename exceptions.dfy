/** The exceptions of `elasticsearch/exceptions.py`: the class hierarchy, the
    positional accessors of `TransportError`, how each class renders with
    `str()`, and the map from HTTP status codes to exception classes. */
module Exceptions {
  import opened PyValues
  import opened Strings

  // ================================================================ hierarchy

  /** The exception classes the package defines. */
  datatype ErrorClass =
    | ImproperlyConfigured
    | ElasticsearchException
    | SerializationError
    | UnsupportedProductError
    | TransportError
    | ConnectionError
    | SSLError
    | ConnectionTimeout
    | NotFoundError
    | ConflictError
    | RequestError
    | AuthenticationException
    | AuthorizationException

  /** The number of package classes above `c`. */
  function Depth(c: ErrorClass): nat {
    match c
    case ImproperlyConfigured => 0
    case ElasticsearchException => 0
    case SerializationError => 1
    case UnsupportedProductError => 1
    case TransportError => 1
    case SSLError => 3
    case ConnectionTimeout => 3
    case _ => 2
  }

  /** The base class `c` is declared with; `None` when it is the built-in `Exception`. */
  function Parent(c: ErrorClass): (p: Option<ErrorClass>)
    ensures p.Some? ==> Depth(p.value) + 1 == Depth(c)
    ensures p.None? <==> Depth(c) == 0
  {
    match c
    case ImproperlyConfigured => None
    case ElasticsearchException => None
    case SerializationError => Some(ElasticsearchException)
    case UnsupportedProductError => Some(ElasticsearchException)
    case TransportError => Some(ElasticsearchException)
    case ConnectionError => Some(TransportError)
    case SSLError => Some(ConnectionError)
    case ConnectionTimeout => Some(ConnectionError)
    case NotFoundError => Some(TransportError)
    case ConflictError => Some(TransportError)
    case RequestError => Some(TransportError)
    case AuthenticationException => Some(TransportError)
    case AuthorizationException => Some(TransportError)
  }

  /** `issubclass(a, b)`: `b` is `a` or one of its ancestors. */
  predicate IsSubclass(a: ErrorClass, b: ErrorClass)
    decreases Depth(a)
  {
    a == b || (Parent(a).Some? && IsSubclass(Parent(a).value, b))
  }

  /** `cls.__name__`. */
  function Name(c: ErrorClass): string {
    match c
    case ImproperlyConfigured => "ImproperlyConfigured"
    case ElasticsearchException => "ElasticsearchException"
    case SerializationError => "SerializationError"
    case UnsupportedProductError => "UnsupportedProductError"
    case TransportError => "TransportError"
    case ConnectionError => "ConnectionError"
    case SSLError => "SSLError"
    case ConnectionTimeout => "ConnectionTimeout"
    case NotFoundError => "NotFoundError"
    case ConflictError => "ConflictError"
    case RequestError => "RequestError"
    case AuthenticationException => "AuthenticationException"
    case AuthorizationException => "AuthorizationException"
  }

  /** The classes raised for particular HTTP status codes. */
  const StatusErrors: set<ErrorClass> :=
    {NotFoundError, ConflictError, RequestError, AuthenticationException, AuthorizationException}

  /** The classes raised when talking to the server fails. */
  const ConnectionErrors: set<ErrorClass> := {ConnectionError, SSLError, ConnectionTimeout}

  /** `except TransportError` catches exactly `TransportError`, the connection
      errors and the status-specific errors. */
  lemma TransportErrorFamily(c: ErrorClass)
    ensures IsSubclass(c, TransportError) <==> c == TransportError || c in ConnectionErrors || c in StatusErrors
  {
    if c in StatusErrors || c == ConnectionError {
      DirectTransportError(c);
    } else if c == SSLError || c == ConnectionTimeout {
      BelowConnectionError(c);
    } else if c != TransportError {
      OutsideTransportError(c);
    }
  }

  lemma DirectTransportError(c: ErrorClass)
    requires c in StatusErrors || c == ConnectionError
    ensures IsSubclass(c, TransportError)
  {
    assert Parent(c) == Some(TransportError);
  }

  lemma BelowConnectionError(c: ErrorClass)
    requires c == SSLError || c == ConnectionTimeout
    ensures IsSubclass(c, TransportError)
  {
    assert Parent(c) == Some(ConnectionError);
    assert IsSubclass(ConnectionError, TransportError);
  }

  /** The classes above `TransportError` and beside it are not transport errors. */
  lemma OutsideTransportError(c: ErrorClass)
    requires c != TransportError && c !in ConnectionErrors && c !in StatusErrors
    ensures !IsSubclass(c, TransportError)
  {
    assert !IsSubclass(ElasticsearchException, TransportError);
    assert c == ImproperlyConfigured || Parent(c) == Some(ElasticsearchException) || c == ElasticsearchException;
  }

  /** Every class but `ImproperlyConfigured` derives from `ElasticsearchException`. */
  lemma ElasticsearchExceptionFamily(c: ErrorClass)
    ensures IsSubclass(c, ElasticsearchException) <==> c != ImproperlyConfigured
  {
    if Depth(c) >= 2 {
      assert IsSubclass(TransportError, ElasticsearchException);
      if Depth(c) == 3 {
        assert IsSubclass(ConnectionError, ElasticsearchException);
      }
    }
  }

  /** `except ConnectionError` catches `SSLError` and `ConnectionTimeout`, and no status error. */
  lemma ConnectionErrorFamily(c: ErrorClass)
    ensures IsSubclass(c, ConnectionError) <==> c in ConnectionErrors
  {
  }

  /** No class derives from `ConnectionTimeout`. */
  lemma ConnectionTimeoutIsALeaf(c: ErrorClass)
    ensures IsSubclass(c, ConnectionTimeout) <==> c == ConnectionTimeout
  {
    if c != ConnectionTimeout && Parent(c).Some? {
      var p := Parent(c).value;
      assert p != ConnectionTimeout;
      if Parent(p).Some? {
        var q := Parent(p).value;
        assert q != ConnectionTimeout && (Parent(q).Some? ==> Parent(q).value != ConnectionTimeout);
      }
    }
  }

  /** A handler for `TransportError` catches a `NotFoundError`. */
  lemma TransportErrorCatchesNotFound()
    ensures IsSubclass(NotFoundError, TransportError)
    ensures !IsSubclass(TransportError, NotFoundError)
  {
  }

  // ================================================================ HTTP_EXCEPTIONS

  /** `HTTP_EXCEPTIONS`: the class raised for a status code. */
  const HttpExceptions: map<int, ErrorClass> := map[
    400 := RequestError,
    401 := AuthenticationException,
    403 := AuthorizationException,
    404 := NotFoundError,
    409 := ConflictError
  ]

  /** The map has exactly the five codes, is one-to-one onto the status-specific
      errors, and each of its classes is a `TransportError`. */
  lemma HttpExceptionsMap()
    ensures HttpExceptions.Keys == {400, 401, 403, 404, 409}
    ensures HttpExceptions.Values == StatusErrors
    ensures forall s, t :: s in HttpExceptions && t in HttpExceptions && s != t ==> HttpExceptions[s] != HttpExceptions[t]
    ensures forall s :: s in HttpExceptions ==> IsSubclass(HttpExceptions[s], TransportError)
  {
    assert HttpExceptions[400] == RequestError;
    assert HttpExceptions[401] == AuthenticationException;
    assert HttpExceptions[403] == AuthorizationException;
    assert HttpExceptions[404] == NotFoundError;
    assert HttpExceptions[409] == ConflictError;
  }

  // ================================================================ accessors

  /** An exception instance: its class and its `args`. */
  datatype Exc = Exc(cls: ErrorClass, args: seq<PyValue>)

  /** `self.args[i]` read through a `TransportError` property; other classes
      have no such attribute. */
  function Positional(e: Exc, i: nat): (r: Result<PyValue>)
    ensures r.Success? <==> IsSubclass(e.cls, TransportError) && i < |e.args|
    ensures r.Success? ==> r.value == e.args[i]
    ensures r.Failure? ==> r.error == (if IsSubclass(e.cls, TransportError) then IndexError else AttributeError)
  {
    if !IsSubclass(e.cls, TransportError) then Failure(AttributeError)
    else if i < |e.args| then Success(e.args[i])
    else Failure(IndexError)
  }

  /** `TransportError.status_code`: the first argument. */
  function StatusCode(e: Exc): Result<PyValue> {
    Positional(e, 0)
  }

  /** `TransportError.error`: the second argument. */
  function Error(e: Exc): Result<PyValue> {
    Positional(e, 1)
  }

  /** `TransportError.info`: the third argument. */
  function Info(e: Exc): Result<PyValue> {
    Positional(e, 2)
  }

  /** The properties read the first, second and third positional arguments, and
      raise `IndexError` when there are fewer. */
  lemma AccessorsArePositional(c: ErrorClass, args: seq<PyValue>)
    requires IsSubclass(c, TransportError)
    ensures StatusCode(Exc(c, args)) == if |args| >= 1 then Success(args[0]) else Failure(IndexError)
    ensures Error(Exc(c, args)) == if |args| >= 2 then Success(args[1]) else Failure(IndexError)
    ensures Info(Exc(c, args)) == if |args| >= 3 then Success(args[2]) else Failure(IndexError)
  {
  }

  // ================================================================ __str__

  /** The body of the `try` block in `TransportError.__str__`: the cause taken
      from `info`, or the exception the lookups raised. */
  function CauseAttempt(e: Exc): Result<string>
    requires IsSubclass(e.cls, TransportError)
  {
    var info :- Info(e);
    CauseFromInfo(info)
  }

  /** The lookups into `info`: nothing unless it is truthy and holds `"error"`. */
  function CauseFromInfo(info: PyValue): Result<string> {
    if !Truthy(info) then Success("")
    else
      var hasError :- Contains(info, "error");
      if !hasError then Success("")
      else
        var error :- GetItem(info, PyStr("error"));
        if error.PyDict? then RootCauseText(error) else Success(Repr(error))
  }

  /** The cause read from `error["root_cause"][0]`: its quoted reason, then its
      truthy `resource.id` and `resource.type`. */
  function RootCauseText(error: PyValue): Result<string> {
    var causes :- GetItem(error, PyStr("root_cause"));
    var rootCause :- GetItem(causes, PyInt(0));
    var reason :- GetItem(rootCause, PyStr("reason"));
    var resourceId :- DictGet(rootCause, "resource.id");
    var resourceType :- DictGet(rootCause, "resource.type");
    JoinStrs(", ", FilterTruthy([PyStr(Repr(reason)), resourceId, resourceType]))
  }

  /** The cause after `except LookupError: pass`: a missing key or index leaves it empty. */
  function Cause(e: Exc): (r: Result<string>)
    requires IsSubclass(e.cls, TransportError)
    ensures r.Failure? ==> r.error == TypeError || r.error == AttributeError
    ensures CauseAttempt(e).Success? ==> r == CauseAttempt(e)
    ensures CauseAttempt(e).Failure? && CauseAttempt(e).error.IsLookupError() ==> r == Success("")
    ensures CauseAttempt(e).Failure? && !CauseAttempt(e).error.IsLookupError() ==> r == CauseAttempt(e)
  {
    match CauseAttempt(e)
    case Failure(err) => if err.IsLookupError() then Success("") else Failure(err)
    case Success(c) => Success(c)
  }

  /** `filter(None, strings)`: the non-empty strings, in order. */
  function NonEmpty(ss: seq<string>): (r: seq<string>)
    ensures forall s :: s in r <==> s in ss && s != ""
    decreases |ss|
  {
    if ss == [] then [] else (if ss[0] != "" then [ss[0]] else []) + NonEmpty(ss[1..])
  }

  /** `TransportError.__str__`. */
  function TransportErrorStr(e: Exc): (r: Result<string>)
    requires IsSubclass(e.cls, TransportError)
    ensures r.Success? <==> |e.args| >= 2 && Cause(e).Success?
    ensures r.Failure? ==> r.error == TypeError || r.error == AttributeError || (r.error == IndexError && |e.args| < 2)
    ensures r.Success? ==> |r.value| > |Name(e.cls)| + 1 && r.value[..|Name(e.cls)| + 1] == Name(e.cls) + "("
  {
    var cause :- Cause(e);
    var status :- StatusCode(e);
    var error :- Error(e);
    var msg := Join(", ", NonEmpty([Str(status), Repr(error), cause]));
    assert (Name(e.cls) + "(" + msg + ")")[..|Name(e.cls)| + 1] == Name(e.cls) + "(";
    Success(Name(e.cls) + "(" + msg + ")")
  }

  /** `ConnectionError.__str__`, which `SSLError` inherits with its fixed name. */
  function ConnectionErrorStr(e: Exc): (r: Result<string>)
    requires IsSubclass(e.cls, TransportError)
    ensures r.Success? <==> |e.args| >= 3
    ensures r.Failure? ==> r.error == IndexError
  {
    var error :- Error(e);
    var info :- Info(e);
    Success("ConnectionError(" + Str(error) + ") caused by: " + ClassName(info) + "(" + Str(info) + ")")
  }

  /** `ConnectionTimeout.__str__`. */
  function ConnectionTimeoutStr(e: Exc): (r: Result<string>)
    requires IsSubclass(e.cls, TransportError)
    ensures r.Success? <==> |e.args| >= 3
    ensures r.Failure? ==> r.error == IndexError
  {
    var info :- Info(e);
    Success("ConnectionTimeout caused by - " + ClassName(info) + "(" + Str(info) + ")")
  }

  /** `BaseException.__str__`: empty without arguments, the argument's `str()`
      with one, the `repr()` of the argument tuple otherwise. */
  function BaseStr(args: seq<PyValue>): string {
    if |args| == 0 then "" else if |args| == 1 then Str(args[0]) else Repr(PyTuple(args))
  }

  /** `str(e)`: the `__str__` of the nearest class that defines one. */
  function ExcStr(e: Exc): (r: Result<string>)
    ensures e.cls in {ConnectionError, SSLError} ==> r == ConnectionErrorStr(e)
    ensures e.cls == ConnectionTimeout ==> r == ConnectionTimeoutStr(e)
    ensures e.cls == TransportError || e.cls in StatusErrors ==> r == TransportErrorStr(e)
    ensures !IsSubclass(e.cls, TransportError) ==> r == Success(BaseStr(e.args))
  {
    TransportErrorFamily(e.cls);
    ConnectionErrorFamily(e.cls);
    ConnectionTimeoutIsALeaf(e.cls);
    if IsSubclass(e.cls, ConnectionTimeout) then ConnectionTimeoutStr(e)
    else if IsSubclass(e.cls, ConnectionError) then ConnectionErrorStr(e)
    else if IsSubclass(e.cls, TransportError) then TransportErrorStr(e)
    else Success(BaseStr(e.args))
  }

  /** An `SSLError` renders exactly as a `ConnectionError` with the same arguments,
      name included. */
  lemma SslErrorRendersAsConnectionError(args: seq<PyValue>)
    ensures ExcStr(Exc(SSLError, args)) == ExcStr(Exc(ConnectionError, args))
  {
  }

  /** A `ConnectionError` (or `SSLError`) with error and info renders as
      `ConnectionError(<error>) caused by: <InfoClass>(<info>)`, and a
      `ConnectionTimeout` as `ConnectionTimeout caused by - <InfoClass>(<info>)`. */
  lemma ConnectionMessages(c: ErrorClass, status: PyValue, error: PyValue, info: PyValue)
    requires c in ConnectionErrors
    ensures var r := ExcStr(Exc(c, [status, error, info]));
      && (c != ConnectionTimeout ==>
            r == Success("ConnectionError(" + Str(error) + ") caused by: " + ClassName(info) + "(" + Str(info) + ")"))
      && (c == ConnectionTimeout ==>
            r == Success("ConnectionTimeout caused by - " + ClassName(info) + "(" + Str(info) + ")"))
  {
    TransportErrorFamily(c);
  }

  /** The message of a status error is its name around the status, the quoted
      error and, when there is one, the cause, separated by `, `. */
  lemma MessageOf(e: Exc, status: nat, error: string, cause: string)
    requires IsSubclass(e.cls, TransportError)
    requires |e.args| >= 2 && e.args[0] == PyInt(status) && e.args[1] == PyStr(error)
    requires Cause(e) == Success(cause)
    ensures TransportErrorStr(e) ==
              Success(Name(e.cls) + "(" + Join(", ", [NatToDecimal(status), StrRepr(error)] + (if cause != "" then [cause] else [])) + ")")
  {
    var a, b := NatToDecimal(status), StrRepr(error);
    assert Str(e.args[0]) == a;
    assert Repr(e.args[1]) == b;
    NonEmptyCons(a, [b, cause]);
    NonEmptyCons(b, [cause]);
    NonEmptyCons(cause, []);
    assert [a] + [b, cause] == [a, b, cause] && [b] + [cause] == [b, cause] && [cause] + [] == [cause];
    assert NonEmpty([a, b, cause]) == [a, b] + (if cause != "" then [cause] else []);
  }

  /** A connection failure carries the status `'N/A'`, which `str()` shows
      without quotes where an HTTP status would show its number. */
  lemma MessageWithUnknownStatus(e: Exc, error: string, cause: string)
    requires IsSubclass(e.cls, TransportError)
    requires |e.args| >= 2 && e.args[0] == PyStr("N/A") && e.args[1] == PyStr(error)
    requires Cause(e) == Success(cause)
    ensures TransportErrorStr(e) ==
              Success(Name(e.cls) + "(" + Join(", ", ["N/A", StrRepr(error)] + (if cause != "" then [cause] else [])) + ")")
  {
    var a, b := "N/A", StrRepr(error);
    assert Str(e.args[0]) == a;
    assert Repr(e.args[1]) == b;
    NonEmptyCons(a, [b, cause]);
    NonEmptyCons(b, [cause]);
    NonEmptyCons(cause, []);
    assert [a] + [b, cause] == [a, b, cause] && [b] + [cause] == [b, cause] && [cause] + [] == [cause];
    assert NonEmpty([a, b, cause]) == [a, b] + (if cause != "" then [cause] else []);
  }

  lemma NonEmptyCons(x: string, rest: seq<string>)
    ensures NonEmpty([x] + rest) == (if x != "" then [x] else []) + NonEmpty(rest)
  {
    assert ([x] + rest)[1..] == rest;
  }

  /** With fewer than three arguments there is no `info` to look into: the
      message holds the status and the quoted error only. */
  lemma MessageWithoutInfo(c: ErrorClass, status: nat, error: string)
    requires c == TransportError || c in StatusErrors
    ensures ExcStr(Exc(c, [PyInt(status), PyStr(error)])) ==
              Success(Name(c) + "(" + Join(", ", [NatToDecimal(status), StrRepr(error)]) + ")")
  {
    TransportErrorFamily(c);
    var e := Exc(c, [PyInt(status), PyStr(error)]);
    assert CauseAttempt(e) == Failure(IndexError);
    MessageOf(e, status, error, "");
    assert [NatToDecimal(status), StrRepr(error)] + [] == [NatToDecimal(status), StrRepr(error)];
  }

  /** Missing lookups never raise: when the root cause cannot be found (no
      `root_cause`, or an empty one) the message is as if there were no info. */
  lemma MessageWithoutRootCause(c: ErrorClass, status: nat, error: string,
                                info: seq<(string, PyValue)>, details: seq<(string, PyValue)>)
    requires c == TransportError || c in StatusErrors
    requires DictLookup(info, "error") == Some(PyDict(details))
    requires DictLookup(details, "root_cause") == None || DictLookup(details, "root_cause") == Some(PyList([]))
    ensures ExcStr(Exc(c, [PyInt(status), PyStr(error), PyDict(info)])) ==
              ExcStr(Exc(c, [PyInt(status), PyStr(error)]))
  {
    TransportErrorFamily(c);
    var e := Exc(c, [PyInt(status), PyStr(error), PyDict(info)]);
    assert Info(e) == Success(PyDict(info));
    assert Contains(PyDict(info), "error") == Success(true);
    assert GetItem(PyDict(info), PyStr("error")) == Success(PyDict(details));
    assert RootCauseText(PyDict(details)).Failure? && RootCauseText(PyDict(details)).error.IsLookupError();
    assert CauseAttempt(e).Failure? && CauseAttempt(e).error.IsLookupError();
    MessageOf(e, status, error, "");
    MessageWithoutInfo(c, status, error);
    assert [NatToDecimal(status), StrRepr(error)] + [] == [NatToDecimal(status), StrRepr(error)];
  }

  /** When `info["error"]` is not a dict, the cause is its `repr()`, whatever
      kind of value it is. */
  lemma MessageWithPlainError(c: ErrorClass, status: nat, error: string,
                              info: seq<(string, PyValue)>, detail: PyValue)
    requires c == TransportError || c in StatusErrors
    requires DictLookup(info, "error") == Some(detail) && !detail.PyDict?
    ensures ExcStr(Exc(c, [PyInt(status), PyStr(error), PyDict(info)])) ==
              Success(Name(c) + "(" + Join(", ", [NatToDecimal(status), StrRepr(error)] +
                                                 (if Repr(detail) != "" then [Repr(detail)] else [])) + ")")
  {
    TransportErrorFamily(c);
    var e := Exc(c, [PyInt(status), PyStr(error), PyDict(info)]);
    assert Info(e) == Success(PyDict(info));
    assert Contains(PyDict(info), "error") == Success(true);
    assert CauseFromInfo(PyDict(info)) == Success(Repr(detail));
    MessageOf(e, status, error, Repr(detail));
  }

  /** `[v.s]` for a non-empty string, nothing for an empty one or `None`. */
  function Extra(v: PyValue): seq<string> {
    if v.PyStr? && v.s != "" then [v.s] else []
  }

  /** `root_cause.get(key)`. */
  function Get(entries: seq<(string, PyValue)>, key: string): PyValue {
    var o := DictLookup(entries, key);
    if o.Some? then o.value else PyNone
  }

  /** The lookups of the `try` block reach `info["error"]["root_cause"][0]`. */
  lemma RootCauseReached(details: seq<(string, PyValue)>, causes: seq<PyValue>,
                         rootCause: seq<(string, PyValue)>, reason: PyValue)
    requires DictLookup(details, "root_cause") == Some(PyList(causes))
    requires |causes| >= 1 && causes[0] == PyDict(rootCause)
    requires DictLookup(rootCause, "reason") == Some(reason)
    ensures RootCauseText(PyDict(details)) ==
              JoinStrs(", ", FilterTruthy([PyStr(Repr(reason)), Get(rootCause, "resource.id"), Get(rootCause, "resource.type")]))
  {
    assert GetItem(PyDict(details), PyStr("root_cause")) == Success(PyList(causes));
    assert GetItem(PyList(causes), PyInt(0)) == Success(PyDict(rootCause));
    assert GetItem(PyDict(rootCause), PyStr("reason")) == Success(reason);
  }

  /** When `info["error"]["root_cause"][0]` is a dict with a `reason`, the cause is
      the quoted reason followed by any non-empty `resource.id` and `resource.type`. */
  lemma MessageWithRootCause(c: ErrorClass, status: nat, error: string,
                             info: seq<(string, PyValue)>, details: seq<(string, PyValue)>,
                             causes: seq<PyValue>, rootCause: seq<(string, PyValue)>, reason: string)
    requires c == TransportError || c in StatusErrors
    requires DictLookup(info, "error") == Some(PyDict(details))
    requires DictLookup(details, "root_cause") == Some(PyList(causes))
    requires |causes| >= 1 && causes[0] == PyDict(rootCause)
    requires DictLookup(rootCause, "reason") == Some(PyStr(reason))
    requires Get(rootCause, "resource.id") == PyNone || Get(rootCause, "resource.id").PyStr?
    requires Get(rootCause, "resource.type") == PyNone || Get(rootCause, "resource.type").PyStr?
    ensures ExcStr(Exc(c, [PyInt(status), PyStr(error), PyDict(info)])) ==
              Success(Name(c) + "(" + Join(", ", [NatToDecimal(status), StrRepr(error),
                        Join(", ", [StrRepr(reason)] + Extra(Get(rootCause, "resource.id"))
                                                     + Extra(Get(rootCause, "resource.type")))]) + ")")
  {
    TransportErrorFamily(c);
    var e := Exc(c, [PyInt(status), PyStr(error), PyDict(info)]);
    var id, ty := Get(rootCause, "resource.id"), Get(rootCause, "resource.type");
    var cause := Join(", ", [StrRepr(reason)] + Extra(id) + Extra(ty));
    RootCauseFromInfo(info, details, causes, rootCause, reason);
    assert Info(e) == Success(PyDict(info));
    assert Cause(e) == Success(cause);
    JoinNonEmpty([StrRepr(reason)] + Extra(id) + Extra(ty), ", ");
    MessageOf(e, status, error, cause);
  }

  lemma RootCauseFromInfo(info: seq<(string, PyValue)>, details: seq<(string, PyValue)>,
                          causes: seq<PyValue>, rootCause: seq<(string, PyValue)>, reason: string)
    requires DictLookup(info, "error") == Some(PyDict(details))
    requires DictLookup(details, "root_cause") == Some(PyList(causes))
    requires |causes| >= 1 && causes[0] == PyDict(rootCause)
    requires DictLookup(rootCause, "reason") == Some(PyStr(reason))
    requires Get(rootCause, "resource.id") == PyNone || Get(rootCause, "resource.id").PyStr?
    requires Get(rootCause, "resource.type") == PyNone || Get(rootCause, "resource.type").PyStr?
    ensures CauseFromInfo(PyDict(info)) ==
              Success(Join(", ", [StrRepr(reason)] + Extra(Get(rootCause, "resource.id"))
                                                   + Extra(Get(rootCause, "resource.type"))))
  {
    RootCauseReached(details, causes, rootCause, PyStr(reason));
    CauseText(StrRepr(reason), Get(rootCause, "resource.id"), Get(rootCause, "resource.type"));
    assert Contains(PyDict(info), "error") == Success(true);
    assert GetItem(PyDict(info), PyStr("error")) == Success(PyDict(details));
  }

  /** A join whose first part is non-empty is non-empty. */
  lemma JoinNonEmpty(parts: seq<string>, sep: string)
    requires |parts| >= 1 && parts[0] != ""
    ensures Join(sep, parts) != ""
  {
  }

  /** `", ".join(filter(None, [reason, id, ty]))` for a non-empty reason and
      string-or-`None` extras. */
  lemma CauseText(reason: string, id: PyValue, ty: PyValue)
    requires reason != ""
    requires id == PyNone || id.PyStr?
    requires ty == PyNone || ty.PyStr?
    ensures JoinStrs(", ", FilterTruthy([PyStr(reason), id, ty])) ==
              Success(Join(", ", [reason] + Extra(id) + Extra(ty)))
  {
    var idPart, tyPart := (if Truthy(id) then [id] else []), (if Truthy(ty) then [ty] else []);
    FilterThree(PyStr(reason), id, ty);
    TextsOfPart(id);
    TextsOfPart(ty);
    assert Texts([PyStr(reason)]) == [reason];
    TextsConcat([PyStr(reason)], idPart);
    TextsConcat([PyStr(reason)] + idPart, tyPart);
  }

  /** `filter(None, [a, b, c])` for a truthy `a`. */
  lemma FilterThree(a: PyValue, b: PyValue, c: PyValue)
    requires Truthy(a)
    ensures FilterTruthy([a, b, c]) == [a] + (if Truthy(b) then [b] else []) + (if Truthy(c) then [c] else [])
  {
    var bPart, cPart := (if Truthy(b) then [b] else []), (if Truthy(c) then [c] else []);
    assert [c][1..] == [];
    assert FilterTruthy([c]) == cPart + FilterTruthy([]);
    assert [b, c][1..] == [c];
    assert FilterTruthy([b, c]) == bPart + cPart;
    assert [a, b, c][1..] == [b, c];
    assert FilterTruthy([a, b, c]) == [a] + (bPart + cPart);
  }

  lemma TextsOfPart(v: PyValue)
    requires v == PyNone || v.PyStr?
    ensures AllStr(if Truthy(v) then [v] else [])
    ensures Texts(if Truthy(v) then [v] else []) == Extra(v)
  {
  }

  lemma TextsConcat(a: seq<PyValue>, b: seq<PyValue>)
    requires AllStr(a) && AllStr(b)
    ensures AllStr(a + b) && Texts(a + b) == Texts(a) + Texts(b)
  {
  }

  lemma JoinThree(a: string, b: string, c: string)
    ensures Join(", ", [a, b, c]) == a + ", " + (b + ", " + c)
  {
    assert [a, b, c][1..] == [b, c];
    assert [b, c][1..] == [c];
  }

  /** Printable ASCII without quotes or backslashes throughout. */
  predicate AllPlain(s: string) {
    forall i :: 0 <= i < |s| ==> PlainChar(s[i])
  }

  lemma PlainAppend(a: string, b: string)
    requires AllPlain(a) && AllPlain(b)
    ensures AllPlain(a + b)
  {
    assert forall i :: |a| <= i < |a + b| ==> (a + b)[i] == b[i - |a|];
  }

  /** The JSON error body the server sends for a rejected request with one root cause. */
  function ErrorBody(status: nat, kind: string, reason: string): seq<(string, PyValue)> {
    [("error", PyDict(ErrorDetails(kind, reason))), ("status", PyInt(status))]
  }

  /** The body's `error` object. */
  function ErrorDetails(kind: string, reason: string): seq<(string, PyValue)> {
    [("root_cause", PyList([PyDict(RootCause(kind, reason))])), ("type", PyStr(kind)), ("reason", PyStr(reason))]
  }

  /** The one root cause: its type and reason, no resource fields. */
  function RootCause(kind: string, reason: string): seq<(string, PyValue)> {
    [("type", PyStr(kind)), ("reason", PyStr(reason))]
  }

  /** A `RequestError` built from such a body names the status, the error type and
      the reason, each string in single quotes. */
  lemma RequestErrorMessage(kind: string, reason: string)
    requires AllPlain(kind) && AllPlain(reason)
    ensures ExcStr(Exc(RequestError, [PyInt(400), PyStr(kind), PyDict(ErrorBody(400, kind, reason))])) ==
              Success("RequestError" + "(" + "400" + ", " + "'" + kind + "', " + "'" + reason + "'" + ")")
  {
    var e := Exc(RequestError, [PyInt(400), PyStr(kind), PyDict(ErrorBody(400, kind, reason))]);
    RequestErrorParts(kind, reason);
    ReprOfPlainString(reason);
    ReprOfPlainString(kind);
    FourHundred();
    assert Name(RequestError) == "RequestError";
    var parts := [NatToDecimal(400), StrRepr(kind), Join(", ", [StrRepr(reason)])];
    assert parts == ["400", "'" + kind + "'", Join(", ", ["'" + reason + "'"])];
    assert ExcStr(e) == Success("RequestError" + "(" + Join(", ", parts) + ")");
    QuotedMessage("RequestError", "400", kind, reason);
  }

  /** The message of such a `RequestError` as `__str__` assembles it. */
  lemma RequestErrorParts(kind: string, reason: string)
    ensures ExcStr(Exc(RequestError, [PyInt(400), PyStr(kind), PyDict(ErrorBody(400, kind, reason))])) ==
              Success(Name(RequestError) + "(" + Join(", ", [NatToDecimal(400), StrRepr(kind), Join(", ", [StrRepr(reason)])]) + ")")
  {
    var rootCause := RootCause(kind, reason);
    ErrorBodyLookups(kind, reason);
    assert RequestError in StatusErrors;
    MessageWithRootCause(RequestError, 400, kind, ErrorBody(400, kind, reason), ErrorDetails(kind, reason),
                         [PyDict(rootCause)], rootCause, reason);
    var extras := [StrRepr(reason)] + Extra(Get(rootCause, "resource.id")) + Extra(Get(rootCause, "resource.type"));
    assert extras == [StrRepr(reason)];
  }

  /** The lookups `__str__` makes into such a body find the one root cause,
      which has neither `resource.id` nor `resource.type`. */
  lemma ErrorBodyLookups(kind: string, reason: string)
    ensures DictLookup(ErrorBody(400, kind, reason), "error") == Some(PyDict(ErrorDetails(kind, reason)))
    ensures DictLookup(ErrorDetails(kind, reason), "root_cause") == Some(PyList([PyDict(RootCause(kind, reason))]))
    ensures DictLookup(RootCause(kind, reason), "reason") == Some(PyStr(reason))
    ensures Get(RootCause(kind, reason), "resource.id") == PyNone
    ensures Get(RootCause(kind, reason), "resource.type") == PyNone
  {
    var rootCause := RootCause(kind, reason);
    assert rootCause[1..][1..] == [];
    assert DictLookup(rootCause[1..], "resource.id") == None;
    assert DictLookup(rootCause[1..], "resource.type") == None;
  }

  lemma QuotedMessage(name: string, status: string, kind: string, reason: string)
    ensures name + "(" + Join(", ", [status, "'" + kind + "'", Join(", ", ["'" + reason + "'"])]) + ")" ==
              name + "(" + status + ", " + "'" + kind + "', " + "'" + reason + "'" + ")"
  {
    JoinThree(status, "'" + kind + "'", "'" + reason + "'");
  }

  lemma FourHundred()
    ensures NatToDecimal(400) == "400"
  {
    assert NatToDecimal(4) == "4";
    assert NatToDecimal(40) == "40";
  }

  /** The error type and reason of the vector tile request with zoom level -100.
      They are written as concatenations of short pieces so that
      `TileTextsArePlain` can show them plain piece by piece; the verifier
      checks a long literal character by character at a much higher cost. */
  const TileErrorType: string := "illegal_" + "argument_" + "exception"
  const TileReason: string := "Invalid " + "geotile_" + "grid " + "precision " + "of -100. " + "Must be " + "between " + "0 and 29."

  lemma TileTextsArePlain()
    ensures AllPlain(TileErrorType) && AllPlain(TileReason)
  {
    PlainAppend("illegal_", "argument_");
    PlainAppend("illegal_" + "argument_", "exception");
    var p1, p2, p3 := "Invalid ", "geotile_", "grid ";
    var p4, p5, p6 := "precision ", "of -100. ", "Must be ";
    var p7, p8 := "between ", "0 and 29.";
    PlainAppend(p1, p2);
    PlainAppend(p1 + p2, p3);
    PlainAppend(p1 + p2 + p3, p4);
    PlainAppend(p1 + p2 + p3 + p4, p5);
    PlainAppend(p1 + p2 + p3 + p4 + p5, p6);
    PlainAppend(p1 + p2 + p3 + p4 + p5 + p6, p7);
    PlainAppend(p1 + p2 + p3 + p4 + p5 + p6 + p7, p8);
  }

  /** The message the vector tile test expects for its rejected request. */
  lemma RejectedTileRequestMessage()
    ensures ExcStr(Exc(RequestError, [PyInt(400), PyStr(TileErrorType), PyDict(ErrorBody(400, TileErrorType, TileReason))])) ==
              Success("RequestError" + "(" + "400" + ", " + "'" + TileErrorType + "', " + "'" + TileReason + "'" + ")")
  {
    TileTextsArePlain();
    RequestErrorMessage(TileErrorType, TileReason);
  }
}
