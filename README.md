# elasticsearch-py request helpers and exceptions, in Dafny

This project models two modules of the Python Elasticsearch client:

- `elasticsearch/client/utils.py` holds the helpers every API method uses to shape a request:
  - `_escape` turns a URL part or query parameter into bytes;
  - `_make_path` builds the URL path from its parts, skipping the values in `SKIP_IN_PATH`;
  - `_bulk_body` makes sure a bulk body ends with a newline;
  - `_base64_auth_header` builds the credentials of an `Authorization` header;
  - `_normalize_hosts` turns host strings into connection dicts;
  - the `query_params` decorator moves keyword arguments into `params` and `headers`.
- `elasticsearch/exceptions.py` holds the exception hierarchy:
  - the positional accessors `status_code`, `error` and `info` of `TransportError`;
  - the `__str__` methods of `TransportError`, `ConnectionError` and `ConnectionTimeout`;
  - the `HTTP_EXCEPTIONS` map from status codes to classes.

Python values are modelled by `PyValues.PyValue`:
- `None`, booleans, integers, `str`, `bytes`, lists, tuples;
- dicts as ordered key/value pairs;
- dates, which carry their ISO form;
- other objects, which carry their class name, `str()` and `repr()`.

A Python exception raised by the code is a `PyError` inside a `Result`.

The standard algorithms the helpers call are written out, each with a decoder and a round-trip proof:
- UTF-8 (RFC 3629);
- percent-encoding, as in section 2.1 of RFC 3986;
- base64, as in section 4 of RFC 4648.

This lets the contracts state what the encoded output means, not only its shape.

Files:
- `strings.dfy`: join, split, ASCII lower-casing, decimal digits.
- `py_values.dfy`: Python values and errors; `repr`, `str`, subscripting, `in`, `str.join`, `filter(None, …)`, iteration.
- `utf8.dfy`, `percent.dfy`, `base64.dfy`: the encodings.
- `client_utils.dfy`: the helpers of `utils.py`.
  - `_normalize_hosts` and the `query_params` wrapper are methods with loops; `_bulk_body` is a method that reassigns its body step by step.
  - The wrapper is proved equal to `ShapeRequest`, a declarative statement of what the API method receives.
- `exceptions.dfy`: the hierarchy, the accessors, `str()` of every class and `HTTP_EXCEPTIONS`.

## Model

| member | source | states |
|---|---|---|
| ClientUtils.Escape | elasticsearch/client/utils.py:75-100 | bytes come back unchanged; `True`/`False` become the bytes of `true`/`false`; a list or tuple can be escaped exactly when all its items are strings; the only failure is the `TypeError` of joining a list or tuple with a non-string item |
| ClientUtils.EscapeDecodes | elasticsearch/client/utils.py:81-100 | every non-bytes value escapes to valid UTF-8 that decodes to its text form: the comma-joined items, the ISO date, `true`/`false`, or its `str()` |
| ClientUtils.EscapeListRoundTrip | elasticsearch/client/utils.py:82-83 | a non-empty list of comma-free strings comes back item by item when its escaped value is decoded and split at commas |
| ClientUtils.EscapeNatRoundTrip | elasticsearch/client/utils.py:98-100 | a non-negative integer is escaped as its decimal digits, which read back as the integer |
| ClientUtils.Kept | elasticsearch/client/utils.py:111-113 | the parts kept for the path are exactly the given parts not in `SKIP_IN_PATH`, never more of them than given |
| ClientUtils.EscapeAll | elasticsearch/client/utils.py:111 | escaping every kept part succeeds exactly when each part escapes, and then gives each part's escaped bytes in order; a failure is a `TypeError` |
| ClientUtils.MakePath | elasticsearch/client/utils.py:103-114 | the path always starts with `/`; it is built exactly when every kept part can be escaped; otherwise the failure is a `TypeError` |
| ClientUtils.KeptAppend | elasticsearch/client/utils.py:111-113 | skipping parts distributes over concatenation of the argument list |
| ClientUtils.MakePathSkips | elasticsearch/client/utils.py:27 | a `None`, `""`, `b""`, `[]` or `()` part can be removed from the call without changing the path |
| ClientUtils.MakePathSegments | elasticsearch/client/utils.py:109-112 | the path is `/` alone when every part is skipped; otherwise, split after the leading slash, it has one segment per kept part, each segment is `quote` of that part's escaped bytes with `,` and `*` safe, and percent-decoding it gives those bytes back; `/` never appears inside a segment |
| ClientUtils.MakePathLiteral | elasticsearch/client/utils.py:110-111 | a kept part appears literally as its segment exactly when all its escaped bytes are path-safe: letters, digits, `_.-~`, `,` and `*` |
| ClientUtils.MakePathKeepsCommaAndStar | elasticsearch/client/utils.py:110-111 | the parts `"a,b"` and `"*"` give the path `/a,b/*`, with no escaping of `,` or `*` |
| ClientUtils.Terminated | elasticsearch/client/utils.py:174-178 | the result ends with a newline and starts with the whole input; at most one newline is added |
| ClientUtils.TerminatedIdempotent | elasticsearch/client/utils.py:174-178 | terminating an already terminated body changes nothing |
| ClientUtils.DumpAll | elasticsearch/client/utils.py:171 | serialising the items succeeds exactly when `dumps` succeeds on each, giving their texts in order; otherwise it raises what `dumps` raised on the first item it failed on |
| ClientUtils.BulkBody | elasticsearch/client/utils.py:168-180 | a `str` or `bytes` body gets a final newline unless it has one; a body already ending in a newline comes back unchanged; any other body (a list, a tuple, a generator or another iterable) is iterated, each item serialised and the results joined by newlines, then terminated; a non-iterable body is a `TypeError` and a failing `dumps` raises its error; every result ends with a newline |
| ClientUtils.AsciiBytes | elasticsearch/client/utils.py:188 | encoding the joined credentials to bytes succeeds exactly for ASCII text and then gives its UTF-8 (one byte per character) encoding |
| ClientUtils.AsciiText | elasticsearch/client/utils.py:190 | decoding bytes to text succeeds exactly for ASCII bytes, one character per byte with the same code |
| ClientUtils.BasicCredentials | elasticsearch/client/utils.py:183-190 | for a `(user, password)` pair the header value exists exactly when `user:password` is ASCII; then it base64-decodes back to the bytes of `user:password` (section 2 of RFC 7617); otherwise the error is `UnicodeEncodeError` |
| ClientUtils.Base64AuthHeader | elasticsearch/client/utils.py:183-190 | a string is used as it is; bytes are decoded exactly when they are ASCII, to the text that encodes back to them, and otherwise raise `UnicodeDecodeError`; a list or tuple gives its `Credentials`; any other value raises `AttributeError` |
| ClientUtils.Credentials | elasticsearch/client/utils.py:187-188 | a list or tuple with a non-string item raises `TypeError`; with string items the credentials exist exactly when the `:`-joined text is ASCII, raise `UnicodeEncodeError` otherwise, and base64-decode back to the bytes of that text |
| ClientUtils.DictSet | elasticsearch/client/utils.py:54 | dict assignment: the key then maps to the new value and every other key keeps its entry |
| ClientUtils.DictSetKeys | elasticsearch/client/utils.py:54 | dict assignment adds no key other than the one assigned, and keeps the keys of a dict distinct |
| ClientUtils.HostEntries | elasticsearch/client/utils.py:46-69 | a host string's dict is built exactly when the URL gives no credentials or gives both halves; a URL whose user name or password is given while `urlparse` reports the other as `None` is a `TypeError` from `unquote(None)` (Python's `urlparse` reports `None` for a missing password, so `//user@host` raises, while `//:pw@host` gives `http_auth` `:pw`). The dict holds `host`; `port` when the URL gives one, and 443 for `https` without one; `use_ssl` for `https`; `http_auth` as the unquoted `user:password`; `url_prefix` for a path other than `/`. It holds no other key |
| ClientUtils.NormalizeHosts | elasticsearch/client/utils.py:30-72 | `None` gives `[{}]`; a lone string is treated as a one-element list; otherwise there is one output per host, in order, with a string host described by its URL dict and any other host passed through; `hosts` may be any iterable (a list, a tuple, a set, a generator); failures are `TypeError` (a bytes host, an unusable URL, a non-iterable `hosts`) |
| ClientUtils.LowerKeys | elasticsearch/client/utils.py:130-133 | every header name is lower case, and the names are exactly the lower-cased caller names |
| ClientUtils.LowerKeysLastWins | elasticsearch/client/utils.py:130-133 | of caller headers whose names differ only in case, the value given last is kept |
| ClientUtils.TakeHeaders | elasticsearch/client/utils.py:131-149 | the header-building part of the wrapper computes `Headers(call)` and leaves the keyword arguments without `opaque_id`, `http_auth` and `api_key` |
| ClientUtils.MoveParams | elasticsearch/client/utils.py:151-155 | the parameter loop computes `MovedParams`: each accepted name is popped, its non-`None` value stored escaped in `params`, and the first value that cannot be escaped makes it fail |
| ClientUtils.MovePassThrough | elasticsearch/client/utils.py:158-160 | the second loop moves `ignore` and `request_timeout`, unescaped, into `params` |
| ClientUtils.QueryParams | elasticsearch/client/utils.py:129-161 | the wrapper hands the API method exactly `ShapeRequest(accepted, call)`, or fails as it does |
| ClientUtils.AuthConflictRefused | elasticsearch/client/utils.py:140-143 | `http_auth` and `api_key` together are refused with `ValueError` and the source's message |
| ClientUtils.HeaderNamesLowerCase | elasticsearch/client/utils.py:130-149 | every header name the API method receives is lower case, the added `x-opaque-id` and `authorization` included |
| ClientUtils.SentHeaders | elasticsearch/client/utils.py:130-149 | `x-opaque-id` carries `opaque_id`. `authorization` is `Basic <creds>` for `http_auth` and `ApiKey <creds>` for `api_key`. Without either, `authorization` is sent only when the caller sent it |
| ClientUtils.CallerHeaderKept | elasticsearch/client/utils.py:130-133 | a caller header reaches the API method lower-cased with the value given last, unless `x-opaque-id` or `authorization` replaces it |
| ClientUtils.AcceptedParamMoved | elasticsearch/client/utils.py:151-155 | an accepted parameter leaves the keyword arguments; a non-`None` value is in `params` escaped; a `None` value leaves `params` as the caller passed it |
| ClientUtils.UnescapableParamRefused | elasticsearch/client/utils.py:151-155 | an accepted parameter that cannot be escaped makes the call fail with `TypeError` |
| ClientUtils.PassThroughUnescaped | elasticsearch/client/utils.py:158-160 | `ignore` and `request_timeout`, when not accepted parameters of the method, reach `params` exactly as given, without escaping, and leave the keyword arguments |
| ClientUtils.OtherArgumentsKept | elasticsearch/client/utils.py:161 | the keyword arguments passed on are exactly those the wrapper does not consume, with their values unchanged; every key of `params` was passed in `params`, is accepted, or is a pass-through name |
| PyValues.JoinStrs | elasticsearch/client/utils.py:83 | `str.join` succeeds exactly when every item is a string; otherwise `TypeError` |
| PyValues.FilterTruthy | elasticsearch/exceptions.py:95-102 | `filter(None, …)` keeps a value exactly when it is truthy and one of the given values, never more values than given; order and multiplicity are stated by the two lemmas below |
| PyValues.FilterTruthyAppend | elasticsearch/exceptions.py:95-102 | filtering a concatenation is filtering each half, in order; with `FilterTruthyOne` (a single value is kept exactly when truthy) this fixes the result of every list |
| PyValues.FilterTruthyCount | elasticsearch/exceptions.py:95-102 | each truthy value occurs in the result exactly as often as in the input, and a falsy value not at all |
| PyValues.Iterate | elasticsearch/client/utils.py:45 | a `for` loop visits the items of a list or tuple and the elements of an iterable object; it raises `TypeError` exactly on `None`, booleans, integers, dates and non-iterable objects |
| Utf8.DecodeEncode | elasticsearch/client/utils.py:100 | decoding the UTF-8 encoding of any string gives the string back |
| Percent.UnquoteQuote | elasticsearch/client/utils.py:111 | percent-decoding undoes `quote` whenever `%` is not declared safe |
| Percent.QuoteByte | elasticsearch/client/utils.py:111 | `quote` keeps a safe byte as itself and writes any other byte as `%` and two upper-case hex digits that read back as the byte |
| Percent.QuoteAt | elasticsearch/client/utils.py:111 | `quote` works byte by byte: each byte's own output sits between the quoted bytes before and after it |
| Percent.QuoteKeepsSafe | elasticsearch/client/utils.py:111 | `quote` leaves its input unchanged exactly when every byte is safe; an unsafe byte makes the output at least two characters longer |
| Percent.QuoteAvoids | elasticsearch/client/utils.py:111 | a byte that is neither safe nor a hex digit or `%` never appears in `quote`'s output |
| Base64.Encode | elasticsearch/client/utils.py:188 | base64 output length is a multiple of four |
| Base64.EncodeTestVectors | elasticsearch/client/utils.py:188 | "f", "fo" and "foo" encode to `Zg==`, `Zm8=` and `Zm9v`, the test vectors of section 10 of RFC 4648 |
| Base64.EncodeUserPass | elasticsearch/client/utils.py:188 | the bytes of `user:pass` encode to `dXNlcjpwYXNz` |
| Base64.DecodeEncode | elasticsearch/client/utils.py:188 | decoding the base64 encoding of any bytes gives the bytes back |
| Exceptions.Parent | elasticsearch/exceptions.py:34-159 | each declared base class is one level up the hierarchy; only `ImproperlyConfigured` and `ElasticsearchException` derive directly from `Exception` |
| Exceptions.TransportErrorFamily | elasticsearch/exceptions.py:60-159 | `except TransportError` catches exactly `TransportError`, the three connection errors and the five status errors |
| Exceptions.ElasticsearchExceptionFamily | elasticsearch/exceptions.py:40-44 | every class but `ImproperlyConfigured` derives from `ElasticsearchException` |
| Exceptions.ConnectionErrorFamily | elasticsearch/exceptions.py:113-139 | `except ConnectionError` catches exactly `ConnectionError`, `SSLError` and `ConnectionTimeout` |
| Exceptions.TransportErrorCatchesNotFound | elasticsearch/exceptions.py:142-143 | a `NotFoundError` is a `TransportError`, not the other way round |
| Exceptions.HttpExceptionsMap | elasticsearch/exceptions.py:175-181 | the map has the codes 400, 401, 403, 404 and 409. It is one-to-one onto the five status errors, and every class in it is a `TransportError` |
| Exceptions.Positional | elasticsearch/exceptions.py:67-86 | a property read succeeds exactly on a `TransportError` with enough arguments and gives that argument; otherwise `IndexError`, or `AttributeError` on other classes |
| Exceptions.AccessorsArePositional | elasticsearch/exceptions.py:67-86 | `status_code`, `error` and `info` are the first, second and third arguments, or `IndexError` |
| Exceptions.Cause | elasticsearch/exceptions.py:89-108 | a cause read without error is kept; a missing key or index (`KeyError`, `IndexError`) leaves the cause empty; any other error propagates, and it can only be `TypeError` or `AttributeError` |
| Exceptions.NonEmpty | elasticsearch/exceptions.py:109 | `filter(None, …)` on strings keeps exactly the non-empty ones |
| Exceptions.TransportErrorStr | elasticsearch/exceptions.py:88-110 | `str()` succeeds exactly with at least two arguments and a cause that did not raise; it begins with the class name and `(`; a failure is `TypeError`, `AttributeError`, or `IndexError` with too few arguments |
| Exceptions.ConnectionErrorStr | elasticsearch/exceptions.py:120-125 | `str()` succeeds exactly with three arguments, else `IndexError` |
| Exceptions.ConnectionTimeoutStr | elasticsearch/exceptions.py:135-139 | `str()` succeeds exactly with three arguments, else `IndexError` |
| Exceptions.ExcStr | elasticsearch/exceptions.py:88-139 | each class renders with the `__str__` of its nearest definer: `ConnectionTimeout`'s own, `ConnectionError`'s for it and `SSLError`, `TransportError`'s for it and the status errors, `Exception`'s otherwise |
| Exceptions.SslErrorRendersAsConnectionError | elasticsearch/exceptions.py:128-129 | an `SSLError` renders exactly as a `ConnectionError` with the same arguments, name included |
| Exceptions.ConnectionMessages | elasticsearch/exceptions.py:120-139 | a connection error renders as `ConnectionError(<error>) caused by: <InfoClass>(<info>)`; a timeout renders as `ConnectionTimeout caused by - <InfoClass>(<info>)` |
| Exceptions.MessageOf | elasticsearch/exceptions.py:109-110 | the message is the class name around the status, the quoted error and any non-empty cause, separated by `, ` |
| Exceptions.MessageWithUnknownStatus | elasticsearch/exceptions.py:60-72 | with the status `'N/A'` of a connection failure the message shows `N/A` unquoted in the status's place, then the quoted error and any non-empty cause |
| Exceptions.MessageWithoutInfo | elasticsearch/exceptions.py:107-110 | with only two arguments the message holds the status and the quoted error |
| Exceptions.MessageWithoutRootCause | elasticsearch/exceptions.py:93-108 | a missing or empty `root_cause` gives the same message as no info at all |
| Exceptions.MessageWithPlainError | elasticsearch/exceptions.py:105-106 | when `info["error"]` is any value other than a dict, the cause is its `repr()` |
| Exceptions.MessageWithRootCause | elasticsearch/exceptions.py:92-103 | with a root cause, the cause is its quoted reason followed by any non-empty `resource.id` and `resource.type` |
| Exceptions.RequestErrorMessage | elasticsearch/exceptions.py:88-110 | a 400 `RequestError` built from a server error body with one root cause renders as `RequestError(400, '<type>', '<reason>')` |
| Exceptions.RejectedTileRequestMessage | test_elasticsearch/test_server/test_mapbox_vector_tile.py:138-141 | the vector tile request with zoom -100 renders exactly as the test expects |

## Left out

- The transport, the connection pool and the connections are not part of this model. Neither are the serializers, `NamespacedClient`, `AddonClient` and the rest of `utils.py`.
- `ElasticsearchWarning` and its alias `ElasticsearchDeprecationWarning` (`exceptions.py:162-171`) are not modelled. They are warning classes outside the exception hierarchy, with no behaviour.
- `elasticsearch/compat.py` is not part of this model. The model assumes `string_types` is `(str, bytes)`, `to_bytes` is ASCII encoding and `to_str` is ASCII decoding.
- `urlparse`, `unquote` and the serializer's `dumps` are parameters; `dumps` may raise. `urlparse` is reduced to the fields `_normalize_hosts` reads; `urlparse` raising `ValueError` for a bad port is not modelled.
- Strings are sequences of Unicode scalar values, so a `str` holding a lone surrogate, for which `encode("utf-8")` raises `UnicodeEncodeError`, cannot be expressed.
- Dicts are sequences of entries. Their keys are meant to be distinct; `DictSet` keeps them so, but a dict value given as input is not required to have distinct keys, and a lookup then reads the first entry with the key.
- `repr()` is modelled for ASCII text only. Escapes of non-ASCII, non-printable characters are left out. `str.lower()` is modelled on ASCII letters only.
- Dates and other objects carry their ISO form, `str()`, `repr()` and class name as data. They are always truthy, so an empty set or similar container object is not modelled as false. An iterable object carries the elements iteration visits; iterating it twice (which would exhaust a generator) does not happen in the modelled code. `in` on an iterable object tests its elements; custom `__contains__` and `__getitem__` are not modelled.
- The `params` and `headers` dicts of the wrapper are Dafny maps, so their insertion order is not modelled. Copying instead of mutating the caller's dicts holds by value semantics.
- `QueryParams` stops where the wrapped API method would be called. The call itself is outside the model.
- `BulkBody`: `dumps` is taken to return `str`. A serializer returning `bytes` would make the join raise `TypeError`; that case is not modelled.
