# Opal REST client: request building and response capture

This project models the core of the Opal command-line REST client in Dafny. The client is a Python 2
script built on pycurl. The model covers four parts:

- `OpalClient`, the server scope. It holds the base URL, the curl options and the default headers.
  It also provides the two authentication setters: `credentials` and `keys`.
- `OpalRequest`, the call scope. It holds its own options and headers, the HTTP verb, the resource
  path and the verbose flag.
- The step that merges both scopes into the options of one curl transfer. It runs client options
  first and request options second, serialises the headers, and sets the verb and the URL
  `base_url + "/ws" + resource`.
- Response capture. `Storage` collects the body chunks. `HeaderStorage` parses raw header lines and
  promotes a repeated name from one value to an ordered list. `OpalResponse` wraps the status code,
  headers and body.

Module layout:

- `wrappers.dfy`: `Option`, `Result` and `Outcome`. These replace the exceptions the client raises.
- `text.dfy`: the Python 2 string operations used: `strip`, `rstrip`, `partition(':')`, and
  concatenation of chunks.
- `base64.dfy`: Base64 as in section 4 of RFC 4648 (standard alphabet, `=` padding), with its
  decoder and the round-trip proof.
- `curl.dfy`: curl option names and values, and `Merge`, which gives the options in effect after
  both scopes are applied.
- `capture.dfy`: `HeaderValue = Single | Many`, the header-line parser and promotion rule, the
  classes `Storage`, `HeaderStorage` and `OpalResponse`, and the callback loops of a transfer.
- `opal.dfy`: `OpalClient`, `OpalRequest`, method validation, header serialisation, option
  application, URL forming and `Send`.

How the model represents things:

- Each setter changes a `map` field in place, as the Python dicts are changed.
- A curl handle is the map of options set on it. Setting an option twice keeps the later value.
- Python 2 dicts have no defined iteration order. So the loops over option and header maps pick
  keys with `:|`. Their contracts hold for every iteration order.
- A Python 2 `str` is a byte string. Strings are `seq<char>`, one `char` per byte, and
  `Credentials` requires every character to be below 256.
- Network I/O is replaced by parameters. `Send` takes the status code, the raw header lines and the
  body chunks that curl would deliver to the two callbacks.
- `ContentFile` takes the file's size as an `Option<nat>`. `None` means the size lookup failed.

Behaviour of the code worth noting:

- Attaching content (`Content`, `ContentFile`) sets curl's `POST=1` and the body size. It does not
  change the chosen verb. A verb chosen with `method` is still sent as `CUSTOMREQUEST` and overrides
  POST on the wire.
- `credentials` only writes the `Authorization` header. It does not remove the options set by
  `keys`. `Credentials` may change only `headers`, so its frame proves that the TLS options survive.
- A new request carries only `Accept: application/json`. `OpalRequest` sets no `Content-Type`. The
  command-line code calls `content_type_json()` on every request, whatever the verb, unless
  `--content-type` is given. Only its help text says the default applies to POST and PUT.
- Header names are stored exactly as received, with no case folding and no trimming.
- An unset resource fails with a `TypeError`, and an empty or `None` resource with
  `Resource is missing`. The model reports both as `ResourceMissing`.

## Model

| member | source | states |
|---|---|---|
| `Text.RStrip` | src/bin/opal.py:250 | the result is the longest prefix that does not end in whitespace, and only whitespace was removed |
| `Text.LStrip` | src/bin/opal.py:250 | the result is the longest suffix that does not start with whitespace, and only whitespace was removed |
| `Text.RStripThenStrip` | src/bin/opal.py:250 | `rstrip().strip()` on a header value equals a plain `strip()` |
| `Text.Partition` | src/bin/opal.py:248 | the separator is non-empty exactly when the line has a colon; then the line is `before + ":" + after` and `before` has no colon; otherwise `before` is the whole line |
| `Text.ConcatAppend` | src/bin/opal.py:231-233 | concatenating two runs of stored chunks equals concatenating the runs separately and joining the results |
| `Base64.Char` | src/bin/opal.py:66 | every 6-bit value maps to an alphabet character that maps back to the same value |
| `Base64.Encode` | src/bin/opal.py:66 | the encoding of n bytes has 4 * ceil(n / 3) characters |
| `Base64.Rfc4648ShortVectors` | src/bin/opal.py:66 | the encoder gives the first test vectors of section 10 of RFC 4648: `""`, `"f"`, `"fo"`, `"foo"` |
| `Base64.Rfc4648LongVectors` | src/bin/opal.py:66 | the encoder gives the remaining test vectors of section 10 of RFC 4648: `"foob"`, `"fooba"`, `"foobar"` |
| `Base64.DecodeEncode` | src/bin/opal.py:66 | decoding the encoding of any byte sequence gives back that sequence |
| `Base64.EncodeInjective` | src/bin/opal.py:66 | two byte sequences with the same encoding are equal |
| `Curl.Merge` | src/bin/opal.py:168-171 | a key is in effect when either scope set it; the request value wins on a shared key; otherwise the client value applies |
| `Capture.ParseHeaderLine` | src/bin/opal.py:248-251 | a line yields a name and value exactly when it has a colon |
| `Capture.HeaderLineParts` | src/bin/opal.py:248-250 | the name is the exact, untrimmed text before the first colon; the value is the rest of the line with surrounding whitespace stripped |
| `Capture.AddHeader` | src/bin/opal.py:251-257 | a first value is stored as a scalar; a second one turns the scalar into the list `[first, second]`; later ones are appended; other names are unchanged |
| `Capture.Received` | src/bin/opal.py:246-257 | a line without a colon leaves the header map unchanged |
| `Capture.CollectedSnoc` | src/bin/opal.py:246-257 | the header map after one more line is `Received` applied to the map before it |
| `Capture.CollectedValues` | src/bin/opal.py:246-257 | after any run of lines, a name is present exactly when some line carries it; it then holds all that name's values in arrival order, as a scalar for one and as a list otherwise |
| `Capture.Storage.constructor` | src/bin/opal.py:227-229 | a new storage has empty contents and a zero call count |
| `Capture.Storage.Store` | src/bin/opal.py:231-233 | the chunk is appended to the contents and the call count grows by one; the invariant `contents == Concat(chunks)`, `line == len(chunks)` is kept |
| `Capture.StoredRuns` | src/bin/opal.py:231-233 | a storage that received one run of chunks and then another holds the first run's concatenation followed by the second's |
| `Capture.HeaderStorage.constructor` | src/bin/opal.py:242-244 | a new header storage has empty storage and an empty header map |
| `Capture.HeaderStorage.Store` | src/bin/opal.py:246-257 | the raw line is stored (contents appended, count incremented) whether or not it has a colon; the map becomes `Received(old map, line)` and stays equal to `Collected` of all lines stored so far |
| `Capture.HeaderStorage.Record` | src/bin/opal.py:251-257 | the in-place promotion (scalar to one-element list, then append) yields `AddHeader` of the old map |
| `Capture.CaptureHeaders` | src/bin/opal.py:213-218 | feeding every raw header line of a transfer to a fresh header storage leaves `Collected(lines)` |
| `Capture.CaptureBody` | src/bin/opal.py:214-218 | feeding every body chunk to a fresh storage leaves their in-order concatenation |
| `Capture.OpalResponse.constructor` | src/bin/opal.py:262-266 | the response holds exactly the given code, header map and content |
| `Opal.Message` | src/bin/opal.py:141-147 | an invalid verb reads `Not a valid method: <m>` and a missing resource reads `Resource is missing`; errors raised by the runtime carry no fixed text |
| `Opal.MethodChoice` | src/bin/opal.py:141-147 | an absent or empty argument gives `GET`; one of GET, DELETE, PUT, POST, OPTIONS is kept unchanged; anything else fails with `InvalidMethod(m)`; a success is always an allowed verb |
| `Opal.MethodChoiceStable` | src/bin/opal.py:141-147 | choosing again from a chosen verb gives the same verb |
| `Opal.AuthorizationDecodes` | src/bin/opal.py:65-66 | the `Authorization` value is `X-Opal-Auth ` followed by text that Base64-decodes to exactly the user, a colon and the password |
| `Opal.SerializationLength` | src/bin/opal.py:174-177 | a serialised header map has one line per entry |
| `Opal.SerializationCovers` | src/bin/opal.py:174-177 | every entry's `name: value` line is in the serialisation |
| `Opal.SerializationSound` | src/bin/opal.py:174-177 | every line of the serialisation is some entry's `name: value` line |
| `Opal.HeaderListShape` | src/bin/opal.py:173-178 | the header list has as many lines as both maps together; a name set in both scopes appears twice, the client's line first and the request's line later |
| `Opal.SerializeHeaders` | src/bin/opal.py:174-177 | the loop yields one `name: value` line per entry, in some iteration order of the map |
| `Opal.ApplyOptions` | src/bin/opal.py:168-171 | applying every client option and then every request option, in any order, yields `Merge(client, request)` |
| `Opal.WsUrl` | src/bin/opal.py:182 | the URL is the base URL, then `/ws`, then the resource path, with nothing added or lost |
| `Opal.VerbAsWritten` | src/bin/opal.py:179-180 | as written, a verb that was never chosen fails (the attribute is still the bound method, which curl rejects); a chosen non-empty verb is set |
| `Opal.UnsetMethodRejectedAsWritten` | src/bin/opal.py:179-180 | the as-written step rejects a request with no chosen verb, but the corrected step leaves the verb to curl |
| `Opal.Verb` | src/bin/opal.py:179-180 | corrected: `CUSTOMREQUEST` is set exactly when a non-empty verb was chosen, to that verb |
| `Opal.FinalOptions` | src/bin/opal.py:178-182 | the transfer's options are the merged options plus `HTTPHEADER` (the header list), `URL`, and `CUSTOMREQUEST` when a verb is set; no other key changes |
| `Opal.OpalClient.constructor` | src/bin/opal.py:60-63 | a client holds its base URL with no options and no headers |
| `Opal.OpalClient.Credentials` | src/bin/opal.py:65-66 | only `headers["Authorization"]` changes, to `X-Opal-Auth ` + Base64(user `:` password) |
| `Opal.OpalClient.Keys` | src/bin/opal.py:68-76 | `SSLCERT` and `SSLKEY` are set; `KEYPASSWD` and `CAINFO` are set only when given non-empty; `Authorization` is removed and every other header is kept |
| `Opal.OpalClient.VerifyPeer` | src/bin/opal.py:78-79 | only `SSL_VERIFYPEER` changes |
| `Opal.OpalClient.VerifyHost` | src/bin/opal.py:81-82 | only `SSL_VERIFYHOST` changes |
| `Opal.OpalClient.SslVersion` | src/bin/opal.py:84-85 | only `SSLVERSION` changes |
| `Opal.OpalClient.CurlOption` | src/bin/opal.py:87-89 | the client option map gains or overwrites exactly that key |
| `Opal.OpalClient.Header` | src/bin/opal.py:91-93 | the client header map gains or overwrites exactly that name |
| `Opal.OpalClient.Request` | src/bin/opal.py:95-96 | a fresh request bound to this client, in its initial state |
| `Opal.OpalRequest.constructor` | src/bin/opal.py:102-106 | a new request has no options, only `Accept: application/json`, verbose off, and no verb or resource chosen |
| `Opal.OpalRequest.CurlOption` | src/bin/opal.py:108-110 | the request option map gains or overwrites exactly that key |
| `Opal.OpalRequest.Timeout` | src/bin/opal.py:112-113 | only `TIMEOUT` changes |
| `Opal.OpalRequest.ConnectionTimeout` | src/bin/opal.py:115-116 | only `CONNECTTIMEOUT` changes |
| `Opal.OpalRequest.Verbose` | src/bin/opal.py:118-120 | the verbose flag is on and `VERBOSE` is true |
| `Opal.OpalRequest.FailOnError` | src/bin/opal.py:122-123 | only `FAILONERROR` changes, to true |
| `Opal.OpalRequest.Header` | src/bin/opal.py:125-127 | the request header map gains or overwrites exactly that name |
| `Opal.OpalRequest.Accept` | src/bin/opal.py:129-130 | only the `Accept` header changes |
| `Opal.OpalRequest.ContentType` | src/bin/opal.py:132-133 | only the `Content-Type` header changes |
| `Opal.OpalRequest.AcceptJson` | src/bin/opal.py:135-136 | `Accept` becomes `application/json` |
| `Opal.OpalRequest.ContentTypeJson` | src/bin/opal.py:138-139 | `Content-Type` becomes `application/json` |
| `Opal.OpalRequest.Method` | src/bin/opal.py:141-148 | a valid choice is stored as `MethodChoice` gives it; an invalid one fails with that error and leaves the stored verb unchanged |
| `Opal.OpalRequest.Get` | src/bin/opal.py:150-151 | the stored verb becomes `GET` |
| `Opal.OpalRequest.Put` | src/bin/opal.py:153-154 | the stored verb becomes `PUT` |
| `Opal.OpalRequest.Post` | src/bin/opal.py:156-157 | the stored verb becomes `POST` |
| `Opal.OpalRequest.Delete` | src/bin/opal.py:159-160 | the stored verb becomes `DELETE` |
| `Opal.OpalRequest.Options` | src/bin/opal.py:162-163 | the stored verb becomes `OPTIONS` |
| `Opal.OpalRequest.Resource` | src/bin/opal.py:187-189 | the resource path is stored as given |
| `Opal.OpalRequest.Content` | src/bin/opal.py:191-199 | `POST=1`, `POSTFIELDSIZE = len(content)` and a reader over the buffer are recorded; the verb and headers are untouched |
| `Opal.OpalRequest.ContentFile` | src/bin/opal.py:201-209 | `POST=1`, the file size and a file reader are recorded; when the size lookup fails, the error is returned and `POST=1` stays set |
| `Opal.OpalRequest.HeaderList` | src/bin/opal.py:173-178 | the list is a serialisation of the client headers followed by a serialisation of the request headers |
| `Opal.OpalRequest.BuildRequest` | src/bin/opal.py:165-185 | fails with `ResourceMissing` exactly when no non-empty resource was given; otherwise yields `FinalOptions` of the merged options, a valid header list, the corrected verb step and `WsUrl(base_url, resource)` |
| `Opal.OpalRequest.Send` | src/bin/opal.py:211-221 | fails, and builds no response, exactly when the request cannot be built; otherwise returns a fresh response with the given code, `Collected(header lines)` and the concatenated body |

## Findings

| source | as written | input that shows it | evidently intended | confidence | as-written member | corrected member |
|---|---|---|---|---|---|---|
| src/bin/opal.py:179-180 | `if self.method:` tests an attribute that, when `method()` was never called, is still the bound method. That is truthy, so `setopt(CUSTOMREQUEST, <bound method>)` runs and pycurl rejects a non-string value with a `TypeError`. | `OpalClient(u).request().resource('/datasources').send()` | A request with no verb chosen should be sent with curl's default verb: GET, or POST when content is attached. This matches the guard and the `GET` default of `method()`. | medium, not executed | `Opal.VerbAsWritten` | `Opal.Verb` |

The rest of the model uses the corrected step (`BuildRequest`, `Send`).

## Left out

- Network I/O: pycurl handle creation, `perform`, `getinfo` and `close`. `Send` takes the status
  code, raw header lines and body chunks as parameters. Behaviour libcurl adds while performing is
  not modelled: timeouts, TLS, redirects, and the failure on a status of 400 or more when
  `FAILONERROR` is set.
- Streaming bodies: `READFUNCTION` is recorded only as a `Reader` value naming its buffer or file.
  Reading is not modelled. `os.path.getsize` is replaced by the `size` parameter. A file that
  exists but cannot be opened by `open(filename, 'rb')` is not distinguished.
- `WRITEFUNCTION` and `HEADERFUNCTION` are not added to the option map. `CaptureHeaders` and
  `CaptureBody` model the calls curl makes to them instead.
- `pretty_json`: a thin wrapper over Python's `json` library.
- The verbose `print` side output of `content` and `content_file`. `Verbose` only sets the flag
  and the `VERBOSE` option.
- `__str__` of `Storage` and `OpalResponse`.
- The command-line `__main__` block: argument parsing, output, exit codes and exception printing.
- Attribute shadowing: in the source, `self.method` and `self.resource` replace the bound methods once
  set, so a second `method(...)`, `get()` or `resource(...)` call fails with a `TypeError`. The model
  keeps both as `Option<string>` fields and allows them to be set again.
- The setters return `self` for chaining. The model's setters return nothing, and callers keep
  their reference.
- `HeaderStorage` inherits from `Storage` in the source. Here it owns a `Storage` and delegates to
  it, so its contents and count are `storage.contents` and `storage.line`.
- Curl.CurlOpt: pycurl option names are integers, so `curl_option` with the number of a named option
  (such as `URL`) writes the same dict key as that option, and `__build_request` overwrites it. In
  the model, `Other(code)` is always a key distinct from the named options, so `FinalOptions`
  leaves it alone. pycurl's numbering is not part of this model.
- Option values are typed (`IntVal`, `BoolVal`, `StrVal`, `StrList`, `Reader`), where Python accepts
  any value. pycurl's type checks on them are not modelled, except for the one in the finding.
- Opal.OpalClient.Credentials: requires every character of user and password to be below 256. A
  Python 2 `unicode` argument, which `b64encode` would encode or reject, is not modelled.
