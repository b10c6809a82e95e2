# RemoteNotificationsClient in Dafny

A Dafny model of the request core of `RemoteNotificationsClient`. This is an
App Inventor extension that talks to a Remote Notifications Server over plain
HTTP. The model covers two classes.

- `Requester` turns a path and a method into one HTTP exchange on a worker
  thread. It classifies the result as data (body and status code) or as one of
  three errors (`BAD_URL`, `CONNECTION_ERROR`, `TIMEOUT`), and schedules exactly
  one callback on the UI thread. It also builds the request bodies:
  `Payload.plain` and `Payload.xWwwFormUrlencoded`.
- `RemoteNotificationsClient` keeps the target device address. It offers three
  operations, `GetProtocolVersion`, `SyncTime` and `Notify`. Each sends one
  request and turns its callback into at most one event.

The proved properties are:

- Form encoding: `URLComponentEncoder.encode` emits only `[A-Za-z0-9*._+%-]`, so
  a form body never contains a stray `&` or `=`. Form-decoding it gives back the
  UTF-8 bytes of the original string.
- Form fields:
  - the fields are the complete key/value pairs of the argument list;
  - a repeated key keeps the value given last;
  - an unpaired last argument is dropped.
- Form body: it is the `&`-join of one `key=value` segment per field, in the map's
  unspecified iteration order. Whatever that order is, decoding the body yields
  exactly one pair per field.
- A single argument is a failure: `deleteCharAt(-1)` throws (see Findings).
- The two `asyncRequest` overloads:
  - they fail alike on a bad URL;
  - they report a socket timeout differently;
  - their bodies differ by one trailing line separator.
- The client:
  - it does nothing while no target is set;
  - its target and the requester's base URL always agree;
  - a version reply that `toString` wrote is read back by `trim` and `parseInt`;
  - each operation raises its success or failure event under exactly the
    conditions the code tests.

Modules, one per file:

| file | module | models |
|---|---|---|
| `basics.dfy` | `Basics` | `Option` and `Result` |
| `utf8.dfy` | `Utf8` | the UTF-8 encoding of a string (RFC 3629, section 3) |
| `url_component.dfy` | `UrlComponent` | `URLComponentEncoder.encode`, plus a form-decoder for its inverse |
| `text.dfy` | `Text` | `String.join`, the append-line-then-separator loop, and a splitter |
| `java_text.dfy` | `JavaText` | `String.trim`, `Integer.parseInt`, `Integer.toString` / `Long.toString` |
| `payloads.dfy` | `Payloads` | `Requester.Payload`: its constants, `plain`, `xWwwFormUrlencoded` and its two loops |
| `requests.dfy` | `Requests` | `RequestError`, `errorToString`, both `asyncRequest` workers, and the `Requester` class with `get` and `post` |
| `client.dfy` | `RemoteNotifications` | the component class, its callbacks and its events |

Modelling choices:

- **The network is a parameter.** A `Script` records three things:
  - whether `new URL(baseUrl + path)` parses;
  - whether writing the body fails;
  - whether the exchange raises an `IOException` (a `SocketTimeoutException` or
    another one) or answers with a status code and the lines `readLine` returns.

  The worker methods return the outcome and how the `HttpURLConnection` was set
  up and left: URL, method, connect timeout, content type, output flag, the
  body written, and whether it was disconnected.
- `runOnUiThread` appends the outcome to the requester's `dispatched` sequence.
- `EventDispatcher.dispatchEvent` becomes the sequence of events each operation
  returns.
- The current time for `SyncTime` is a parameter of Java's `long` range.
- `System.lineSeparator()` is a constant of the requester.
- The `HashMap`'s iteration order is unspecified. The second loop of
  `xWwwFormUrlencoded` therefore picks any key not yet visited, and a ghost
  `order` records the order it took. The body is then specified by
  `IsFormBody(body, fields)`, which holds for some ordering of the fields.
- A `null` `baseUrl` is `None`. Java's `baseUrl + path` then reads `"null" + path`.
- The connection is disconnected only after the response has been read
  completely. On an exception the code returns before `disconnect()`, and the
  model follows the code.

## Model

| member | source | states |
|---|---|---|
| `Utf8.EncodeChar` | src/com/extensions/remote_notifications_client/Requester.java:26 | a character encodes to one to four bytes; exactly the ASCII characters encode to one byte, their own code; every byte of a non-ASCII character is at least 0x80 |
| `Utf8.Encode` | src/com/extensions/remote_notifications_client/Requester.java:26 | the UTF-8 bytes are at least as many as the characters, and exactly as many for ASCII text |
| `UrlComponent.HexDigit` | src/com/extensions/remote_notifications_client/Requester.java:26 | an escape digit is upper-case hexadecimal, is never `%` or `+`, and reads back as the value it was made from |
| `UrlComponent.EncodeByte` | src/com/extensions/remote_notifications_client/Requester.java:26 | letters, digits and `*-._` stay themselves; the space byte becomes `+`; every other byte becomes `%XY`; only encoded-alphabet characters are produced |
| `UrlComponent.EncodeBytes` | src/com/extensions/remote_notifications_client/Requester.java:26 | a serialized byte string uses only `[A-Za-z0-9*._+%-]` |
| `UrlComponent.Encode` | src/com/extensions/remote_notifications_client/Requester.java:22-31 | `encode(s)` uses only `[A-Za-z0-9*._+%-]`; in particular it never contains `&`, `=` or a space |
| `UrlComponent.DecodeEncodeByte` | src/com/extensions/remote_notifications_client/Requester.java:26 | decoding the serialization of one byte followed by anything gives that byte followed by the decoding of the rest |
| `UrlComponent.DecodeEncodeBytes` | src/com/extensions/remote_notifications_client/Requester.java:26 | form-decoding recovers every byte string from its serialization |
| `UrlComponent.DecodeEncode` | src/com/extensions/remote_notifications_client/Requester.java:22-31 | form-decoding `encode(s)` gives exactly the UTF-8 bytes of `s`: encoding loses nothing |
| `UrlComponent.EncodeInjectiveOnBytes` | src/com/extensions/remote_notifications_client/Requester.java:22-31 | two byte strings serialize alike exactly when they are equal |
| `Text.JoinSnoc` | src/com/extensions/remote_notifications_client/Requester.java:170 | `String.join` of one more part adds the separator and that part |
| `Text.Join` | src/com/extensions/remote_notifications_client/Requester.java:170 | `String.join(sep, parts)`: no parts give `""` and one part gives that part; its inverse is `Text.SplitJoin` |
| `Text.Terminated` | src/com/extensions/remote_notifications_client/Requester.java:211-213 | what the builder loop leaves: no lines give `""`, and otherwise the result is at least the last line plus one separator long; `Text.TerminatedIsJoinPlusSep` relates it to `String.join` |
| `Text.TerminatedIsJoinPlusSep` | src/com/extensions/remote_notifications_client/Requester.java:211-213 | appending each line and then the separator gives `""` for no lines and `String.join` plus one trailing separator otherwise |
| `Text.TerminatedSnoc` | src/com/extensions/remote_notifications_client/Requester.java:212 | one more iteration of the append loop adds the line and one separator |
| `Text.SplitJoin` | src/com/extensions/remote_notifications_client/Requester.java:75-87 | parts free of the delimiter, joined with it, split back into exactly those parts |
| `Payloads.Plain` | src/com/extensions/remote_notifications_client/Requester.java:96-98 | `plain(text)` carries the text unchanged, labelled `text/plain` and not form-urlencoded |
| `Payloads.Pairs` | src/com/extensions/remote_notifications_client/Requester.java:67-73 | the argument list yields `n / 2` pairs, pair `j` being arguments `2j` and `2j+1` |
| `Payloads.Collect` | src/com/extensions/remote_notifications_client/Requester.java:65-73 | after the puts, the key of the last pair is in the map |
| `Payloads.FormFields` | src/com/extensions/remote_notifications_client/Requester.java:65-73 | the map the put loop fills; it is empty exactly when there are fewer than two arguments |
| `Payloads.CollectKeys` | src/com/extensions/remote_notifications_client/Requester.java:69 | a key is in the map exactly when some pair put it there |
| `Payloads.CollectLastWins` | src/com/extensions/remote_notifications_client/Requester.java:69 | a key's value is the value of its last pair |
| `Payloads.FormFieldsKeys` | src/com/extensions/remote_notifications_client/Requester.java:65-73 | a string is a field exactly when it is the key of a complete pair of the arguments (both directions) |
| `Payloads.FormFieldsLastWins` | src/com/extensions/remote_notifications_client/Requester.java:69 | for a repeated key the field holds the value given last, as `HashMap.put` overwrites |
| `Payloads.OddCountDropsLast` | src/com/extensions/remote_notifications_client/Requester.java:67-72 | with an odd number of arguments the last one, which has no partner, is ignored |
| `Payloads.NoPairNoFields` | src/com/extensions/remote_notifications_client/Requester.java:65-73 | fewer than two arguments give an empty map |
| `Payloads.Segment` | src/com/extensions/remote_notifications_client/Requester.java:78-84 | a `key=value` segment is non-empty and contains no `&` |
| `Payloads.SegmentsSnoc` | src/com/extensions/remote_notifications_client/Requester.java:77-85 | visiting one more key adds that key's segment at the end |
| `Payloads.OrderingLength` | src/com/extensions/remote_notifications_client/Requester.java:77 | an iteration order that visits every key once has as many entries as the map |
| `Payloads.PutPairs` | src/com/extensions/remote_notifications_client/Requester.java:65-73 | the put loop, including the caught out-of-bounds read of a missing partner, leaves exactly the collected form fields |
| `Payloads.PutStep` | src/com/extensions/remote_notifications_client/Requester.java:67-73 | one iteration of the put loop: a complete pair is put, overwriting, and an unpaired last argument changes nothing |
| `Payloads.AppendSegments` | src/com/extensions/remote_notifications_client/Requester.java:75-85 | the append loop visits every key exactly once, in some order, and builds each segment followed by `&` in that order; the builder is empty exactly when the map is, and otherwise ends with `&` |
| `Payloads.VisitOne` | src/com/extensions/remote_notifications_client/Requester.java:77-85 | one step of the iteration keeps it visiting each key once and adds that key's segment |
| `Payloads.XWwwFormUrlencoded` | src/com/extensions/remote_notifications_client/Requester.java:60-90 | as written: no arguments give an empty body; exactly one argument fails with `StringIndexOutOfBounds(-1)`; otherwise the body is the `&`-join of one segment per field, in some iteration order, with content type `application/x-www-form-urlencoded` |
| `Payloads.XWwwFormUrlencodedGuarded` | src/com/extensions/remote_notifications_client/Requester.java:60-90 | the corrected builder never fails; fewer than two arguments give an empty body, and otherwise the same body as above |
| `Payloads.DecodeSegmentOf` | src/com/extensions/remote_notifications_client/Requester.java:78-84 | a segment decodes to the UTF-8 bytes of its key and of its value |
| `Payloads.DecodeEach` | src/com/extensions/remote_notifications_client/Requester.java:77-85 | segments that decode one by one decode together, in order |
| `Payloads.DecodeSegmentsOf` | src/com/extensions/remote_notifications_client/Requester.java:77-85 | the segments of an ordering decode to the key and value bytes of each field, in that order |
| `Payloads.DecodeFormBody` | src/com/extensions/remote_notifications_client/Requester.java:75-89 | splitting a body on `&` gives back its segments, and the whole body decodes to one pair per visited key |
| `Payloads.FormBodyNonEmpty` | src/com/extensions/remote_notifications_client/Requester.java:87 | a body with at least one field is not empty |
| `Payloads.MapRoundTrip` | src/com/extensions/remote_notifications_client/Requester.java:75-89 | whatever the iteration order, a body decodes to exactly one pair per map entry: every entry's pair is there and nothing else is |
| `Payloads.FieldBytesCover` | src/com/extensions/remote_notifications_client/Requester.java:77-85 | the decoded pairs of an iteration order are as many as the map's entries, contain every entry's pair, and nothing else |
| `Payloads.FieldBytesHasEvery` | src/com/extensions/remote_notifications_client/Requester.java:77-85 | every entry of the map has its key and value bytes among the decoded pairs |
| `Payloads.FieldBytesHasOnly` | src/com/extensions/remote_notifications_client/Requester.java:77-85 | every decoded pair is the key and value bytes of some entry |
| `Payloads.FormRoundTrip` | src/com/extensions/remote_notifications_client/Requester.java:60-90 | the body built from an argument list decodes to one pair per distinct key, with the value given last, and to nothing else |
| `JavaText.TrimStart` | src/com/extensions/remote_notifications_client/RemoteNotificationsClient.java:68 | the first kept index: everything before it is at most U+0020 and the character at it is not |
| `JavaText.TrimEnd` | src/com/extensions/remote_notifications_client/RemoteNotificationsClient.java:68 | the end of the kept part: everything after it is at most U+0020 and the last kept character is not |
| `JavaText.Trim` | src/com/extensions/remote_notifications_client/RemoteNotificationsClient.java:68 | `trim()` returns a slice whose dropped ends are characters up to U+0020 and whose own ends are not |
| `JavaText.TrimUnique` | src/com/extensions/remote_notifications_client/RemoteNotificationsClient.java:68 | there is only one such slice, so the contract determines `trim` completely |
| `JavaText.TrimIgnoresTrailingBlanks` | src/com/extensions/remote_notifications_client/RemoteNotificationsClient.java:68 | appending blanks, such as a line separator, does not change the trimmed text |
| `JavaText.TrimOfTrimmed` | src/com/extensions/remote_notifications_client/RemoteNotificationsClient.java:68 | a string with no blank at either end is its own trim |
| `JavaText.ParseInt` | src/com/extensions/remote_notifications_client/RemoteNotificationsClient.java:68-72 | `parseInt` gives a value exactly when the string is an optional `+` or `-` followed by at least one digit and the signed value lies in the 32-bit range, and that value is the digits' value, negated after `-`; anything else is `NumberFormatException` |
| `JavaText.ParseIntAccepts` | src/com/extensions/remote_notifications_client/RemoteNotificationsClient.java:68 | every sign (none, `+` or `-`) followed by digits in range is accepted, leading zeros included, with the digits' value, negated after `-` |
| `JavaText.NatToString` | src/com/extensions/remote_notifications_client/RemoteNotificationsClient.java:105 | the decimal form of a number is a non-empty string of digits |
| `JavaText.IntToString` | src/com/extensions/remote_notifications_client/RemoteNotificationsClient.java:105 | `Long.toString(v)` is non-empty, starts with `-` exactly for negative `v`, and is otherwise made of digits |
| `JavaText.NatToStringValue` | src/com/extensions/remote_notifications_client/RemoteNotificationsClient.java:105 | the digits `toString` writes denote the number itself |
| `JavaText.ParseIntToString` | src/com/extensions/remote_notifications_client/RemoteNotificationsClient.java:68 | `parseInt(toString(v)) == v` for every 32-bit `v` |
| `JavaText.ParseIntRejectsBlanks` | src/com/extensions/remote_notifications_client/RemoteNotificationsClient.java:68 | `parseInt` rejects any string that contains a blank, so the `trim` is needed |
| `JavaText.TrimOfIntToString` | src/com/extensions/remote_notifications_client/RemoteNotificationsClient.java:68 | `trim` leaves the output of `toString` unchanged |
| `Requests.ErrorToString` | src/com/extensions/remote_notifications_client/Requester.java:108-116 | `bad url`, `connection error` and `timeout`, each exactly for its own error |
| `Requests.ErrorToStringInjective` | src/com/extensions/remote_notifications_client/Requester.java:108-116 | two errors have the same reason exactly when they are the same error |
| `Requests.UrlOf` | src/com/extensions/remote_notifications_client/Requester.java:146 | `baseUrl + path` is as long as the base URL (or `null`, four characters, for a `null` base URL) and the path together |
| `Requests.UrlOfParts` | src/com/extensions/remote_notifications_client/Requester.java:193 | the URL starts with the base URL, or with `null` when there is none, and ends with the path |
| `Requests.PayloadPathRules` | src/com/extensions/remote_notifications_client/Requester.java:143-181 | `PayloadPathOutcome`: `BAD_URL` exactly when the URL does not parse, `TIMEOUT` exactly for a socket timeout, `CONNECTION_ERROR` exactly for another I/O failure, and otherwise data with the status code and the lines joined by the separator |
| `Requests.PlainPathRules` | src/com/extensions/remote_notifications_client/Requester.java:190-221 | `PlainPathOutcome`: never `TIMEOUT`, `BAD_URL` exactly when the URL does not parse, `CONNECTION_ERROR` exactly for any I/O failure, and otherwise data with the status code and every line followed by the separator |
| `Requests.PathsCompared` | src/com/extensions/remote_notifications_client/Requester.java:136-224 | both overloads report a bad URL and other I/O failures alike; a socket timeout is `TIMEOUT` only with a payload; the status codes agree; without lines both bodies are empty, and with lines the body without a payload has exactly one more trailing separator |
| `Requests.ReadJoined` | src/com/extensions/remote_notifications_client/Requester.java:164-170 | the collect-then-join loop yields `String.join(separator, lines)` |
| `Requests.ReadTerminated` | src/com/extensions/remote_notifications_client/Requester.java:209-213 | the builder loop yields every line followed by the separator |
| `Requests.RunWithPayload` | src/com/extensions/remote_notifications_client/Requester.java:143-181 | the payload worker: a bad URL opens no connection; otherwise a 10 s connect timeout, the method, the content type and output are set, and the body is written unless the write fails; a timeout is `TIMEOUT` and other I/O failures are `CONNECTION_ERROR`; the connection is disconnected only after a full read |
| `Requests.RunPlain` | src/com/extensions/remote_notifications_client/Requester.java:190-221 | the worker without a payload: only the method is set; every I/O failure is `CONNECTION_ERROR`; the body is every line followed by the separator; disconnected only after a full read |
| `Requests.Requester.constructor` | src/com/extensions/remote_notifications_client/Requester.java:101-106 | a new requester has a `null` base URL and nothing dispatched |
| `Requests.Requester.RunCallbackOnUiThread` | src/com/extensions/remote_notifications_client/Requester.java:118-134 | exactly one callback is scheduled, after the earlier ones |
| `Requests.Requester.AsyncRequestWithPayload` | src/com/extensions/remote_notifications_client/Requester.java:136-184 | one callback with the payload outcome, and the connection set up from `baseUrl + path` |
| `Requests.Requester.AsyncRequest` | src/com/extensions/remote_notifications_client/Requester.java:186-224 | one callback with the plain outcome, and the connection set up from `baseUrl + path` |
| `Requests.Requester.Get` | src/com/extensions/remote_notifications_client/Requester.java:226-228 | `get` runs the plain overload with `GET` |
| `Requests.Requester.Post` | src/com/extensions/remote_notifications_client/Requester.java:230-243 | `post` with a payload runs the configured overload with `POST`, the payload's content type, output enabled and the body written unless the write fails; a failed write is swallowed |
| `Requests.Requester.PostWithoutPayload` | src/com/extensions/remote_notifications_client/Requester.java:245-247 | `post` without a payload runs the plain overload with `POST` |
| `RemoteNotifications.OnVersionData` | src/com/extensions/remote_notifications_client/RemoteNotificationsClient.java:65-76 | a version is fetched exactly when the status is 200 and the trimmed body parses as an `int`, and it is that `int`; otherwise the event is `invalid response` |
| `RemoteNotifications.OnTimeData` | src/com/extensions/remote_notifications_client/RemoteNotificationsClient.java:108-114 | time is synced exactly when the body is `ok` and the status is 200; otherwise the event is `invalid response` |
| `RemoteNotifications.OnNotifyData` | src/com/extensions/remote_notifications_client/RemoteNotificationsClient.java:149-153 | no event exactly when the body is `ok` and the status is 200; otherwise one `invalid response` failure |
| `RemoteNotifications.VersionEventRules` | src/com/extensions/remote_notifications_client/RemoteNotificationsClient.java:61-84 | `VersionEvents`: one event; the version exactly for status 200 with a parsable trimmed body; otherwise a request failure, whose reason for a transport error is `errorToString` of it and never `invalid response` |
| `RemoteNotifications.TimeEventRules` | src/com/extensions/remote_notifications_client/RemoteNotificationsClient.java:103-122 | `TimeEvents`: one event; synced exactly for the data `ok` with status 200; otherwise a sync failure, whose reason for a transport error is `errorToString` of it and never `invalid response` |
| `RemoteNotifications.NotifyEventRules` | src/com/extensions/remote_notifications_client/RemoteNotificationsClient.java:139-161 | `NotifyEvents`: no event exactly for the data `ok` with status 200; otherwise one notify failure, which for a transport error carries `errorToString` of it |
| `RemoteNotifications.ReasonsTellFailuresApart` | src/com/extensions/remote_notifications_client/RemoteNotificationsClient.java:78-83 | no transport failure's reason reads `invalid response`, so a failure event tells which kind it was |
| `RemoteNotifications.VersionReplyIsFetched` | src/com/extensions/remote_notifications_client/RemoteNotificationsClient.java:61-76 | a one-line reply `toString(v)` with status 200, received through `get` with its trailing separator, fetches version `v` |
| `RemoteNotifications.OkReplyIsAccepted` | src/com/extensions/remote_notifications_client/RemoteNotificationsClient.java:103-114 | a one-line `ok` reply through `post` with a payload syncs the time and raises no `Notify` failure; the same reply through the path that appends a separator would fail |
| `RemoteNotifications.NotifyFields` | src/com/extensions/remote_notifications_client/RemoteNotificationsClient.java:141-146 | the eight arguments of `Notify` give exactly the fields `icon`, `appName`, `title` and `content`, each with its argument |
| `RemoteNotifications.NotifyFormSize` | src/com/extensions/remote_notifications_client/RemoteNotificationsClient.java:141-146 | the four field names are distinct: four entries, each holding its own argument |
| `RemoteNotifications.NotifyPayload` | src/com/extensions/remote_notifications_client/RemoteNotificationsClient.java:141-146 | the `Notify` payload is form-urlencoded and its body is the four fields in some order |
| `RemoteNotifications.NotifyBodyDecodes` | src/com/extensions/remote_notifications_client/RemoteNotificationsClient.java:139-146 | the `Notify` body decodes to exactly four pairs, the bytes of each field name with those of its argument |
| `RemoteNotifications.FieldDecodes` | src/com/extensions/remote_notifications_client/Requester.java:75-89 | any one field of a form body decodes to its name and value bytes, and the pair count is the field count |
| `RemoteNotifications.RemoteNotificationsClient.constructor` | src/com/extensions/remote_notifications_client/RemoteNotificationsClient.java:26-34 | a new component has an empty target and a requester with a `null` base URL |
| `RemoteNotifications.RemoteNotificationsClient.Target` | src/com/extensions/remote_notifications_client/RemoteNotificationsClient.java:36-39 | the `Target` getter; under the class invariant a non-empty target is the one the base URL `http://<target>` points at |
| `RemoteNotifications.RemoteNotificationsClient.TargetNotDefined` | src/com/extensions/remote_notifications_client/RemoteNotificationsClient.java:53-55 | `targetNotDefined()`; when it is false, the class invariant gives the base URL `http://<target>` every request goes to |
| `RemoteNotifications.RemoteNotificationsClient.SetTarget` | src/com/extensions/remote_notifications_client/RemoteNotificationsClient.java:41-45 | the target becomes `ip` and the base URL becomes `http://` + `ip`; the target is undefined afterwards exactly when `ip` is empty |
| `RemoteNotifications.RemoteNotificationsClient.ResetTarget` | src/com/extensions/remote_notifications_client/RemoteNotificationsClient.java:47-51 | the target is cleared and the base URL becomes `null`, so the target is undefined |
| `RemoteNotifications.RemoteNotificationsClient.GetProtocolVersion` | src/com/extensions/remote_notifications_client/RemoteNotificationsClient.java:57-85 | without a target, nothing happens; otherwise one `GET http://<target>/ver`, one callback, and the version events of its outcome |
| `RemoteNotifications.RemoteNotificationsClient.SyncTime` | src/com/extensions/remote_notifications_client/RemoteNotificationsClient.java:97-123 | without a target, nothing happens; otherwise one `POST http://<target>/time?format=ms` of the time in milliseconds as plain text, one callback, and the time events of its outcome |
| `RemoteNotifications.RemoteNotificationsClient.Notify` | src/com/extensions/remote_notifications_client/RemoteNotificationsClient.java:135-162 | without a target, nothing happens; otherwise one form-urlencoded `POST http://<target>/notify` of the four fields, one callback, and the notify events of its outcome |

## Left out

- The threads are not modelled. `AsyncRunner.runAsynchronously` and
  `Activity.runOnUiThread` become sequential calls. The model reads `baseUrl`
  when the call is made, but a real worker may see a target set later.
- The socket I/O, the `URL` parser and HTTP itself become the `Script`
  parameter. The UI thread's queue becomes the `dispatched` sequence.
- An HTTP status of 400 or more makes `getInputStream` raise an `IOException`.
  The model leaves this to the script, as a `Raised(OtherIo)` exchange. The
  model does not exclude a script that answers such a status with lines.
- `runOnUiThread` callbacks run on the UI thread, in order. The model
  represents them as appended outcomes and does not model the thread itself.
- `EventDispatcher.dispatchEvent` and the App Inventor annotations are out. The
  events are returned as values.
- `new GregorianCalendar().getTimeInMillis()` reads a clock, so the time is the
  `currentTime` parameter of `SyncTime`.
- `Payload.json`, `APPLICATION_JSON` and `MULTIPART_FORM_DATA` are left out
  because the client never uses them. `JSON.java` is not part of this model.
- `payload.body.getBytes()` uses the platform charset. The model records the
  body string written, not its bytes.
- The `UnsupportedEncodingException` fallback of `encode` is dead, because
  UTF-8 is always supported. It is not modelled.
- The `default: return "unknown"` of `errorToString` is unreachable for the
  three enum values. It is not modelled.
- `setRequestMethod` and `setRequestProperty` can throw for illegal values on an
  already connected connection. The source never passes such values, so these
  exceptions are not modelled.
- Java `null` strings are not modelled, except for `baseUrl`. Dafny strings
  cannot be null, so a `null` argument to `Notify`, which would make
  `URLEncoder.encode` throw, is not modelled.
- Java strings are UTF-16 and may hold unpaired surrogates. Dafny's `char` is a
  Unicode scalar value, so `URLEncoder`'s substitution for malformed surrogates
  is not modelled.
- How `BufferedReader.readLine` splits the stream into lines is left to the
  script, which supplies the lines.
- JavaText.ParseInt: accepts only the ASCII digits `0`-`9`. Java's
  `Character.digit` also accepts other Unicode decimal digits, such as
  Arabic-Indic ones.
- RemoteNotifications.RemoteNotificationsClient.Notify: builds its body with
  `XWwwFormUrlencodedGuarded` instead of the as-written builder. The two agree
  for the eight arguments `Notify` always passes (see Findings).

## Findings

| source | as written | input that shows it | evidently intended | confidence | as-written member | corrected member |
|---|---|---|---|---|---|---|
| src/com/extensions/remote_notifications_client/Requester.java:87 | `payloadBuilder.deleteCharAt(payloadBuilder.length() - 1)` is called even when the loop appended nothing. One argument passes the empty-list guard but fills no map entry, so the builder is empty and `deleteCharAt(-1)` throws `StringIndexOutOfBoundsException` | `xWwwFormUrlencoded("onlyKey")` | the unpaired argument is ignored, as the comment at line 71 says, giving an empty body | not executed | `Payloads.XWwwFormUrlencoded` | `Payloads.XWwwFormUrlencodedGuarded` |
