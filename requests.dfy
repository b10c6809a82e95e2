/**
 * `Requester`: the request layer. Each call builds the URL `baseUrl + path`,
 * performs one HTTP exchange on a worker thread, classifies the result as data
 * or as one of three errors, and hands exactly one callback to the UI thread.
 *
 * The network is replaced by a `Script` saying what the platform does: whether
 * `new URL(...)` parses, whether writing the request body fails, and whether
 * the exchange raises an `IOException` (a `SocketTimeoutException` or another
 * one) or answers with a status code and the lines `readLine` returns.
 */
module Requests {
  import opened Basics
  import opened Text
  import opened Payloads

  datatype RequestError = BadUrl | ConnectionError | Timeout

  /** `errorToString`: a fixed human-readable reason for every error. */
  function ErrorToString(error: RequestError): (r: string)
    ensures error == BadUrl <==> r == "bad url"
    ensures error == ConnectionError <==> r == "connection error"
    ensures error == Timeout <==> r == "timeout"
  {
    match error
    case BadUrl => "bad url"
    case ConnectionError => "connection error"
    case Timeout => "timeout"
  }

  /** Different errors have different reasons, so a reason names its error. */
  lemma ErrorToStringInjective(a: RequestError, b: RequestError)
    ensures ErrorToString(a) == ErrorToString(b) <==> a == b
  {
  }

  /** The kind of `IOException` an exchange raises. */
  datatype IoFailure = SocketTimeout | OtherIo

  /** What the server and the platform do once the URL has parsed. */
  datatype Exchange =
    | Raised(failure: IoFailure)                  // connecting, the status line or a read raised
    | Responded(code: int, lines: seq<string>)    // the status code and every line `readLine` returned

  datatype Script = Script(urlParses: bool, writeFails: bool, exchange: Exchange)

  /** What the UI thread is handed: `onData(data, responseCode)` or `onError(reason)`. */
  datatype Outcome = Data(data: string, code: int) | Failed(reason: RequestError)

  /** How the `HttpURLConnection` of a call was set up and left. */
  datatype Connection = Connection(
    url: string,
    requestMethod: string,
    connectTimeoutMs: Option<int>,   // `setConnectTimeout`, if called
    contentType: Option<string>,     // the `Content-Type` request property, if set
    doOutput: bool,
    written: Option<string>,         // the body, if writing it succeeded
    disconnected: bool)

  /** Java's `baseUrl + path`, where a `null` base URL reads as `"null"`. */
  function UrlOf(baseUrl: Option<string>, path: string): (url: string)
    ensures |url| == (if baseUrl.Some? then |baseUrl.value| else 4) + |path|
  {
    (match baseUrl case None => "null" case Some(b) => b) + path
  }

  /** The URL starts with the base URL, or with `null` when there is none, and ends with the path. */
  lemma UrlOfParts(baseUrl: Option<string>, path: string)
    ensures var url := UrlOf(baseUrl, path);
      && url[|url| - |path|..] == path
      && (baseUrl.Some? ==> url[..|baseUrl.value|] == baseUrl.value)
      && (baseUrl.None? ==> url[..4] == "null")
  {
  }

  const CONNECT_TIMEOUT_MS: int := 10000

  /**
   * The outcome of the overload that takes a connection configurator (used by
   * `post` with a payload): a socket timeout is `Timeout`, any other I/O failure
   * `ConnectionError`, and the lines are joined with no trailing separator.
   */
  function PayloadPathOutcome(script: Script, sep: string): Outcome {
    if !script.urlParses then Failed(BadUrl)
    else match script.exchange
      case Raised(SocketTimeout) => Failed(Timeout)
      case Raised(OtherIo) => Failed(ConnectionError)
      case Responded(code, lines) => Data(Join(sep, lines), code)
  }

  /**
   * The outcome of the overload without a configurator (used by `get` and by
   * `post` without a payload): every I/O failure, timeouts included, is
   * `ConnectionError`, and every line is followed by the separator.
   */
  function PlainPathOutcome(script: Script, sep: string): Outcome {
    if !script.urlParses then Failed(BadUrl)
    else match script.exchange
      case Raised(_) => Failed(ConnectionError)
      case Responded(code, lines) => Data(Terminated(sep, lines), code)
  }

  /**
   * The payload path's classification: each error exactly in its own case,
   * and data with the status code and the joined lines otherwise.
   */
  lemma PayloadPathRules(script: Script, sep: string)
    ensures var o := PayloadPathOutcome(script, sep);
      && (o == Failed(BadUrl) <==> !script.urlParses)
      && (o == Failed(Timeout) <==> script.urlParses && script.exchange == Raised(SocketTimeout))
      && (o == Failed(ConnectionError) <==> script.urlParses && script.exchange == Raised(OtherIo))
      && (o.Data? <==> script.urlParses && script.exchange.Responded?)
      && (o.Data? ==> o.code == script.exchange.code && o.data == Join(sep, script.exchange.lines))
  {
  }

  /**
   * The plain path's classification: never a timeout, a bad URL exactly when
   * the URL does not parse, a connection error for every I/O failure, and
   * otherwise data with the status code and every line followed by the separator.
   */
  lemma PlainPathRules(script: Script, sep: string)
    ensures var o := PlainPathOutcome(script, sep);
      && o != Failed(Timeout)
      && (o == Failed(BadUrl) <==> !script.urlParses)
      && (o == Failed(ConnectionError) <==> script.urlParses && script.exchange.Raised?)
      && (o.Data? ==> o.code == script.exchange.code && o.data == Terminated(sep, script.exchange.lines))
  {
  }

  /**
   * Where the two overloads part ways: the same URL failure, the same status
   * code, a timeout seen only on the payload path, and response bodies that
   * differ by exactly one trailing separator once there is a line.
   */
  lemma PathsCompared(script: Script, sep: string)
    ensures !script.urlParses ==>
      PayloadPathOutcome(script, sep) == PlainPathOutcome(script, sep) == Failed(BadUrl)
    ensures script.urlParses && script.exchange == Raised(SocketTimeout) ==>
      PayloadPathOutcome(script, sep) == Failed(Timeout) && PlainPathOutcome(script, sep) == Failed(ConnectionError)
    ensures script.urlParses && script.exchange == Raised(OtherIo) ==>
      PayloadPathOutcome(script, sep) == PlainPathOutcome(script, sep) == Failed(ConnectionError)
    ensures script.urlParses && script.exchange.Responded? ==>
      && PayloadPathOutcome(script, sep).Data? && PlainPathOutcome(script, sep).Data?
      && PayloadPathOutcome(script, sep).code == PlainPathOutcome(script, sep).code == script.exchange.code
      && (script.exchange.lines == [] ==> PayloadPathOutcome(script, sep).data == PlainPathOutcome(script, sep).data == "")
      && (script.exchange.lines != [] ==> PlainPathOutcome(script, sep).data == PayloadPathOutcome(script, sep).data + sep)
  {
    if script.urlParses && script.exchange.Responded? {
      TerminatedIsJoinPlusSep(sep, script.exchange.lines);
    }
  }

  // ---------------------------------------------------------------------------
  // The two worker bodies
  // ---------------------------------------------------------------------------

  /** The payload path's read loop: collect every line into a list, then `String.join`. */
  method ReadJoined(lines: seq<string>, sep: string) returns (data: string)
    ensures data == Join(sep, lines)
  {
    var collected: seq<string> := [];
    var i := 0;
    while i < |lines|
      invariant 0 <= i <= |lines|
      invariant collected == lines[..i]
    {
      collected := collected + [lines[i]];
      i := i + 1;
    }
    assert lines[..|lines|] == lines;
    data := Join(sep, collected);
  }

  /** The no-payload path's read loop: append each line and then the separator to a builder. */
  method ReadTerminated(lines: seq<string>, sep: string) returns (data: string)
    ensures data == Terminated(sep, lines)
  {
    data := "";
    var i := 0;
    while i < |lines|
      invariant 0 <= i <= |lines|
      invariant data == Terminated(sep, lines[..i])
    {
      assert lines[..i + 1] == lines[..i] + [lines[i]];
      TerminatedSnoc(sep, lines[..i], lines[i]);
      data := data + lines[i] + sep;
      i := i + 1;
    }
    assert lines[..|lines|] == lines;
  }

  /**
   * The worker of `asyncRequest(path, method, onData, onError, configurator)`
   * with the configurator of `post(path, payload, ...)`: a 10 s connect timeout,
   * the method, the content type, output enabled and the body written; a failed
   * write is swallowed and the response is read all the same. The connection is
   * disconnected only after a complete read.
   */
  method RunWithPayload(baseUrl: Option<string>, path: string, requestMethod: string, payload: Payload, script: Script, sep: string)
    returns (outcome: Outcome, connection: Option<Connection>)
    ensures outcome == PayloadPathOutcome(script, sep)
    ensures connection.Some? <==> script.urlParses
    ensures connection.Some? ==> connection.value == Connection(
      UrlOf(baseUrl, path), requestMethod, Some(CONNECT_TIMEOUT_MS), Some(payload.contentType), true,
      if script.writeFails then None else Some(payload.body), script.exchange.Responded?)
  {
    var url := UrlOf(baseUrl, path);
    if !script.urlParses {
      // MalformedURLException: no connection is opened
      return Failed(BadUrl), None;
    }
    var c := Connection(url, requestMethod, Some(CONNECT_TIMEOUT_MS), None, false, None, false);
    c := c.(contentType := Some(payload.contentType), doOutput := true);
    if !script.writeFails {
      c := c.(written := Some(payload.body));
    }
    match script.exchange {
      case Raised(SocketTimeout) =>
        outcome := Failed(Timeout);
      case Raised(OtherIo) =>
        outcome := Failed(ConnectionError);
      case Responded(code, lines) =>
        var data := ReadJoined(lines, sep);
        c := c.(disconnected := true);
        outcome := Data(data, code);
    }
    connection := Some(c);
  }

  /**
   * The worker of `asyncRequest(path, method, onData, onError)`: only the method
   * is set (no connect timeout, no header, no body), any `IOException` is a
   * connection error, and each line read is followed by the separator.
   */
  method RunPlain(baseUrl: Option<string>, path: string, requestMethod: string, script: Script, sep: string)
    returns (outcome: Outcome, connection: Option<Connection>)
    ensures outcome == PlainPathOutcome(script, sep)
    ensures connection.Some? <==> script.urlParses
    ensures connection.Some? ==> connection.value == Connection(
      UrlOf(baseUrl, path), requestMethod, None, None, false, None, script.exchange.Responded?)
  {
    var url := UrlOf(baseUrl, path);
    if !script.urlParses {
      return Failed(BadUrl), None;
    }
    var c := Connection(url, requestMethod, None, None, false, None, false);
    match script.exchange {
      case Raised(_) =>
        outcome := Failed(ConnectionError);
      case Responded(code, lines) =>
        var data := ReadTerminated(lines, sep);
        c := c.(disconnected := true);
        outcome := Data(data, code);
    }
    connection := Some(c);
  }

  // ---------------------------------------------------------------------------
  // The requester object
  // ---------------------------------------------------------------------------

  class Requester {
    /** `baseUrl`, public and assigned by the client; `None` stands for `null`. */
    var baseUrl: Option<string>
    /** The callbacks handed to `runOnUiThread`, oldest first, each with what it is called with. */
    var dispatched: seq<Outcome>
    /** `System.lineSeparator()`. */
    const lineSeparator: string

    constructor (lineSeparator: string)
      ensures this.lineSeparator == lineSeparator
      ensures baseUrl == None && dispatched == []
    {
      this.lineSeparator := lineSeparator;
      baseUrl := None;
      dispatched := [];
    }

    /** `runCallbackOnUiThread`: schedule exactly one callback. */
    method RunCallbackOnUiThread(outcome: Outcome)
      modifies this`dispatched
      ensures dispatched == old(dispatched) + [outcome]
    {
      dispatched := dispatched + [outcome];
    }

    /** `asyncRequest` with a payload configurator: one worker run, one callback. */
    method AsyncRequestWithPayload(path: string, requestMethod: string, payload: Payload, script: Script)
      returns (connection: Option<Connection>)
      modifies this`dispatched
      ensures dispatched == old(dispatched) + [PayloadPathOutcome(script, lineSeparator)]
      ensures connection.Some? <==> script.urlParses
      ensures connection.Some? ==> connection.value == Connection(
        UrlOf(baseUrl, path), requestMethod, Some(CONNECT_TIMEOUT_MS), Some(payload.contentType), true,
        if script.writeFails then None else Some(payload.body), script.exchange.Responded?)
    {
      var outcome;
      outcome, connection := RunWithPayload(baseUrl, path, requestMethod, payload, script, lineSeparator);
      RunCallbackOnUiThread(outcome);
    }

    /** `asyncRequest` without a configurator: one worker run, one callback. */
    method AsyncRequest(path: string, requestMethod: string, script: Script) returns (connection: Option<Connection>)
      modifies this`dispatched
      ensures dispatched == old(dispatched) + [PlainPathOutcome(script, lineSeparator)]
      ensures connection.Some? <==> script.urlParses
      ensures connection.Some? ==> connection.value == Connection(
        UrlOf(baseUrl, path), requestMethod, None, None, false, None, script.exchange.Responded?)
    {
      var outcome;
      outcome, connection := RunPlain(baseUrl, path, requestMethod, script, lineSeparator);
      RunCallbackOnUiThread(outcome);
    }

    /** `get(path, ...)`. */
    method Get(path: string, script: Script) returns (connection: Option<Connection>)
      modifies this`dispatched
      ensures dispatched == old(dispatched) + [PlainPathOutcome(script, lineSeparator)]
      ensures connection.Some? <==> script.urlParses
      ensures connection.Some? ==> connection.value == Connection(
        UrlOf(baseUrl, path), "GET", None, None, false, None, script.exchange.Responded?)
    {
      connection := AsyncRequest(path, "GET", script);
    }

    /** `post(path, payload, ...)`. */
    method Post(path: string, payload: Payload, script: Script) returns (connection: Option<Connection>)
      modifies this`dispatched
      ensures dispatched == old(dispatched) + [PayloadPathOutcome(script, lineSeparator)]
      ensures connection.Some? <==> script.urlParses
      ensures connection.Some? ==> connection.value == Connection(
        UrlOf(baseUrl, path), "POST", Some(CONNECT_TIMEOUT_MS), Some(payload.contentType), true,
        if script.writeFails then None else Some(payload.body), script.exchange.Responded?)
    {
      connection := AsyncRequestWithPayload(path, "POST", payload, script);
    }

    /** `post(path, ...)` without a payload. */
    method PostWithoutPayload(path: string, script: Script) returns (connection: Option<Connection>)
      modifies this`dispatched
      ensures dispatched == old(dispatched) + [PlainPathOutcome(script, lineSeparator)]
      ensures connection.Some? <==> script.urlParses
      ensures connection.Some? ==> connection.value == Connection(
        UrlOf(baseUrl, path), "POST", None, None, false, None, script.exchange.Responded?)
    {
      connection := AsyncRequest(path, "POST", script);
    }
  }
}
