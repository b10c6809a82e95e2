/**
 * `RemoteNotificationsClient`: the target device address, and three operations
 * that send one request each and turn its callback into at most one event.
 * Events are returned instead of dispatched.
 */
module RemoteNotifications {
  import opened Basics
  import opened Text
  import opened Payloads
  import opened Requests
  import JavaText
  import Utf8

  const INVALID_RESPONSE: string := "invalid response"

  datatype Event =
    | ProtocolVersionFetched(version: int)
    | ProtocolVersionRequestFailed(reason: string)
    | TimeSynced
    | TimeSyncFailure(reason: string)
    | NotifyFailure(reason: string)

  // ---------------------------------------------------------------------------
  // The callbacks
  // ---------------------------------------------------------------------------

  /** `GetProtocolVersion`'s `onData`: a version exactly when the status is 200 and the trimmed body is an `int`. */
  function OnVersionData(data: string, responseCode: int): (e: Event)
    ensures e.ProtocolVersionFetched? <==>
      responseCode == 200 && JavaText.ParseInt(JavaText.Trim(data)).Some?
    ensures e.ProtocolVersionFetched? ==>
      JavaText.IsInt32(e.version) && JavaText.ParseInt(JavaText.Trim(data)) == Some(e.version)
    ensures !e.ProtocolVersionFetched? ==> e == ProtocolVersionRequestFailed(INVALID_RESPONSE)
  {
    if responseCode == 200 then
      match JavaText.ParseInt(JavaText.Trim(data))
      case Some(version) => ProtocolVersionFetched(version)
      case None => ProtocolVersionRequestFailed(INVALID_RESPONSE)
    else ProtocolVersionRequestFailed(INVALID_RESPONSE)
  }

  /** `SyncTime`'s `onData`: synced exactly on status 200 with the body `ok`. */
  function OnTimeData(data: string, responseCode: int): (e: Event)
    ensures e == TimeSynced <==> data == "ok" && responseCode == 200
    ensures e != TimeSynced ==> e == TimeSyncFailure(INVALID_RESPONSE)
  {
    if data == "ok" && responseCode == 200 then TimeSynced else TimeSyncFailure(INVALID_RESPONSE)
  }

  /** `Notify`'s `onData`: silence exactly on status 200 with the body `ok`. */
  function OnNotifyData(data: string, responseCode: int): (events: seq<Event>)
    ensures events == [] <==> data == "ok" && responseCode == 200
    ensures events != [] ==> events == [NotifyFailure(INVALID_RESPONSE)]
  {
    if data == "ok" && responseCode == 200 then [] else [NotifyFailure(INVALID_RESPONSE)]
  }

  /** The events raised when the UI thread runs the callback of a version request. */
  function VersionEvents(outcome: Outcome): seq<Event> {
    match outcome
    case Data(data, code) => [OnVersionData(data, code)]
    case Failed(reason) => [ProtocolVersionRequestFailed(ErrorToString(reason))]
  }

  /** The events raised when the UI thread runs the callback of a time request. */
  function TimeEvents(outcome: Outcome): seq<Event> {
    match outcome
    case Data(data, code) => [OnTimeData(data, code)]
    case Failed(reason) => [TimeSyncFailure(ErrorToString(reason))]
  }

  /** The events raised when the UI thread runs the callback of a notify request. */
  function NotifyEvents(outcome: Outcome): seq<Event> {
    match outcome
    case Data(data, code) => OnNotifyData(data, code)
    case Failed(reason) => [NotifyFailure(ErrorToString(reason))]
  }

  /**
   * A version request raises exactly one event: the version exactly when the
   * reply has status 200 and its trimmed body parses, and otherwise a failure
   * whose reason names the transport error, if there was one.
   */
  lemma VersionEventRules(outcome: Outcome)
    ensures var events := VersionEvents(outcome);
      && |events| == 1
      && (events[0].ProtocolVersionFetched? <==>
            outcome.Data? && outcome.code == 200 && JavaText.ParseInt(JavaText.Trim(outcome.data)).Some?)
      && (!events[0].ProtocolVersionFetched? ==> events[0].ProtocolVersionRequestFailed?)
      && (outcome.Failed? ==> events[0].reason == ErrorToString(outcome.reason) != INVALID_RESPONSE)
  {
  }

  /**
   * A time request raises exactly one event: synced exactly for the reply
   * `ok` with status 200, and otherwise a failure whose reason names the
   * transport error, if there was one.
   */
  lemma TimeEventRules(outcome: Outcome)
    ensures var events := TimeEvents(outcome);
      && |events| == 1
      && (events[0] == TimeSynced <==> outcome == Data("ok", 200))
      && (events[0] != TimeSynced ==> events[0].TimeSyncFailure?)
      && (outcome.Failed? ==> events[0].reason == ErrorToString(outcome.reason) != INVALID_RESPONSE)
  {
  }

  /**
   * A notify request raises no event exactly for the reply `ok` with status
   * 200, and otherwise one failure whose reason names the transport error, if
   * there was one.
   */
  lemma NotifyEventRules(outcome: Outcome)
    ensures var events := NotifyEvents(outcome);
      && (events == [] <==> outcome == Data("ok", 200))
      && (events != [] ==> |events| == 1 && events[0].NotifyFailure?)
      && (outcome.Failed? ==> events == [NotifyFailure(ErrorToString(outcome.reason))])
      && (outcome.Failed? ==> events[0].reason != INVALID_RESPONSE)
  {
  }

  /** No transport failure is reported as `invalid response`, so a failure event's reason says which kind it was. */
  lemma ReasonsTellFailuresApart(reason: RequestError)
    ensures ErrorToString(reason) != INVALID_RESPONSE
  {
  }

  /**
   * A version reply of one line holding the number arrives from `get` with the
   * line separator appended; `trim` removes it, so the number is fetched.
   */
  lemma VersionReplyIsFetched(v: int, writeFails: bool, sep: string)
    requires JavaText.IsInt32(v)
    requires forall k :: 0 <= k < |sep| ==> JavaText.IsTrimmable(sep[k])
    ensures VersionEvents(PlainPathOutcome(Script(true, writeFails, Responded(200, [JavaText.IntToString(v)])), sep))
         == [ProtocolVersionFetched(v)]
  {
    var line := JavaText.IntToString(v);
    assert [line][..0] == [];
    assert Terminated(sep, [line]) == line + sep;
    JavaText.TrimIgnoresTrailingBlanks(line, sep);
    JavaText.TrimOfIntToString(v);
    JavaText.ParseIntToString(v);
  }

  /**
   * An `ok` reply of one line is accepted by `SyncTime` and `Notify`, whose
   * `post` joins lines without a trailing separator; the same reply through the
   * separator-appending path would not be `ok`.
   */
  lemma OkReplyIsAccepted(writeFails: bool, sep: string)
    ensures TimeEvents(PayloadPathOutcome(Script(true, writeFails, Responded(200, ["ok"])), sep)) == [TimeSynced]
    ensures NotifyEvents(PayloadPathOutcome(Script(true, writeFails, Responded(200, ["ok"])), sep)) == []
    ensures sep != "" ==>
      TimeEvents(PlainPathOutcome(Script(true, writeFails, Responded(200, ["ok"])), sep)) == [TimeSyncFailure(INVALID_RESPONSE)]
  {
    assert ["ok"][..0] == [];
    assert Terminated(sep, ["ok"]) == "ok" + sep;
    assert |"ok" + sep| > 2 <== sep != "";
  }

  /** The fields of a notification. */
  function NotifyForm(iconData: string, appName: string, title: string, content: string): map<string, string> {
    map["icon" := iconData, "appName" := appName, "title" := title, "content" := content]
  }

  /** The form fields `Notify` sends: exactly the four named keys, each with its argument. */
  lemma NotifyFields(iconData: string, appName: string, title: string, content: string)
    ensures FormFields(["icon", iconData, "appName", appName, "title", title, "content", content])
         == NotifyForm(iconData, appName, title, content)
    ensures NotifyForm(iconData, appName, title, content).Keys == {"icon", "appName", "title", "content"}
  {
    var entries := ["icon", iconData, "appName", appName, "title", title, "content", content];
    var ps := Pairs(entries);
    var p1 := [("icon", iconData)];
    var p2 := p1 + [("appName", appName)];
    var p3 := p2 + [("title", title)];
    assert ps == p3 + [("content", content)];
    assert ps[..3] == p3 && p3[..2] == p2 && p2[..1] == p1 && p1[..0] == [];
    assert Collect(p1) == map["icon" := iconData];
    assert Collect(p2) == map["icon" := iconData, "appName" := appName];
    assert Collect(p3) == map["icon" := iconData, "appName" := appName, "title" := title];
  }

  /**
   * Whatever order the map hands the fields out in, the body `Notify` posts
   * form-decodes to exactly four pairs: the UTF-8 bytes of each field name
   * with those of its argument.
   */
  lemma NotifyBodyDecodes(iconData: string, appName: string, title: string, content: string, body: string)
    requires IsFormBody(body, NotifyForm(iconData, appName, title, content))
    ensures DecodeForm(body).Some? && |DecodeForm(body).value| == 4
    ensures (Utf8.Encode("icon"), Utf8.Encode(iconData)) in DecodeForm(body).value
    ensures (Utf8.Encode("appName"), Utf8.Encode(appName)) in DecodeForm(body).value
    ensures (Utf8.Encode("title"), Utf8.Encode(title)) in DecodeForm(body).value
    ensures (Utf8.Encode("content"), Utf8.Encode(content)) in DecodeForm(body).value
  {
    var m := NotifyForm(iconData, appName, title, content);
    NotifyFormSize(iconData, appName, title, content);
    FieldDecodes(m, body, "icon", iconData);
    FieldDecodes(m, body, "appName", appName);
    FieldDecodes(m, body, "title", title);
    FieldDecodes(m, body, "content", content);
  }

  /** One field of the map, and the number of pairs, as the round trip gives them. */
  lemma FieldDecodes(m: map<string, string>, body: string, k: string, v: string)
    requires IsFormBody(body, m) && k in m && m[k] == v
    ensures DecodeForm(body).Some? && |DecodeForm(body).value| == |m|
    ensures (Utf8.Encode(k), Utf8.Encode(v)) in DecodeForm(body).value
  {
    MapRoundTrip(m, body);
  }

  /** The four keys are distinct, so the map holds four entries, each with its own argument. */
  lemma NotifyFormSize(iconData: string, appName: string, title: string, content: string)
    ensures |NotifyForm(iconData, appName, title, content)| == 4
    ensures var m := NotifyForm(iconData, appName, title, content);
      && "icon" in m && m["icon"] == iconData && "appName" in m && m["appName"] == appName
      && "title" in m && m["title"] == title && "content" in m && m["content"] == content
  {
    var m := NotifyForm(iconData, appName, title, content);
    assert "icon" != "appName" && "icon" != "title" && "icon" != "content";
    assert "appName" != "title" && "appName" != "content" && "title" != "content";
    var m1 := map["icon" := iconData];
    var m2 := m1["appName" := appName];
    var m3 := m2["title" := title];
    assert m == m3["content" := content];
    assert |m1| == 1;
    assert |m2| == 2 by { assert "appName" !in m1; }
    assert |m3| == 3 by { assert "title" !in m2; }
    assert "content" !in m3;
  }

  /** The payload `Notify` posts: its four fields, form-urlencoded in some order. */
  method NotifyPayload(iconData: string, appName: string, title: string, content: string) returns (payload: Payload)
    ensures payload.contentType == X_WWW_FORM_URLENCODED
    ensures IsFormBody(payload.body, NotifyForm(iconData, appName, title, content))
  {
    payload := XWwwFormUrlencodedGuarded(["icon", iconData, "appName", appName, "title", title, "content", content]);
    NotifyFields(iconData, appName, title, content);
  }

  // ---------------------------------------------------------------------------
  // The component
  // ---------------------------------------------------------------------------

  class RemoteNotificationsClient {
    const requester: Requester
    var target: string

    /** The target and the requester's base URL agree: cleared together, or the base URL is `http://` + target. */
    ghost predicate Valid()
      reads this, requester`baseUrl
    {
      || (target == "" && requester.baseUrl == None)
      || requester.baseUrl == Some("http://" + target)
    }

    constructor (lineSeparator: string)
      ensures Valid() && fresh(requester)
      ensures target == "" && requester.baseUrl == None && requester.dispatched == []
      ensures requester.lineSeparator == lineSeparator
    {
      requester := new Requester(lineSeparator);
      target := "";
    }

    /** The `Target` property getter. */
    function Target(): (t: string)
      reads this, requester`baseUrl
      ensures Valid() && t != "" ==> requester.baseUrl == Some("http://" + t)
    {
      target
    }

    /** `Target(ip)`: the property setter. */
    method SetTarget(ip: string)
      modifies this, requester`baseUrl
      ensures Valid()
      ensures target == ip && Target() == ip
      ensures requester.baseUrl == Some("http://" + ip)
      ensures TargetNotDefined() <==> ip == ""
    {
      target := ip;
      requester.baseUrl := Some("http://" + ip);
    }

    /** `ResetTarget()`. */
    method ResetTarget()
      modifies this, requester`baseUrl
      ensures Valid()
      ensures target == "" && requester.baseUrl == None
      ensures TargetNotDefined()
    {
      target := "";
      requester.baseUrl := None;
    }

    /** `targetNotDefined()`: the guard of every operation. */
    predicate TargetNotDefined(): (r: bool)
      reads this, requester`baseUrl
      ensures Valid() && !r ==> requester.baseUrl == Some("http://" + Target())
    {
      target == ""
    }

    /**
     * `GetProtocolVersion()`: nothing without a target; otherwise GET `/ver`
     * and one callback, whose events are returned.
     */
    method GetProtocolVersion(script: Script) returns (connection: Option<Connection>, events: seq<Event>)
      requires Valid()
      modifies requester`dispatched
      ensures Valid()
      ensures TargetNotDefined() ==>
        connection == None && events == [] && requester.dispatched == old(requester.dispatched)
      ensures !TargetNotDefined() ==>
        && requester.dispatched == old(requester.dispatched) + [PlainPathOutcome(script, requester.lineSeparator)]
        && events == VersionEvents(PlainPathOutcome(script, requester.lineSeparator))
        && (connection.Some? <==> script.urlParses)
        && (connection.Some? ==> connection.value == Connection(
              "http://" + target + "/ver", "GET", None, None, false, None, script.exchange.Responded?))
    {
      if TargetNotDefined() {
        return None, [];
      }
      connection := requester.Get("/ver", script);
      events := VersionEvents(requester.dispatched[|requester.dispatched| - 1]);
    }

    /**
     * `SyncTime()`: nothing without a target; otherwise POST `/time?format=ms`
     * with the time in milliseconds as plain text, and one callback.
     */
    method SyncTime(currentTime: JavaText.int64, script: Script) returns (connection: Option<Connection>, events: seq<Event>)
      requires Valid()
      modifies requester`dispatched
      ensures Valid()
      ensures TargetNotDefined() ==>
        connection == None && events == [] && requester.dispatched == old(requester.dispatched)
      ensures !TargetNotDefined() ==>
        && requester.dispatched == old(requester.dispatched) + [PayloadPathOutcome(script, requester.lineSeparator)]
        && events == TimeEvents(PayloadPathOutcome(script, requester.lineSeparator))
        && (connection.Some? <==> script.urlParses)
        && (connection.Some? ==> connection.value == Connection(
              "http://" + target + "/time?format=ms", "POST", Some(CONNECT_TIMEOUT_MS), Some(TEXT_PLAIN), true,
              if script.writeFails then None else Some(JavaText.IntToString(currentTime)),
              script.exchange.Responded?))
    {
      if TargetNotDefined() {
        return None, [];
      }
      connection := requester.Post("/time?format=ms", Plain(JavaText.IntToString(currentTime)), script);
      events := TimeEvents(requester.dispatched[|requester.dispatched| - 1]);
    }

    /**
     * `Notify(iconData, appName, title, content)`: nothing without a target;
     * otherwise POST `/notify` with the four fields form-urlencoded, and one
     * callback.
     */
    method Notify(iconData: string, appName: string, title: string, content: string, script: Script)
      returns (connection: Option<Connection>, events: seq<Event>)
      requires Valid()
      modifies requester`dispatched
      ensures Valid()
      ensures TargetNotDefined() ==>
        connection == None && events == [] && requester.dispatched == old(requester.dispatched)
      ensures !TargetNotDefined() ==>
        && requester.dispatched == old(requester.dispatched) + [PayloadPathOutcome(script, requester.lineSeparator)]
        && events == NotifyEvents(PayloadPathOutcome(script, requester.lineSeparator))
        && (connection.Some? <==> script.urlParses)
        && (connection.Some? ==>
              && connection.value.url == "http://" + target + "/notify"
              && connection.value.requestMethod == "POST"
              && connection.value.connectTimeoutMs == Some(CONNECT_TIMEOUT_MS)
              && connection.value.contentType == Some(X_WWW_FORM_URLENCODED)
              && connection.value.doOutput
              && (connection.value.written.Some? <==> !script.writeFails)
              && (connection.value.written.Some? ==>
                    IsFormBody(connection.value.written.value, NotifyForm(iconData, appName, title, content))))
    {
      if TargetNotDefined() {
        return None, [];
      }
      var payload := NotifyPayload(iconData, appName, title, content);
      connection := requester.Post("/notify", payload, script);
      events := NotifyEvents(requester.dispatched[|requester.dispatched| - 1]);
    }
  }
}
