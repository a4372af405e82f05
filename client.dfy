/** `ClientApi`: the end-user surface. Every endpoint goes through one request function,
    `api`, which picks the HTTP method, serialises the body, classifies non-2xx statuses
    into the error classes, chooses JSON or raw text by content type and turns an abort
    into a timeout error. The network is the `Transport` argument. */
module Client {
  import opened Wrappers
  import opened Strings
  import opened Json
  import opened Uri
  import opened Errors
  import opened Http

  /** The timeout, in milliseconds, when the options give none. */
  const DefaultTimeout: int := 30000

  /** `ClientApiOptions`. */
  datatype ClientApiOptions = ClientApiOptions(
    headers: Option<map<string, string>>,
    debug: Option<bool>,
    timeout: Option<int>)

  /** The `data` argument of `api`, typed `object | string`: a string, or an object or
      array to be JSON-encoded. */
  datatype Data = Text(text: string) | Object(fields: seq<(string, Json)>) | Array(items: seq<Json>)

  /** What a successful call returns: the decoded JSON, or the raw body text. */
  datatype Payload = Decoded(value: Json) | RawText(text: string)

  /** `data ? … : …`: an absent body and the empty string are falsy; an object or array,
      even an empty one, is truthy. */
  predicate Truthy(data: Option<Data>)
  {
    match data
    case None => false
    case Some(Text(s)) => s != ""
    case Some(Object(_)) => true
    case Some(Array(_)) => true
  }

  /** `method ?? (data ? "POST" : "GET")`. */
  function EffectiveMethod(verb: Option<string>, data: Option<Data>): (m: string)
    ensures verb.Some? ==> m == verb.value
    ensures verb.None? ==> (m == "POST" <==> Truthy(data)) && (m == "GET" <==> !Truthy(data))
  {
    match verb
    case Some(v) => v
    case None => if Truthy(data) then "POST" else "GET"
  }

  /** The `body` of the request: a string passes through, an object is JSON-encoded, and a
      falsy body is left out. */
  function SerializeBody(data: Option<Data>): (b: Option<string>)
    ensures b.None? <==> !Truthy(data)
    ensures b.Some? && data.value.Text? ==> b.value == data.value.text
    ensures b.Some? && data.value.Object? ==> b.value == Stringify(JObject(data.value.fields))
    ensures b.Some? && data.value.Array? ==> b.value == Stringify(JArray(data.value.items))
  {
    if !Truthy(data) then None
    else match data.value
      case Text(s) => Some(s)
      case Object(fields) => Some(Stringify(JObject(fields)))
      case Array(items) => Some(Stringify(JArray(items)))
  }

  /** The `switch (response.status)` for a response that is not ok. */
  function Classify(status: nat, statusText: string, errorText: string): (e: PanelError)
    ensures e.cls == ValidationError <==> status == 400 || status == 422
    ensures e.cls == AuthenticationError <==> status == 401
    ensures e.cls == PermissionError <==> status == 403
    ensures e.status == (if status == 422 then 400 else status)
    ensures e.responseBody == (if status == 400 || status == 401 || status == 403 then None else Some(errorText))
  {
    match status
    case 400 => NewValidationError(errorText, None)
    case 401 => NewAuthenticationError()
    case 403 => NewPermissionError(errorText, None)
    case 422 => NewValidationError("Invalid request data: " + errorText, Some(errorText))
    case _ => NewPanelError("API Error: " + NatToString(status) + " " + statusText, status, statusText, Some(errorText))
  }

  /** The message of every class, status by status. */
  lemma ClassifyMessages(status: nat, statusText: string, errorText: string)
    ensures var e := Classify(status, statusText, errorText);
      && (status == 400 ==> e.message == "Request validation failed: " + errorText && e.statusText == "Bad Request")
      && (status == 401 ==> e.message == "Invalid credentials" && e.statusText == "Unauthorized")
      && (status == 403 ==> e.message == "Insufficient permission: " + errorText && e.statusText == "Forbidden")
      && (status == 422 ==> e.message == "Request validation failed: " + "Invalid request data: " + errorText
                            && e.statusText == "Bad Request")
      && (status !in {400, 401, 403, 422} ==>
            e.cls == PterodactylAPIError && e.statusText == statusText
            && e.message == "API Error: " + NatToString(status) + " " + statusText)
  {
  }

  /** The validation and permission errors quote the response text. */
  lemma ClassifiedMessageQuotesText(status: nat, statusText: string, errorText: string)
    requires status == 400 || status == 403 || status == 422
    ensures Includes(Classify(status, statusText, errorText).message, errorText)
  {
    var prefix := if status == 400 then "Request validation failed: "
                  else if status == 403 then "Insufficient permission: "
                  else "Request validation failed: " + "Invalid request data: ";
    assert Classify(status, statusText, errorText).message == prefix + errorText;
    IncludesAtEnd(prefix, errorText);
  }

  /** A 422 response says "Invalid request data". */
  lemma UnprocessableIsNamed(statusText: string, errorText: string)
    ensures Includes(Classify(422, statusText, errorText).message, "Invalid request data")
  {
    assert Classify(422, statusText, errorText).message
           == "Request validation failed: " + "Invalid request data" + (": " + errorText);
    IncludesInside("Request validation failed: ", "Invalid request data", ": " + errorText);
  }

  /** The generic error names the status, whose digits read back as the status. */
  lemma GenericMessageNamesStatus(status: nat, statusText: string, errorText: string)
    requires status != 400 && status != 401 && status != 403 && status != 422
    ensures Includes(Classify(status, statusText, errorText).message, NatToString(status))
    ensures DecimalValue(NatToString(status)) == status
  {
    assert Classify(status, statusText, errorText).message
           == "API Error: " + NatToString(status) + (" " + statusText);
    IncludesInside("API Error: ", NatToString(status), " " + statusText);
    NatToStringRoundTrip(status);
  }

  /** `response.headers.get("Content-Type")?.includes("application/json")`. */
  predicate DeclaresJson(contentType: Option<string>)
  {
    contentType.Some? && Includes(contentType.value, "application/json")
  }

  /** A body is truthy unless it is absent or the empty string: an empty object or array
      still makes a POST carrying its JSON text. */
  lemma EmptyContainersAreTruthy()
    ensures Truthy(Some(Object([]))) && Truthy(Some(Array([])))
    ensures !Truthy(None) && !Truthy(Some(Text("")))
    ensures EffectiveMethod(None, Some(Array([]))) == "POST" && SerializeBody(Some(Array([]))) == Some(Stringify(JArray([])))
  {
  }

  /** A Content-Type that is absent, or names another type, does not declare JSON. */
  lemma MissingContentTypeIsText(reply: Reply)
    requires IsOk(reply.status) && reply.contentType.None?
    ensures !DeclaresJson(reply.contentType)
    ensures Settle(Responded(reply)) == Ok(RawText(reply.body))
  {
  }

  /** The `try` block of `api`: what it returns or throws. */
  function Attempt(t: Transport): (r: Result<Payload, Thrown>)
    // what a response makes the block throw is never named AbortError, so the catch block
    // passes it on unchanged
    ensures t.Responded? && r.Err? ==> Name(r.error) != "AbortError"
    ensures r.Err? && r.error.Panel? <==> t.Responded? && !IsOk(t.reply.status)
    ensures t.Failed? ==> r == Err(Propagated(t.rejection))
  {
    match t
    case Failed(rejection) => Err(Propagated(rejection))
    case Responded(reply) =>
      if !IsOk(reply.status) then Err(Panel(Classify(reply.status, reply.statusText, reply.body)))
      else if DeclaresJson(reply.contentType) then
        match reply.json
        case Some(v) => Ok(Decoded(v))
        case None => Err(SyntaxError)
      else Ok(RawText(reply.body))
  }

  /** The `catch` block of `api`: an error named AbortError becomes the timeout error,
      anything else is rethrown unchanged. */
  function Catch(e: Thrown): (c: Thrown)
    ensures Name(e) == "AbortError" ==> c == Panel(TimeoutError())
    ensures Name(e) != "AbortError" ==> c == e
  {
    if Name(e) == "AbortError" then Panel(TimeoutError()) else e
  }

  /** What `api` resolves to or rejects with, for a given transport outcome. */
  function Settle(t: Transport): (r: Result<Payload, Thrown>)
    ensures r.Ok? <==> Attempt(t).Ok?
    ensures r.Ok? ==> r == Attempt(t)
    ensures r.Err? ==> Name(r.error) != "AbortError"
    ensures t.Responded? ==> r == Attempt(t)
  {
    match Attempt(t)
    case Ok(p) => Ok(p)
    case Err(e) => Err(Catch(e))
  }

  /** A rejected fetch: an abort becomes status 408 "Request timeout", whatever else
      rejected is rethrown unchanged. */
  lemma SettleRejected(rejection: Rejection)
    ensures rejection.AbortError? ==> Settle(Failed(rejection)) == Err(Panel(TimeoutError()))
    ensures rejection.OtherError? && rejection.name != "AbortError"
            ==> Settle(Failed(rejection)) == Err(Propagated(rejection))
    ensures var e := TimeoutError();
      e.cls == PterodactylAPIError && e.status == 408 && e.message == "Request timeout"
      && e.statusText == "Request Timeout" && e.responseBody.None?
  {
  }

  /** A response that is not ok surfaces its classification unchanged, although it passes
      through the `catch` block. */
  lemma SettleNotOk(reply: Reply)
    requires !IsOk(reply.status)
    ensures Settle(Responded(reply)) == Err(Panel(Classify(reply.status, reply.statusText, reply.body)))
  {
  }

  /** An ok response yields the decoded JSON exactly when the content type mentions
      "application/json", and the raw text unchanged otherwise. */
  lemma SettleOk(reply: Reply)
    requires IsOk(reply.status)
    ensures var r := Settle(Responded(reply));
      && (r.Ok? && r.value.RawText? <==> !DeclaresJson(reply.contentType))
      && (r.Ok? && r.value.RawText? ==> r.value.text == reply.body)
      && (r.Ok? && r.value.Decoded? <==> DeclaresJson(reply.contentType) && reply.json.Some?)
      && (r.Ok? && r.value.Decoded? ==> r.value.value == reply.json.value)
      && (r.Err? <==> DeclaresJson(reply.contentType) && reply.json.None?)
  {
  }

  /** A parameterised content type such as "application/json; charset=utf-8" still counts
      as JSON. */
  lemma JsonWithParameters(parameters: string)
    ensures DeclaresJson(Some("application/json" + parameters))
  {
    IncludesInside("", "application/json", parameters);
    assert "" + "application/json" + parameters == "application/json" + parameters;
  }

  /** The connection of the end-user surface; its fields are set in the constructor and
      never change. */
  class ClientApi {
    const panelUrl: string
    const clientKey: string
    const headers: map<string, string>
    const debug: bool
    const timeout: int

    constructor(panelUrl: string, clientKey: string, options: ClientApiOptions)
      ensures this.panelUrl == RemoveTrailingSlash(panelUrl)
      ensures this.clientKey == clientKey
      ensures debug == options.debug.GetOr(false)
      ensures timeout == options.timeout.GetOr(DefaultTimeout)
      ensures headers == MergeHeaders(BaseHeaders(clientKey), options.headers)
    {
      this.panelUrl := RemoveTrailingSlash(panelUrl);
      this.clientKey := clientKey;
      debug := options.debug.GetOr(false);
      timeout := options.timeout.GetOr(DefaultTimeout);
      headers := MergeHeaders(BaseHeaders(clientKey), options.headers);
    }

    /** `api(url, data, method)`: the request it issues and what it settles to when the
        fetch ends as `t`. */
    function Api(url: string, data: Option<Data>, verb: Option<string>, t: Transport): (r: (Request, Result<Payload, Thrown>))
      ensures r.0.url == panelUrl + url && r.0.headers == headers
      ensures r.0.verb == EffectiveMethod(verb, data) && r.0.body == SerializeBody(data)
      ensures r.1 == Settle(t)
    {
      (Request(panelUrl + url, EffectiveMethod(verb, data), headers, SerializeBody(data)), Settle(t))
    }

    /** `api` with an empty object and no method posts "{}"; with the empty string it
        sends a GET without body. */
    lemma FalsyAndEmptyBodies(url: string, t: Transport)
      ensures var req := Api(url, Some(Object([])), None, t).0;
        req.verb == "POST" && req.body == Some("{}")
      ensures var req := Api(url, Some(Text("")), None, t).0;
        req.verb == "GET" && req.body.None?
      ensures forall v :: Api(url, Some(Text("")), Some(v), t).0.verb == v
    {
      StringifyEmpty();
    }

    /** `listServers`: the query collects `include=egg` and `include=subusers` in that
        order, and is left off when empty. */
    method ListServers(includeEgg: bool, includeSubusers: bool, t: Transport)
      returns (req: Request, r: Result<Payload, Thrown>)
      ensures (req, r) == Api("/api/client" + QuerySuffix(ListServersQuery(includeEgg, includeSubusers)), None, None, t)
      ensures req.verb == "GET" && req.body.None?
    {
      var query: seq<(string, string)> := [];
      if includeEgg {
        query := query + [("include", "egg")];
      }
      assert query == if includeEgg then [("include", "egg")] else [];
      if includeSubusers {
        query := query + [("include", "subusers")];
      }
      IncludeParamsSerialize(includeEgg, includeSubusers);
      assert query == IncludeParams(includeEgg, includeSubusers);
      var serialized := SerializeParams(query);
      assert serialized == ListServersQuery(includeEgg, includeSubusers);
      var queryString := if serialized != "" then "?" + serialized else "";
      assert queryString == QuerySuffix(serialized);
      var call := Api("/api/client" + queryString, None, None, t);
      assert call.0.verb == EffectiveMethod(None, None) == "GET";
      assert call.0.body == SerializeBody(None) == None;
      req, r := call.0, call.1;
    }

    /** `createBackup`: the body gets `name` only when the name is truthy and `ignored`
        whenever a list is given; it is always posted, as "{}" when empty. */
    method CreateBackup(serverId: string, name: Option<string>, ignored: Option<seq<string>>, t: Transport)
      returns (req: Request, r: Result<(), Thrown>)
      ensures req == Api("/api/client/servers/" + serverId + "/backups",
                         Some(Object(BackupFields(name, ignored))), Some("POST"), t).0
      ensures r == Discard(Settle(t))
    {
      var body: seq<(string, Json)> := [];
      if name.Some? && name.value != "" {
        body := body + [("name", JString(name.value))];
      }
      if ignored.Some? {
        body := body + [("ignored", StringArray(ignored.value))];
      }
      assert body == BackupFields(name, ignored);
      var call := Api("/api/client/servers/" + serverId + "/backups", Some(Object(body)), Some("POST"), t);
      req, r := call.0, Discard(call.1);
    }

    /** `createSchedule`: all six keys, with `is_active` defaulting to true. */
    function CreateSchedule(serverId: string, name: string, cron: Cron, isActive: Option<bool>, t: Transport)
      : (r: (Request, Result<(), Thrown>))
      ensures r.0 == Api("/api/client/servers/" + serverId + "/schedules",
                         Some(Object(ScheduleFields(name, cron, Some(isActive.GetOr(true))))), Some("POST"), t).0
      ensures r.1 == Discard(Settle(t))
    {
      var call := Api("/api/client/servers/" + serverId + "/schedules",
                      Some(Object(ScheduleFields(name, cron, Some(isActive.GetOr(true))))), Some("POST"), t);
      (call.0, Discard(call.1))
    }

    /** `updateSchedule`: five keys, and `is_active` only when it is defined. */
    method UpdateSchedule(serverId: string, scheduleId: string, name: string, cron: Cron, isActive: Option<bool>, t: Transport)
      returns (req: Request, r: Result<(), Thrown>)
      ensures req == Api("/api/client/servers/" + serverId + "/schedules/" + scheduleId,
                         Some(Object(ScheduleFields(name, cron, isActive))), Some("POST"), t).0
      ensures r == Discard(Settle(t))
    {
      var body: seq<(string, Json)> := [
        ("name", JString(name)),
        ("minute", JString(cron.minute)),
        ("hour", JString(cron.hour)),
        ("day_of_month", JString(cron.dayOfMonth)),
        ("day_of_week", JString(cron.dayOfWeek))];
      if isActive.Some? {
        body := body + [("is_active", JBool(isActive.value))];
      }
      assert body == ScheduleFields(name, cron, isActive);
      var call := Api("/api/client/servers/" + serverId + "/schedules/" + scheduleId,
                      Some(Object(body)), Some("POST"), t);
      req, r := call.0, Discard(call.1);
    }
  }

  /** The value of a call whose caller awaits it and returns nothing. */
  function Discard(r: Result<Payload, Thrown>): Result<(), Thrown>
  {
    match r
    case Ok(_) => Ok(())
    case Err(e) => Err(e)
  }

  // ----- listServers -----

  /** The `include` pairs `listServers` appends. */
  function IncludeParams(includeEgg: bool, includeSubusers: bool): seq<(string, string)>
  {
    (if includeEgg then [("include", "egg")] else []) + (if includeSubusers then [("include", "subusers")] else [])
  }

  /** The four query strings `listServers` can send, without the leading '?'. */
  function ListServersQuery(includeEgg: bool, includeSubusers: bool): string
  {
    if includeEgg && includeSubusers then "include=egg&include=subusers"
    else if includeEgg then "include=egg"
    else if includeSubusers then "include=subusers"
    else ""
  }

  /** `?` followed by the query, or nothing when the query is empty. */
  function QuerySuffix(query: string): string
  {
    if query != "" then "?" + query else ""
  }

  /** Serializing the `include` pairs gives exactly the four query strings above. */
  lemma IncludeParamsSerialize(includeEgg: bool, includeSubusers: bool)
    ensures SerializeParams(IncludeParams(includeEgg, includeSubusers)) == ListServersQuery(includeEgg, includeSubusers)
  {
    if includeEgg && includeSubusers {
      SerializeBoth();
    } else if includeEgg {
      SerializeEgg();
    } else if includeSubusers {
      SerializeSubusers();
    } else {
      assert IncludeParams(includeEgg, includeSubusers) == [];
      SerializeNone();
    }
  }

  lemma SerializeEgg()
    ensures SerializeParams(IncludeParams(true, false)) == "include=egg"
  {
    assert IncludeParams(true, false) == [("include", "egg")];
    SerializeInclude("include", "egg");
  }

  lemma SerializeSubusers()
    ensures SerializeParams(IncludeParams(false, true)) == "include=subusers"
  {
    assert IncludeParams(false, true) == [("include", "subusers")];
    SerializeInclude("include", "subusers");
  }

  lemma SerializeBoth()
    ensures SerializeParams(IncludeParams(true, true)) == "include=egg&include=subusers"
  {
    assert IncludeParams(true, true) == [("include", "egg"), ("include", "subusers")];
    SerializeIncludes("include", "egg", "subusers");
    BothIncludesSpelled();
  }

  lemma BothIncludesSpelled()
    ensures "include" + "=" + "egg" + "&" + "include" + "=" + "subusers" == "include=egg&include=subusers"
  {
  }

  // The literals are passed as parameters so that the solver does not expand the
  // encoding of each literal character by character.
  lemma SerializeInclude(k: string, v: string)
    requires k == "include" && (v == "egg" || v == "subusers")
    ensures SerializeParams([(k, v)]) == if v == "egg" then "include=egg" else "include=subusers"
  {
    SafeLiteral(k);
    SafeLiteral(v);
    SerializeOne((k, v));
  }

  lemma SerializeIncludes(k: string, v: string, w: string)
    requires k == "include" && v == "egg" && w == "subusers"
    ensures SerializeParams([(k, v), (k, w)]) == k + "=" + v + "&" + k + "=" + w
  {
    SafeLiteral(k);
    SafeLiteral(v);
    SafeLiteral(w);
    SerializeTwo((k, v), (k, w));
  }

  lemma SafeLiteral(s: string)
    requires forall i :: 0 <= i < |s| ==> IsAlphaNumeric(s[i])
    ensures FormEncode(s) == s
  {
    PercentEncodeSafe(s, true);
  }

  lemma SerializeNone()
    ensures SerializeParams([]) == ""
  {
  }

  lemma SerializeOne(p: (string, string))
    ensures SerializeParams([p]) == FormEncode(p.0) + "=" + FormEncode(p.1)
  {
    var ps := [p];
    assert seq(|ps|, i requires 0 <= i < |ps| => FormEncode(ps[i].0) + "=" + FormEncode(ps[i].1))
           == [FormEncode(p.0) + "=" + FormEncode(p.1)];
  }

  lemma SerializeTwo(p: (string, string), q: (string, string))
    ensures SerializeParams([p, q]) == FormEncode(p.0) + "=" + FormEncode(p.1) + "&" + FormEncode(q.0) + "=" + FormEncode(q.1)
  {
    var ps := [p, q];
    var parts := [FormEncode(p.0) + "=" + FormEncode(p.1), FormEncode(q.0) + "=" + FormEncode(q.1)];
    assert seq(|ps|, i requires 0 <= i < |ps| => FormEncode(ps[i].0) + "=" + FormEncode(ps[i].1)) == parts;
    assert Join("&", parts) == parts[0] + "&" + Join("&", parts[1..]);
  }

  // ----- request bodies -----

  function StringArray(items: seq<string>): Json
  {
    JArray(seq(|items|, i requires 0 <= i < |items| => JString(items[i])))
  }

  /** The body `createBackup` builds. */
  function BackupFields(name: Option<string>, ignored: Option<seq<string>>): seq<(string, Json)>
  {
    (if name.Some? && name.value != "" then [("name", JString(name.value))] else [])
    + (if ignored.Some? then [("ignored", StringArray(ignored.value))] else [])
  }

  /** Which keys the backup body has: `name` exactly when the name is a non-empty string,
      `ignored` exactly when a list is given, even an empty one, and nothing else. */
  lemma BackupFieldsKeys(name: Option<string>, ignored: Option<seq<string>>)
    ensures var f := BackupFields(name, ignored);
      && Lookup(f, "name") == (if name.Some? && name.value != "" then Some(JString(name.value)) else None)
      && Lookup(f, "ignored") == (if ignored.Some? then Some(StringArray(ignored.value)) else None)
      && forall i :: 0 <= i < |f| ==> f[i].0 in {"name", "ignored"}
  {
  }

  /** With neither argument the backup request still posts, with body "{}". */
  lemma EmptyBackupPostsEmptyObject(c: ClientApi, serverId: string, t: Transport)
    ensures var req := c.Api("/api/client/servers/" + serverId + "/backups",
                             Some(Object(BackupFields(None, None))), Some("POST"), t).0;
      req.verb == "POST" && req.body == Some("{}")
    ensures BackupFields(Some(""), None) == BackupFields(None, None)
  {
    StringifyEmpty();
  }

  /** The five cron fields of a schedule. */
  datatype Cron = Cron(minute: string, hour: string, dayOfMonth: string, dayOfWeek: string)

  /** The body of `createSchedule` and `updateSchedule`; `is_active` is written last and
      only when defined. */
  function ScheduleFields(name: string, cron: Cron, isActive: Option<bool>): seq<(string, Json)>
  {
    [("name", JString(name)),
     ("minute", JString(cron.minute)),
     ("hour", JString(cron.hour)),
     ("day_of_month", JString(cron.dayOfMonth)),
     ("day_of_week", JString(cron.dayOfWeek))]
    + (match isActive case Some(b) => [("is_active", JBool(b))] case None => [])
  }

  /** `is_active` is in the schedule body exactly when it is defined, with its value; a
      created schedule always has it, true unless told otherwise. */
  lemma ScheduleActiveFlag(name: string, cron: Cron, isActive: Option<bool>)
    ensures Lookup(ScheduleFields(name, cron, isActive), "is_active")
            == (match isActive case Some(b) => Some(JBool(b)) case None => None)
    ensures Lookup(ScheduleFields(name, cron, Some(isActive.GetOr(true))), "is_active")
            == Some(JBool(isActive.GetOr(true)))
  {
    if isActive.None? {
      LookupFindsLast(ScheduleFields(name, cron, None), "is_active");
    }
  }
}
