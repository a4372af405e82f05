/** `ApplicationApi`: the administrator surface. Each method issues one request and then
    signals its result in one of four fixed ways, which the model captures per method. */
module Application {
  import opened Wrappers
  import opened Strings
  import opened Json
  import opened Uri
  import opened Errors
  import opened Http

  /** One call of an `ApplicationApi` method, with its arguments. Request bodies are the
      JSON values handed to `JSON.stringify`; numeric ids are integers. */
  datatype AdminOp =
    | GetAllUser
    | GetAUserByEmail(email: string)
    | GetAUserByUsername(username: string)
    | GetAUserById(userId: int)
    | CreateUser(user: Json)
    | UpdateUser(userId: int, updates: Json)
    | DeleteUser(userId: int)
    | GetAllServers(filter: Option<string>, value: Option<string>)
    | GetAServerById(serverId: int, relations: Option<string>)
    | CreateServer(server: seq<(string, Json)>)
    | UpdateServerDetails(serverId: int, details: Json)
    | SuspendServer(serverId: int)
    | UnSuspendServer(serverId: int)
    | UpdateServerBuild(serverId: int, build: Json)
    | UpdateServerStartup(serverId: int, startup: Json)
    | ReinstallServer(serverId: int)
    | DeleteServer(serverId: int, force: bool)
    | GetServerDbs(serverId: int)
    | GetServerDB(serverId: int, dbId: int)
    | CreateServerDB(serverId: int, database: Json)
    | UpdateServerDB(serverId: int, dbId: int, database: Json)
    | ResetServerDB(serverId: int, dbId: int)
    | DeleteServerDB(serverId: int, dbId: int)
    | GetAllNodes(nodeOptions: seq<(string, string)>)
    | CreateNode(node: Json)
    | GetNodeConfiguration(nodeId: int)
    | GetAllAllocation(nodeId: int)
    | CreateAllocations(nodeId: int, allocation: Json)
    | DeleteNode(nodeId: int)
    | GetAllLocations(locationOptions: seq<(string, string)>)
    | CreateLocation(location: Json)
    | UpdateLocation(locationId: int, location: Json)
    | DeleteLocation(locationId: int)
    | GetLocationWithNodes(locationId: int)
    | GetAllNests(nestOptions: seq<(string, string)>)
    | GetANest(nestId: int)
    | GetAllEggs(nestId: int)
    | GetAEgg(nestId: int, eggId: int)

  /** How a method reports a response that is not ok. */
  datatype Rule =
    | ThrowOnNotOk   // throws `new Error(...)` when `!response.ok`
    | FalseOnNotOk   // returns `response.ok` as a boolean
    | TrueIff204     // returns `response.status === 204`
    | Unchecked      // never looks at the status

  function RuleOf(op: AdminOp): (r: Rule)
    ensures r == FalseOnNotOk <==> op.ReinstallServer? || op.DeleteServer?
    ensures r == TrueIff204 <==> op.CreateAllocations? || op.DeleteNode? || op.DeleteLocation?
    ensures r == Unchecked <==> op.CreateNode?
  {
    match op
    case ReinstallServer(_) => FalseOnNotOk
    case DeleteServer(_, _) => FalseOnNotOk
    case CreateAllocations(_, _) => TrueIff204
    case DeleteNode(_) => TrueIff204
    case DeleteLocation(_) => TrueIff204
    case CreateNode(_) => Unchecked
    case _ => ThrowOnNotOk
  }

  /** What an ok response is turned into. */
  datatype Shape =
    | Always           // `return true` without reading the body
    | Whole            // the decoded body
    | DataField        // `data.data`, or `const { data } = ...`
    | FirstOfData      // `data.data[0]`, failing on an empty list
    | PendingCreated   // `{ created: true, data: response.json() }`, not awaited

  function ShapeOf(op: AdminOp): (s: Shape)
    ensures s == Always <==> op.DeleteUser? || op.SuspendServer? || op.UnSuspendServer? || op.DeleteServerDB?
    ensures s == FirstOfData <==> op.GetAUserByEmail? || op.GetAUserByUsername?
    ensures s == PendingCreated <==> op.CreateServer?
    // an unconditional `return true` is only reached past a status check
    ensures s == Always ==> RuleOf(op) == ThrowOnNotOk
  {
    match op
    case GetAllUser => DataField
    case GetAUserByEmail(_) => FirstOfData
    case GetAUserByUsername(_) => FirstOfData
    case GetAUserById(_) => DataField
    case CreateUser(_) => DataField
    case UpdateUser(_, _) => DataField
    case DeleteUser(_) => Always
    case GetAllServers(_, _) => DataField
    case CreateServer(_) => PendingCreated
    case SuspendServer(_) => Always
    case UnSuspendServer(_) => Always
    case GetServerDbs(_) => DataField
    case DeleteServerDB(_, _) => Always
    case GetAllNodes(_) => DataField
    case GetAllAllocation(_) => DataField
    case GetAllLocations(_) => DataField
    case GetAllNests(_) => DataField
    case GetAllEggs(_) => DataField
    case _ => Whole
  }

  /** What a method resolves to. `Value(None)` is `undefined`; `Created` carries what the
      unawaited `response.json()` promise settles to (`None`: it rejects). */
  datatype Returned = Flag(b: bool) | Value(v: Option<Json>) | Created(pending: Option<Json>)

  /** How the error message of a throwing method is laid out around the status. */
  datatype MessageForm =
    | StatusText(prefix: string)          // prefix, status, ", ", status text
    | StatusTextBody(prefix: string)      // prefix, status, " ", status text, newline, body
    | StatusOnly(prefix: string)          // prefix, status
    | StatusBody(prefix: string)          // prefix, status, ", ", body

  function MessageFormOf(op: AdminOp): MessageForm
  {
    match op
    case DeleteUser(_) => StatusText("Failed to delete user: ")
    case GetAllServers(_, _) => StatusText("Failed to fetch all servers: ")
    case GetAServerById(_, _) => StatusText("Failed to fetch server:")
    case CreateServer(_) => StatusText("Error creating server: ")
    case UpdateServerDetails(_, _) => StatusTextBody("Unable to update server details: ")
    case SuspendServer(_) => StatusOnly("cannot suspend the server: ")
    case UnSuspendServer(_) => StatusOnly("cannot unsuspend the server: ")
    case UpdateServerBuild(_, _) => StatusTextBody("Unable to update server build: ")
    case UpdateServerStartup(_, _) => StatusBody("Error updating startup: ")
    case GetServerDbs(id) => StatusBody("failed to fetch databases for server " + IntToString(id) + ": ")
    case GetServerDB(id, _) => StatusBody("failed to fetch database for server " + IntToString(id) + ": ")
    case CreateServerDB(id, _) => StatusBody("failed to create database for server " + IntToString(id) + ": ")
    case UpdateServerDB(id, _, _) => StatusBody("failed to update database for server " + IntToString(id) + ": ")
    case ResetServerDB(id, _) => StatusBody("failed to reset database password for server " + IntToString(id) + ": ")
    case DeleteServerDB(id, _) => StatusBody("failed to delete database for server " + IntToString(id) + ": ")
    case GetAllNodes(_) => StatusBody("Failed to fetch all nodes: ")
    case GetNodeConfiguration(_) => StatusBody("Failed to fetch node config node: ")
    case GetAllAllocation(_) => StatusBody("Failed to fetch node allocations: ")
    case GetAllLocations(_) => StatusBody("Failed to fetch loactions: ")
    case CreateLocation(_) => StatusBody("Failed to create locations: ")
    case UpdateLocation(_, _) => StatusBody("Failed to update location: ")
    case GetLocationWithNodes(_) => StatusBody("Failed to fetch location with nodes: ")
    case GetAllNests(_) => StatusBody("Failed to fetch nests: ")
    case GetANest(_) => StatusBody("Failed to fetch nests: ")
    case GetAllEggs(_) => StatusBody("Failed to fetch nests: ")
    case GetAEgg(_, _) => StatusBody("Failed to fetch nests: ")
    // the user methods that go through `fetchJson`, and the methods that never throw
    case _ => StatusText("API request failed: ")
  }

  /** The message text, for a response whose body reads as `reply.body`. */
  function RenderMessage(form: MessageForm, reply: Reply): string
  {
    var status := NatToString(reply.status);
    match form
    case StatusText(p) => p + status + ", " + reply.statusText
    case StatusTextBody(p) => p + status + " " + reply.statusText + "\n" + reply.body
    case StatusOnly(p) => p + status
    case StatusBody(p) => p + status + ", " + reply.body
  }

  /** The message of a method that throws on a status that is not ok: its own prefix, then
      the status, and the body text at the end for the forms that quote it. */
  function FailureMessage(op: AdminOp, reply: Reply): (m: string)
    ensures StartsWith(m, MessageFormOf(op).prefix + NatToString(reply.status))
    ensures MessageFormOf(op).StatusBody? || MessageFormOf(op).StatusTextBody? ==> EndsWith(m, reply.body)
  {
    var form, status := MessageFormOf(op), NatToString(reply.status);
    match form
    case StatusText(p) =>
      StartsWithFront(p + status, ", " + reply.statusText);
      RenderMessage(form, reply)
    case StatusTextBody(p) =>
      StartsWithFront(p + status, " " + reply.statusText + "\n" + reply.body);
      assert RenderMessage(form, reply) == p + status + (" " + reply.statusText + "\n" + reply.body);
      assert RenderMessage(form, reply) == p + status + " " + reply.statusText + "\n" + reply.body;
      EndsWithBack(p + status + " " + reply.statusText + "\n", reply.body);
      RenderMessage(form, reply)
    case StatusOnly(p) =>
      StartsWithFront(p + status, "");
      assert p + status + "" == p + status;
      RenderMessage(form, reply)
    case StatusBody(p) =>
      StartsWithFront(p + status, ", " + reply.body);
      assert RenderMessage(form, reply) == p + status + (", " + reply.body);
      EndsWithBack(p + status + ", ", reply.body);
      RenderMessage(form, reply)
  }

  /** The `data` member of a decoded body: reading it off `null` throws, and any value
      other than an object has no such member. */
  function DataOf(body: Json): (r: Result<Option<Json>, Thrown>)
    ensures r.Err? <==> body == JNull
    ensures r.Err? ==> r.error == TypeError
    ensures r.Ok? && r.value.Some? ==> body.JObject? && Lookup(body.fields, "data") == r.value
  {
    match body
    case JNull => Err(TypeError)
    case JObject(fields) => Ok(Lookup(fields, "data"))
    case _ => Ok(None)
  }

  /** `if (list.length === 0) throw new Error(message); return list[0];` for whatever
      value `list` holds. */
  function FirstOf(list: Option<Json>, message: string): (r: Result<Option<Json>, Thrown>)
    ensures list.None? || list == Some(JNull) ==> r == Err(TypeError)
    ensures list.Some? && list.value.JArray? ==>
      && (r.Err? <==> list.value.items == [])
      && (list.value.items != [] ==> r == Ok(Some(list.value.items[0])))
    ensures r.Err? && r.error.PlainError? ==> r.error.message == message
  {
    match list
    case None => Err(TypeError)
    case Some(JNull) => Err(TypeError)
    case Some(JArray(items)) => if items == [] then Err(PlainError(message)) else Ok(Some(items[0]))
    case Some(JString(s)) => if s == [] then Err(PlainError(message)) else Ok(Some(JString([s[0]])))
    case Some(JObject(fields)) =>
      if Lookup(fields, "length") == Some(JNumber(0)) then Err(PlainError(message))
      else Ok(Lookup(fields, "0"))
    case Some(_) => Ok(None)
  }

  /** The error an empty user lookup throws. */
  function NotFoundMessage(op: AdminOp): string
  {
    match op
    case GetAUserByEmail(email) => "User with email " + email + " not found."
    case GetAUserByUsername(username) => "User with username " + username + " not found."
    case _ => ""
  }

  /** What the method makes of an ok response (or, for `createNode`, of any response). */
  function Success(op: AdminOp, reply: Reply): (r: Result<Returned, Thrown>)
    ensures r == Ok(Flag(true)) <==> ShapeOf(op) == Always
    ensures (r.Ok? && r.value.Created?) <==> ShapeOf(op) == PendingCreated
    ensures r.Ok? && r.value.Value? ==> reply.json.Some?
    ensures reply.json.None? && ShapeOf(op) != Always && ShapeOf(op) != PendingCreated ==> r == Err(SyntaxError)
    ensures r.Err? && r.error.PlainError? ==> ShapeOf(op) == FirstOfData && r.error.message == NotFoundMessage(op)
  {
    match ShapeOf(op)
    case Always => Ok(Flag(true))
    case PendingCreated => Ok(Created(reply.json))
    case Whole =>
      if reply.json.None? then Err(SyntaxError) else Ok(Value(Some(reply.json.value)))
    case DataField =>
      if reply.json.None? then Err(SyntaxError)
      else (match DataOf(reply.json.value)
            case Err(e) => Err(e)
            case Ok(d) => Ok(Value(d)))
    case FirstOfData =>
      if reply.json.None? then Err(SyntaxError)
      else (match DataOf(reply.json.value)
            case Err(e) => Err(e)
            case Ok(d) =>
              (match FirstOf(d, NotFoundMessage(op))
               case Err(e) => Err(e)
               case Ok(first) => Ok(Value(first))))
  }

  /** The settled result of one admin call, given what `fetch` did. */
  function Outcome(op: AdminOp, t: Transport): (r: Result<Returned, Thrown>)
    ensures t.Failed? ==> r == Err(Propagated(t.rejection))
    ensures t.Responded? && (RuleOf(op) == FalseOnNotOk || RuleOf(op) == TrueIff204) ==> r.Ok? && r.value.Flag?
    ensures r == Ok(Flag(false)) ==> RuleOf(op) == FalseOnNotOk || RuleOf(op) == TrueIff204
  {
    match t
    case Failed(rejection) => Err(Propagated(rejection))
    case Responded(reply) =>
      match RuleOf(op)
      case ThrowOnNotOk =>
        if !IsOk(reply.status) then Err(PlainError(FailureMessage(op, reply))) else Success(op, reply)
      case FalseOnNotOk => Ok(Flag(IsOk(reply.status)))
      case TrueIff204 => Ok(Flag(reply.status == 204))
      case Unchecked => Success(op, reply)
  }

  // ----- requests -----

  /** The ten fields `createServer` destructures, in order. */
  const ServerFieldNames: seq<string> :=
    ["name", "user", "egg", "docker_image", "startup", "enviroment",
     "limits", "feature_limits", "allocation", "deploy"]

  /** The object `createServer` rebuilds from its argument: `JSON.stringify` drops the
      fields that were undefined. */
  function PickFields(data: seq<(string, Json)>, names: seq<string>): seq<(string, Json)>
  {
    if names == [] then []
    else
      var here := Lookup(data, names[0]);
      (if here.Some? then [(names[0], here.value)] else []) + PickFields(data, names[1..])
  }

  /** Reading a key of fields with one more field in front: the later fields win. */
  lemma {:induction false} LookupCons(p: (string, Json), rest: seq<(string, Json)>, key: string)
    ensures Lookup([p] + rest, key)
            == if Lookup(rest, key).Some? then Lookup(rest, key) else if p.0 == key then Some(p.1) else None
  {
    if rest != [] {
      var s := [p] + rest;
      assert s[..|s| - 1] == [p] + rest[..|rest| - 1];
      if rest[|rest| - 1].0 != key {
        LookupCons(p, rest[..|rest| - 1], key);
      }
    }
  }

  /** Every picked field is named among `names`. */
  lemma {:induction false} PickFieldsNamed(data: seq<(string, Json)>, names: seq<string>)
    ensures forall i :: 0 <= i < |PickFields(data, names)| ==> PickFields(data, names)[i].0 in names
  {
    if names != [] {
      PickFieldsNamed(data, names[1..]);
      var rest := PickFields(data, names[1..]);
      var here := Lookup(data, names[0]);
      if here.Some? {
        var picked := [(names[0], here.value)] + rest;
        assert PickFields(data, names) == picked;
        forall i | 0 <= i < |picked|
          ensures picked[i].0 in names
        {
          if i > 0 {
            assert picked[i] == rest[i - 1];
            assert rest[i - 1].0 in names[1..];
          }
        }
      } else {
        assert PickFields(data, names) == rest;
        forall i | 0 <= i < |rest|
          ensures rest[i].0 in names
        {
          assert rest[i].0 in names[1..];
        }
      }
    }
  }

  /** Each name reads in the picked fields as it reads in the input. */
  lemma {:induction false} PickFieldsKeepsValues(data: seq<(string, Json)>, names: seq<string>)
    ensures forall k :: k in names ==> Lookup(PickFields(data, names), k) == Lookup(data, k)
  {
    if names != [] {
      var rest := PickFields(data, names[1..]);
      PickFieldsKeepsValues(data, names[1..]);
      PickFieldsNamed(data, names[1..]);
      var here := Lookup(data, names[0]);
      forall k | k in names
        ensures Lookup(PickFields(data, names), k) == Lookup(data, k)
      {
        if k !in names[1..] {
          forall i | 0 <= i < |rest|
            ensures rest[i].0 != k
          {
            assert rest[i].0 in names[1..];
          }
          LookupFindsLast(rest, k);
        }
        if here.Some? {
          assert PickFields(data, names) == [(names[0], here.value)] + rest;
          LookupCons((names[0], here.value), rest, k);
        } else {
          assert PickFields(data, names) == rest;
        }
      }
    }
  }

  /** Builds `${panelUrl}/api/application/...` and the fields of `RequestInit`. */
  function AdminPath(op: AdminOp): string
  {
    match op
    case GetAllUser => "/api/application/users"
    case GetAUserByEmail(email) => "/api/application/users?filter[email]=" + EncodeURIComponent(email)
    case GetAUserByUsername(name) => "/api/application/users?filter[username]=" + EncodeURIComponent(name)
    case GetAUserById(id) => "/api/application/users/" + IntToString(id)
    case CreateUser(_) => "/api/application/users"
    case UpdateUser(id, _) => "/api/application/users/" + IntToString(id)
    case DeleteUser(id) => "/api/application/users/" + IntToString(id)
    case GetAllServers(filter, value) =>
      "/api/application/servers"
      + (if filter.Some? && filter.value != "" then "?filter[" + filter.value + "]=" + value.GetOr("undefined") else "")
    case GetAServerById(id, relations) =>
      "/api/application/servers/" + IntToString(id) + "?include=" + relations.GetOr("undefined")
    case CreateServer(_) => "/api/application/servers/"
    case UpdateServerDetails(id, _) => "/api/application/servers/" + IntToString(id) + "/details"
    case SuspendServer(id) => "/api/application/servers/" + IntToString(id) + "/suspend"
    case UnSuspendServer(id) => "/api/application/servers/" + IntToString(id) + "/unsuspend"
    case UpdateServerBuild(id, _) => "/api/application/servers/" + IntToString(id) + "/build"
    case UpdateServerStartup(id, _) => "/api/application/servers/" + IntToString(id) + "/startup"
    case ReinstallServer(id) => "/api/application/servers/" + IntToString(id) + "/reinstall"
    case DeleteServer(id, force) =>
      "/api/application/servers/" + IntToString(id) + "?force=" + (if force then "true" else "false")
    case GetServerDbs(id) => "/api/application/servers/" + IntToString(id) + "/databases"
    case GetServerDB(id, db) => "/api/application/servers/" + IntToString(id) + "/databases/" + IntToString(db)
    case CreateServerDB(id, _) => "/api/application/servers/" + IntToString(id) + "/databases"
    case UpdateServerDB(id, db, _) => "/api/application/servers/" + IntToString(id) + "/databases/" + IntToString(db)
    case ResetServerDB(id, db) =>
      "/api/application/servers/" + IntToString(id) + "/databases/" + IntToString(db) + "/reset-password"
    case DeleteServerDB(id, db) => "/api/application/servers/" + IntToString(id) + "/databases/" + IntToString(db)
    case GetAllNodes(options) => "/api/application/nodes?" + SerializeParams(options)
    case CreateNode(_) => "/api/application/nodes"
    case GetNodeConfiguration(id) => "/api/application/nodes/" + IntToString(id) + "/configuration"
    case GetAllAllocation(id) => "/api/application/nodes/" + IntToString(id) + "/allocations"
    case CreateAllocations(id, _) => "/api/application/nodes/" + IntToString(id) + "/allocations"
    case DeleteNode(id) => "/api/application/nodes/" + IntToString(id)
    case GetAllLocations(options) => "/api/application/locations?" + SerializeParams(options)
    case CreateLocation(_) => "/api/application/locations"
    case UpdateLocation(id, _) => "/api/application/locations/" + IntToString(id)
    case DeleteLocation(id) => "/api/application/locations/" + IntToString(id)
    case GetLocationWithNodes(id) => "/api/application/locations/" + IntToString(id) + "?include=nodes"
    case GetAllNests(options) => "/api/application/nests?" + SerializeParams(options)
    case GetANest(id) => "/api/application/nests/" + IntToString(id)
    case GetAllEggs(id) => "/api/application/nests/" + IntToString(id) + "/eggs"
    case GetAEgg(id, egg) => "/api/application/nests/" + IntToString(id) + "/eggs/" + IntToString(egg)
  }

  /** The HTTP method; `fetch` defaults to GET when none is given. */
  function AdminVerb(op: AdminOp): (v: string)
    ensures v == "GET" || v == "POST" || v == "PATCH" || v == "DELETE"
    ensures SendsBody(op) ==> v == "POST" || v == "PATCH"
    ensures v == "PATCH" ==> SendsBody(op)
  {
    match op
    case CreateUser(_) => "POST"
    case CreateServer(_) => "POST"
    case SuspendServer(_) => "POST"
    case UnSuspendServer(_) => "POST"
    case ReinstallServer(_) => "POST"
    case CreateServerDB(_, _) => "POST"
    case ResetServerDB(_, _) => "POST"
    case CreateNode(_) => "POST"
    case CreateAllocations(_, _) => "POST"
    case CreateLocation(_) => "POST"
    case UpdateUser(_, _) => "PATCH"
    case UpdateServerDetails(_, _) => "PATCH"
    case UpdateServerBuild(_, _) => "PATCH"
    case UpdateServerStartup(_, _) => "PATCH"
    case UpdateServerDB(_, _, _) => "PATCH"
    case UpdateLocation(_, _) => "PATCH"
    case DeleteUser(_) => "DELETE"
    case DeleteServer(_, _) => "DELETE"
    case DeleteServerDB(_, _) => "DELETE"
    case DeleteNode(_) => "DELETE"
    case DeleteLocation(_) => "DELETE"
    case _ => "GET"
  }

  /** The methods that hand `fetch` a `body`. */
  predicate SendsBody(op: AdminOp)
  {
    || op.CreateUser? || op.UpdateUser? || op.CreateServer? || op.UpdateServerDetails?
    || op.UpdateServerBuild? || op.UpdateServerStartup? || op.CreateServerDB? || op.UpdateServerDB?
    || op.CreateNode? || op.CreateAllocations? || op.CreateLocation? || op.UpdateLocation?
  }

  /** The serialized request body, for the methods that send one. */
  function AdminBody(op: AdminOp): (b: Option<string>)
    ensures b.Some? <==> SendsBody(op)
  {
    match op
    case CreateUser(user) => Some(Stringify(user))
    case UpdateUser(_, updates) => Some(Stringify(updates))
    case CreateServer(server) => Some(Stringify(JObject(PickFields(server, ServerFieldNames))))
    case UpdateServerDetails(_, details) => Some(Stringify(details))
    case UpdateServerBuild(_, build) => Some(Stringify(build))
    case UpdateServerStartup(_, startup) => Some(Stringify(startup))
    case CreateServerDB(_, database) => Some(Stringify(database))
    case UpdateServerDB(_, _, database) => Some(Stringify(database))
    case CreateNode(node) => Some(Stringify(node))
    case CreateAllocations(_, allocation) => Some(Stringify(allocation))
    case CreateLocation(location) => Some(Stringify(location))
    case UpdateLocation(_, location) => Some(Stringify(location))
    case _ => None
  }

  /** The connection an administrator opens: fixed at construction. */
  class ApplicationApi {
    const panelUrl: string
    const apiKey: string
    const customHeaders: Option<map<string, string>>

    constructor(panelUrl: string, apiKey: string, customHeaders: Option<map<string, string>>)
      ensures this.panelUrl == RemoveTrailingSlash(panelUrl)
      ensures this.apiKey == apiKey && this.customHeaders == customHeaders
    {
      this.panelUrl := RemoveTrailingSlash(panelUrl);
      this.apiKey := apiKey;
      this.customHeaders := customHeaders;
    }

    /** `getHeaders`: the three base headers overlaid with the custom ones. */
    function GetHeaders(): (h: map<string, string>)
      ensures "Accept" in h && AuthorizationHeader in h && "Content-Type" in h
      ensures AuthorizationHeader !in customHeaders.GetOr(map[]) ==> h[AuthorizationHeader] == "Bearer " + apiKey
    {
      MergedHeadersCarryAuth(apiKey, customHeaders);
      MergeHeaders(BaseHeaders(apiKey), customHeaders)
    }

    /** The request each method hands to `fetch`. `deleteServer` passes no headers. */
    function RequestFor(op: AdminOp): (r: Request)
      ensures !op.DeleteServer? ==> r == AuthorizedRequestFor(op)
      ensures r.body.Some? ==> r.verb != "GET" && r.verb != "DELETE"
    {
      Request(panelUrl + AdminPath(op), AdminVerb(op),
              if op.DeleteServer? then map[] else GetHeaders(),
              AdminBody(op))
    }

    /** `deleteServer` as it was evidently meant to be sent, with the usual headers. */
    function AuthorizedRequestFor(op: AdminOp): Request
    {
      Request(panelUrl + AdminPath(op), AdminVerb(op), GetHeaders(), AdminBody(op))
    }

    /** One admin call: the request it sends and what it settles to. */
    function Call(op: AdminOp, t: Transport): (Request, Result<Returned, Thrown>)
    {
      (RequestFor(op), Outcome(op, t))
    }

    /** Every request except `deleteServer`'s carries the three base headers, with the
        bearer token unless a custom header replaces it. */
    lemma RequestsCarryHeaders(op: AdminOp)
      requires !op.DeleteServer?
      ensures var h := RequestFor(op).headers;
        && "Accept" in h && AuthorizationHeader in h && "Content-Type" in h
        && (AuthorizationHeader !in customHeaders.GetOr(map[]) ==> h[AuthorizationHeader] == "Bearer " + apiKey)
    {
    }

    /** As written, `deleteServer` sends no header at all, so no credentials. */
    lemma DeleteServerSendsNoCredentials(id: int, force: bool)
      ensures AuthorizationHeader !in RequestFor(DeleteServer(id, force)).headers
      ensures RequestFor(DeleteServer(id, force)).headers == map[]
    {
    }

    /** With the headers it evidently needs, `deleteServer` authenticates like every other
        call, and is otherwise the same request. */
    lemma AuthorizedDeleteServer(id: int, force: bool)
      ensures var r := AuthorizedRequestFor(DeleteServer(id, force));
        && AuthorizationHeader in r.headers
        && (AuthorizationHeader !in customHeaders.GetOr(map[]) ==> r.headers[AuthorizationHeader] == "Bearer " + apiKey)
        && r.(headers := map[]) == RequestFor(DeleteServer(id, force))
    {
    }

    /** `?force=` always appears, spelling out the flag. */
    lemma DeleteServerForceFlag(id: int, force: bool)
      ensures var url := RequestFor(DeleteServer(id, force)).url;
        && (EndsWith(url, "?force=true") <==> force)
        && (EndsWith(url, "?force=false") <==> !force)
    {
      var head := panelUrl + "/api/application/servers/" + IntToString(id);
      var tail := if force then "?force=true" else "?force=false";
      assert AdminPath(DeleteServer(id, force)) == "/api/application/servers/" + IntToString(id) + tail;
      assert RequestFor(DeleteServer(id, force)).url == head + tail;
      ForceSuffix(head, force);
    }

    /** One `deleteServer` call end to end: a DELETE without headers or body to the
        `?force=` URL, which resolves to whether the response was ok and lets a rejected
        fetch through. */
    lemma DeleteServerCall(id: int, force: bool, t: Transport)
      ensures var c := Call(DeleteServer(id, force), t);
        && c.0.verb == "DELETE" && c.0.headers == map[] && c.0.body.None?
        && (EndsWith(c.0.url, "?force=true") <==> force)
        && (t.Responded? ==> c.1 == Ok(Flag(IsOk(t.reply.status))))
        && (t.Failed? ==> c.1 == Err(Propagated(t.rejection)))
    {
      DeleteServerForceFlag(id, force);
    }

    /** Any call of a method that throws on failure, end to end: it sends the bearer token
        (unless a custom header replaces it), and a response that is not ok rejects with a
        plain Error whose message starts with the method's prefix and the status. */
    lemma ThrowingCall(op: AdminOp, reply: Reply)
      requires RuleOf(op) == ThrowOnNotOk && !IsOk(reply.status)
      ensures var c := Call(op, Responded(reply));
        && AuthorizationHeader in c.0.headers
        && (AuthorizationHeader !in customHeaders.GetOr(map[]) ==> c.0.headers[AuthorizationHeader] == "Bearer " + apiKey)
        && c.1.Err? && c.1.error.PlainError?
        && StartsWith(c.1.error.message, MessageFormOf(op).prefix + NatToString(reply.status))
    {
    }

    /** The email travels percent-encoded: what follows `filter[email]=` decodes back to
        it and holds none of the characters that would end or split the query. */
    lemma EmailLookupIsEncoded(email: string)
      ensures var head := panelUrl + "/api/application/users?filter[email]=";
        var url := RequestFor(GetAUserByEmail(email)).url;
        && StartsWith(url, head)
        && PercentDecode(url[|head|..], false) == Some(email)
        && forall i :: |head| <= i < |url| ==> url[i] !in "&=#?/ "
    {
      var head := panelUrl + "/api/application/users?filter[email]=";
      var path := AdminPath(GetAUserByEmail(email));
      assert path == "/api/application/users?filter[email]=" + EncodeURIComponent(email);
      assert RequestFor(GetAUserByEmail(email)).url == panelUrl + path;
      assert panelUrl + path == head + EncodeURIComponent(email);
      EncodedTail(head, email);
    }

    /** The same for the username after `filter[username]=`. */
    lemma UsernameLookupIsEncoded(username: string)
      ensures var head := panelUrl + "/api/application/users?filter[username]=";
        var url := RequestFor(GetAUserByUsername(username)).url;
        && StartsWith(url, head)
        && PercentDecode(url[|head|..], false) == Some(username)
        && forall i :: |head| <= i < |url| ==> url[i] !in "&=#?/ "
    {
      var head := panelUrl + "/api/application/users?filter[username]=";
      var path := AdminPath(GetAUserByUsername(username));
      assert path == "/api/application/users?filter[username]=" + EncodeURIComponent(username);
      assert RequestFor(GetAUserByUsername(username)).url == panelUrl + path;
      assert panelUrl + path == head + EncodeURIComponent(username);
      EncodedTail(head, username);
    }
  }

  /** The tail of `?force=true` and `?force=false` tells the two apart. */
  lemma ForceSuffix(head: string, force: bool)
    ensures var url := head + (if force then "?force=true" else "?force=false");
      && (EndsWith(url, "?force=true") <==> force)
      && (EndsWith(url, "?force=false") <==> !force)
  {
    var t, f := "?force=true", "?force=false";
    var url := head + (if force then t else f);
    if force {
      assert url[|head|..] == t;
      assert url[|url| - 5] == '=';
      if |f| <= |url| {
        assert url[|url| - |f|..][7] == url[|url| - 5];
      }
    } else {
      assert url[|head|..] == f;
      assert url[|url| - 5] == 'f';
      assert url[|url| - |t|..][6] == url[|url| - 5];
    }
  }

  /** A key spliced into a URL with `encodeURIComponent` can be read back exactly, and stays
      inside its query parameter. */
  lemma EncodedTail(base: string, key: string)
    ensures var url := base + EncodeURIComponent(key);
      && StartsWith(url, base)
      && PercentDecode(url[|base|..], false) == Some(key)
      && forall i :: |base| <= i < |url| ==> url[i] !in "&=#?/ "
  {
    var url := base + EncodeURIComponent(key);
    assert url[|base|..] == EncodeURIComponent(key);
    PercentRoundTrip(key, false);
    PercentEncodeAlphabet(key, false);
    forall i | |base| <= i < |url|
      ensures url[i] !in "&=#?/ "
    {
      assert url[i] == EncodeURIComponent(key)[i - |base|];
    }
  }

  // ----- how each method signals its result -----

  /** A rejected `fetch` is never caught by an admin method. */
  lemma RejectionPropagates(op: AdminOp, rejection: Rejection)
    ensures Outcome(op, Failed(rejection)) == Err(Propagated(rejection))
  {
  }

  /** `reinstallServer` and `deleteServer` never throw on a response: they resolve to
      whether it was ok. */
  lemma FalseWhenNotOk(op: AdminOp, reply: Reply)
    requires op.ReinstallServer? || op.DeleteServer?
    ensures Outcome(op, Responded(reply)) == Ok(Flag(IsOk(reply.status)))
  {
  }

  /** `createAllocations`, `deleteNode` and `deleteLocation` resolve to whether the status is
      204, so any other success status, 200 included, reads as failure. */
  lemma TrueOnlyOn204(op: AdminOp, reply: Reply)
    requires op.CreateAllocations? || op.DeleteNode? || op.DeleteLocation?
    ensures Outcome(op, Responded(reply)) == Ok(Flag(reply.status == 204))
    ensures reply.status == 200 ==> Outcome(op, Responded(reply)) == Ok(Flag(false))
  {
  }

  /** Every other method but `createNode` throws a plain `Error` on a status that is not
      ok, and its message names the status. */
  lemma ThrowsWhenNotOk(op: AdminOp, reply: Reply)
    requires RuleOf(op) == ThrowOnNotOk && !IsOk(reply.status)
    ensures Outcome(op, Responded(reply)) == Err(PlainError(FailureMessage(op, reply)))
    ensures Includes(FailureMessage(op, reply), NatToString(reply.status))
  {
    MessageNamesStatus(MessageFormOf(op), reply);
  }

  lemma MessageNamesStatus(form: MessageForm, reply: Reply)
    ensures Includes(RenderMessage(form, reply), NatToString(reply.status))
  {
    var status := NatToString(reply.status);
    match form
    case StatusText(p) =>
      IncludesInside(p, status, ", " + reply.statusText);
      assert p + status + ", " + reply.statusText == p + status + (", " + reply.statusText);
    case StatusTextBody(p) =>
      IncludesInside(p, status, " " + reply.statusText + "\n" + reply.body);
      assert p + status + " " + reply.statusText + "\n" + reply.body
             == p + status + (" " + reply.statusText + "\n" + reply.body);
    case StatusOnly(p) =>
      IncludesAtEnd(p, status);
    case StatusBody(p) =>
      IncludesInside(p, status, ", " + reply.body);
      assert p + status + ", " + reply.body == p + status + (", " + reply.body);
  }

  /** The methods that throw on failure never resolve to `false`: the `return false` after
      the `throw` in `deleteUser` and `createServer` cannot run. */
  lemma NeverResolvesFalse(op: AdminOp, t: Transport)
    requires RuleOf(op) == ThrowOnNotOk || RuleOf(op) == Unchecked
    ensures Outcome(op, t) != Ok(Flag(false))
  {
  }

  /** `deleteUser` resolves to `true` exactly on an ok status; `createServer` resolves to its
      `created` wrapper exactly then, whatever the body holds. */
  lemma DeleteUserAndCreateServer(id: int, server: seq<(string, Json)>, reply: Reply)
    ensures Outcome(DeleteUser(id), Responded(reply)).Ok? <==> IsOk(reply.status)
    ensures IsOk(reply.status) ==> Outcome(DeleteUser(id), Responded(reply)) == Ok(Flag(true))
    ensures IsOk(reply.status) ==> Outcome(CreateServer(server), Responded(reply)) == Ok(Created(reply.json))
    ensures !IsOk(reply.status) ==> Outcome(CreateServer(server), Responded(reply)).Err?
  {
  }

  /** `createNode` never looks at the status: its result depends on the body alone. */
  lemma CreateNodeIgnoresStatus(node: Json, reply: Reply, status: nat, statusText: string)
    ensures Outcome(CreateNode(node), Responded(reply))
            == Outcome(CreateNode(node), Responded(reply.(status := status, statusText := statusText)))
    ensures Outcome(CreateNode(node), Responded(reply))
            == if reply.json.Some? then Ok(Value(reply.json)) else Err(SyntaxError)
  {
  }

  /** The lookups by email and by username return the first user of the list the panel
      sends back, and fail with a message naming the key when the list is empty. */
  lemma UserLookupFirstOrError(op: AdminOp, reply: Reply, fields: seq<(string, Json)>, users: seq<Json>)
    requires op.GetAUserByEmail? || op.GetAUserByUsername?
    requires IsOk(reply.status)
    requires reply.json == Some(JObject(fields)) && Lookup(fields, "data") == Some(JArray(users))
    ensures users != [] ==> Outcome(op, Responded(reply)) == Ok(Value(Some(users[0])))
    ensures users == [] ==> Outcome(op, Responded(reply)) == Err(PlainError(NotFoundMessage(op)))
    ensures Includes(NotFoundMessage(op), if op.GetAUserByEmail? then op.email else op.username)
  {
    if op.GetAUserByEmail? {
      IncludesInside("User with email ", op.email, " not found.");
    } else {
      IncludesInside("User with username ", op.username, " not found.");
    }
  }

  /** `createServer` sends exactly the ten destructured fields that were present, each
      with its given value. */
  lemma CreateServerSendsPickedFields(server: seq<(string, Json)>)
    ensures var sent := PickFields(server, ServerFieldNames);
      && (forall i :: 0 <= i < |sent| ==> sent[i].0 in ServerFieldNames)
      && (forall k :: k in ServerFieldNames ==> Lookup(sent, k) == Lookup(server, k))
  {
    PickFieldsNamed(server, ServerFieldNames);
    PickFieldsKeepsValues(server, ServerFieldNames);
  }
}
