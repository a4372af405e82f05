# ptero-connect, modelled in Dafny

ptero-connect is a TypeScript client for the Pterodactyl game-server panel. It has two
API classes:

- `ClientApi` is the end-user surface. Every endpoint goes through one private `api`
  function.
- `ApplicationApi` is the administrator surface. It has one hand-written `fetch` per
  method, and each method reports failure in its own fixed way.

`smallUtility` adds two search helpers to `ApplicationApi`.

This project models the deterministic decisions that surround the network calls. Each
`fetch` is replaced by an abstract outcome, `Http.Transport`. It is either `Failed` with
the rejection (an `AbortError` or any other error) or `Responded` with a `Reply`. A
`Reply` holds the status, the status text, the `Content-Type`, the body text, and what
`response.json()` yields for that body.

Modules, one file each:

| module | file | what it models |
|---|---|---|
| `Wrappers` | wrappers.dfy | `Option`, and `Result` for a call that returns or throws |
| `Strings` | strings.dfy | `${n}` for integers; `startsWith`, `endsWith`, `includes`; `join` |
| `Json` | json.dfy | decoded JSON values, `JSON.stringify`, and property lookup in which the last key wins |
| `Uri` | uri.dfy | `encodeURIComponent`, and `URLSearchParams` serialisation, over UTF-8 |
| `Errors` | errors.dfy | `PterodactylAPIError` and its three subclasses; what a call can throw; `Error.prototype.toString` |
| `Http` | http.dfy | `removeTrailingSlash`, the header merge, the request descriptor and the transport outcome |
| `Client` | client.dfy | `ClientApi`: constructor, `api`, and the `listServers`, `createBackup`, `createSchedule` and `updateSchedule` builders |
| `Application` | application.dfy | `ApplicationApi`: the request of every method, and how each method signals its result |
| `SmallUtility` | smallutility.dfy | `getEggById` and `getNodesByLocationId` |

How each part is modelled:

- **Client request pipeline.** `ClientApi.Api` is a function from the connection, the
  path, the optional body, the optional method and the transport outcome to a pair: the
  request descriptor, and what the call settles to.
- **Admin methods.** Each `ApplicationApi` method is a constructor of `AdminOp`. Its
  request is `RequestFor(op)` and its result is `Outcome(op, t)`. The way a method
  signals failure is one of four rules, `RuleOf(op)`: throw, return `false`, return
  `status == 204`, or not check the status at all. The value it returns on success is
  one of five shapes, `ShapeOf(op)`.
- **State.** The connection fields of both classes are set only in their constructors, so
  they are `const` fields of Dafny classes.
- **Steps that change state.** The source's step-by-step code keeps its form as methods
  with loops and accumulators:
  - `ListServers`, `CreateBackup` and `UpdateSchedule` build the query or the body one
    step at a time.
  - `GetEggById` scans the nests.
  - `GetNodesByLocationId` walks the nodes.

  Each method is proved equal to a specification function. The properties are proved as
  lemmas about those functions.

Where the prose description of the library and the code differ, the model follows the
code:

- `getEggById` is documented as returning the egg's attributes. It returns the whole egg
  object that `find` matched (index.ts:1312-1315), and so does the model.
- A 422 response becomes a `ValidationError`, whose constructor prefixes the message
  again. The full message is therefore "Request validation failed: Invalid request data:
  " followed by the body text, and the status is 400.

## Model

| member | source | states |
|---|---|---|
| `Http.RemoveTrailingSlash` | index.ts:215-217 | The result is the URL or the URL minus one final "/". It is unchanged exactly when the URL is "/" or does not end in "/". |
| `Http.RemoveTrailingSlashTwice` | index.ts:215-217 | The function is not idempotent. A second application changes the result exactly when the URL is longer than two characters and ends in "//", so "a//" gives "a/" and then "a". |
| `Http.MergeHeaders` | index.ts:396-407 | The merged keys are the base keys plus the custom keys. A custom value wins on a shared key. Every base key absent from the custom map keeps its base value. |
| `Http.MergedHeadersCarryAuth` | index.ts:1832-1837 | The merged headers always hold Accept, Authorization and Content-Type. Each keeps its base value ("application/json", "Bearer " + key) unless a custom header of that name replaces it. |
| `Client.ClientApi.constructor` | index.ts:1823-1838 | The base URL loses one trailing slash. `debug` defaults to false and `timeout` to 30000. The headers are the base headers merged with the custom ones. |
| `Client.EffectiveMethod` | index.ts:1851 | An explicit method always wins. Otherwise the method is POST exactly when the body is truthy, and GET exactly when it is not. |
| `Client.SerializeBody` | index.ts:1852-1856 | The body is left out exactly when the data is falsy (absent or ""). A string passes through unchanged. An object or an array, even an empty one, is JSON-encoded. |
| `Client.ClientApi.FalsyAndEmptyBodies` | index.ts:1851-1856 | `{}` with no method gives a POST with body "{}". "" with no method gives a GET with no body. An explicit method always wins. |
| `Client.Classify` | index.ts:1874-1890 | ValidationError exactly for 400 and 422. AuthenticationError exactly for 401. PermissionError exactly for 403. The status is the response status, except 400 for 422. A response body is kept except for 400, 401 and 403. |
| `Client.ClassifyMessages` | index.ts:1745-1764 | The exact message and status text of each class: 400 gives "Request validation failed: " + text; 401 gives "Invalid credentials"; 403 gives "Insufficient permission: " + text; 422 is double-prefixed. Any other status gives a PterodactylAPIError with "API Error: <status> <statusText>". |
| `Client.ClassifiedMessageQuotesText` | index.ts:1875-1882 | The 400, 403 and 422 errors quote the response text. |
| `Client.UnprocessableIsNamed` | index.ts:1881-1882 | A 422 message says "Invalid request data". |
| `Client.GenericMessageNamesStatus` | index.ts:1883-1889 | The generic error's message contains the decimal status, which reads back as the status. |
| `Client.Catch` | index.ts:1902-1907 | An error named AbortError becomes the timeout error. Anything else is rethrown unchanged. |
| `Client.SettleRejected` | index.ts:1902-1907 | An aborted fetch rejects with PterodactylAPIError 408 "Request timeout" / "Request Timeout" and no body. Any other rejection propagates unchanged. |
| `Client.SettleNotOk` | index.ts:1871-1891 | A response that is not ok rejects with exactly its classification, unchanged by the catch block. |
| `Client.SettleOk` | index.ts:1893-1901 | An ok response yields the decoded JSON exactly when the Content-Type contains "application/json" and the body decodes. It yields the raw text, unchanged, exactly when the Content-Type does not contain it. It fails exactly when JSON is declared but the body does not decode. |
| `Client.JsonWithParameters` | index.ts:1893 | "application/json" followed by parameters still counts as JSON. |
| `Client.EmptyContainersAreTruthy` | index.ts:1851-1856 | An empty object and an empty array are truthy, so with no method they are POSTed as their JSON text. An absent body and "" are falsy. |
| `Client.MissingContentTypeIsText` | index.ts:1893-1900 | An ok response without a Content-Type does not declare JSON and yields its raw body text. |
| `Client.Attempt` | index.ts:1848-1901 | A rejected fetch is thrown as it is. A panel error is thrown exactly when a response is not ok. Nothing a response makes the `try` block throw is named AbortError. |
| `Client.Settle` | index.ts:1848-1907 | The call succeeds exactly when the `try` block does, with the same value. For a response, the result is exactly that of the `try` block. No error named AbortError escapes. |
| `Errors.NewPanelError` | index.ts:1733-1743 | The error keeps the message, status, status text and body it is given, and is named PterodactylAPIError. |
| `Errors.NewValidationError` | index.ts:1745-1750 | Named ValidationError, status 400 "Bad Request". The message is "Request validation failed: " followed by the given message. The body is kept. |
| `Errors.NewAuthenticationError` | index.ts:1752-1757 | Named AuthenticationError, status 401 "Unauthorized", message "Invalid credentials", no body. |
| `Errors.NewPermissionError` | index.ts:1759-1764 | Named PermissionError, status 403 "Forbidden". The message is "Insufficient permission: " followed by the given message. The body is kept. |
| `Errors.TimeoutError` | index.ts:1903-1905 | A PterodactylAPIError with status 408, status text "Request Timeout", message "Request timeout" and no body. |
| `Errors.ToString` | index.ts:1349 | `${error}` of a plain Error is "Error: " and its message ("Error" alone for no message). A panel error gives its class name, ": " and its message. An abort gives "AbortError: This operation was aborted". |
| `Client.ClientApi.Api` | index.ts:1840-1911 | The request goes to base URL + path, with the connection's headers, the chosen method and the serialised body. The call settles as `Settle` of the transport outcome. |
| `Client.ClientApi.ListServers` | index.ts:1979-1989 | The query gathers `include=egg` and then `include=subusers`, each only when asked. "?" + query is appended only when the query is not empty. The request is a GET with no body. |
| `Client.IncludeParamsSerialize` | index.ts:1983-1987 | The appended pairs serialise to exactly one of "include=egg&include=subusers", "include=egg", "include=subusers" and "". |
| `Client.ClientApi.CreateBackup` | index.ts:2309-2315 | The body built step by step equals `BackupFields`. It is always POSTed, and the call resolves to nothing or rethrows. |
| `Client.BackupFieldsKeys` | index.ts:2310-2312 | `name` is present exactly when the name is a non-empty string. `ignored` is present exactly when a list is given, even an empty one. No other key is present. |
| `Client.EmptyBackupPostsEmptyObject` | index.ts:2309-2315 | With no name and no list, the request still POSTs "{}". An empty name counts as no name. |
| `Client.ClientApi.CreateSchedule` | index.ts:2140-2163 | All six keys are POSTed, and `is_active` defaults to true. |
| `Client.ClientApi.UpdateSchedule` | index.ts:2169-2194 | The body built step by step equals the five cron and name keys, plus `is_active` only when it is defined. It is POSTed to the schedule's path. |
| `Client.ScheduleActiveFlag` | index.ts:2181-2191 | `is_active` is in the update body exactly when it is defined, with its value. A created schedule always has it. |
| `Strings.NatToStringRoundTrip` | index.ts:1885 | The decimal text of a status reads back as that status. |
| `Json.EscapeRoundTrip` | index.ts:1855 | The string escaping of `JSON.stringify` can be undone exactly. |
| `Uri.PercentRoundTrip` | index.ts:440 | `encodeURIComponent` text decodes back to the original string. |
| `Uri.PercentEncodeAlphabet` | index.ts:440 | Encoded text contains none of `& = # ? /` or space. |
| `Uri.EncodeURIComponent` | index.ts:440 | The encoded text decodes back to the input. It holds none of `& = # ? /` or space. |
| `Uri.SerializeParams` | index.ts:963-978 | No pairs give the empty query. The serialised query never holds `#`, `?`, `/` or a space, so it stays inside the query part of the URL. |
| `Json.Stringify` | index.ts:1855 | The text is never empty. A string is written between double quotes, an array between brackets and an object between braces. |
| `Json.LookupFindsLast` | index.ts:428 | A property read is absent exactly when no field carries the key. Otherwise it reads the value of the last field that carries it. |
| `Application.ApplicationApi.constructor` | index.ts:387-395 | The base URL loses one trailing slash. The key and the custom headers are kept as given. |
| `Application.ApplicationApi.RequestsCarryHeaders` | index.ts:396-407 | Every admin request except deleteServer's carries Accept, Authorization and Content-Type. Authorization is "Bearer " + key unless a custom header replaces it. |
| `Application.ApplicationApi.DeleteServerSendsNoCredentials` | index.ts:795-801 | As written, deleteServer sends an empty header map, so no Authorization. |
| `Application.ApplicationApi.AuthorizedDeleteServer` | index.ts:795-801 | Sent with the usual headers, deleteServer carries the bearer token. It is otherwise the same request. |
| `Application.ApplicationApi.DeleteServerForceFlag` | index.ts:795-798 | The URL ends in "?force=true" exactly when force is set, and in "?force=false" exactly when it is not. |
| `Application.ApplicationApi.EmailLookupIsEncoded` | index.ts:436-446 | The email in the lookup URL decodes back to the email. It cannot break out of its query parameter. |
| `Application.ApplicationApi.UsernameLookupIsEncoded` | index.ts:453-463 | The username in the lookup URL decodes back to the username. It cannot break out of its query parameter. |
| `Application.RejectionPropagates` | index.ts:409-417 | A rejected fetch is never caught by an admin method. |
| `Application.ThrowsWhenNotOk` | index.ts:409-417 | Every method whose rule is to throw does throw a plain Error on a status that is not ok. Its message contains the status. |
| `Application.FalseWhenNotOk` | index.ts:776-804 | reinstallServer and deleteServer never throw on a response. They resolve to whether it was ok. |
| `Application.TrueOnlyOn204` | index.ts:1048-1152 | createAllocations, deleteNode and deleteLocation resolve to status == 204, so 200 gives false. |
| `Application.NeverResolvesFalse` | index.ts:521-536 | A method that throws on failure never resolves to false. The `return false` after the throw cannot run. |
| `Application.DeleteUserAndCreateServer` | index.ts:521-621 | deleteUser resolves to true exactly on an ok status. createServer resolves to its `{created, data}` wrapper then, and throws otherwise. |
| `Application.CreateNodeIgnoresStatus` | index.ts:983-1007 | createNode's result does not depend on the status. It is the decoded body. |
| `Application.UserLookupFirstOrError` | index.ts:436-463 | The lookups by email and by username return the first user listed. On an empty list they throw a message that contains the key. |
| `Application.CreateServerSendsPickedFields` | index.ts:584-612 | createServer sends only the ten destructured fields. Each one present keeps its given value, and an absent one stays absent. |
| `Application.PickFieldsNamed` | index.ts:584-612 | Every picked field is one of the names. |
| `Application.PickFieldsKeepsValues` | index.ts:584-612 | Each name reads in the picked object as it reads in the input, so an absent field stays absent. |
| `Application.RuleOf` | index.ts:409-1272 | reinstallServer and deleteServer, and only they, resolve to `response.ok`. createAllocations, deleteNode and deleteLocation, and only they, resolve to `status === 204`. Only createNode never looks at the status. Every other method throws on a status that is not ok. |
| `Application.ShapeOf` | index.ts:409-1272 | Exactly deleteUser, suspendServer, unSuspendServer and deleteServerDB return `true` without reading the body, and each of them checks the status first. Exactly the lookups by email and by username return `data.data[0]`. Only createServer returns the `{ created, data }` wrapper. |
| `Application.DataOf` | index.ts:423-428 | Reading `data` throws a TypeError exactly when the decoded body is null. A value read is the object's `data` member. |
| `Application.FirstOf` | index.ts:443-445 | An absent or null list throws a TypeError. A list throws the given message exactly when it is empty, and otherwise yields its first element. |
| `Application.Success` | index.ts:409-1272 | An ok response gives `true` exactly for the methods that return it, and the `created` wrapper exactly for createServer. A returned value means the body decoded. A body that is not JSON throws SyntaxError for every method that reads it. A plain Error comes only from an empty user lookup, with its "not found" message. |
| `Application.Outcome` | index.ts:409-1272 | A rejected fetch propagates. The flag methods resolve to a flag on every response. Only they can resolve to `false`. |
| `Application.FailureMessage` | index.ts:409-1272 | A thrown message starts with the method's own prefix and then the status. The forms that quote the response text end with it. |
| `Application.AdminVerb` | index.ts:409-1272 | Every request is a GET, POST, PATCH or DELETE. |
| `Application.AdminBody` | index.ts:409-1272 | Only POST and PATCH requests carry a body, and every PATCH request carries one. |
| `Application.ApplicationApi.GetHeaders` | index.ts:396-407 | The headers always hold Accept, Authorization and Content-Type. Authorization is "Bearer " + key unless a custom header replaces it. |
| `Application.ApplicationApi.RequestFor` | index.ts:409-1272 | Every request but deleteServer's is the authorized one: the method's URL and verb, `getHeaders()`, and its body. A request with a body is never a GET or a DELETE. |
| `Application.ApplicationApi.DeleteServerCall` | index.ts:795-804 | A deleteServer call is a DELETE without headers or body to the `?force=` URL. It resolves to whether the response was ok, and a rejected fetch propagates. |
| `Application.ApplicationApi.ThrowingCall` | index.ts:409-1272 | A call of a method that throws on failure sends the bearer token. On a status that is not ok it rejects with a plain Error whose message starts with the method's prefix and the status. |
| `SmallUtility.LooseEqualityOfText` | index.ts:1312 | An id loosely equals a number when it is that number or its decimal text. Undefined and null equal nothing. |
| `SmallUtility.LooseEqualityOfPaddedText` | index.ts:1312 | White space around the text and a leading sign are read as `Number` reads them. |
| `SmallUtility.LooseEqualityOfSingleton` | index.ts:1312 | A one-element array equals loosely what its element's text equals. |
| `SmallUtility.LooselyEquals` | index.ts:1312 | `undefined` and `null` equal no number. The empty string and the empty array both equal 0 and nothing else. |
| `SmallUtility.NumberOfText` | index.ts:1312 | Blank text reads as 0. A run of digits reads as its decimal value. |
| `SmallUtility.AttributeOf` | index.ts:1307 | Reading an attribute throws only a TypeError, and always does on a value that is not an object. A value read is the `attributes` object's member. |
| `SmallUtility.FindEgg` | index.ts:1312 | A found egg is one of the eggs and its id loosely equals the searched id. An empty list finds nothing. |
| `SmallUtility.ScanNests` | index.ts:1306-1321 | An egg the scan returns has an id that loosely equals the searched id. Past the last nest the scan fails with "Failed to locate egg configuration". |
| `SmallUtility.EggById` | index.ts:1301-1328 | A returned egg has an id that loosely equals the searched id. When the nest list is not a list, the call fails with "Failed to locate egg configuration". |
| `SmallUtility.Collect` | index.ts:1343-1347 | The walk keeps at most as many nodes as it is given, each one of them and at the location. It can only fail with a TypeError. |
| `SmallUtility.NodesAt` | index.ts:1341-1350 | Every node returned is at the location. Every failure is a plain Error starting "something went wrong: ". |
| `SmallUtility.TrimStart` | index.ts:1312 | Removes exactly the leading white space. |
| `SmallUtility.TrimEnd` | index.ts:1312 | Removes exactly the trailing white space. |
| `SmallUtility.FindEggReturnsFirstMatch` | index.ts:1312 | `find` returns the first egg whose id loosely equals the searched id, when all the eggs before it are readable. |
| `SmallUtility.FindEggFoundIsFirstMatch` | index.ts:1312 | Whatever `find` returns is such a first match. |
| `SmallUtility.GetEggById` | index.ts:1301-1328 | The loop over the nests, with its early return and continue-on-error, computes exactly `EggById`. |
| `SmallUtility.ScanReturnsFirstNest` | index.ts:1306-1321 | The scan returns the egg of the first nest that holds it, provided every earlier nest was read and passed over. |
| `SmallUtility.ScanFoundIsFirstNest` | index.ts:1306-1321 | Any egg the scan returns comes from such a first nest. |
| `SmallUtility.FailedFetchIsSkipped` | index.ts:1309-1320 | A nest whose egg fetch fails is skipped. |
| `SmallUtility.ScanFailsOneWay` | index.ts:1323-1326 | Whatever fails during the scan, the error is the single "Failed to locate egg configuration". |
| `SmallUtility.EggByIdFailsOneWay` | index.ts:1302-1327 | A failed nest-list fetch and every other failure give that same single error. |
| `SmallUtility.GetNodesByLocationId` | index.ts:1336-1351 | As written, the walk ends in nothing on success, however many nodes matched. It rethrows exactly the errors of the walk. |
| `SmallUtility.NodesByLocationId` | index.ts:1341-1347 | The corrected walk returns exactly `NodesAt`, the nodes of the location. |
| `SmallUtility.CollectKeepsLocation` | index.ts:1343-1347 | The walk succeeds exactly when every node's attributes can be read. It then yields exactly `NodesOfLocation`: a left-to-right filter keeping the nodes whose `location_id` is strictly equal to the id, in their order and with their repetitions. A failure is a TypeError. |
| `SmallUtility.CollectStopsAtError` | index.ts:1343-1349 | Once a node throws, the walk ends with that error. |
| `SmallUtility.NodesFoundButDropped` | index.ts:1341-1351 | With one node at location 1, the intended result is that node. The method as written resolves to nothing. |
| `SmallUtility.NodesFailureWording` | index.ts:1348-1350 | Every failure is rethrown as "something went wrong: " followed by the error's text. A failed node-list fetch is rethrown that way. |

## Left out

- Real `fetch`, `response.json()` and `response.text()` are replaced by the `Transport` and `Reply` inputs. The JSON decoder is not modelled: `Reply.json` is its result.
- A body read that fails is not modelled. This covers `response.text()` on a response that is not ok, and the `.catch(() => "")` text reads of `updateServerDetails` and `updateServerBuild` (index.ts:649, 727). Each read is the `Reply` body.
- The `AbortController`, `setTimeout` and `clearTimeout` timing is not modelled. Only the resulting `AbortError` rejection is. The 30000 ms default is kept as a configuration value.
- Debug logging (`console.*`) in `api` and in `getEggById` has no effect on results and is not modelled.
- A `data` argument that is `null`, a number or a boolean lies outside the declared `object | string` type of `api` (index.ts:1842) and is not modelled; only strings, objects and arrays are.
- Header names are compared exactly, as object keys are. The case-insensitive matching of `Headers` is not modelled.
- Numbers are integers. Fractional numbers, exponent and hexadecimal forms in `Number(text)`, and `NaN` are not modelled. `NumberOfText` reads them as "not a number".
- Strings are sequences of Unicode scalar values. UTF-16 code units, lone surrogates and the indexing of a string by code unit are not modelled.
- The runtime messages of `TypeError` and `SyntaxError` are not modelled. They render as their names.
- `getEggById`: the egg fetch of each nest is given by the nest's position in the list rather than by its id. A nest whose id is unreadable ends the scan, as in the source, so the two agree.
- The `getEggById` and `getNodesByLocationId` stubs inside `ApplicationApi` (index.ts:1272-1277) throw "Small Utility not loaded" until `smallUtility()` (index.ts:1293) installs the real versions on the prototype. The model covers only the installed versions; the stubs and the installation step are not modelled.
- The other `ClientApi` endpoints only pass a fixed path and body to `api`, which is modelled. They are not modelled one by one.
- The response DTO types, the `ServerPermissions` enum and the commented-out `WebsocketApi` are not modelled.

## Findings

| source | as written | input that shows it | evidently intended | confidence | as-written member | corrected member |
|---|---|---|---|---|---|---|
| index.ts:795-801 | `deleteServer` calls `fetch` with only `method: "DELETE"`, so it sends no headers and no Authorization | any call, e.g. `deleteServer(1)` | send `this.getHeaders()` like every other admin method | high; not executed | `Application.ApplicationApi.DeleteServerSendsNoCredentials` | `Application.ApplicationApi.AuthorizedDeleteServer` |
| index.ts:1336-1351 | `getNodesByLocationId` fills `nodes` and never returns it, so it resolves to `undefined` | location 1, with a node list holding one node whose `attributes.location_id` is 1 | return `nodes` | high; not executed | `SmallUtility.NodesFoundButDropped` | `SmallUtility.NodesByLocationId` |
