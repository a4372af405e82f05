/** The error classes of index.ts (`PterodactylAPIError` and its three subclasses) and the
    other things a call can throw. */
module Errors {
  import opened Wrappers

  /** The class of a panel error; its `name` property is the class name. */
  datatype ErrorClass = PterodactylAPIError | ValidationError | AuthenticationError | PermissionError

  function ClassName(c: ErrorClass): string
  {
    match c
    case PterodactylAPIError => "PterodactylAPIError"
    case ValidationError => "ValidationError"
    case AuthenticationError => "AuthenticationError"
    case PermissionError => "PermissionError"
  }

  /** An instance of `PterodactylAPIError` or of one of its subclasses. */
  datatype PanelError = PanelError(
    cls: ErrorClass,
    message: string,
    status: nat,
    statusText: string,
    responseBody: Option<string>)

  /** `new PterodactylAPIError(message, status, statusText, responseBody)`. */
  function NewPanelError(message: string, status: nat, statusText: string, responseBody: Option<string>): (e: PanelError)
    ensures e.cls == PterodactylAPIError && ClassName(e.cls) == "PterodactylAPIError"
    ensures e.message == message && e.status == status && e.statusText == statusText
    ensures e.responseBody == responseBody
  {
    PanelError(PterodactylAPIError, message, status, statusText, responseBody)
  }

  /** `new ValidationError(message, responseBody)`. */
  function NewValidationError(message: string, responseBody: Option<string>): (e: PanelError)
    ensures ClassName(e.cls) == "ValidationError" && e.status == 400 && e.statusText == "Bad Request"
    ensures |e.message| == |"Request validation failed: "| + |message|
    ensures e.message[..|"Request validation failed: "|] == "Request validation failed: "
    ensures e.message[|e.message| - |message|..] == message
    ensures e.responseBody == responseBody
  {
    PanelError(ValidationError, "Request validation failed: " + message, 400, "Bad Request", responseBody)
  }

  /** `new AuthenticationError()`. */
  function NewAuthenticationError(): (e: PanelError)
    ensures ClassName(e.cls) == "AuthenticationError" && e.status == 401 && e.statusText == "Unauthorized"
    ensures e.message == "Invalid credentials" && e.responseBody.None?
  {
    PanelError(AuthenticationError, "Invalid credentials", 401, "Unauthorized", None)
  }

  /** `new PermissionError(message, responseBody)`. */
  function NewPermissionError(message: string, responseBody: Option<string>): (e: PanelError)
    ensures ClassName(e.cls) == "PermissionError" && e.status == 403 && e.statusText == "Forbidden"
    ensures |e.message| == |"Insufficient permission: "| + |message|
    ensures e.message[..|"Insufficient permission: "|] == "Insufficient permission: "
    ensures e.message[|e.message| - |message|..] == message
    ensures e.responseBody == responseBody
  {
    PanelError(PermissionError, "Insufficient permission: " + message, 403, "Forbidden", responseBody)
  }

  /** The error a timed-out client request is turned into. */
  function TimeoutError(): (e: PanelError)
    ensures ClassName(e.cls) == "PterodactylAPIError" && e.status == 408 && e.statusText == "Request Timeout"
    ensures e.message == "Request timeout" && e.responseBody.None?
  {
    NewPanelError("Request timeout", 408, "Request Timeout", None)
  }

  /** Why `fetch` itself rejected: the abort signal fired, or any other failure. */
  datatype Rejection = AbortError | OtherError(name: string, message: string)

  const AbortMessage: string := "This operation was aborted"

  /** Everything a call of the client can throw. */
  datatype Thrown =
    | Panel(error: PanelError)          // one of the error classes above
    | PlainError(message: string)       // `new Error(message)`
    | TypeError                         // a property read on null or undefined
    | SyntaxError                       // `response.json()` on a body that is not JSON
    | Propagated(rejection: Rejection)  // the rejection of `fetch`, unchanged

  /** The `name` property of what was thrown. */
  function Name(e: Thrown): string
  {
    match e
    case Panel(p) => ClassName(p.cls)
    case PlainError(_) => "Error"
    case TypeError => "TypeError"
    case SyntaxError => "SyntaxError"
    case Propagated(AbortError) => "AbortError"
    case Propagated(OtherError(name, _)) => name
  }

  /** `${e}`, that is `Error.prototype.toString`: the name, then ": " and the message when
      both are non-empty. Runtime-supplied messages of TypeError and SyntaxError are not
      modelled, so those render as their name. */
  function ToString(e: Thrown): (s: string)
    ensures e.PlainError? ==> s == if e.message == "" then "Error" else "Error" + ": " + e.message
    ensures e.Panel? && e.error.message != "" ==> s == ClassName(e.error.cls) + ": " + e.error.message
    ensures e.TypeError? ==> s == "TypeError"
    ensures e.SyntaxError? ==> s == "SyntaxError"
    ensures e == Propagated(AbortError) ==> s == "AbortError" + ": " + AbortMessage
  {
    var message :=
      match e
      case Panel(p) => p.message
      case PlainError(m) => m
      case TypeError => ""
      case SyntaxError => ""
      case Propagated(AbortError) => AbortMessage
      case Propagated(OtherError(_, m)) => m;
    if Name(e) == "" then message
    else if message == "" then Name(e)
    else Name(e) + ": " + message
  }
}
