/** Shared vocabulary of the services: optional values, the framework's HTTP
    exceptions, the outcome of a service call, and the collaborator calls
    (database, hasher, signer) that may fail unexpectedly. */
module Common {

  /** A value that may be absent; `None` stands for JavaScript's `undefined` and `null`. */
  datatype Option<+T> = None | Some(value: T) {

    /** The value, or `default` when absent. */
    function GetOr(default: T): T {
      match this
      case Some(v) => v
      case None => default
    }
  }

  /** The framework exceptions the services throw, with their messages. */
  datatype HttpError =
    | BadRequest(message: string)
    | NotFound(message: string)
    | Unauthorized
    | Forbidden(message: string)
    | InternalServerError(message: string)

  /** What a service body can throw: one of the HTTP exceptions above, or any other
      error raised by a collaborator (a database error, a hashing or signing failure). */
  datatype Thrown = Http(error: HttpError) | Unexpected

  /** A returned value or a thrown error. */
  datatype Result<+T> = Ok(value: T) | Err(thrown: Thrown)

  /** The outcome of a call together with the store as the call leaves it. */
  datatype Transition<+T, +S> = Transition(result: Result<T>, state: S)

  /** The kinds of collaborator call a service makes: a database read, a password
      hash or comparison, a database write, and a token signature. */
  datatype Step = Lookup | Check | Write | Sign

  /** The collaborator call that throws an unexpected error if the service reaches it;
      `None` when every collaborator behaves. */
  type Fault = Option<Step>

  predicate Crashes(fault: Fault, step: Step) {
    fault == Some(step)
  }

  /** JavaScript truthiness of an optional string: `undefined`, `null` and "" are falsy. */
  predicate Truthy(s: Option<string>) {
    s.Some? && s.value != ""
  }

  /** The catch block of the services that rethrow: an HTTP exception accepted by
      `rethrows` passes unchanged, anything else becomes InternalServerError(message). */
  function Catch<T>(r: Result<T>, rethrows: HttpError -> bool, message: string): (c: Result<T>)
    ensures c.Ok? <==> r.Ok?
    ensures r.Ok? ==> c == r
    ensures c.Err? ==> c.thrown.Http?
    ensures c.Err? ==> rethrows(c.thrown.error) || c.thrown.error == InternalServerError(message)
    ensures r.Err? && r.thrown.Http? && rethrows(r.thrown.error) ==> c == r
    ensures r.Err? && r.thrown.Unexpected? ==> c == Err(Http(InternalServerError(message)))
    ensures r.Err? && r.thrown.Http? && !rethrows(r.thrown.error) ==> c == Err(Http(InternalServerError(message)))
  {
    match r
    case Ok(_) => r
    case Err(Http(e)) => if rethrows(e) then r else Err(Http(InternalServerError(message)))
    case Err(Unexpected) => Err(Http(InternalServerError(message)))
  }
}
