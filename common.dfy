/** Values shared by every part of the model: optional values, the errors an
    action can throw, and the replies of the remote and storage collaborators. */
module Common {

  /** A value that may be missing (`undefined` / `null` in the client). */
  datatype Option<+T> = None | Some(value: T) {
    /** `x ?? fallback` */
    function GetOr(fallback: T): T {
      match this
      case Some(v) => v
      case None => fallback
    }
  }

  /** What an action throws. `Local` is an `Error` the client constructs itself
      ("Space not found", "User not authenticated", ...); `Remote` is whatever the
      remote or storage collaborator rejected with: `Some` of its message when it is an
      `Error` instance, `None` when it is some other value. */
  datatype Error = Local(message: string) | Remote(reason: Option<string>)

  /** The settled state of an awaited call that yields a value. */
  datatype Result<+T> = Ok(value: T) | Err(error: Error)

  /** The settled state of an awaited call that yields nothing. */
  datatype Outcome = Pass | Fail(error: Error)

  /** ISO-8601 timestamps are opaque strings supplied by the caller's clock. */
  type Timestamp = string

  /** JavaScript truthiness of a `string | null | undefined` identity:
      both the missing value and the empty string are falsy. */
  predicate Truthy(s: Option<string>) {
    s.Some? && s.value != ""
  }

  /** `error instanceof Error ? error.message : fallback` */
  function ErrorText(e: Error, fallback: string): (text: string)
    ensures e.Local? ==> text == e.message
    ensures e.Remote? && e.reason.Some? ==> text == e.reason.value
    ensures e.Remote? && e.reason.None? ==> text == fallback
  {
    match e
    case Local(m) => m
    case Remote(m) => m.GetOr(fallback)
  }
}
