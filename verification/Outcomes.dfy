/** The three ways a call of the pipeline can end, and the typed errors it can end with. */
module Outcomes {

  datatype Option<+T> = None | Some(value: T)

  /** One constructor per concrete subclass of the library's base exception. */
  datatype ServiceError =
    | MalformedMessage | InvalidContract | UnsupportedProtocolVersion | UnknownService
    | InputNotFound | InputRead | OutputWrite | FormatParsing
    | UnsupportedScheme | UnauthorizedUri | BlockedHost | CredentialResolution
    | Compute | ComputeTimeout | MissingReadout | InvalidReadout | ReadoutMismatch | UnknownOutputRole
    | Webhook | WebhookAuth

  /** An exception outside that hierarchy: no `except GrabatusServiceError` clause stops it. */
  datatype Escape =
    | MissingKey(key: string)   // a dictionary lookup of the pipeline itself
    | BadValue                  // a ValueError raised by the library's own code
    | Foreign(tag: nat)         // anything a port raises

  datatype Outcome<+T> = Ok(value: T) | Typed(error: ServiceError) | Escaped(cause: Escape) {
    /** The same failure at another result type. */
    function Failed<U>(): Outcome<U>
      requires !Ok?
    {
      if Typed? then Outcome<U>.Typed(error) else Outcome<U>.Escaped(cause)
    }
  }

  /** What a port call gives back: a port cannot forge the pipeline's own lookup failures. */
  datatype Reply<+T> = Done(value: T) | Refuse(error: ServiceError) | Crash(tag: nat) {
    function Outcome(): Outcome<T> {
      match this
      case Done(v) => Ok(v)
      case Refuse(e) => Typed(e)
      case Crash(n) => Escaped(Foreign(n))
    }
  }
}
