/** Shared vocabulary of the messaging-protocol library that both the session
    server and the pairing route consume: optional values, the disconnect
    reason codes, and the shape of the error a close event carries. */
module Protocol {

  datatype Option<+T> = None | Some(value: T)

  // Status codes of the protocol library's DisconnectReason enumeration.
  const LOGGED_OUT: int := 401
  const CONNECTION_CLOSED: int := 428
  const CONNECTION_LOST: int := 408
  // The library gives timedOut the same code as connectionLost.
  const TIMED_OUT: int := 408
  const RESTART_REQUIRED: int := 515

  // Status code an HTTP-error object gets when it is built from anything
  // that is not already an HTTP-error object.
  const DEFAULT_ERROR_STATUS: int := 500

  /** The `lastDisconnect.error` value of a close event. */
  datatype DisconnectError =
    | BoomError(statusCode: int)   // an HTTP-error object carrying a status code
    | OtherError                   // a plain error without `output.statusCode`
    | NoError                      // no error object at all

  /** `(error as Boom)?.output?.statusCode`: the status code, when the error
      carries one. */
  function CarriedStatus(e: DisconnectError): (r: Option<int>)
    ensures r.Some? <==> e.BoomError?
    ensures r.Some? ==> r.value == e.statusCode
  {
    match e
    case BoomError(s) => Some(s)
    case _ => None
  }

  /** The two kinds of value an optional chain `v?.output?.statusCode` is
      applied to in the reconnect test: a boolean, or the close error itself. */
  datatype ChainBase = BooleanValue(b: bool) | ErrorValue(e: DisconnectError)

  /** `v?.output?.statusCode`: a boolean has no `output` property, so the chain
      yields undefined; an error yields the status code it carries. */
  function StatusThrough(v: ChainBase): (r: Option<int>)
    ensures v.BooleanValue? ==> r.None?
    ensures v.ErrorValue? ==> r == CarriedStatus(v.e)
  {
    match v
    case BooleanValue(_) => None
    case ErrorValue(e) => CarriedStatus(e)
  }

  /** `new Boom(error).output.statusCode`: wrapping keeps the status code of an
      HTTP-error object and gives everything else the default status. */
  function WrappedStatus(e: DisconnectError): (s: int)
    ensures CarriedStatus(e).Some? ==> s == CarriedStatus(e).value
    ensures CarriedStatus(e).None? ==> s == DEFAULT_ERROR_STATUS
  {
    match e
    case BoomError(s) => s
    case _ => DEFAULT_ERROR_STATUS
  }
}
