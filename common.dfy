// Shared vocabulary of the server handlers: document ids, optional values and
// the HTTP error statuses the controllers answer with.
module Common {

  /** A document id (Mongo ObjectId), modelled as a natural number. */
  type Id = nat

  datatype Option<+T> = None | Some(value: T)

  /** The error statuses the controllers return, with their HTTP codes. */
  datatype Status = BadRequest | Forbidden | NotFound | Conflict | ServerError
  {
    function Code(): (c: nat)
      ensures 400 <= c < 600
      ensures (c == 500) == (this == ServerError)
    {
      match this
      case BadRequest => 400
      case Forbidden => 403
      case NotFound => 404
      case Conflict => 409
      case ServerError => 500
    }
  }

  /** A handler's answer: a success body, or an error status with no body. */
  datatype Result<+T> = Ok(value: T) | Err(status: Status)
}
