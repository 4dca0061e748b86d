/** Shared vocabulary of the listing API: optional values, abstract
    document ids and the HTTP statuses the controllers answer with. */
module Common {

  /** A value that may be absent (an undefined query parameter, a
      `findOne` that found nothing). */
  datatype Option<T> = None | Some(value: T) {
    function GetOr(default: T): T {
      match this
      case Some(v) => v
      case None => default
    }
  }

  /** A document's `_id`. Object ids are abstract: the model hands them
      out from a counter. */
  type ObjectId = nat

  /** The authenticated requester, as supplied by the auth gate
      (`req.user._id`). */
  type UserId = nat

  /** The statuses the controllers send. */
  datatype Status = Ok | Created | BadRequest | Forbidden | NotFound | ServerError {
    function Code(): nat {
      match this
      case Ok => 200
      case Created => 201
      case BadRequest => 400
      case Forbidden => 403
      case NotFound => 404
      case ServerError => 500
    }
  }
}
