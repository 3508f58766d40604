/** Values shared by every part of the model: optional values, the handlers'
    error responses and the identity of the caller. */
module Common {

  datatype Option<+T> = None | Some(value: T) {
    function GetOr(default: T): T {
      if Some? then value else default
    }
  }

  /** Record identities (Mongo ObjectIds), modelled as natural numbers. */
  type Id = nat

  /** The error responses a request can end in. */
  datatype Failure =
    | BadRequest   // 400: a body validator failed, or the review is a duplicate
    | NotFound     // 404: the id in the path names no record
    | ServerError  // 500: an exception reached the handler's catch block
    | Denied       // refused by the admin middleware before the handler runs

  /** What a handler sends back: a value (200 or 201) or an error status. */
  datatype Result<+T> = Ok(value: T) | Err(failure: Failure)

  /** The authenticated user on whose behalf a request runs. */
  datatype Caller = Caller(id: Id, role: string)

  predicate IsAdmin(c: Caller) {
    c.role == "admin"
  }

  /** JavaScript truthiness of an optional string: absent and "" are falsy. */
  predicate Given(o: Option<string>) {
    o.Some? && o.value != ""
  }
}
