/** Identifiers, optional values and the error outcomes shared by the three services. */
module Common {

  /** Primary keys. The database generates them; here each table hands out the next natural number. */
  type UserId = nat
  type ResourceId = nat
  type ReservationId = nat

  datatype Option<T> = None | Some(value: T) {
    /** The carried value, or `default` when there is none (an absent DTO field keeps the stored one). */
    function GetOr(default: T): T {
      match this
      case Some(v) => v
      case None => default
    }
  }

  /** How an operation can fail. */
  datatype Error =
    | NotFound          // NotFoundException thrown by a service after its own existence check
    | Forbidden         // ForbiddenException thrown by a service
    | MissingRecord     // the database client's "record to update/delete does not exist" error
    | UnknownArgument   // the database client rejects a write whose data names a column the table lacks

  datatype Result<T> = Ok(value: T) | Err(error: Error)
}
