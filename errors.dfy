/** Error kinds raised by the booking system, and the wrappers that carry them. */
module Errors {

  /** The exceptions the system raises, one constructor per kind. */
  datatype Error =
    | Authorization      // the requestor lacks the permission for the action
    | Duplicate          // an entity with the same key already exists
    | NotFound           // a referenced user, organization, room, floor or booking is absent
    | RequiredParameter  // a mandatory lookup key was empty
    | QuotaExceeded      // the organization already used its 30 booking hours this month
    | NotOwner           // a booking may only be cancelled by the user who made it
    | TooLateToCancel    // less than 15 minutes between now and a same-day meeting
    | InvalidRange       // a date range with other than exactly two bounds
    | Malformed          // a date or time text that does not parse
    | MissingKey         // a dictionary lookup of a key that is not there

  datatype Option<T> = None | Some(value: T)

  /** A value or the error that stopped its computation. */
  datatype Result<T> = Ok(value: T) | Err(error: Error)

  /** The result of an operation run only for its effect. */
  datatype Outcome = Done | Fail(error: Error)
}
