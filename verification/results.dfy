/** Failure-carrying values shared by the whole model.

    Every route handler of the application wraps its body in try/catch and
    forwards whatever was thrown to Express's `next`; the model makes those
    throws explicit as `Err` values. */
module Results {

  /** A value that may be absent; `None` stands for JavaScript's `undefined`. */
  datatype Option<T> = None | Some(value: T)

  /** What a handler can throw. */
  datatype Error =
    | TypeError                            // a property read on `undefined`
    | CustomerNotFound(customerId: int)    // Customer.get found no row
    | ReservationNotFound(reservationId: int)  // Reservation.get found no row
    | StorageFailure(detail: string)       // any other failure of the storage layer

  /** Either the value a computation produced or the error it threw. */
  datatype Result<T> = Ok(value: T) | Err(error: Error)
}
