/** The appointment record shared by the records page and the form,
    and the small wrappers the rest of the model uses. */
module Types {

  /** An optional value: `None` stands for an absent property or `null`. */
  datatype Option<T> = None | Some(value: T) {
    function GetOr(default: T): T {
      match this
      case Some(v) => v
      case None => default
    }
  }

  /** The reply of a remote call: a returned value, or an exception. */
  datatype Reply<T> = Returned(value: T) | Threw

  /** The three booking states; any state may be edited into any other. */
  datatype Status = Scheduled | Completed | Cancelled

  /** One booking. `date` is `YYYY-MM-DD`, `time` is `HH:MM`; `createdAt`
      is the clock reading taken when the record was created. */
  datatype Appointment = Appointment(
    id: string,
    date: string,
    time: string,
    carInfo: string,
    service: string,
    clientName: Option<string>,
    clientPhone: Option<string>,
    status: Status,
    createdAt: int
  )
}
