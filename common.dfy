/** Shared result types: optional values, and the success/failure outcome of
    every promise-returning operation of the job-settlement backend. */
module Common {

  datatype Option<+T> = None | Some(value: T) {
    function GetOr(default: T): T {
      match this
      case Some(v) => v
      case None => default
    }
  }

  /** The reasons a promise of the backend rejects. */
  datatype Error =
    | InvalidId          // `new Types.ObjectId(s)` throws on a string that is not an ObjectId
    | RecordNotFound     // the repository's own "<model> not found" rejection
    | NotEnoughCredit    // admission: "Not enough credit"
    | JobNotFound        // "Job not found"
    | UserNotFound       // "User not found"

  /** A settled promise: resolved with a value or rejected with an error. */
  datatype Result<+T> = Ok(value: T) | Err(error: Error)
}
