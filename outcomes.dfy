/** Result shapes shared by the whole model: the error kinds the helpers
    return, a value-or-error result, and the outcome of code that may hit a
    Go runtime panic (nil dereference, index out of range, write into a nil
    map), which the message handler recovers from. */
module Outcomes {

  /** The errors the helpers return to their callers. */
  datatype Error =
    | NotAMention     // parseMention: the token is not <@ID> or <@!ID>
    | NotFound        // a first-match scan found nothing
    | InvalidName     // createCommand: the name contains a line break

  datatype Result<+T> = Ok(value: T) | Err(error: Error)

  /** Either the code ran to its end with a value, or it panicked. */
  datatype Outcome<+T> = Done(value: T) | Panicked

  datatype Option<+T> = None | Some(value: T)
}
