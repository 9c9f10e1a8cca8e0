/** Optional values and call results shared by every module. */
module Wrappers {
  datatype Option<+T> = None | Some(value: T)

  /** The exceptions the services throw. */
  datatype Error =
    | NotFound
    | BadRequest
    | Conflict
    | RecordMissing    // an `update` whose row does not exist
    | ConstraintFailed // a unique or foreign key refused by the database
    | UpstreamFailed   // a payment provider call that threw

  datatype Result<+T> = Ok(value: T) | Err(error: Error)
}
