/** Failure-carrying values shared by the contract model. */
module Results {

  /** Every way a call into the contract can fail. Each call that fails leaves
      the contract's storage as it was: the chain discards the call's writes. */
  datatype Error =
    | Unauthorized     // the sender carries no weight in the required cw4 group
    | InvalidCategory  // duplicate category on creation, or unknown category on use
    | InvalidMaker     // a judge voted on an entry they made
    | NotFound         // a storage load found no value under the key
    | InvalidAddress   // the host's address validation rejected a string
    | QuerierFailure   // the cross-contract membership query itself failed
    | Overflow         // checked arithmetic (the u8 id counter, a Uint128 sum) aborted the call

  datatype Option<+T> = None | Some(value: T)

  datatype Result<+T> = Ok(value: T) | Err(error: Error)

  /** The result of an execute handler: success, or the error that aborted it. */
  datatype Outcome = Success | Failure(error: Error)
}
