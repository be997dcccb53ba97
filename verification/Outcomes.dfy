/** The outcome types every component shares. */
module Outcomes {

  datatype Option<+T> = None | Some(value: T)

  /** The client's error variants, without the text some of them carry. */
  datatype LicenseError =
    | Io | Network | Crypto | InvalidToken | Expired | InvalidCertificate
    | Inactive | MachineMismatch | Rollback

  datatype Result<+T> = Ok(value: T) | Err(error: LicenseError) {
    predicate IsFailure() {
      Err?
    }

    function PropagateFailure<U>(): Result<U>
      requires Err?
    {
      Err(error)
    }

    function Extract(): T
      requires Ok?
    {
      value
    }
  }
}
