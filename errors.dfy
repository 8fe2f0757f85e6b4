/**
 * The exceptions the ledger throws, as values. A Java method that returns void
 * and may throw becomes a method returning an Outcome; one that returns a list
 * and may throw returns a Result.
 */
module Errors {
  datatype Failure =
    | InsufficientFunds   // TransferException "not enough funds": balance <= amount
    | NonPositiveAmount   // TransferException "amount below zero": amount <= 0
    | UnknownCategory     // IllegalArgumentException from CategoryType.valueOf
    | InvalidRange        // what List.subList throws for a range that is reversed or starts below zero

  datatype Outcome = Pass | Fail(error: Failure)

  datatype Result<T> = Ok(value: T) | Err(error: Failure)
}
