/**
 * TransferValidator: the checks every debit runs before it changes anything.
 * The validator reads only the source account's balance, so each check takes
 * that balance; none of them writes any state.
 */
module TransferValidator {
  import opened Errors

  /** Insufficient funds unless the balance strictly exceeds the amount. */
  function CheckBalanceCompareToAmount(balance: int, amount: int): (r: Outcome)
    ensures r.Pass? <==> balance > amount
    ensures r.Fail? ==> r.error == InsufficientFunds
  {
    if balance <= amount then Fail(InsufficientFunds) else Pass
  }

  /** Rejects an amount that is zero or negative. */
  function ValidateAmount(amount: int): (r: Outcome)
    ensures r.Pass? <==> amount > 0
    ensures r.Fail? ==> r.error == NonPositiveAmount
  {
    if amount <= 0 then Fail(NonPositiveAmount) else Pass
  }

  /** The balance check first, then the amount check. */
  function CheckTransfer(balance: int, amount: int): (r: Outcome)
    ensures r.Pass? <==> balance > amount && amount > 0
    ensures balance <= amount ==> r == Fail(InsufficientFunds)
    ensures balance > amount && amount <= 0 ==> r == Fail(NonPositiveAmount)
    ensures r.Pass? ==> balance - amount > 0
  {
    var funds := CheckBalanceCompareToAmount(balance, amount);
    if funds.Fail? then funds else ValidateAmount(amount)
  }
}
