/** The two transaction strategies and their selection by transaction type.
    Each strategy turns an account and a requested amount into the updated
    account plus an unsaved transaction, or rejects the request. */
module Strategies {
  import opened Domain

  /** Deposit validation: any strictly positive amount, whatever the balance. */
  predicate DepositValid(account: Account, amount: int)
  {
    amount > 0
  }

  /** Whether a deposit is valid never depends on the account's balance. */
  lemma DepositValidityIgnoresBalance(account: Account, balance: int, amount: int)
    ensures DepositValid(account, amount) == DepositValid(account.(currentBalance := balance), amount)
    ensures DepositValid(account, amount) <==> amount > 0
  {
  }

  /** Deposit: never rejects; adds the amount and records it positively.
      Positivity of the amount is the caller's responsibility. */
  function Deposit(account: Account, amount: int): (d: Draft)
    ensures d.transactionType == Deposito
    ensures d.amount == amount
    ensures d.balance == account.currentBalance + d.amount
    ensures d.account == account.(currentBalance := d.balance)
    ensures DepositValid(account, amount) ==> d.balance > account.currentBalance
  {
    var newBalance := account.currentBalance + amount;
    Draft(Deposito, amount, newBalance, account.(currentBalance := newBalance))
  }

  /** Withdrawal validation: a strictly positive amount the balance covers. */
  predicate WithdrawalValid(account: Account, amount: int)
  {
    amount > 0 && account.currentBalance >= amount
  }

  /** Withdrawal: rejects with InsufficientFunds unless valid; otherwise
      subtracts the amount and records it negatively. */
  function Withdrawal(account: Account, amount: int): (r: Result<Draft>)
    ensures r.Success? <==> amount > 0 && account.currentBalance >= amount
    ensures r.Success? <==> WithdrawalValid(account, amount)
    ensures r.Failure? ==> r.error == InsufficientFunds
    ensures r.Success? ==>
      && r.value.transactionType == Retiro
      && r.value.amount == -amount < 0
      && r.value.balance == account.currentBalance + r.value.amount
      && r.value.balance >= 0
      && r.value.account == account.(currentBalance := r.value.balance)
  {
    if !WithdrawalValid(account, amount) then
      Failure(InsufficientFunds)
    else
      var newBalance := account.currentBalance - amount;
      Success(Draft(Retiro, -amount, newBalance, account.(currentBalance := newBalance)))
  }

  /** Strategy selection by the closed set of transaction types. */
  function Process(kind: TransactionType, account: Account, amount: int): (r: Result<Draft>)
    ensures r.Failure? ==> kind == Retiro && r.error == InsufficientFunds
    ensures r.Success? ==>
      && r.value.transactionType == kind
      && r.value.balance == account.currentBalance + r.value.amount
      && r.value.account == account.(currentBalance := r.value.balance)
    ensures amount > 0 ==> (r.Success? <==> kind == Deposito || account.currentBalance >= amount)
    ensures amount > 0 && r.Success? ==>
      (if kind == Deposito then r.value.amount == amount else r.value.amount == -amount)
    ensures amount > 0 && r.Success? && account.currentBalance >= 0 ==> r.value.balance >= 0
  {
    match kind
    case Deposito => Success(Deposit(account, amount))
    case Retiro => Withdrawal(account, amount)
  }
}
