/** The transaction processor: creates deposits and withdrawals against
    active accounts, and looks up, lists and deletes transactions. Each call
    is one atomic step over the shared database. */
module TransactionService {
  import opened Domain
  import opened Store
  import Strategies

  /** The row to update and the strategy's draft for an accepted request. */
  datatype Step = Step(row: nat, draft: Draft)

  /** The checks of `createTransaction`, first failure wins: the account
      exists, its status is ACTIVO, the amount is present and positive, and
      the strategy for `kind` accepts it. */
  function Decide(accounts: seq<Account>, accountNumber: string, kind: TransactionType, amount: Option<int>)
    : (r: Result<Step>)
    ensures FindAccount(accounts, accountNumber).None? ==> r == Failure(NotFound(AccountMissing))
    ensures FindAccount(accounts, accountNumber).Some? ==>
      var account := accounts[FindAccount(accounts, accountNumber).value];
      if account.status.code != ACTIVE then
        r == Failure(BusinessValidation(AccountInactive))
      else if amount.None? || amount.value <= 0 then
        r == Failure(BusinessValidation(InvalidAmount))
      else if kind == Retiro && account.currentBalance < amount.value then
        r == Failure(InsufficientFunds)
      else
        r.Success? && r.value.row == FindAccount(accounts, accountNumber).value
    ensures r.Success? ==>
      var account, d := accounts[r.value.row], r.value.draft;
      && r.value.row < |accounts| && account.accountNumber == accountNumber
      && amount.Some? && amount.value > 0
      && d.transactionType == kind
      && d.amount == (if kind == Deposito then amount.value else -amount.value)
      && d.balance == account.currentBalance + d.amount
      && d.account == account.(currentBalance := d.balance)
      && (account.currentBalance >= 0 ==> d.balance >= 0)
  {
    match FindAccount(accounts, accountNumber)
    case None => Failure(NotFound(AccountMissing))
    case Some(i) =>
      var account := accounts[i];
      if account.status.code != ACTIVE then Failure(BusinessValidation(AccountInactive))
      else if amount.None? || amount.value <= 0 then Failure(BusinessValidation(InvalidAmount))
      else match Strategies.Process(kind, account, amount.value)
        case Failure(e) => Failure(e)
        case Success(d) => Success(Step(i, d))
  }

  class TransactionService {
    const db: Database

    constructor (db: Database)
      ensures this.db == db
    {
      this.db := db;
    }

    /** `getAllTransactions`: every stored transaction. */
    method GetAllTransactions() returns (r: seq<Transaction>)
      ensures r == db.transactions
    {
      r := db.transactions;
    }

    /** `getTransactionById`. */
    method GetTransactionById(id: nat) returns (r: Result<Transaction>)
      ensures r.Success? ==> r.value in db.transactions && r.value.id == id
      ensures r.Failure? ==> r.error == NotFound(TransactionMissing)
      ensures r.Failure? <==> forall i :: 0 <= i < |db.transactions| ==> db.transactions[i].id != id
    {
      match FindById(db.transactions, id)
      case None => r := Failure(NotFound(TransactionMissing));
      case Some(t) => r := Success(t);
    }

    /** `createTransaction`: runs the checks of `Decide`; on success saves
        the updated account and then the new transaction, and on any
        rejection saves nothing. */
    method CreateTransaction(accountNumber: string, kind: TransactionType, amount: Option<int>, date: int)
      returns (r: Result<Transaction>)
      requires db.Valid()
      modifies db
      ensures db.Valid()
      ensures db.accountTypes == old(db.accountTypes) && db.statuses == old(db.statuses)
      ensures match Decide(old(db.accounts), accountNumber, kind, amount)
        case Failure(e) =>
          && r == Failure(e)
          && db.accounts == old(db.accounts) && db.transactions == old(db.transactions)
          && db.nextId == old(db.nextId)
        case Success(step) =>
          && r == Success(Transaction(old(db.nextId), date, kind, step.draft.amount, step.draft.balance, accountNumber))
          && db.accounts == old(db.accounts)[step.row := step.draft.account]
          && db.transactions == old(db.transactions) + [r.value]
          && db.nextId == old(db.nextId) + 1
      ensures r.Success? ==>
        && FindAccount(db.accounts, accountNumber).Some?
        && db.accounts[FindAccount(db.accounts, accountNumber).value].currentBalance == r.value.balance
      ensures old(LedgerConsistent(db.accounts, db.transactions)) ==> LedgerConsistent(db.accounts, db.transactions)
      ensures old(NonNegative(db.accounts)) ==> NonNegative(db.accounts)
    {
      var decided := Decide(db.accounts, accountNumber, kind, amount);
      if decided.Failure? {
        return Failure(decided.error);
      }
      var i, d := decided.value.row, decided.value.draft;
      ghost var accountsBefore, txsBefore := db.accounts, db.transactions;
      db.SaveAccount(d.account);
      assert db.accounts == accountsBefore[i := d.account];
      assert db.accounts[i].accountNumber == accountNumber;
      var t := db.SaveTransaction(d, date);
      if LedgerConsistent(accountsBefore, txsBefore) {
        PostKeepsLedger(accountsBefore, txsBefore, i, t);
      }
      r := Success(t);
    }

    /** `getTransactionsByAccount`: the account's transactions, newest first. */
    method GetTransactionsByAccount(accountNumber: string) returns (r: Result<seq<Transaction>>)
      ensures FindAccount(db.accounts, accountNumber).None? ==> r == Failure(NotFound(AccountMissing))
      ensures FindAccount(db.accounts, accountNumber).Some? ==> r.Success?
      ensures r.Success? ==> SortedByDateDesc(r.value)
      ensures r.Success? ==> forall t :: multiset(r.value)[t] ==
                                         if t.accountNumber == accountNumber then multiset(db.transactions)[t] else 0
    {
      if FindAccount(db.accounts, accountNumber).None? {
        return Failure(NotFound(AccountMissing));
      }
      r := Success(FindByAccountOrderByDateDesc(db.transactions, accountNumber));
    }

    /** `deleteTransaction`: removes the transaction with that id. Account
        balances are not reconciled (see Store.DeleteBreaksLedger). */
    method DeleteTransaction(id: nat) returns (r: Result<()>)
      requires db.Valid()
      modifies db
      ensures db.Valid()
      ensures db.accounts == old(db.accounts) && db.nextId == old(db.nextId)
      ensures db.accountTypes == old(db.accountTypes) && db.statuses == old(db.statuses)
      ensures FindById(old(db.transactions), id).None? ==>
        r == Failure(NotFound(TransactionMissing)) && db.transactions == old(db.transactions)
      ensures FindById(old(db.transactions), id).Some? ==>
        && r.Success?
        && db.transactions == RemoveById(old(db.transactions), id)
        && |db.transactions| == |old(db.transactions)| - 1
    {
      if FindById(db.transactions, id).None? {
        return Failure(NotFound(TransactionMissing));
      }
      RemoveByIdRemovesOne(db.transactions, id);
      db.DeleteTransaction(id);
      r := Success(());
    }
  }
}
