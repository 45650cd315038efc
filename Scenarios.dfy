/** A client of the services: the statement walk-through of a single savings
    account (deposit, rejected overdraft, full withdrawal, soft delete, then a
    request against the inactive account), proved from the contracts alone.
    Amounts are in cents. */
module Scenarios {
  import opened Domain
  import opened Store
  import opened AccountService
  import opened TransactionService
  import Strategies

  /** On a table holding one account, a positive request is refused when the
      account is not active and otherwise decided by the strategy alone,
      against row 0. */
  lemma DecideOnOnly(a: Account, kind: TransactionType, amount: int)
    requires amount > 0
    ensures Decide([a], a.accountNumber, kind, Some(amount)) ==
      if a.status.code != ACTIVE then Failure(BusinessValidation(AccountInactive))
      else if kind == Retiro && a.currentBalance < amount then Failure(InsufficientFunds)
      else Success(Step(0, Strategies.Process(kind, a, amount).value))
  {
    assert FindAccount([a], a.accountNumber) == Some(0);
  }

  method AccountWalkthrough()
    returns (deposit: Result<Transaction>, overdraft: Result<Transaction>,
             withdrawal: Result<Transaction>, afterDelete: Result<Transaction>)
    ensures deposit.Success? && deposit.value.amount == 50000 && deposit.value.balance == 150000
    ensures overdraft == Failure(InsufficientFunds)
    ensures withdrawal.Success? && withdrawal.value.amount == -150000 && withdrawal.value.balance == 0
    ensures afterDelete == Failure(BusinessValidation(AccountInactive))
  {
    var statuses := map[ACTIVE := Catalog(ACTIVE, "Activo", true), INACTIVE := Catalog(INACTIVE, "Inactivo", true)];
    var types := map["AHO" := Catalog("AHO", "Ahorros", true)];
    var db := new Database(types, statuses);
    var accounts := new AccountService(db);
    var txs := new TransactionService(db);
    var created := accounts.CreateAccount(NewAccount("478758", "AHO", 100000, ACTIVE, "1"));
    assert |db.accounts| == 1 && db.accounts[0].accountNumber == "478758" && db.accounts[0].status.code == ACTIVE && db.accounts[0].currentBalance == 100000;
    assert db.accounts == [db.accounts[0]];
    DecideOnOnly(db.accounts[0], Deposito, 50000);
    deposit := txs.CreateTransaction("478758", Deposito, Some(50000), 1);
    assert |db.accounts| == 1 && db.accounts[0].accountNumber == "478758" && db.accounts[0].status.code == ACTIVE && db.accounts[0].currentBalance == 150000;
    assert db.accounts == [db.accounts[0]];
    DecideOnOnly(db.accounts[0], Retiro, 200000);
    overdraft := txs.CreateTransaction("478758", Retiro, Some(200000), 2);
    assert |db.accounts| == 1 && db.accounts[0].accountNumber == "478758" && db.accounts[0].status.code == ACTIVE && db.accounts[0].currentBalance == 150000;
    assert db.accounts == [db.accounts[0]];
    DecideOnOnly(db.accounts[0], Retiro, 150000);
    withdrawal := txs.CreateTransaction("478758", Retiro, Some(150000), 3);
    var deleted := accounts.DeleteAccount("478758");
    assert |db.accounts| == 1 && db.accounts[0].accountNumber == "478758" && db.accounts[0].status.code == INACTIVE && db.accounts[0].currentBalance == 0;
    afterDelete := txs.CreateTransaction("478758", Deposito, Some(1000), 4);
  }
}
