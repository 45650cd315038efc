/** The account lifecycle: creation with uniqueness and reference-data
    checks, partial update of type and status, soft deletion, and lookups.
    Each call is one atomic step over the shared database. */
module AccountService {
  import opened Domain
  import opened Store

  /** The fields of an account-creation request. */
  datatype NewAccount = NewAccount(
    accountNumber: string,
    accountType: string,
    initialBalance: int,
    status: string,
    clientId: string)

  class AccountService {
    const db: Database

    constructor (db: Database)
      ensures this.db == db
    {
      this.db := db;
    }

    /** `getAllAccounts`: every account, in table order. */
    method GetAllAccounts() returns (r: seq<Account>)
      ensures r == db.accounts
    {
      r := db.accounts;
    }

    /** `getAccountByNumero`. */
    method GetAccountByNumber(accountNumber: string) returns (r: Result<Account>)
      ensures r.Success? ==> r.value in db.accounts && r.value.accountNumber == accountNumber
      ensures r.Failure? ==> r.error == NotFound(AccountMissing)
      ensures r.Failure? <==> forall i :: 0 <= i < |db.accounts| ==> db.accounts[i].accountNumber != accountNumber
    {
      match FindAccount(db.accounts, accountNumber)
      case None => r := Failure(NotFound(AccountMissing));
      case Some(i) => r := Success(db.accounts[i]);
    }

    /** `getAccountsByClient`: the client's accounts, in table order. */
    method GetAccountsByClient(clientId: string) returns (r: seq<Account>)
      ensures forall a :: multiset(r)[a] == if a.clientId == clientId then multiset(db.accounts)[a] else 0
    {
      r := FindByClientId(db.accounts, clientId);
    }

    /** `createAccount`: rejects a taken account number, then an absent or
        inactive type, then an absent or inactive status; otherwise appends
        an account whose balance starts at its initial balance. */
    method CreateAccount(dto: NewAccount) returns (r: Result<Account>)
      requires db.Valid()
      modifies db
      ensures db.Valid()
      ensures db.transactions == old(db.transactions) && db.nextId == old(db.nextId)
      ensures db.accountTypes == old(db.accountTypes) && db.statuses == old(db.statuses)
      ensures r.Failure? ==> db.accounts == old(db.accounts)
      ensures FindAccount(old(db.accounts), dto.accountNumber).Some? ==>
        r == Failure(BusinessValidation(AccountExists))
      ensures FindAccount(old(db.accounts), dto.accountNumber).None? ==>
        if FindActive(db.accountTypes, dto.accountType).None? then
          r == Failure(NotFound(AccountTypeMissing))
        else if FindActive(db.statuses, dto.status).None? then
          r == Failure(NotFound(StatusMissing))
        else
          && r.Success?
          && db.accounts == old(db.accounts) + [r.value]
      ensures r.Success? ==>
        && r.value.accountNumber == dto.accountNumber
        && r.value.accountType == db.accountTypes[dto.accountType]
        && r.value.accountType.active && r.value.accountType.code == dto.accountType
        && r.value.status == db.statuses[dto.status]
        && r.value.status.active && r.value.status.code == dto.status
        && r.value.initialBalance == dto.initialBalance
        && r.value.currentBalance == r.value.initialBalance
        && r.value.clientId == dto.clientId
      ensures old(LedgerConsistent(db.accounts, db.transactions)) ==> LedgerConsistent(db.accounts, db.transactions)
      ensures old(NonNegative(db.accounts)) && dto.initialBalance >= 0 ==> NonNegative(db.accounts)
    {
      if FindAccount(db.accounts, dto.accountNumber).Some? {
        return Failure(BusinessValidation(AccountExists));
      }
      var accountType := FindActive(db.accountTypes, dto.accountType);
      if accountType.None? {
        return Failure(NotFound(AccountTypeMissing));
      }
      var status := FindActive(db.statuses, dto.status);
      if status.None? {
        return Failure(NotFound(StatusMissing));
      }
      var account := Account(dto.accountNumber, accountType.value, dto.initialBalance,
                             dto.initialBalance, status.value, dto.clientId);
      if LedgerConsistent(db.accounts, db.transactions) {
        OpenKeepsLedger(db.accounts, db.transactions, account);
      }
      db.SaveAccount(account);
      r := Success(account);
    }

    /** `updateAccount`: replaces the type and the status when supplied,
        each resolved against active reference data; everything else is
        kept. */
    method UpdateAccount(accountNumber: string, accountType: Option<string>, status: Option<string>)
      returns (r: Result<Account>)
      requires db.Valid()
      modifies db
      ensures db.Valid()
      ensures db.transactions == old(db.transactions) && db.nextId == old(db.nextId)
      ensures db.accountTypes == old(db.accountTypes) && db.statuses == old(db.statuses)
      ensures r.Failure? ==> db.accounts == old(db.accounts)
      ensures FindAccount(old(db.accounts), accountNumber).None? ==> r == Failure(NotFound(AccountMissing))
      ensures FindAccount(old(db.accounts), accountNumber).Some? ==>
        var i := FindAccount(old(db.accounts), accountNumber).value;
        var account := old(db.accounts)[i];
        if accountType.Some? && FindActive(db.accountTypes, accountType.value).None? then
          r == Failure(NotFound(AccountTypeMissing))
        else if status.Some? && FindActive(db.statuses, status.value).None? then
          r == Failure(NotFound(StatusMissing))
        else
          && r.Success?
          && db.accounts == old(db.accounts)[i := r.value]
          && r.value.accountType == (if accountType.Some? then db.accountTypes[accountType.value] else account.accountType)
          && r.value.status == (if status.Some? then db.statuses[status.value] else account.status)
          && r.value.accountNumber == account.accountNumber
          && r.value.initialBalance == account.initialBalance
          && r.value.currentBalance == account.currentBalance
          && r.value.clientId == account.clientId
      ensures old(LedgerConsistent(db.accounts, db.transactions)) ==> LedgerConsistent(db.accounts, db.transactions)
      ensures old(NonNegative(db.accounts)) ==> NonNegative(db.accounts)
    {
      var found := FindAccount(db.accounts, accountNumber);
      if found.None? {
        return Failure(NotFound(AccountMissing));
      }
      var account := db.accounts[found.value];
      var updated := account;
      if accountType.Some? {
        var t := FindActive(db.accountTypes, accountType.value);
        if t.None? {
          return Failure(NotFound(AccountTypeMissing));
        }
        updated := updated.(accountType := t.value);
      }
      if status.Some? {
        var s := FindActive(db.statuses, status.value);
        if s.None? {
          return Failure(NotFound(StatusMissing));
        }
        updated := updated.(status := s.value);
      }
      db.SaveAccount(updated);
      r := Success(updated);
    }

    /** `deleteAccount`: a soft delete that sets the status to the INACTIVO
        entry (looked up whether active or not); the row is never removed. */
    method DeleteAccount(accountNumber: string) returns (r: Result<()>)
      requires db.Valid()
      modifies db
      ensures db.Valid()
      ensures db.transactions == old(db.transactions) && db.nextId == old(db.nextId)
      ensures db.accountTypes == old(db.accountTypes) && db.statuses == old(db.statuses)
      ensures |db.accounts| == |old(db.accounts)|
      ensures r.Failure? ==> db.accounts == old(db.accounts)
      ensures FindAccount(old(db.accounts), accountNumber).None? ==> r == Failure(NotFound(AccountMissing))
      ensures FindAccount(old(db.accounts), accountNumber).Some? ==>
        var i := FindAccount(old(db.accounts), accountNumber).value;
        if INACTIVE !in db.statuses then
          r == Failure(NotFound(StatusMissing))
        else
          && r.Success?
          && db.accounts == old(db.accounts)[i := old(db.accounts)[i].(status := db.statuses[INACTIVE])]
          && db.accounts[i].status.code == INACTIVE
      // Idempotence: on an account already deactivated the call changes nothing.
      ensures FindAccount(old(db.accounts), accountNumber).Some? && INACTIVE in db.statuses &&
              old(db.accounts)[FindAccount(old(db.accounts), accountNumber).value].status == db.statuses[INACTIVE]
              ==> db.accounts == old(db.accounts)
      ensures old(LedgerConsistent(db.accounts, db.transactions)) ==> LedgerConsistent(db.accounts, db.transactions)
      ensures old(NonNegative(db.accounts)) ==> NonNegative(db.accounts)
    {
      var found := FindAccount(db.accounts, accountNumber);
      if found.None? {
        return Failure(NotFound(AccountMissing));
      }
      var inactive := FindAny(db.statuses, INACTIVE);
      if inactive.None? {
        return Failure(NotFound(StatusMissing));
      }
      var account := db.accounts[found.value];
      db.SaveAccount(account.(status := inactive.value));
      r := Success(());
    }
  }
}
