/** The shared domain model of the banking back-end: accounts, transactions,
    clients, reference-data entries, and the error kinds every service raises. */
module Domain {

  datatype Option<+T> = None | Some(value: T)

  /** Why a lookup failed (each corresponds to one "not found" message). */
  datatype Missing =
    | AccountMissing      // no account with that number
    | TransactionMissing  // no transaction with that id
    | AccountTypeMissing  // account type code absent or inactive
    | StatusMissing       // status code absent or inactive
    | GenderMissing       // gender code absent or inactive
    | ClientMissing       // no client with that id

  /** Which business rule rejected a well-formed request. */
  datatype Rule =
    | AccountExists       // account number already taken
    | AccountInactive     // the account's status is not ACTIVO
    | InvalidAmount       // amount absent or not strictly positive
    | InvalidDateRange    // start date after end date

  /** The three exception families of the services. */
  datatype Error =
    | NotFound(missing: Missing)
    | BusinessValidation(rule: Rule)
    | InsufficientFunds

  datatype Result<+T> = Success(value: T) | Failure(error: Error)

  /** An entry of an administrator-managed reference table (account type,
      status or gender): its code, a human-readable description and whether
      it may be assigned. */
  datatype Catalog = Catalog(code: string, description: string, active: bool)

  /** A reference table, keyed by code. */
  type Table = map<string, Catalog>

  /** Every entry of the table is stored under its own code. */
  predicate WellKeyed(table: Table)
  {
    forall c :: c in table ==> table[c].code == c
  }

  /** `findByCodeAndActiveTrue`: the entry for `code`, provided it is active. */
  function FindActive(table: Table, code: string): (r: Option<Catalog>)
    ensures r.Some? <==> code in table && table[code].active
    ensures r.Some? ==> r.value == table[code] && r.value.active
  {
    if code in table && table[code].active then Some(table[code]) else None
  }

  /** `findByCode`: the entry for `code`, active or not. */
  function FindAny(table: Table, code: string): (r: Option<Catalog>)
    ensures r.Some? <==> code in table
    ensures r.Some? ==> r.value == table[code]
  {
    if code in table then Some(table[code]) else None
  }

  const ACTIVE: string := "ACTIVO"
  const INACTIVE: string := "INACTIVO"

  datatype TransactionType = Deposito | Retiro

  /** A bank account. Balances are in minor currency units. */
  datatype Account = Account(
    accountNumber: string,
    accountType: Catalog,
    initialBalance: int,
    currentBalance: int,
    status: Catalog,
    clientId: string)

  /** A persisted transaction. `amount` is the signed delta applied to the
      balance and `balance` the account's balance right after it. The owning
      account is referenced by its (unique, immutable) account number. */
  datatype Transaction = Transaction(
    id: nat,
    date: int,
    transactionType: TransactionType,
    amount: int,
    balance: int,
    accountNumber: string)

  /** A transaction built by a strategy but not yet saved: the store assigns
      its id and date. `account` is the updated account it refers to. */
  datatype Draft = Draft(
    transactionType: TransactionType,
    amount: int,
    balance: int,
    account: Account)

  /** A bank client. `clientId` is assigned outside the factory. */
  datatype Client = Client(
    clientId: Option<string>,
    name: string,
    gender: Catalog,
    age: int,
    identification: string,
    address: string,
    phone: string,
    password: string,
    status: Catalog)
}
