# Account service transaction engine: a Dafny model

This project models the domain core of a small banking back-end. That core is
the account service's transaction engine and the lifecycle rules around it:

- **Strategies** (`Strategies.dfy`): the deposit and withdrawal strategies.
  Each is a pure function from an account and an amount to the updated account
  plus an unsaved transaction (`Draft`), or a rejection. The strategy is chosen
  by a `match` on the closed `DEPOSITO | RETIRO` type.
- **Store** (`Store.dfy`): the persistence the services share, as one
  `Database` class. Its fields are the account table (`seq<Account>` in table
  order, unique account numbers), the transaction table (`seq<Transaction>`,
  ids assigned by the store in increasing order from `nextId`), the account
  type and status reference tables (code to `Catalog` entry with an `active`
  flag). The module also holds the repository queries the
  services use, written as functions that state what each query returns, and
  the ledger facts: `Total` sums the signed amounts of an account and
  `LedgerConsistent` says every balance equals initial balance plus that sum.
- **TransactionService** (`TransactionService.dfy`): the transaction
  processor. It is a class over the database. `CreateTransaction` runs its
  checks in the source's order: the account exists, its status code is
  `ACTIVO`, the amount is present and positive. It then applies the strategy
  and saves the account and the transaction. It also covers lookup, listing
  newest-first and delete.
- **AccountService** (`AccountService.dfy`): account creation (duplicate,
  type and status checks), partial update of type and status, soft delete to
  `INACTIVO`, and the lookups.
- **ReportService** (`ReportService.dfy`): the account statement, as pure
  functions over a snapshot of the client, account and transaction tables.
- **ClientFactory** (`ClientFactory.dfy`): client construction with gender
  and status lookups and an encryption function, plus field-by-field partial
  update.
- **Scenarios** (`Scenarios.dfy`): one walk through a savings account, proved
  from the service contracts alone. It opens at 1000.00, deposits 500.00, is
  refused a 2000.00 withdrawal, withdraws 1500.00 down to 0.00, is deleted,
  and then has a deposit rejected as inactive.

Amounts and balances are exact decimals in the source, modelled as `int`
minor units (cents). Timestamps are `int`s ordered like the source's dates.
Errors are `NotFound`, `BusinessValidation` and `InsufficientFunds`, after
the source's three exception classes. Each carries the reason the source's
message names.

The error kinds follow the exceptions the code throws:

- A duplicate account number is a `BusinessValidation` error
  (AccountService.java:88-90).
- A non-positive amount is a `BusinessValidation` error
  (TransactionService.java:84-86). So is an inverted date range
  (ReportService.java:50-52).
- An inactive account is rejected with `BusinessValidation`
  (TransactionService.java:79-81).
- `deleteAccount` looks the `INACTIVO` status up by code alone, without the
  active filter the other lookups use (AccountService.java:167).

Two behaviours of the source are kept as written and proved as such:

- Deleting a transaction does not reconcile the account balance.
  `Store.DeleteBreaksLedger` proves that deleting a non-zero transaction
  breaks the ledger equation for its account.
- A negative initial balance is accepted. `CreateAccount` therefore keeps
  "every balance is non-negative" only when the new account's initial balance
  is non-negative.

## Model

| member | source | states |
|---|---|---|
| `Domain.FindActive` | account-service/src/main/java/com/nttdata/account/application/service/AccountService.java:93 | `findByCodeAndActiveTrue`: the entry stored under the code when it is active, and none exactly when the code is absent or its entry is inactive |
| `Domain.FindAny` | account-service/src/main/java/com/nttdata/account/application/service/AccountService.java:167 | `findByCode`: the entry stored under the code whether active or not, and none exactly when the code is absent |
| `Strategies.DepositValid` | account-service/src/main/java/com/nttdata/account/application/strategy/DepositStrategy.java:36-39 | deposit validation: the amount is strictly positive; its properties are stated by `DepositValidityIgnoresBalance` and `Deposit` |
| `Strategies.WithdrawalValid` | account-service/src/main/java/com/nttdata/account/application/strategy/WithdrawalStrategy.java:42-47 | withdrawal validation: the amount is strictly positive and the current balance covers it; `Withdrawal` accepts exactly when it holds |
| `Strategies.DepositValidityIgnoresBalance` | account-service/src/main/java/com/nttdata/account/application/strategy/DepositStrategy.java:36-39 | deposit validation holds iff the amount is positive, whatever the balance |
| `Strategies.Deposit` | account-service/src/main/java/com/nttdata/account/application/strategy/DepositStrategy.java:17-33 | never rejects; records `+amount` as DEPOSITO; new balance is old balance plus the recorded amount and is also the recorded balance; only `currentBalance` changes; a valid deposit strictly raises the balance |
| `Strategies.Withdrawal` | account-service/src/main/java/com/nttdata/account/application/strategy/WithdrawalStrategy.java:19-40 | accepted iff amount > 0 and balance >= amount, otherwise InsufficientFunds and no transaction; records `-amount` as RETIRO; new balance = old + recorded amount >= 0 and equals the recorded balance; only `currentBalance` changes |
| `Strategies.Process` | account-service/src/main/java/com/nttdata/account/application/service/TransactionService.java:90-94 | selection by type: only a withdrawal can fail, with InsufficientFunds; for a positive amount it succeeds iff deposit or covered; recorded type is the requested one; the balance moves by the signed amount; a non-negative balance stays non-negative |
| `Store.FindAccount` | account-service/src/main/java/com/nttdata/account/application/service/AccountService.java:59-60 | the index found holds that account number; no index means no row has it |
| `Store.OfAccount` | shared-repositories/src/main/java/com/nttdata/shared/domain/repository/TransactionRepository.java:26 | the `WHERE account = ?` filter: exactly the account's transactions, each with its multiplicity in the table |
| `Store.OfAccountBetween` | shared-repositories/src/main/java/com/nttdata/shared/domain/repository/TransactionRepository.java:28-33 | the `WHERE account = ? AND date BETWEEN ? AND ?` filter: exactly the account's transactions with `start <= date <= end`, inclusive at both ends, each with its multiplicity |
| `Store.FindByClientId` | account-service/src/main/java/com/nttdata/account/application/service/ReportService.java:59 | exactly the client's accounts, each with its multiplicity in the table |
| `Store.FindById` | account-service/src/main/java/com/nttdata/account/application/service/TransactionService.java:59-60 | a found transaction is stored and carries the id; none found means no row carries it |
| `Store.RemoveById` | account-service/src/main/java/com/nttdata/account/application/service/TransactionService.java:139 | the table minus every row with that id, all other rows kept with their multiplicity |
| `Store.SortByDateDesc` | shared-repositories/src/main/java/com/nttdata/shared/domain/repository/TransactionRepository.java:25 | `ORDER BY date DESC`: newest first and a permutation of its input |
| `Store.InsertKeepsSorted` | shared-repositories/src/main/java/com/nttdata/shared/domain/repository/TransactionRepository.java:25 | inserting a transaction into a newest-first list keeps it newest-first |
| `Store.FindByAccountOrderByDateDesc` | shared-repositories/src/main/java/com/nttdata/shared/domain/repository/TransactionRepository.java:25-26 | exactly the account's transactions (as a multiset), newest first |
| `Store.FindByAccountAndDateBetween` | shared-repositories/src/main/java/com/nttdata/shared/domain/repository/TransactionRepository.java:28-33 | exactly the account's transactions with `start <= date <= end` (as a multiset), newest first |
| `Store.TotalAppend` | account-service/src/main/java/com/nttdata/account/application/service/TransactionService.java:98 | saving one more transaction adds its amount to its own account's total and nothing to any other's |
| `Store.TotalUnreferenced` | account-service/src/main/java/com/nttdata/account/application/service/AccountService.java:105-112 | an account no transaction refers to has total zero |
| `Store.TotalRemove` | account-service/src/main/java/com/nttdata/account/application/service/TransactionService.java:139 | deleting a stored transaction takes exactly its amount off its account's total and nothing off any other's |
| `Store.RemoveByIdRemovesOne` | account-service/src/main/java/com/nttdata/account/application/service/TransactionService.java:136-139 | with store-assigned unique ids, deleting an existing id removes exactly one row |
| `Store.PostKeepsLedger` | account-service/src/main/java/com/nttdata/account/application/service/TransactionService.java:94-98 | moving one account's balance by a transaction's amount and recording that transaction keeps `currentBalance == initialBalance + total` for every account |
| `Store.OpenKeepsLedger` | account-service/src/main/java/com/nttdata/account/application/service/AccountService.java:105-115 | adding an account with `currentBalance == initialBalance` and no transactions keeps the ledger consistent |
| `Store.DeleteBreaksLedger` | account-service/src/main/java/com/nttdata/account/application/service/TransactionService.java:136-139 | deleting a non-zero transaction leaves its account out of step with the recorded amounts, because deletion does not reconcile |
| `Store.RemovePreservesTable` | account-service/src/main/java/com/nttdata/account/application/service/TransactionService.java:139 | deleting keeps ids increasing, below the next id, and every row tied to an existing account |
| `Store.Database.SaveAccount` | account-service/src/main/java/com/nttdata/account/application/service/TransactionService.java:97 | `save` replaces the row with the same account number, or appends a new one; nothing else changes |
| `Store.Database.SaveTransaction` | account-service/src/main/java/com/nttdata/account/application/service/TransactionService.java:98 | `save` appends the draft under the next id with the given date; accounts are unchanged |
| `Store.Database.DeleteTransaction` | account-service/src/main/java/com/nttdata/account/application/service/TransactionService.java:139 | `delete` removes the id's row; accounts are unchanged; table invariants are kept |
| `TransactionService.TransactionService.GetAllTransactions` | account-service/src/main/java/com/nttdata/account/application/service/TransactionService.java:43-50 | every stored transaction, in table order |
| `TransactionService.TransactionService.GetTransactionById` | account-service/src/main/java/com/nttdata/account/application/service/TransactionService.java:56-64 | the stored transaction with that id, or NotFound exactly when no row has it |
| `TransactionService.Decide` | account-service/src/main/java/com/nttdata/account/application/service/TransactionService.java:76-94 | first failure wins: an unknown account is NotFound; then a status other than ACTIVO is BusinessValidation whatever the amount; then an absent or non-positive amount is BusinessValidation; then an uncovered withdrawal is InsufficientFunds. Otherwise it accepts with the account's row and a draft that moves the balance by +amount (deposit) or -amount (withdrawal), keeps a non-negative balance non-negative, and changes nothing else on the account |
| `TransactionService.TransactionService.CreateTransaction` | account-service/src/main/java/com/nttdata/account/application/service/TransactionService.java:71-108 | a rejection from `Decide` is returned and leaves both tables unchanged; otherwise only that account is replaced by the strategy's result and exactly one transaction, with the next id and the given date, is appended; the stored balance equals the new transaction's balance; preserves ledger consistency and non-negative balances |
| `TransactionService.TransactionService.GetTransactionsByAccount` | account-service/src/main/java/com/nttdata/account/application/service/TransactionService.java:114-126 | NotFound for an unknown account; otherwise exactly that account's transactions, newest first |
| `TransactionService.TransactionService.DeleteTransaction` | account-service/src/main/java/com/nttdata/account/application/service/TransactionService.java:132-142 | NotFound for an unknown id and nothing changes; otherwise exactly one row goes and every account is untouched |
| `AccountService.AccountService.GetAllAccounts` | account-service/src/main/java/com/nttdata/account/application/service/AccountService.java:43-50 | every account, in table order |
| `AccountService.AccountService.GetAccountByNumber` | account-service/src/main/java/com/nttdata/account/application/service/AccountService.java:56-64 | the stored account with that number, or NotFound exactly when no row has it |
| `AccountService.AccountService.GetAccountsByClient` | account-service/src/main/java/com/nttdata/account/application/service/AccountService.java:70-77 | exactly the client's accounts |
| `AccountService.AccountService.CreateAccount` | account-service/src/main/java/com/nttdata/account/application/service/AccountService.java:83-120 | a taken number is BusinessValidation, then an absent or inactive type is NotFound, then the same for the status; nothing is saved on failure; on success one account is appended with the resolved active type and status and `currentBalance == initialBalance`; the ledger stays consistent; non-negativity is kept only for a non-negative initial balance |
| `AccountService.AccountService.UpdateAccount` | account-service/src/main/java/com/nttdata/account/application/service/AccountService.java:126-153 | unknown number is NotFound; a supplied type, then a supplied status, that does not resolve to an active entry is NotFound and nothing is saved; otherwise only supplied fields are replaced and number, balances and client are kept |
| `AccountService.AccountService.DeleteAccount` | account-service/src/main/java/com/nttdata/account/application/service/AccountService.java:159-177 | unknown account, then a missing INACTIVO status, is NotFound; otherwise only the account's status becomes the INACTIVO entry and no row is removed; a second call changes nothing |
| `ReportService.BuildTransactionReport` | account-service/src/main/java/com/nttdata/account/application/service/ReportService.java:109-116 | a statement line carries the transaction's date, type, amount and balance |
| `ReportService.BuildTransactionReports` | account-service/src/main/java/com/nttdata/account/application/service/ReportService.java:92-94 | the stream map: one line per transaction, the k-th line built from the k-th transaction |
| `ReportService.QueryFacts` | account-service/src/main/java/com/nttdata/account/application/service/ReportService.java:87-89 | every row the range query returns belongs to the account and lies in `[start, end]`; the rows number as many as the account has in range |
| `ReportService.BuildAccountReport` | account-service/src/main/java/com/nttdata/account/application/service/ReportService.java:83-104 | copies number, type and status descriptions and both balances unchanged; its k-th line is built from the k-th row of the account's newest-first range query, so the lines are exactly the account's transactions dated in `[start, end]`, newest first |
| `ReportService.AccountReportLinesSound` | account-service/src/main/java/com/nttdata/account/application/service/ReportService.java:87-94 | every line of an account's section is built from a stored transaction of that account dated in `[start, end]` |
| `ReportService.AccountReportLinesComplete` | account-service/src/main/java/com/nttdata/account/application/service/ReportService.java:87-94 | every stored transaction of the account dated in `[start, end]` has its line in the account's section |
| `ReportService.BuildAccountReports` | account-service/src/main/java/com/nttdata/account/application/service/ReportService.java:66-68 | one sub-report per account, in the given order |
| `ReportService.GenerateReport` | account-service/src/main/java/com/nttdata/account/application/service/ReportService.java:45-78 | `start > end` is BusinessValidation whatever the tables hold; then an unknown client is NotFound; otherwise a statement with the client's name and one sub-report per account of the client in table order, possibly none |
| `ClientFactory.CreateFromDto` | client-service/src/main/java/com/nttdata/client/application/factory/ClientFactory.java:32-59 | an absent or inactive gender is NotFound, then the same for the status; success iff both resolve; the password is the encrypted one; the other fields are copied |
| `ClientFactory.UpdateClient` | client-service/src/main/java/com/nttdata/client/application/factory/ClientFactory.java:64-78 | each supplied argument replaces its field, each absent one keeps it; id and identification never change |
| `ClientFactory.UpdateWithNothingIsIdentity` | client-service/src/main/java/com/nttdata/client/application/factory/ClientFactory.java:67-77 | with every argument absent the client is returned unchanged |
| `ClientFactory.UpdateIsIdempotent` | client-service/src/main/java/com/nttdata/client/application/factory/ClientFactory.java:64-78 | applying the same update twice equals applying it once |
| `Scenarios.AccountWalkthrough` | account-service/src/main/java/com/nttdata/account/application/service/TransactionService.java:71-108 | deposit 500.00 on 1000.00 records +500.00 at 1500.00; withdrawing 2000.00 is InsufficientFunds; withdrawing 1500.00 records -1500.00 at 0.00; after deletion a request is rejected as inactive |

## Left out

- Reactive and transactional wrapping is left out: `Mono.fromCallable`, the
  bounded-elastic scheduler and `@Transactional`. Each service call is one
  atomic sequential method. Races between concurrent requests on the same
  account are a concurrency concern outside this sequential model.
- Controllers, the exception handler (HTTP responses, clock timestamps,
  random correlation ids) and the composite service's network client are not
  part of this model.
- The mappers to response DTOs are plain field copies. The services return
  the domain records themselves.
- Error messages and the type or status code appended to some of them are
  not modelled. Each error carries an enumerated reason instead.
- Logging is left out, including the warning for a client with no accounts.
- Transaction ids and dates come from persistence. The store hands out
  increasing ids from a counter, and the date is a parameter of
  `CreateTransaction`.
- Transactions refer to their account by account number, not by the
  persistence layer's surrogate id. Account numbers are unique and never
  change, so this picks out the same account.
- Ties in `ORDER BY date DESC` come back in an unspecified order in the
  source. The model fixes one order, and its contracts state only
  newest-first and the exact set of rows.
- The strategy registry is a `match` on the transaction type. Its behaviour
  for a null type is not modelled, because the type is a closed, non-null
  enumeration here.
- Password encryption is a function parameter `encrypt`, since its
  implementation is not part of this model. Client ids are assigned outside
  the factory, so a created client has none.
- Request validation of the DTOs (null account numbers, null initial
  balances, field formats) is not part of this model. `CreateAccount` takes
  an initial balance that is always present.
- No modelled service writes the client table. So it is not a field of
  `Database`: `GenerateReport` reads it as a parameter.
- The statement shows the transaction type as the enumeration value, not its
  display description.
- `ReportController`'s date parsing is a library call and is left out.
  `GenerateReport` receives the two timestamps directly.
