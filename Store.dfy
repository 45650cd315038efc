/** The persistence layer the services share: the account table, the
    transaction table, the reference tables and the client table, together
    with the repository queries the services rely on and the ledger facts
    that tie account balances to recorded transactions. */
module Store {
  import opened Domain

  // ---------------------------------------------------------------------
  // Account table
  // ---------------------------------------------------------------------

  /** No two rows share an account number. */
  predicate UniqueNumbers(accounts: seq<Account>)
  {
    forall i, j :: 0 <= i < j < |accounts| ==> accounts[i].accountNumber != accounts[j].accountNumber
  }

  /** `findByAccountNumber`: the row index of the account with number `n`. */
  function FindAccount(accounts: seq<Account>, n: string): (r: Option<nat>)
    ensures r.Some? ==> r.value < |accounts| && accounts[r.value].accountNumber == n
    ensures r.None? ==> forall i :: 0 <= i < |accounts| ==> accounts[i].accountNumber != n
  {
    if accounts == [] then None
    else if accounts[0].accountNumber == n then Some(0)
    else match FindAccount(accounts[1..], n)
      case None => None
      case Some(k) => Some(k + 1)
  }

  /** `findByClientId`: the client's accounts, in table order. */
  function FindByClientId(accounts: seq<Account>, clientId: string): (r: seq<Account>)
    ensures forall a :: multiset(r)[a] == if a.clientId == clientId then multiset(accounts)[a] else 0
  {
    if accounts == [] then []
    else
      assert accounts == [accounts[0]] + accounts[1..];
      (if accounts[0].clientId == clientId then [accounts[0]] else [])
        + FindByClientId(accounts[1..], clientId)
  }

  /** Every balance is non-negative. */
  predicate NonNegative(accounts: seq<Account>)
  {
    forall i :: 0 <= i < |accounts| ==> accounts[i].currentBalance >= 0
  }

  // ---------------------------------------------------------------------
  // Transaction table
  // ---------------------------------------------------------------------

  /** Ids are assigned by the store in increasing order. */
  predicate IdsIncreasing(txs: seq<Transaction>)
  {
    forall i, j :: 0 <= i < j < |txs| ==> txs[i].id < txs[j].id
  }

  predicate IdsBelow(txs: seq<Transaction>, bound: nat)
  {
    forall t :: t in txs ==> t.id < bound
  }

  /** Every transaction belongs to an account of the table. */
  predicate Referenced(accounts: seq<Account>, txs: seq<Transaction>)
  {
    forall t :: t in txs ==> FindAccount(accounts, t.accountNumber).Some?
  }

  /** `findById`. */
  function FindById(txs: seq<Transaction>, id: nat): (r: Option<Transaction>)
    ensures r.Some? ==> r.value in txs && r.value.id == id
    ensures r.None? ==> forall i :: 0 <= i < |txs| ==> txs[i].id != id
  {
    if txs == [] then None
    else if txs[0].id == id then Some(txs[0])
    else FindById(txs[1..], id)
  }

  /** `delete`: the table without the transaction(s) carrying `id`. */
  function RemoveById(txs: seq<Transaction>, id: nat): (r: seq<Transaction>)
    ensures forall t :: multiset(r)[t] == if t.id == id then 0 else multiset(txs)[t]
  {
    if txs == [] then []
    else
      assert txs == [txs[0]] + txs[1..];
      (if txs[0].id == id then [] else [txs[0]]) + RemoveById(txs[1..], id)
  }

  /** The transactions of account `n`, in table order. */
  function OfAccount(txs: seq<Transaction>, n: string): (r: seq<Transaction>)
    ensures forall t :: multiset(r)[t] == if t.accountNumber == n then multiset(txs)[t] else 0
  {
    if txs == [] then []
    else
      assert txs == [txs[0]] + txs[1..];
      (if txs[0].accountNumber == n then [txs[0]] else []) + OfAccount(txs[1..], n)
  }

  /** The transactions of account `n` dated in `[start, end]`, in table order. */
  function OfAccountBetween(txs: seq<Transaction>, n: string, start: int, end: int): (r: seq<Transaction>)
    ensures forall t :: multiset(r)[t] ==
                        if t.accountNumber == n && start <= t.date <= end then multiset(txs)[t] else 0
  {
    if txs == [] then []
    else
      assert txs == [txs[0]] + txs[1..];
      var t := txs[0];
      (if t.accountNumber == n && start <= t.date <= end then [t] else [])
        + OfAccountBetween(txs[1..], n, start, end)
  }

  /** Newest first. */
  predicate SortedByDateDesc(s: seq<Transaction>)
  {
    forall i, j :: 0 <= i < j < |s| ==> s[i].date >= s[j].date
  }

  /** Inserts `t` before the first transaction that is not newer than it. */
  function InsertByDateDesc(t: Transaction, s: seq<Transaction>): (r: seq<Transaction>)
    ensures multiset(r) == multiset(s) + multiset{t}
    ensures |r| == |s| + 1 && (r[0] == t || (s != [] && r[0] == s[0]))
  {
    if s == [] || t.date >= s[0].date then [t] + s
    else
      assert s == [s[0]] + s[1..];
      [s[0]] + InsertByDateDesc(t, s[1..])
  }

  lemma {:induction false} InsertKeepsSorted(t: Transaction, s: seq<Transaction>)
    requires SortedByDateDesc(s)
    ensures SortedByDateDesc(InsertByDateDesc(t, s))
  {
    if s != [] && t.date < s[0].date {
      var tail := s[1..];
      assert SortedByDateDesc(tail) by {
        forall i, j | 0 <= i < j < |tail| ensures tail[i].date >= tail[j].date {
          assert tail[i] == s[i + 1] && tail[j] == s[j + 1];
        }
      }
      InsertKeepsSorted(t, tail);
      var rest := InsertByDateDesc(t, tail);
      var r := InsertByDateDesc(t, s);
      assert r == [s[0]] + rest;
      assert s[0].date >= rest[0].date;
      forall i, j | 0 <= i < j < |r| ensures r[i].date >= r[j].date {
        if i == 0 {
          assert r[j] == rest[j - 1];
        } else {
          assert r[i] == rest[i - 1] && r[j] == rest[j - 1];
        }
      }
    }
  }

  /** `ORDER BY date DESC`: the same transactions, newest first. */
  function SortByDateDesc(s: seq<Transaction>): (r: seq<Transaction>)
    ensures SortedByDateDesc(r)
    ensures multiset(r) == multiset(s)
  {
    if s == [] then []
    else
      assert s == [s[0]] + s[1..];
      var sorted := SortByDateDesc(s[1..]);
      InsertKeepsSorted(s[0], sorted);
      InsertByDateDesc(s[0], sorted)
  }

  /** `findByAccountIdOrderByDateDesc`: exactly the account's transactions,
      newest first. */
  function FindByAccountOrderByDateDesc(txs: seq<Transaction>, n: string): (r: seq<Transaction>)
    ensures SortedByDateDesc(r)
    ensures forall t :: multiset(r)[t] == if t.accountNumber == n then multiset(txs)[t] else 0
  {
    SortByDateDesc(OfAccount(txs, n))
  }

  /** `findByAccountIdAndFechaBetween`: exactly the account's transactions
      dated in `[start, end]` (both ends included), newest first. */
  function FindByAccountAndDateBetween(txs: seq<Transaction>, n: string, start: int, end: int): (r: seq<Transaction>)
    ensures SortedByDateDesc(r)
    ensures forall t :: multiset(r)[t] ==
                        if t.accountNumber == n && start <= t.date <= end then multiset(txs)[t] else 0
  {
    SortByDateDesc(OfAccountBetween(txs, n, start, end))
  }

  // ---------------------------------------------------------------------
  // Ledger
  // ---------------------------------------------------------------------

  /** What transaction `t` contributes to the balance of account `n`. */
  function Share(t: Transaction, n: string): int
  {
    if t.accountNumber == n then t.amount else 0
  }

  /** The sum of the signed amounts recorded for account `n`. */
  function Total(txs: seq<Transaction>, n: string): int
  {
    if txs == [] then 0 else Share(txs[0], n) + Total(txs[1..], n)
  }

  /** Every account's balance is its initial balance plus the amounts
      recorded for it. */
  predicate LedgerConsistent(accounts: seq<Account>, txs: seq<Transaction>)
  {
    forall i :: 0 <= i < |accounts| ==>
      accounts[i].currentBalance == accounts[i].initialBalance + Total(txs, accounts[i].accountNumber)
  }

  lemma {:induction false} TotalAppend(txs: seq<Transaction>, t: Transaction, n: string)
    ensures Total(txs + [t], n) == Total(txs, n) + Share(t, n)
  {
    if txs != [] {
      assert (txs + [t])[1..] == txs[1..] + [t];
      TotalAppend(txs[1..], t, n);
    }
  }

  /** An account no transaction refers to has recorded nothing. */
  lemma {:induction false} TotalUnreferenced(txs: seq<Transaction>, n: string)
    requires forall i :: 0 <= i < |txs| ==> txs[i].accountNumber != n
    ensures Total(txs, n) == 0
  {
    if txs != [] {
      TotalUnreferenced(txs[1..], n);
    }
  }

  lemma {:induction false} RemoveAbsent(txs: seq<Transaction>, id: nat)
    requires forall i :: 0 <= i < |txs| ==> txs[i].id != id
    ensures RemoveById(txs, id) == txs
  {
    if txs != [] {
      RemoveAbsent(txs[1..], id);
    }
  }

  /** Removing a stored transaction takes exactly its amount off its
      account's total, and nothing off any other account's. */
  lemma {:induction false} TotalRemove(txs: seq<Transaction>, id: nat, n: string)
    requires IdsIncreasing(txs)
    requires FindById(txs, id).Some?
    ensures Total(RemoveById(txs, id), n) == Total(txs, n) - Share(FindById(txs, id).value, n)
  {
    var rest := txs[1..];
    assert IdsIncreasing(rest) by {
      forall i, j | 0 <= i < j < |rest| ensures rest[i].id < rest[j].id {
        assert rest[i] == txs[i + 1] && rest[j] == txs[j + 1];
      }
    }
    if txs[0].id == id {
      forall i | 0 <= i < |rest| ensures rest[i].id != id {
        assert rest[i] == txs[i + 1];
      }
      RemoveAbsent(rest, id);
      assert RemoveById(txs, id) == RemoveById(rest, id);
    } else {
      TotalRemove(rest, id, n);
      var removed := RemoveById(rest, id);
      assert RemoveById(txs, id) == [txs[0]] + removed;
      assert ([txs[0]] + removed)[1..] == removed;
    }
  }

  /** With unique ids, deleting a stored id removes exactly one row. */
  lemma {:induction false} RemoveByIdRemovesOne(txs: seq<Transaction>, id: nat)
    requires IdsIncreasing(txs)
    requires FindById(txs, id).Some?
    ensures |RemoveById(txs, id)| == |txs| - 1
  {
    var rest := txs[1..];
    assert IdsIncreasing(rest) by {
      forall i, j | 0 <= i < j < |rest| ensures rest[i].id < rest[j].id {
        assert rest[i] == txs[i + 1] && rest[j] == txs[j + 1];
      }
    }
    if txs[0].id == id {
      forall i | 0 <= i < |rest| ensures rest[i].id != id {
        assert rest[i] == txs[i + 1];
      }
      RemoveAbsent(rest, id);
    } else {
      RemoveByIdRemovesOne(rest, id);
    }
  }

  /** Recording a transaction against account `i` and moving that
      account's balance by the same amount keeps the ledger consistent. */
  lemma {:induction false} PostKeepsLedger(accounts: seq<Account>, txs: seq<Transaction>, i: nat, t: Transaction)
    requires UniqueNumbers(accounts) && LedgerConsistent(accounts, txs)
    requires i < |accounts| && t.accountNumber == accounts[i].accountNumber
    ensures LedgerConsistent(
      accounts[i := accounts[i].(currentBalance := accounts[i].currentBalance + t.amount)], txs + [t])
  {
    var accounts' := accounts[i := accounts[i].(currentBalance := accounts[i].currentBalance + t.amount)];
    forall j | 0 <= j < |accounts'|
      ensures accounts'[j].currentBalance == accounts'[j].initialBalance + Total(txs + [t], accounts'[j].accountNumber)
    {
      TotalAppend(txs, t, accounts[j].accountNumber);
    }
  }

  /** Adding an account with no recorded transactions and whose balance is
      its initial balance keeps the ledger consistent. */
  lemma OpenKeepsLedger(accounts: seq<Account>, txs: seq<Transaction>, a: Account)
    requires LedgerConsistent(accounts, txs)
    requires forall i :: 0 <= i < |txs| ==> txs[i].accountNumber != a.accountNumber
    requires a.currentBalance == a.initialBalance
    ensures LedgerConsistent(accounts + [a], txs)
  {
    TotalUnreferenced(txs, a.accountNumber);
  }

  /** Deleting a non-zero transaction leaves its account's balance out of
      step with what remains recorded: deletion does not reconcile. */
  lemma DeleteBreaksLedger(accounts: seq<Account>, txs: seq<Transaction>, id: nat, i: nat)
    requires IdsIncreasing(txs) && LedgerConsistent(accounts, txs)
    requires FindById(txs, id).Some? && FindById(txs, id).value.amount != 0
    requires i < |accounts| && accounts[i].accountNumber == FindById(txs, id).value.accountNumber
    ensures !LedgerConsistent(accounts, RemoveById(txs, id))
  {
    TotalRemove(txs, id, accounts[i].accountNumber);
  }

  // ---------------------------------------------------------------------
  // The shared database
  // ---------------------------------------------------------------------

  /** All repositories the services use. Rows are kept in table order. */
  class Database {
    var accounts: seq<Account>
    var transactions: seq<Transaction>
    var nextId: nat
    var accountTypes: Table
    var statuses: Table

    ghost predicate Valid()
      reads this
    {
      && UniqueNumbers(accounts)
      && IdsIncreasing(transactions)
      && IdsBelow(transactions, nextId)
      && Referenced(accounts, transactions)
      && WellKeyed(accountTypes)
      && WellKeyed(statuses)
    }

    /** A database with the given reference data and no
        accounts or transactions yet. */
    constructor (accountTypes: Table, statuses: Table)
      requires WellKeyed(accountTypes) && WellKeyed(statuses)
      ensures Valid()
      ensures this.accounts == [] && this.transactions == [] && this.nextId == 0
      ensures this.accountTypes == accountTypes && this.statuses == statuses
    {
      this.accounts := [];
      this.transactions := [];
      this.nextId := 0;
      this.accountTypes := accountTypes;
      this.statuses := statuses;
    }

    /** `accountRepository.save`: replaces the row with the same account
        number, or appends a new row. */
    method SaveAccount(a: Account)
      requires Valid()
      modifies this
      ensures Valid()
      ensures transactions == old(transactions) && nextId == old(nextId)
      ensures accountTypes == old(accountTypes) && statuses == old(statuses)
      ensures match FindAccount(old(accounts), a.accountNumber)
        case Some(i) => accounts == old(accounts)[i := a]
        case None => accounts == old(accounts) + [a]
    {
      var found := FindAccount(accounts, a.accountNumber);
      match found
      case Some(i) =>
        accounts := accounts[i := a];
        forall k | 0 <= k < |transactions|
          ensures FindAccount(accounts, transactions[k].accountNumber).Some?
        {
          var j := FindAccount(old(accounts), transactions[k].accountNumber).value;
          assert accounts[j].accountNumber == transactions[k].accountNumber;
        }
      case None =>
        accounts := accounts + [a];
        forall k | 0 <= k < |transactions|
          ensures FindAccount(accounts, transactions[k].accountNumber).Some?
        {
          var j := FindAccount(old(accounts), transactions[k].accountNumber).value;
          assert accounts[j].accountNumber == transactions[k].accountNumber;
        }
    }

    /** `transactionRepository.save`: stores the draft under a fresh id and
        the given creation date. */
    method SaveTransaction(d: Draft, date: int) returns (t: Transaction)
      requires Valid()
      requires FindAccount(accounts, d.account.accountNumber).Some?
      modifies this
      ensures Valid()
      ensures t == Transaction(old(nextId), date, d.transactionType, d.amount, d.balance, d.account.accountNumber)
      ensures transactions == old(transactions) + [t] && nextId == old(nextId) + 1
      ensures accounts == old(accounts)
      ensures accountTypes == old(accountTypes) && statuses == old(statuses)
    {
      t := Transaction(nextId, date, d.transactionType, d.amount, d.balance, d.account.accountNumber);
      transactions := transactions + [t];
      nextId := nextId + 1;
    }

    /** `transactionRepository.delete`. */
    method DeleteTransaction(id: nat)
      requires Valid()
      modifies this
      ensures Valid()
      ensures transactions == RemoveById(old(transactions), id)
      ensures accounts == old(accounts) && nextId == old(nextId)
      ensures accountTypes == old(accountTypes) && statuses == old(statuses)
    {
      RemovePreservesTable(accounts, transactions, id, nextId);
      transactions := RemoveById(transactions, id);
    }
  }

  /** Deleting keeps the transaction table's own invariants. */
  lemma {:induction false} RemovePreservesTable(accounts: seq<Account>, txs: seq<Transaction>, id: nat, bound: nat)
    requires IdsIncreasing(txs) && IdsBelow(txs, bound) && Referenced(accounts, txs)
    ensures IdsIncreasing(RemoveById(txs, id))
    ensures IdsBelow(RemoveById(txs, id), bound)
    ensures Referenced(accounts, RemoveById(txs, id))
  {
    var r := RemoveById(txs, id);
    forall t | t in r ensures t in txs {
      assert multiset(r)[t] > 0;
    }
    RemoveKeepsIncreasing(txs, id);
  }

  lemma {:induction false} RemoveKeepsIncreasing(txs: seq<Transaction>, id: nat)
    requires IdsIncreasing(txs)
    ensures IdsIncreasing(RemoveById(txs, id))
  {
    if txs != [] {
      var tail := txs[1..];
      assert IdsIncreasing(tail) by {
        forall i, j | 0 <= i < j < |tail| ensures tail[i].id < tail[j].id {
          assert tail[i] == txs[i + 1] && tail[j] == txs[j + 1];
        }
      }
      forall i | 0 <= i < |tail| ensures tail[i].id > txs[0].id {
        assert tail[i] == txs[i + 1];
      }
      RemoveKeepsIncreasing(tail, id);
      RemoveKeepsAbove(tail, id, txs[0].id);
    }
  }

  lemma {:induction false} RemoveKeepsAbove(txs: seq<Transaction>, id: nat, low: nat)
    requires forall i :: 0 <= i < |txs| ==> txs[i].id > low
    ensures forall k :: 0 <= k < |RemoveById(txs, id)| ==> RemoveById(txs, id)[k].id > low
  {
    if txs != [] {
      RemoveKeepsAbove(txs[1..], id, low);
    }
  }
}
