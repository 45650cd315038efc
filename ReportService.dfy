/** The account statement: for a client and an inclusive date range, one
    sub-report per account of the client with the transactions dated in the
    range, newest first. A read-only computation over a snapshot of the
    account, transaction and client tables. */
module ReportService {
  import opened Domain
  import opened Store

  /** One transaction line of a statement. */
  datatype TransactionReport = TransactionReport(
    date: int,
    transactionType: TransactionType,
    amount: int,
    balance: int)

  /** One account section of a statement. */
  datatype AccountReport = AccountReport(
    accountNumber: string,
    accountType: string,
    initialBalance: int,
    currentBalance: int,
    status: string,
    transactions: seq<TransactionReport>)

  datatype Statement = Statement(
    startDate: int,
    endDate: int,
    client: string,
    clientId: string,
    accounts: seq<AccountReport>)

  /** `buildTransactionReport`: the printable fields of a transaction. */
  function BuildTransactionReport(t: Transaction): TransactionReport
  {
    TransactionReport(t.date, t.transactionType, t.amount, t.balance)
  }

  function BuildTransactionReports(ts: seq<Transaction>): (r: seq<TransactionReport>)
    ensures |r| == |ts|
    ensures forall k :: 0 <= k < |ts| ==> r[k] == BuildTransactionReport(ts[k])
  {
    if ts == [] then [] else [BuildTransactionReport(ts[0])] + BuildTransactionReports(ts[1..])
  }

  /** `buildAccountReport`: the account's balances copied unchanged, and a
      line for each of its transactions dated within `[start, end]`,
      newest first. */
  function BuildAccountReport(account: Account, txs: seq<Transaction>, start: int, end: int): (r: AccountReport)
    ensures r.accountNumber == account.accountNumber
    ensures r.accountType == account.accountType.description && r.status == account.status.description
    ensures r.initialBalance == account.initialBalance && r.currentBalance == account.currentBalance
    ensures forall k :: 0 <= k < |r.transactions| ==> start <= r.transactions[k].date <= end
    ensures forall i, j :: 0 <= i < j < |r.transactions| ==> r.transactions[i].date >= r.transactions[j].date
    ensures |r.transactions| == |OfAccountBetween(txs, account.accountNumber, start, end)|
    ensures var found := FindByAccountAndDateBetween(txs, account.accountNumber, start, end);
      && |r.transactions| == |found|
      && forall k :: 0 <= k < |found| ==> r.transactions[k] == BuildTransactionReport(found[k])
  {
    var found := FindByAccountAndDateBetween(txs, account.accountNumber, start, end);
    QueryFacts(txs, account.accountNumber, start, end);
    AccountReport(account.accountNumber, account.accountType.description,
                  account.initialBalance, account.currentBalance,
                  account.status.description, BuildTransactionReports(found))
  }

  /** What the date-range query returns: rows of the account, within the
      range, as many as the account has there. */
  lemma QueryFacts(txs: seq<Transaction>, n: string, start: int, end: int)
    ensures var found := FindByAccountAndDateBetween(txs, n, start, end);
      && |found| == |OfAccountBetween(txs, n, start, end)|
      && forall k :: 0 <= k < |found| ==> found[k].accountNumber == n && start <= found[k].date <= end
  {
    var found := FindByAccountAndDateBetween(txs, n, start, end);
    assert multiset(found) == multiset(OfAccountBetween(txs, n, start, end));
  }

  /** A row the range query returns is a stored transaction of the account
      dated in `[start, end]`. */
  lemma FoundRow(txs: seq<Transaction>, n: string, start: int, end: int, t: Transaction)
    requires t in FindByAccountAndDateBetween(txs, n, start, end)
    ensures t in txs && t.accountNumber == n && start <= t.date <= end
  {
    assert multiset(FindByAccountAndDateBetween(txs, n, start, end))[t] > 0;
  }

  /** Every line of an account's section comes from one of its transactions
      dated in `[start, end]`. */
  lemma {:induction false} AccountReportLinesSound(account: Account, txs: seq<Transaction>, start: int, end: int)
    ensures var lines := BuildAccountReport(account, txs, start, end).transactions;
      forall k :: 0 <= k < |lines| ==>
        exists t :: t in txs && t.accountNumber == account.accountNumber && start <= t.date <= end
                    && lines[k] == BuildTransactionReport(t)
  {
    var n := account.accountNumber;
    var found := FindByAccountAndDateBetween(txs, n, start, end);
    var lines := BuildAccountReport(account, txs, start, end).transactions;
    forall k | 0 <= k < |lines|
      ensures exists t :: t in txs && t.accountNumber == n && start <= t.date <= end
                          && lines[k] == BuildTransactionReport(t)
    {
      FoundRow(txs, n, start, end, found[k]);
      assert lines[k] == BuildTransactionReport(found[k]);
    }
  }

  /** Every transaction of the account dated in `[start, end]` has a line in
      the account's section. */
  lemma {:induction false} AccountReportLinesComplete(account: Account, txs: seq<Transaction>, start: int, end: int)
    ensures var lines := BuildAccountReport(account, txs, start, end).transactions;
      forall t :: t in txs && t.accountNumber == account.accountNumber && start <= t.date <= end ==>
        BuildTransactionReport(t) in lines
  {
    var n := account.accountNumber;
    var found := FindByAccountAndDateBetween(txs, n, start, end);
    var lines := BuildAccountReport(account, txs, start, end).transactions;
    assert |lines| == |found|;
    forall t | t in txs && t.accountNumber == n && start <= t.date <= end
      ensures BuildTransactionReport(t) in lines
    {
      assert multiset(txs)[t] > 0;
      assert multiset(found)[t] > 0;
      assert t in found;
      var k :| 0 <= k < |found| && found[k] == t;
      assert lines[k] == BuildTransactionReport(t);
    }
  }

  /** One sub-report per account, in the given order. */
  function BuildAccountReports(accounts: seq<Account>, txs: seq<Transaction>, start: int, end: int): (r: seq<AccountReport>)
    ensures |r| == |accounts|
    ensures forall k :: 0 <= k < |accounts| ==> r[k] == BuildAccountReport(accounts[k], txs, start, end)
  {
    seq(|accounts|, k requires 0 <= k < |accounts| => BuildAccountReport(accounts[k], txs, start, end))
  }

  /** `generarReport`: rejects an inverted date range before looking at any
      table, then an unknown client; otherwise one section per account of
      the client, in table order (none is not an error). */
  function GenerateReport(clients: map<string, Client>, accounts: seq<Account>, txs: seq<Transaction>,
                          clientId: string, start: int, end: int): (r: Result<Statement>)
    ensures start > end ==> r == Failure(BusinessValidation(InvalidDateRange))
    ensures start <= end && clientId !in clients ==> r == Failure(NotFound(ClientMissing))
    ensures start <= end && clientId in clients ==> r.Success?
    ensures r.Success? ==>
      && r.value.startDate == start && r.value.endDate == end
      && r.value.client == clients[clientId].name && r.value.clientId == clientId
      && |r.value.accounts| == |FindByClientId(accounts, clientId)|
      && forall k :: 0 <= k < |r.value.accounts| ==>
           r.value.accounts[k] == BuildAccountReport(FindByClientId(accounts, clientId)[k], txs, start, end)
  {
    if start > end then Failure(BusinessValidation(InvalidDateRange))
    else if clientId !in clients then Failure(NotFound(ClientMissing))
    else
      var owned := FindByClientId(accounts, clientId);
      Success(Statement(start, end, clients[clientId].name, clientId,
                        BuildAccountReports(owned, txs, start, end)))
  }
}
