/**
 * repositories/transaction_repository.go over the store of module Schema.
 *
 * CreateTransaction writes a header row and one row per line item inside one
 * database transaction and rolls back on the first failing call. Which call
 * fails, if any, is the `fault` parameter; the wall clock is `now`.
 * GetDailyReport runs the two report queries; a failing query is `failing`.
 */
module TransactionRepository {
  import opened Wrappers
  import opened Models
  import opened Schema
  import opened Report
  import IdList

  /** The storage call at which a recording run fails, if any. A run stops at
      its first failure, so one value describes every run. */
  datatype FailPoint = NoFailure | AtBegin | AtHeader | AtDetail(index: nat) | AtCommit

  datatype DbError = BeginFailed | HeaderInsertFailed | DetailInsertFailed(index: nat) | CommitFailed

  datatype QueryError = RevenueQueryFailed | BestSellerQueryFailed

  /** Whether a run over `n` line items gets as far as the failing call. */
  predicate Reached(fault: FailPoint, n: nat) {
    match fault
    case NoFailure => false
    case AtDetail(k) => k < n
    case _ => true
  }

  /** The line-item rows inserted for `ds`, in input order: consecutive ids
      from `firstId`, each referencing `txId`. A detail's own `id` and
      `transactionId` are not part of any row. */
  function DetailRows(firstId: int, txId: int, ds: seq<TransactionDetail>): (rows: seq<DetailRow>)
    ensures |rows| == |ds|
    ensures forall k :: 0 <= k < |ds| ==>
      rows[k] == DetailRow(firstId + k, txId, ds[k].productId, ds[k].quantity, ds[k].subtotal)
    decreases ds
  {
    if ds == [] then []
    else [DetailRow(firstId, txId, ds[0].productId, ds[0].quantity, ds[0].subtotal)]
         + DetailRows(firstId + 1, txId, ds[1..])
  }

  lemma DetailRowsSnoc(firstId: int, txId: int, ds: seq<TransactionDetail>, i: nat)
    requires i < |ds|
    ensures DetailRows(firstId, txId, ds[..i + 1]) ==
      DetailRows(firstId, txId, ds[..i]) + [DetailRow(firstId + i, txId, ds[i].productId, ds[i].quantity, ds[i].subtotal)]
  {
    var a := DetailRows(firstId, txId, ds[..i + 1]);
    var b := DetailRows(firstId, txId, ds[..i]) + [DetailRow(firstId + i, txId, ds[i].productId, ds[i].quantity, ds[i].subtotal)];
    forall k | 0 <= k < |a| ensures a[k] == b[k] {
      assert ds[..i + 1][k] == ds[k];
      if k < i {
        assert ds[..i][k] == ds[k];
      }
    }
  }

  /** Where a recording run leaves things: the tables, the caller's
      transaction as the run has updated it, and the error, if any. */
  datatype Recorded = Recorded(db: Tables, txn: Transaction, err: Option<DbError>)

  /** The tables after a committed run for `t`, whose id is the new header id. */
  function Committed(db: Tables, t: Transaction): Tables {
    db.(transactions := db.transactions + [TxRow(t.id, t.date, t.total)],
        details := db.details + DetailRows(db.nextDetailId, t.id, t.details),
        nextTxId := db.nextTxId + 1,
        nextDetailId := db.nextDetailId + |t.details|)
  }

  /**
   * One recording run, as CreateTransaction performs it. Once the database
   * transaction has begun, a zero date becomes `now`; once the header insert
   * has returned its id, the caller's transaction carries that id, even when
   * a later insert or the commit fails and the row is rolled back.
   */
  function Record(db: Tables, t: Transaction, now: Time, fault: FailPoint): (r: Recorded)
    ensures r.txn.total == t.total && r.txn.details == t.details
    ensures r.err.Some? ==> r.db == db
    ensures r.db.products == db.products
  {
    if fault == AtBegin then Recorded(db, t, Some(BeginFailed))
    else
      var dated := if t.date == ZeroTime then t.(date := now) else t;
      if fault == AtHeader then Recorded(db, dated, Some(HeaderInsertFailed))
      else
        var withId := dated.(id := db.nextTxId);
        if Reached(fault, |t.details|) then
          Recorded(db, withId, Some(if fault.AtDetail? then DetailInsertFailed(fault.index) else CommitFailed))
        else
          Recorded(Committed(db, withId), withId, None)
  }

  // ---------------------------------------------------------------------------
  // Properties of a recording run

  /** All or nothing: a run that fails anywhere leaves the tables as they
      were; a run that succeeds adds exactly one header row and one row per
      line item, in input order, under the next header id. */
  lemma RecordAllOrNothing(db: Tables, t: Transaction, now: Time, fault: FailPoint)
    ensures var r := Record(db, t, now, fault);
      && (r.err.None? <==> !Reached(fault, |t.details|))
      && (r.err.Some? ==> r.db == db)
      && (r.err.None? ==>
            && r.db.transactions == db.transactions + [TxRow(db.nextTxId, r.txn.date, t.total)]
            && r.db.details == db.details + DetailRows(db.nextDetailId, db.nextTxId, t.details)
            && r.db.products == db.products)
  {
  }

  /** The error names the call that failed. */
  lemma RecordErrors(db: Tables, t: Transaction, now: Time, fault: FailPoint)
    ensures var r := Record(db, t, now, fault);
      && (fault == AtBegin ==> r.err == Some(BeginFailed))
      && (fault == AtHeader ==> r.err == Some(HeaderInsertFailed))
      && (fault.AtDetail? && fault.index < |t.details| ==> r.err == Some(DetailInsertFailed(fault.index)))
      && (fault == AtCommit ==> r.err == Some(CommitFailed))
  {
  }

  /** The caller's transaction: a zero date is replaced by `now` once the
      database transaction has begun and any other date is kept; the id is
      the new header id once the header insert succeeded; total and line items
      are never touched. The header row carries the same date and total. */
  lemma RecordUpdatesCaller(db: Tables, t: Transaction, now: Time, fault: FailPoint)
    ensures var r := Record(db, t, now, fault);
      && r.txn.total == t.total && r.txn.details == t.details
      && (fault != AtBegin ==> r.txn.date == (if t.date == ZeroTime then now else t.date))
      && (fault == AtBegin ==> r.txn == t)
      && (fault != AtBegin && fault != AtHeader ==> r.txn.id == db.nextTxId)
      && (fault == AtHeader ==> r.txn.id == t.id)
      && (r.err.None? ==> db.transactions + [TxRow(r.txn.id, r.txn.date, r.txn.total)] == r.db.transactions)
  {
  }

  /** Appending a header row with an id at the counter keeps the header ids
      unique and below the advanced counter. */
  lemma FreshTxId(txs: seq<TxRow>, next: int, row: TxRow)
    requires IdList.Unique(TxIds(txs)) && IdList.Below(TxIds(txs), next) && row.id == next
    ensures IdList.Unique(TxIds(txs + [row])) && IdList.Below(TxIds(txs + [row]), next + 1)
  {
    assert TxIds(txs + [row]) == TxIds(txs) + [row.id];
    IdList.AppendUnique(TxIds(txs), row.id);
  }

  /** Appending rows numbered consecutively from the counter keeps the detail
      ids unique and below the advanced counter. */
  lemma FreshDetailIds(ds: seq<DetailRow>, next: int, rows: seq<DetailRow>)
    requires IdList.Unique(DetailIds(ds)) && IdList.Below(DetailIds(ds), next)
    requires forall k :: 0 <= k < |rows| ==> rows[k].id == next + k
    ensures IdList.Unique(DetailIds(ds + rows)) && IdList.Below(DetailIds(ds + rows), next + |rows|)
  {
    var oldIds, newIds := DetailIds(ds), DetailIds(ds + rows);
    forall k | 0 <= k < |oldIds|
      ensures newIds[k] == oldIds[k] && oldIds[k] in oldIds
    {
    }
  }

  /** Old references still resolve after a header row is appended, and new
      rows that reference that header resolve too. */
  lemma ReferencesResolve(txs: seq<TxRow>, row: TxRow, ds: seq<DetailRow>, rows: seq<DetailRow>)
    requires forall d :: d in ds ==> d.transactionId in TxIds(txs)
    requires forall k :: 0 <= k < |rows| ==> rows[k].transactionId == row.id
    ensures forall d :: d in ds + rows ==> d.transactionId in TxIds(txs + [row])
  {
    var ids := TxIds(txs + [row]);
    assert ids == TxIds(txs) + [row.id];
    forall d | d in ds + rows ensures d.transactionId in ids {
      if d !in ds {
        var k :| 0 <= k < |rows| && rows[k] == d;
      }
    }
  }

  /** A committed run keeps the tables' constraints. */
  lemma CommittedKeepsTablesValid(db: Tables, t: Transaction)
    requires ValidTables(db) && t.id == db.nextTxId
    ensures ValidTables(Committed(db, t))
  {
    var row := TxRow(t.id, t.date, t.total);
    var rows := DetailRows(db.nextDetailId, t.id, t.details);
    FreshTxId(db.transactions, db.nextTxId, row);
    FreshDetailIds(db.details, db.nextDetailId, rows);
    ReferencesResolve(db.transactions, row, db.details, rows);
  }

  /** The tables' constraints survive every run. */
  lemma RecordKeepsTablesValid(db: Tables, t: Transaction, now: Time, fault: FailPoint)
    requires ValidTables(db)
    ensures ValidTables(Record(db, t, now, fault).db)
  {
    var r := Record(db, t, now, fault);
    if r.err.None? {
      CommittedKeepsTablesValid(db, r.txn);
    }
  }

  /** Foreign keys: after a successful run every new line-item row references
      the new header, whose id was not in the table before. */
  lemma RecordReferencesNewHeader(db: Tables, t: Transaction, now: Time, fault: FailPoint)
    requires ValidTables(db)
    ensures var r := Record(db, t, now, fault);
      r.err.None? ==>
        && r.txn.id !in TxIds(db.transactions)
        && r.txn.id in TxIds(r.db.transactions)
        && forall k :: |db.details| <= k < |r.db.details| ==> r.db.details[k].transactionId == r.txn.id
  {
    var r := Record(db, t, now, fault);
    if r.err.None? {
      assert TxIds(r.db.transactions)[|db.transactions|] == r.txn.id;
      forall k | |db.details| <= k < |r.db.details|
        ensures r.db.details[k].transactionId == r.txn.id
      {
        assert r.db.details[k] == DetailRows(db.nextDetailId, r.txn.id, t.details)[k - |db.details|];
      }
    }
  }

  /** What is persisted does not depend on the caller's detail ids or
      transaction references, nor on the caller's transaction id. */
  lemma RecordIgnoresCallerIds(db: Tables, t: Transaction, u: Transaction, now: Time, fault: FailPoint)
    requires t.date == u.date && t.total == u.total && |t.details| == |u.details|
    requires forall k :: 0 <= k < |t.details| ==>
      && t.details[k].productId == u.details[k].productId
      && t.details[k].quantity == u.details[k].quantity
      && t.details[k].subtotal == u.details[k].subtotal
    ensures Record(db, t, now, fault).db == Record(db, u, now, fault).db
    ensures Record(db, t, now, fault).err == Record(db, u, now, fault).err
  {
  }

  /** A recorded sale shows up in the report: it adds its total to the
      revenue, and one to the count, of the day its date falls in, and of no
      other day. */
  lemma RecordedSaleIsReported(db: Tables, t: Transaction, now: Time, fault: FailPoint, date: Time)
    ensures var r := Record(db, t, now, fault);
      var same := DayStart(date) == DayStart(r.txn.date);
      r.err.None? ==>
        && DailyReportOf(r.db, date).totalRevenue == DailyReportOf(db, date).totalRevenue + (if same then t.total else 0)
        && DailyReportOf(r.db, date).totalTransactions == DailyReportOf(db, date).totalTransactions + (if same then 1 else 0)
  {
    var r := Record(db, t, now, fault);
    if r.err.None? {
      var row := TxRow(r.txn.id, r.txn.date, t.total);
      assert r.db.transactions == db.transactions + [row];
      var start := DayStart(date);
      AppendTransaction(db.transactions, row, start);
      WindowBounds(date, r.txn.date);
      assert DailyReportOf(db, date).totalRevenue == Revenue(db.transactions, start);
      assert DailyReportOf(r.db, date).totalRevenue == Revenue(r.db.transactions, start);
      assert DailyReportOf(db, date).totalTransactions == TxCount(db.transactions, start);
      assert DailyReportOf(r.db, date).totalTransactions == TxCount(r.db.transactions, start);
    }
  }

  // ---------------------------------------------------------------------------
  // The repository over a mutable store

  /** The database: its three tables and the next value of each SERIAL column. */
  class Store {
    var transactions: seq<TxRow>
    var details: seq<DetailRow>
    var products: seq<ProductRow>
    var nextTxId: int
    var nextDetailId: int

    function State(): Tables
      reads this
    {
      Tables(transactions, details, products, nextTxId, nextDetailId)
    }

    predicate Valid()
      reads this
    {
      ValidTables(State())
    }

    /** Freshly migrated tables beside an existing product table; SERIAL
        columns start at 1. */
    constructor (products: seq<ProductRow>)
      requires IdList.Unique(ProductIds(products))
      ensures Valid()
      ensures State() == Tables([], [], products, 1, 1)
    {
      this.transactions := [];
      this.details := [];
      this.products := products;
      this.nextTxId := 1;
      this.nextDetailId := 1;
      assert TxIds([]) == [] && DetailIds([]) == [];
    }

    /** tx.Rollback(): the tables return to what they were at Begin. */
    method Rollback(snapshot: Tables)
      modifies this
      ensures State() == snapshot
    {
      transactions, details, products := snapshot.transactions, snapshot.details, snapshot.products;
      nextTxId, nextDetailId := snapshot.nextTxId, snapshot.nextDetailId;
    }

    /** The line-item loop: one row per detail, in order, under header `id`,
        stopping at the failing insert (the rows before it stay until the
        caller rolls back). */
    method InsertDetails(id: int, ds: seq<TransactionDetail>, fault: FailPoint) returns (failed: bool)
      modifies this
      ensures failed <==> fault.AtDetail? && fault.index < |ds|
      ensures transactions == old(transactions) && products == old(products) && nextTxId == old(nextTxId)
      ensures var n := if failed then fault.index else |ds|;
        && details == old(details) + DetailRows(old(nextDetailId), id, ds[..n])
        && nextDetailId == old(nextDetailId) + n
    {
      var i := 0;
      while i < |ds|
        invariant 0 <= i <= |ds|
        invariant details == old(details) + DetailRows(old(nextDetailId), id, ds[..i])
        invariant nextDetailId == old(nextDetailId) + i
        invariant transactions == old(transactions) && products == old(products) && nextTxId == old(nextTxId)
        invariant !(fault.AtDetail? && fault.index < i)
      {
        if fault == AtDetail(i) {
          return true;
        }
        DetailRowsSnoc(old(nextDetailId), id, ds, i);
        details := details + [DetailRow(nextDetailId, id, ds[i].productId, ds[i].quantity, ds[i].subtotal)];
        nextDetailId := nextDetailId + 1;
        i := i + 1;
      }
      assert ds[..i] == ds;
      failed := false;
    }

    /** CreateTransaction: `saved` is the caller's transaction as the run
        leaves it (Go updates it through the pointer). */
    method CreateTransaction(t: Transaction, now: Time, fault: FailPoint)
      returns (saved: Transaction, err: Option<DbError>)
      requires Valid()
      modifies this
      ensures Valid()
      ensures Recorded(State(), saved, err) == Record(old(State()), t, now, fault)
    {
      if fault == AtBegin {
        return t, Some(BeginFailed);
      }
      var snapshot := State();
      saved := t;
      if saved.date == ZeroTime {
        saved := saved.(date := now);
      }
      if fault == AtHeader {
        return saved, Some(HeaderInsertFailed);
      }
      var id := nextTxId;
      transactions := transactions + [TxRow(id, saved.date, saved.total)];
      nextTxId := nextTxId + 1;
      saved := saved.(id := id);

      var failed := InsertDetails(id, saved.details, fault);
      if failed {
        Rollback(snapshot);
        return saved, Some(DetailInsertFailed(fault.index));
      }
      if fault == AtCommit {
        Rollback(snapshot);
        return saved, Some(CommitFailed);
      }
      assert State() == Committed(snapshot, saved);
      RecordKeepsTablesValid(snapshot, t, now, fault);
      err := None;
    }

    /** GetDailyReport: a failing query's error is returned and nothing else;
        otherwise the report of the calendar day `date` falls in. */
    function GetDailyReport(date: Time, failing: Option<QueryError>): (r: Result<DailyReport, QueryError>)
      reads this
      requires Valid()
      ensures r.Failure? <==> failing.Some?
      ensures r.Failure? ==> r.error == failing.value
      ensures r.Success? ==> r.value == DailyReportOf(State(), date)
    {
      match failing
      case Some(e) => Failure(e)
      case None => Success(DailyReportOf(State(), date))
    }
  }
}
