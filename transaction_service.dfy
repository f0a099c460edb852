/**
 * services/transaction_service.go: fills in a missing total before handing a
 * transaction to the repository, and passes report requests straight through.
 */
module TransactionService {
  import opened Wrappers
  import opened Models
  import opened Schema
  import opened Report
  import opened TransactionRepository

  /** The sum of the line items' subtotals: never negative when no subtotal
      is, and a single item's own subtotal. */
  function SubtotalSum(ds: seq<TransactionDetail>): (r: int)
    ensures (forall d :: d in ds ==> d.subtotal >= 0) ==> r >= 0
    ensures |ds| == 1 ==> r == ds[0].subtotal
  {
    if ds == [] then 0 else ds[0].subtotal + SubtotalSum(ds[1..])
  }

  lemma {:induction false} SubtotalSumAppend(a: seq<TransactionDetail>, b: seq<TransactionDetail>)
    ensures SubtotalSum(a + b) == SubtotalSum(a) + SubtotalSum(b)
  {
    if a == [] {
      assert a + b == b;
    } else {
      assert (a + b)[1..] == a[1..] + b;
      SubtotalSumAppend(a[1..], b);
    }
  }

  /** Taking one line item out lowers the sum by its subtotal. */
  lemma SubtotalSumWithout(b: seq<TransactionDetail>, k: nat)
    requires k < |b|
    ensures SubtotalSum(b) == b[k].subtotal + SubtotalSum(b[..k] + b[k + 1..])
  {
    var pre, post := b[..k], b[k + 1..];
    var mid := [b[k]] + post;
    assert mid[1..] == post;
    assert SubtotalSum(mid) == b[k].subtotal + SubtotalSum(post);
    assert b == pre + mid;
    SubtotalSumAppend(pre, mid);
    SubtotalSumAppend(pre, post);
  }

  /** Taking one line item out takes one copy of it out of the multiset. */
  lemma MultisetWithout(b: seq<TransactionDetail>, k: nat)
    requires k < |b|
    ensures multiset(b[..k] + b[k + 1..]) == multiset(b) - multiset{b[k]}
  {
    assert b == b[..k] + [b[k]] + b[k + 1..];
  }

  lemma MultisetTail(a: seq<TransactionDetail>)
    requires a != []
    ensures multiset(a[1..]) == multiset(a) - multiset{a[0]}
  {
    assert a == [a[0]] + a[1..];
  }

  lemma {:induction false} IndexOf(b: seq<TransactionDetail>, x: TransactionDetail) returns (k: nat)
    requires x in multiset(b)
    ensures k < |b| && b[k] == x
  {
    if b[0] == x {
      k := 0;
    } else {
      assert b == [b[0]] + b[1..];
      assert x in multiset(b[1..]);
      var j := IndexOf(b[1..], x);
      k := j + 1;
    }
  }

  /** The first line item of `a` sits at some index `k` of its reordering
      `b`, and the remaining items are again reorderings of each other. */
  lemma ReorderStep(a: seq<TransactionDetail>, b: seq<TransactionDetail>) returns (k: nat)
    requires a != [] && multiset(a) == multiset(b)
    ensures k < |b| && b[k] == a[0]
    ensures multiset(a[1..]) == multiset(b[..k] + b[k + 1..])
  {
    assert a[0] in multiset(b) by {
      assert a[0] in multiset(a);
    }
    k := IndexOf(b, a[0]);
    MultisetWithout(b, k);
    MultisetTail(a);
  }

  /** The computed total does not depend on the order of the line items. */
  lemma {:induction false} SubtotalSumReorder(a: seq<TransactionDetail>, b: seq<TransactionDetail>)
    requires multiset(a) == multiset(b)
    ensures SubtotalSum(a) == SubtotalSum(b)
    decreases |a|
  {
    if a == [] {
      assert |b| == |multiset(b)| == 0;
    } else {
      var k := ReorderStep(a, b);
      var rest := b[..k] + b[k + 1..];
      SubtotalSumReorder(a[1..], rest);
      SubtotalSumWithout(b, k);
    }
  }

  /** The total the service hands on: a non-zero total as given, a zero total
      replaced by the sum of the subtotals (still 0 for no line items). */
  method DefaultTotal(t: Transaction) returns (total: int)
    ensures t.total != 0 ==> total == t.total
    ensures t.total == 0 ==> total == SubtotalSum(t.details)
  {
    total := t.total;
    if total == 0 {
      var i := 0;
      while i < |t.details|
        invariant 0 <= i <= |t.details|
        invariant total == SubtotalSum(t.details[..i])
      {
        SubtotalSumAppend(t.details[..i], [t.details[i]]);
        assert t.details[..i + 1] == t.details[..i] + [t.details[i]];
        total := total + t.details[i].subtotal;
        i := i + 1;
      }
      assert t.details[..i] == t.details;
    }
  }

  /** With a zero total, the header row a successful run writes carries the
      sum of the subtotals. */
  lemma ZeroTotalIsComputed(db: Tables, t: Transaction, now: Time, fault: FailPoint)
    requires t.total == 0
    ensures var r := Record(db, t.(total := SubtotalSum(t.details)), now, fault);
      r.err.None? ==>
        && |r.db.transactions| == |db.transactions| + 1
        && r.db.transactions[|db.transactions|].totalAmount == SubtotalSum(t.details)
  {
  }

  class Service {
    const repo: Store

    constructor (repo: Store)
      ensures this.repo == repo
    {
      this.repo := repo;
    }

    /** CreateTransaction: the repository records the transaction with its
        defaulted total; its error, or success, is returned unchanged. */
    method CreateTransaction(t: Transaction, now: Time, fault: FailPoint)
      returns (saved: Transaction, err: Option<DbError>)
      requires repo.Valid()
      modifies repo
      ensures repo.Valid()
      ensures saved.total == (if t.total == 0 then SubtotalSum(t.details) else t.total)
      ensures saved.details == t.details
      ensures Recorded(repo.State(), saved, err) == Record(old(repo.State()), t.(total := saved.total), now, fault)
    {
      var total := DefaultTotal(t);
      RecordUpdatesCaller(repo.State(), t.(total := total), now, fault);
      saved, err := repo.CreateTransaction(t.(total := total), now, fault);
    }

    /** GetDailyReport: exactly the repository's answer for the same date. */
    function GetDailyReport(date: Time, failing: Option<QueryError>): (r: Result<DailyReport, QueryError>)
      reads repo
      requires repo.Valid()
      ensures r == repo.GetDailyReport(date, failing)
      ensures failing.Some? ==> r == Failure(failing.value)
      ensures failing.None? ==> r == Success(DailyReportOf(repo.State(), date))
    {
      repo.GetDailyReport(date, failing)
    }
  }
}
