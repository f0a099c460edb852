/**
 * The two queries of the daily report as functions over the tables:
 * revenue and count over the transactions of one day, and the product group
 * with the largest summed quantity among that day's line items.
 */
module Report {
  import opened Wrappers
  import opened Models
  import opened Schema
  import IdList

  const SecondsPerDay: int := 86400

  /** The day's "00:00:00": the start of the calendar day `date` falls in. */
  function DayStart(date: Time): (start: Time)
    ensures start <= date < start + SecondsPerDay
    ensures start % SecondsPerDay == 0
  {
    date - date % SecondsPerDay
  }

  /** `date BETWEEN start AND end`, the end being the day's "23:59:59": for
      a day's start, exactly the timestamps that fall on that calendar day. */
  predicate InWindow(date: Time, start: Time): (b: bool)
    ensures start % SecondsPerDay == 0 ==> (b <==> DayStart(date) == start)
  {
    start <= date <= start + SecondsPerDay - 1
  }

  /** The transactions the WHERE clause keeps, in table order. */
  function InDay(txs: seq<TxRow>, start: Time): (r: seq<TxRow>)
    ensures |r| <= |txs|
    ensures forall k :: 0 <= k < |r| ==> InWindow(r[k].date, start)
  {
    if txs == [] then []
    else (if InWindow(txs[0].date, start) then [txs[0]] else []) + InDay(txs[1..], start)
  }

  /** SUM(total_amount) over the rows: never negative when no amount is,
      and a single row's own amount. */
  function AmountSum(txs: seq<TxRow>): (r: int)
    ensures (forall t :: t in txs ==> t.totalAmount >= 0) ==> r >= 0
    ensures |txs| == 1 ==> r == txs[0].totalAmount
  {
    if txs == [] then 0 else txs[0].totalAmount + AmountSum(txs[1..])
  }

  /** COALESCE(SUM(total_amount), 0) over the day's transactions: 0, not
      NULL, when no row falls in the window. */
  function Revenue(txs: seq<TxRow>, start: Time): (r: int)
    ensures (forall t :: t in txs ==> !InWindow(t.date, start)) ==> r == 0
  {
    InDayMembers(txs, start);
    AmountSum(InDay(txs, start))
  }

  /** COUNT(id) over the day's transactions: at most the table's size, and 0
      exactly when no row falls in the window. */
  function TxCount(txs: seq<TxRow>, start: Time): (r: nat)
    ensures r <= |txs|
    ensures r == 0 <==> forall t :: t in txs ==> !InWindow(t.date, start)
  {
    InDayMembers(txs, start);
    var kept := InDay(txs, start);
    assert kept != [] ==> kept[0] in kept;
    |kept|
  }

  /** One row of the best-seller join: a product's id and name and a line
      item's quantity. */
  datatype Sale = Sale(productId: int, name: string, quantity: int)

  datatype BestSeller = BestSeller(name: string, qtySold: int)

  /** The report's three figures (JSON keys `total_revenue`,
      `total_transaksi` and `produk_terlaris` with `nama` and `qty_terjual`). */
  datatype DailyReport = DailyReport(totalRevenue: int, totalTransactions: int, bestSeller: BestSeller)

  /** The product row with this id; ids are the table's primary key, so the
      join matches at most this row. */
  function FindProduct(ps: seq<ProductRow>, id: int): (r: Option<ProductRow>)
    ensures r.Some? ==> r.value in ps && r.value.id == id
    ensures r.None? ==> forall p :: p in ps ==> p.id != id
  {
    if ps == [] then None
    else if ps[0].id == id then Some(ps[0])
    else FindProduct(ps[1..], id)
  }

  /** The join of the line items with products and with the day's
      transactions (whose ids are `dayIds`), in line-item order. */
  function SalesOf(ds: seq<DetailRow>, ps: seq<ProductRow>, dayIds: seq<int>): (r: seq<Sale>)
    ensures |r| <= |ds|
    ensures forall s :: s in r ==> ProductRow(s.productId, s.name) in ps
    ensures dayIds == [] ==> r == []
  {
    if ds == [] then []
    else
      var rest := SalesOf(ds[1..], ps, dayIds);
      match FindProduct(ps, ds[0].productId)
      case Some(p) =>
        if ds[0].transactionId in dayIds then [Sale(p.id, p.name, ds[0].quantity)] + rest else rest
      case None => rest
  }

  function Sales(db: Tables, start: Time): seq<Sale> {
    SalesOf(db.details, db.products, TxIds(InDay(db.transactions, start)))
  }

  /** SUM(td.quantity) of the group with this (p.id, p.name) key: 0 for a
      key no row has, and never negative when no quantity is. */
  function GroupQty(sales: seq<Sale>, productId: int, name: string): (r: int)
    ensures (forall s :: s in sales ==> s.productId != productId || s.name != name) ==> r == 0
    ensures (forall s :: s in sales ==> s.quantity >= 0) ==> r >= 0
  {
    if sales == [] then 0
    else
      (if sales[0].productId == productId && sales[0].name == name then sales[0].quantity else 0)
      + GroupQty(sales[1..], productId, name)
  }

  /** A candidate whose group total is the largest among `cands`; on a tie the
      earliest candidate wins, which is one of the orders the query allows. */
  function TopGroup(sales: seq<Sale>, cands: seq<Sale>): (top: Sale)
    requires cands != []
    ensures top in cands
    ensures forall c :: c in cands ==>
      GroupQty(sales, c.productId, c.name) <= GroupQty(sales, top.productId, top.name)
  {
    if |cands| == 1 then cands[0]
    else
      var rest := TopGroup(sales, cands[1..]);
      if GroupQty(sales, cands[0].productId, cands[0].name) >= GroupQty(sales, rest.productId, rest.name)
      then cands[0] else rest
  }

  /**
   * ORDER BY total_qty DESC LIMIT 1 over the groups: no rows leaves the name
   * empty and the quantity 0; otherwise the quantity is that of some group,
   * the name is that group's, and no group sold more.
   */
  function BestSellerOf(sales: seq<Sale>): (b: BestSeller)
    ensures sales == [] ==> b == BestSeller("", 0)
    ensures sales != [] ==>
      exists s :: s in sales && b == BestSeller(s.name, GroupQty(sales, s.productId, s.name))
    ensures forall s :: s in sales ==> GroupQty(sales, s.productId, s.name) <= b.qtySold
  {
    if sales == [] then BestSeller("", 0)
    else
      var top := TopGroup(sales, sales);
      BestSeller(top.name, GroupQty(sales, top.productId, top.name))
  }

  /** The report for the calendar day `date` falls in: no more transactions
      than the table holds, and a day without transactions has no revenue and
      no best seller. */
  function DailyReportOf(db: Tables, date: Time): (r: DailyReport)
    ensures r.totalTransactions <= |db.transactions|
    ensures r.totalTransactions == 0 ==> r.totalRevenue == 0 && r.bestSeller == BestSeller("", 0)
  {
    var start := DayStart(date);
    DailyReport(Revenue(db.transactions, start), TxCount(db.transactions, start), BestSellerOf(Sales(db, start)))
  }

  // ---------------------------------------------------------------------------
  // Properties of the report

  /** The window holds its first and last second and nothing outside them. */
  lemma WindowBounds(date: Time, t: Time)
    ensures InWindow(t, DayStart(date)) <==> DayStart(t) == DayStart(date)
  {
  }

  /** The WHERE clause keeps exactly the rows whose date is in the window. */
  lemma {:induction false} InDayMembers(txs: seq<TxRow>, start: Time)
    ensures forall t :: t in InDay(txs, start) <==> t in txs && InWindow(t.date, start)
  {
    if txs != [] {
      InDayMembers(txs[1..], start);
      assert txs == [txs[0]] + txs[1..];
    }
  }

  lemma {:induction false} InDayAppend(txs: seq<TxRow>, row: TxRow, start: Time)
    ensures InDay(txs + [row], start) == InDay(txs, start) + (if InWindow(row.date, start) then [row] else [])
  {
    var tail: seq<TxRow> := if InWindow(row.date, start) then [row] else [];
    if txs == [] {
      assert txs + [row] == [row];
      assert InDay([row], start) == tail + InDay([], start);
    } else {
      var all := txs + [row];
      var head: seq<TxRow> := if InWindow(txs[0].date, start) then [txs[0]] else [];
      assert all[0] == txs[0];
      assert all[1..] == txs[1..] + [row];
      InDayAppend(txs[1..], row, start);
      assert InDay(all, start) == head + InDay(all[1..], start);
      assert InDay(txs, start) == head + InDay(txs[1..], start);
      assert head + (InDay(txs[1..], start) + tail) == (head + InDay(txs[1..], start)) + tail;
    }
  }

  /** A table with no row in the window yields no row. */
  lemma {:induction false} InDayEmpty(txs: seq<TxRow>, start: Time)
    requires forall t :: t in txs ==> !InWindow(t.date, start)
    ensures InDay(txs, start) == []
  {
    if txs != [] {
      assert txs[0] in txs;
      assert forall t :: t in txs[1..] ==> t in txs;
      InDayEmpty(txs[1..], start);
    }
  }

  lemma {:induction false} AmountSumAppend(txs: seq<TxRow>, more: seq<TxRow>)
    ensures AmountSum(txs + more) == AmountSum(txs) + AmountSum(more)
  {
    if txs == [] {
      assert txs + more == more;
    } else {
      assert (txs + more)[1..] == txs[1..] + more;
      AmountSumAppend(txs[1..], more);
    }
  }

  /** Adding a transaction row adds its amount to the revenue, and one to the
      count, of exactly the day windows that contain its date. */
  lemma AppendTransaction(txs: seq<TxRow>, row: TxRow, start: Time)
    ensures Revenue(txs + [row], start) == Revenue(txs, start) + (if InWindow(row.date, start) then row.totalAmount else 0)
    ensures TxCount(txs + [row], start) == TxCount(txs, start) + (if InWindow(row.date, start) then 1 else 0)
  {
    InDayAppend(txs, row, start);
    AmountSumAppend(InDay(txs, start), if InWindow(row.date, start) then [row] else []);
  }

  /** A day with no transactions reports revenue 0, count 0 and an empty best
      seller, without an error. */
  lemma EmptyDay(db: Tables, date: Time)
    requires forall t :: t in db.transactions ==> !InWindow(t.date, DayStart(date))
    ensures DailyReportOf(db, date) == DailyReport(0, 0, BestSeller("", 0))
  {
    var start := DayStart(date);
    InDayEmpty(db.transactions, start);
    assert TxIds(InDay(db.transactions, start)) == [];
  }

  /** With product ids a primary key, the join finds each product by its id. */
  lemma FindProductById(ps: seq<ProductRow>, p: ProductRow)
    requires IdList.Unique(ProductIds(ps)) && p in ps
    ensures FindProduct(ps, p.id) == Some(p)
  {
    var r := FindProduct(ps, p.id);
    var i :| 0 <= i < |ps| && ps[i] == p;
    var j :| 0 <= j < |ps| && ps[j] == r.value;
    assert ProductIds(ps)[i] == ProductIds(ps)[j];
  }

  /** Every line item of a day's transaction whose product exists yields its
      row of the join. */
  lemma {:induction false} SaleOfDetail(ds: seq<DetailRow>, ps: seq<ProductRow>, dayIds: seq<int>, d: DetailRow, p: ProductRow)
    requires d in ds && d.transactionId in dayIds && FindProduct(ps, d.productId) == Some(p)
    ensures Sale(p.id, p.name, d.quantity) in SalesOf(ds, ps, dayIds)
  {
    if ds[0] != d {
      assert d in ds[1..];
      SaleOfDetail(ds[1..], ps, dayIds, d, p);
    }
  }

  /** Every row of the join comes from a line item of a day's transaction,
      with that line item's product and quantity. */
  lemma {:induction false} DetailOfSale(ds: seq<DetailRow>, ps: seq<ProductRow>, dayIds: seq<int>, s: Sale)
    requires s in SalesOf(ds, ps, dayIds)
    ensures exists d :: d in ds && d.productId == s.productId && d.transactionId in dayIds && d.quantity == s.quantity
  {
    var rest := SalesOf(ds[1..], ps, dayIds);
    if s in rest {
      DetailOfSale(ds[1..], ps, dayIds, s);
      var d :| d in ds[1..] && d.productId == s.productId && d.transactionId in dayIds && d.quantity == s.quantity;
      assert d in ds;
    } else {
      assert ds[0] in ds;
    }
  }

  /** SUM(td.quantity) over the line items of product `productId` that
      belong to one of the day's transactions (`dayIds`), read straight off
      the detail table. */
  function DayQty(ds: seq<DetailRow>, productId: int, dayIds: seq<int>): int {
    if ds == [] then 0
    else
      (if ds[0].productId == productId && ds[0].transactionId in dayIds then ds[0].quantity else 0)
      + DayQty(ds[1..], productId, dayIds)
  }

  /** The group total of an existing product over the join is its day's
      quantity in the detail table. */
  lemma {:induction false} GroupQtyOfJoin(ds: seq<DetailRow>, ps: seq<ProductRow>, dayIds: seq<int>, p: ProductRow)
    requires IdList.Unique(ProductIds(ps)) && p in ps
    ensures GroupQty(SalesOf(ds, ps, dayIds), p.id, p.name) == DayQty(ds, p.id, dayIds)
  {
    if ds != [] {
      GroupQtyOfJoin(ds[1..], ps, dayIds, p);
      var rest := SalesOf(ds[1..], ps, dayIds);
      FindProductById(ps, p);
      match FindProduct(ps, ds[0].productId)
      case Some(q) =>
        if ds[0].transactionId in dayIds {
          var sale := Sale(q.id, q.name, ds[0].quantity);
          assert ([sale] + rest)[0] == sale && ([sale] + rest)[1..] == rest;
          if ds[0].productId == p.id {
            assert q == p;
          }
        }
      case None =>
        assert ds[0].productId != p.id;
    }
  }

  /**
   * The best seller measured against the tables themselves. Every product
   * with a line item in one of the day's transactions sold at most the
   * reported quantity that day; when there is such a product, the report
   * names one of them with its day's quantity; when there is none, the name
   * is empty and the quantity 0.
   */
  lemma BestSellerOverDetails(db: Tables, date: Time)
    requires ValidTables(db)
    ensures var dayIds := TxIds(InDay(db.transactions, DayStart(date)));
      var b := DailyReportOf(db, date).bestSeller;
      && (forall d, p :: d in db.details && d.transactionId in dayIds && p in db.products && p.id == d.productId ==>
            DayQty(db.details, p.id, dayIds) <= b.qtySold)
      && ((exists d, p :: d in db.details && d.transactionId in dayIds && p in db.products && p.id == d.productId) ==>
            exists p :: p in db.products && b == BestSeller(p.name, DayQty(db.details, p.id, dayIds)))
      && ((forall d, p :: d in db.details && d.transactionId in dayIds && p in db.products ==> p.id != d.productId) ==>
            b == BestSeller("", 0))
  {
    var dayIds := TxIds(InDay(db.transactions, DayStart(date)));
    var sales := Sales(db, DayStart(date));
    var b := BestSellerOf(sales);
    assert DailyReportOf(db, date).bestSeller == b;
    forall d, p | d in db.details && d.transactionId in dayIds && p in db.products && p.id == d.productId
      ensures Sale(p.id, p.name, d.quantity) in sales
      ensures DayQty(db.details, p.id, dayIds) <= b.qtySold
    {
      FindProductById(db.products, p);
      SaleOfDetail(db.details, db.products, dayIds, d, p);
      GroupQtyOfJoin(db.details, db.products, dayIds, p);
    }
    if sales != [] {
      var s :| s in sales && b == BestSeller(s.name, GroupQty(sales, s.productId, s.name));
      var p := ProductRow(s.productId, s.name);
      assert p in db.products;
      GroupQtyOfJoin(db.details, db.products, dayIds, p);
      DetailOfSale(db.details, db.products, dayIds, s);
      var d :| d in db.details && d.productId == s.productId && d.transactionId in dayIds && d.quantity == s.quantity;
      assert d in db.details && d.transactionId in dayIds && p in db.products && p.id == d.productId;
      assert p in db.products && b == BestSeller(p.name, DayQty(db.details, p.id, dayIds));
    }
  }

  /** When one product group sold strictly more than every other group, the
      report names it with its quantity, whatever order ties would take. */
  lemma StrictWinnerReported(sales: seq<Sale>, w: Sale)
    requires w in sales
    requires forall s :: s in sales && (s.productId != w.productId || s.name != w.name) ==>
      GroupQty(sales, s.productId, s.name) < GroupQty(sales, w.productId, w.name)
    ensures BestSellerOf(sales) == BestSeller(w.name, GroupQty(sales, w.productId, w.name))
  {
  }

  /** One transaction on day `day` with two line items, 5 units of product
      A and 9 of product B: the day's report names B with 9. */
  lemma TwoProductsExample(day: Time)
    ensures var db := Tables([TxRow(1, day, 14000)],
                             [DetailRow(1, 1, 1, 5, 5000), DetailRow(2, 1, 2, 9, 9000)],
                             [ProductRow(1, "A"), ProductRow(2, "B")], 2, 3);
      DailyReportOf(db, day).bestSeller == BestSeller("B", 9)
  {
    var txs := [TxRow(1, day, 14000)];
    var ds := [DetailRow(1, 1, 1, 5, 5000), DetailRow(2, 1, 2, 9, 9000)];
    var ps := [ProductRow(1, "A"), ProductRow(2, "B")];
    var db := Tables(txs, ds, ps, 2, 3);
    var start := DayStart(day);
    assert InDay(txs, start) == txs;
    assert TxIds(txs) == [1];
    assert FindProduct(ps, 2) == Some(ProductRow(2, "B"));
    assert SalesOf(ds[1..], ps, [1]) == [Sale(2, "B", 9)];
    assert SalesOf(ds, ps, [1]) == [Sale(1, "A", 5), Sale(2, "B", 9)];
    var sales := [Sale(1, "A", 5), Sale(2, "B", 9)];
    assert Sales(db, start) == sales;
    assert GroupQty(sales, 1, "A") == 5;
    assert GroupQty(sales, 2, "B") == 9;
    StrictWinnerReported(sales, Sale(2, "B", 9));
  }

  /** Two transactions of 1000 and 2500 on one day: revenue 3500 over 2
      transactions that day, nothing the next day. */
  lemma TwoTransactionsExample(day: Time)
    requires day % SecondsPerDay == 0
    ensures var txs := [TxRow(1, day, 1000), TxRow(2, day + 3600, 2500)];
      && Revenue(txs, DayStart(day)) == 3500 && TxCount(txs, DayStart(day)) == 2
      && Revenue(txs, DayStart(day + SecondsPerDay)) == 0 && TxCount(txs, DayStart(day + SecondsPerDay)) == 0
  {
    var txs := [TxRow(1, day, 1000), TxRow(2, day + 3600, 2500)];
    assert DayStart(day) == day;
    assert DayStart(day + SecondsPerDay) == day + SecondsPerDay;
    assert txs[1..] == [TxRow(2, day + 3600, 2500)];
    assert InDay(txs, day) == txs;
    assert AmountSum(txs[1..]) == 2500;
    assert InDay(txs, day + SecondsPerDay) == [];
  }
}
