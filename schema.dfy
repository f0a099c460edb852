/**
 * The relational store the repository works against, as plain values: the
 * `transactions` and `transaction_details` tables of the migrations, the
 * externally owned `products` table the report joins with, and the next value
 * of each SERIAL id column.
 */
module Schema {
  import opened Models
  import IdList

  datatype TxRow = TxRow(id: int, date: Time, totalAmount: int)

  datatype DetailRow = DetailRow(
    id: int,
    transactionId: int,
    productId: int,
    quantity: int,
    subtotal: int)

  datatype ProductRow = ProductRow(id: int, name: string)

  datatype Tables = Tables(
    transactions: seq<TxRow>,
    details: seq<DetailRow>,
    products: seq<ProductRow>,
    nextTxId: int,
    nextDetailId: int)

  function TxIds(rows: seq<TxRow>): seq<int> {
    seq(|rows|, i requires 0 <= i < |rows| => rows[i].id)
  }

  function DetailIds(rows: seq<DetailRow>): seq<int> {
    seq(|rows|, i requires 0 <= i < |rows| => rows[i].id)
  }

  function ProductIds(rows: seq<ProductRow>): seq<int> {
    seq(|rows|, i requires 0 <= i < |rows| => rows[i].id)
  }

  /**
   * The constraints the migrations declare: both id columns are primary keys
   * below their SERIAL counters, and every detail's `transaction_id`
   * references an existing transaction. The last conjunct, unique product
   * ids, is an assumption about the externally owned `products` table, whose
   * definition is not part of this model.
   */
  predicate ValidTables(db: Tables) {
    && IdList.Unique(TxIds(db.transactions))
    && IdList.Below(TxIds(db.transactions), db.nextTxId)
    && IdList.Unique(DetailIds(db.details))
    && IdList.Below(DetailIds(db.details), db.nextDetailId)
    && (forall d :: d in db.details ==> d.transactionId in TxIds(db.transactions))
    && IdList.Unique(ProductIds(db.products))
  }

  /** Under the constraints, the next value of each SERIAL column is an id
      not yet in use. */
  lemma NextIdsUnused(db: Tables)
    requires ValidTables(db)
    ensures db.nextTxId !in TxIds(db.transactions)
    ensures db.nextDetailId !in DetailIds(db.details)
  {
  }
}
