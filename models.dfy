/**
 * The records of models/transaction.go. Timestamps are whole seconds since
 * 0001-01-01 00:00:00 UTC, the instant Go's zero time.Time denotes, so the
 * zero value of a date is 0 and time.Time.IsZero() is a comparison with 0.
 */
module Models {

  type Time = int

  const ZeroTime: Time := 0

  /** One line item of a sale. */
  datatype TransactionDetail = TransactionDetail(
    id: int,
    transactionId: int,
    productId: int,
    quantity: int,
    subtotal: int)

  /** A sale: its header fields and its line items in input order. */
  datatype Transaction = Transaction(
    id: int,
    date: Time,
    total: int,
    details: seq<TransactionDetail>)
}
