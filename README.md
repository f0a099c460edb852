# go-kasir-api core, modelled in Dafny

A model of the point-of-sale backend's core:

- the two in-memory catalogs (categories and products). Each is a slice plus a `nextID` counter, changed by the create, update and delete handlers and read by get-by-id. The path id is parsed with `strconv.Atoi`.
- transaction recording. The service fills in a missing total. The repository then writes one header row and one row per line item inside one database transaction, and rolls back on the first failure.
- the daily report. It gives revenue and transaction count over one calendar day, and the product group with the largest summed quantity that day.

Files and modules, one per source file or concern:

| file | module | models |
|---|---|---|
| wrappers.dfy | Wrappers | Option and Result |
| id_list.dfy | IdList | the "first element with this id" search, id uniqueness, the `nextID` bound |
| path_id.dfy | PathId | `strings.TrimPrefix` and `strconv.Atoi` (64-bit) |
| http_reply.dfy | Http | the handlers' replies, status codes and error bodies |
| category_handler.dfy | CategoryHandler | internal/category/handler.go, as class `CategoryStore` |
| product_handler.dfy | ProductHandler | internal/product/handler.go, as class `ProductStore` |
| models.dfy | Models | models/transaction.go |
| schema.dfy | Schema | the tables of database/database.go and their constraints |
| report.dfy | Report | the two report queries as functions over rows |
| transaction_repository.dfy | TransactionRepository | repositories/transaction_repository.go: `Record` (the specification of one recording run) and class `Store` |
| transaction_service.dfy | TransactionService | services/transaction_service.go, as class `Service` |

Conventions:

- A timestamp is a whole number of seconds since 0001-01-01 00:00:00 UTC. That is the instant Go's zero `time.Time` denotes, so "date not set" (`IsZero`) is the value 0.
- A day runs from its start `s`, a multiple of 86400, to `s + 86399`; both ends are included.
- The wall clock (`time.Now()`) is the parameter `now`.
- Storage failures are parameters. For recording, `fault: FailPoint` names the call that fails (begin, header insert, the k-th detail insert, commit), or `NoFailure`. A run stops at its first failure, so one value covers every run. For the report, `failing: Option<QueryError>` names a failing query.
- A JSON body that does not decode is `None` for the handler's `body` parameter.
- Go updates the caller's `Transaction` through a pointer. Here the updated value is the method's out-parameter `saved`. It is returned on error too, with exactly the fields Go would have changed by then.

## Model

| member | source | states |
|---|---|---|
| IdList.FirstIndex | internal/category/handler.go:178-186 | the id search the handler loops perform: None exactly when the id is absent; otherwise the position of an element with that id with none before it |
| IdList.FirstIndexAt | internal/product/handler.go:114-120 | a position that holds the id with no earlier occurrence is the one the search returns |
| IdList.RemoveAt | internal/category/handler.go:112 | `append(s[:i], s[i+1:]...)`: one element shorter, elements before `i` kept, elements after it shifted down by one in order |
| IdList.RemoveAtUnique | internal/product/handler.go:183 | splicing out one element of a unique-id list keeps the ids unique, removes that id completely, and introduces no id |
| IdList.AppendUnique | internal/category/handler.go:84-86 | appending an id not yet present keeps the ids unique |
| PathId.TrimPrefix | internal/category/handler.go:103 | the prefix is removed when the path starts with it; otherwise the path is unchanged |
| PathId.Atoi | internal/category/handler.go:104-108 | a parsed id lies in the signed 64-bit range, and the text was a sign or digit followed by digits only |
| PathId.AtoiExactly | internal/category/handler.go:104-108 | the text parses exactly when it is an optional sign followed by one or more digits whose signed value lies in the 64-bit range, and the result is then that value |
| PathId.AtoiFormatInt | internal/product/handler.go:108 | every 64-bit id written in decimal parses back to itself |
| PathId.ParsePathId | internal/product/handler.go:107-108 | a path made of the route prefix and a written id yields that id |
| PathId.AtoiEmpty | internal/product/handler.go:107-112 | an empty suffix after the route prefix does not parse |
| PathId.AtoiAcceptsNonCanonical | internal/product/handler.go:107-108 | a '+' sign, leading zeros and "-0" are accepted, as by Go's parser |
| PathId.AtoiRejects | internal/product/handler.go:108-112 | a suffix with a non-digit anywhere but a leading sign does not parse |
| CategoryHandler.IdsSplice | internal/category/handler.go:112 | splicing a category out of the list splices its id out of the id list |
| CategoryHandler.CategoryStore.constructor | internal/category/handler.go:17-21 | the seed: categories 1 and 2, `nextID` 3, and the catalog invariant holds (unique ids, all below `nextID`) |
| CategoryHandler.CategoryStore.Create | internal/category/handler.go:77-91 | an undecodable body is a bad request and changes nothing; otherwise the body with id `nextID` is appended and `Created`, `nextID` grows by one, earlier elements are untouched, the new id was never held before, and the invariant is kept |
| CategoryHandler.CategoryStore.Delete | internal/category/handler.go:102-119 | an unparsable id is a bad request; an absent id is not-found; either way the list is unchanged. Otherwise exactly the first category with the id is spliced out, the order of the rest is kept, the id is gone, `nextID` is unchanged, and the invariant is kept |
| CategoryHandler.CategoryStore.Update | internal/category/handler.go:133-158 | the id is checked before the body. Bad request or not-found leave the list unchanged. Otherwise only the element at the first matching index becomes the body with the path id; length, other elements, ids and `nextID` are unchanged |
| CategoryHandler.CategoryStore.GetByID | internal/category/handler.go:170-187 | a bad request for an unparsable id; otherwise the first category with the id, or not-found when there is none |
| ProductHandler.IdsSplice | internal/product/handler.go:183 | splicing a product out of the list splices its id out of the id list |
| ProductHandler.ProductStore.constructor | internal/product/handler.go:19-26 | the seed: products 1 to 3 with their names, prices and stock, `nextID` 4, and the catalog invariant holds |
| ProductHandler.ProductStore.Create | internal/product/handler.go:80-94 | as for categories: the body's name, price and stock are kept, its id becomes `nextID`, and `nextID` grows by one; the new id is fresh and the invariant is kept |
| ProductHandler.ProductStore.Delete | internal/product/handler.go:173-190 | as for categories: only the first product with the id is removed, the order of the rest is kept, and `nextID` is untouched; bad id or unknown id change nothing |
| ProductHandler.ProductStore.Update | internal/product/handler.go:137-162 | as for categories: the id is parsed before the body; exactly one element is replaced in place, its id forced to the path id; the length is unchanged |
| ProductHandler.ProductStore.GetByID | internal/product/handler.go:106-123 | a bad request for an unparsable id, checked before any list access; otherwise the first product with the id, or not-found |
| Report.DayStart | repositories/transaction_repository.go:58-59 | the start of the calendar day of `date`: a multiple of 86400 seconds with `date` less than a day after it |
| Report.WindowBounds | repositories/transaction_repository.go:58-59 | a timestamp is in the [00:00:00, 23:59:59] window of a day exactly when it falls on that calendar day |
| Report.InWindow | repositories/transaction_repository.go:58-59 | `BETWEEN` the day's 00:00:00 and 23:59:59: for a day's start, a timestamp is inside exactly when it falls on that calendar day |
| Report.AmountSum | repositories/transaction_repository.go:67 | SUM(total_amount): never negative when no amount is, and a single row's own amount |
| Report.InDay | repositories/transaction_repository.go:69-70 | the WHERE clause yields no more rows than the table holds, each dated inside the window |
| Report.Revenue | repositories/transaction_repository.go:66-70 | COALESCE(SUM(total_amount), 0): 0 when no row falls in the window |
| Report.TxCount | repositories/transaction_repository.go:68-70 | COUNT(id): at most the table's size, and 0 exactly when no row falls in the window |
| Report.InDayMembers | repositories/transaction_repository.go:69-70 | the WHERE clause keeps a row exactly when it is in the table and its date is in the window |
| Report.InDayEmpty | repositories/transaction_repository.go:69-70 | a table with no row dated inside the window yields no row |
| Report.AppendTransaction | repositories/transaction_repository.go:65-72 | a new transaction row adds its amount to the revenue, and one to the count, of exactly the windows containing its date |
| Report.EmptyDay | repositories/transaction_repository.go:65-75 | a day with no transactions reports revenue 0, count 0 and an empty best seller with quantity 0 |
| Report.TwoTransactionsExample | repositories/transaction_repository.go:65-72 | totals 1000 and 2500 on one day give revenue 3500 over 2 transactions; the next day gives 0 and 0 |
| Report.FindProduct | repositories/transaction_repository.go:87 | the join with products: the found row has the detail's product id; no row means no product has it |
| Report.SalesOf | repositories/transaction_repository.go:86-89 | each joined row names an existing product with its name; no in-window transaction means no rows |
| Report.GroupQty | repositories/transaction_repository.go:85-90 | SUM(td.quantity) of one (p.id, p.name) group: 0 for a key no row has, never negative when no quantity is |
| Report.TopGroup | repositories/transaction_repository.go:90-92 | a candidate group whose summed quantity no other candidate exceeds |
| Report.BestSellerOf | repositories/transaction_repository.go:82-101 | no rows give an empty name and quantity 0 (the ErrNoRows case). Otherwise the quantity is the summed quantity of a group whose name is reported, and no group's summed quantity exceeds it |
| Report.DailyReportOf | repositories/transaction_repository.go:56-112 | the report's count never exceeds the table's size, and a day without transactions has revenue 0 and an empty best seller with quantity 0 |
| Report.FindProductById | repositories/transaction_repository.go:87 | with product ids a primary key, the join finds every product by its id |
| Report.SaleOfDetail | repositories/transaction_repository.go:86-89 | every line item of a day's transaction whose product exists yields a joined row with that product and quantity |
| Report.DetailOfSale | repositories/transaction_repository.go:86-89 | every joined row comes from a line item of one of the day's transactions, with its product and quantity |
| Report.GroupQtyOfJoin | repositories/transaction_repository.go:85-90 | a product's group total over the join equals the summed quantity of its line items in the day's transactions, read off the detail table |
| Report.BestSellerOverDetails | repositories/transaction_repository.go:82-101 | over valid tables: every product with a line item in the day's transactions sold at most the reported quantity; if there is such a product, one of them is reported with its day's quantity; if there is none, the name is empty and the quantity 0 |
| Report.StrictWinnerReported | repositories/transaction_repository.go:90-92 | when one group sold strictly more than every other, that group is reported, whatever the tie order |
| Report.TwoProductsExample | repositories/transaction_repository.go:82-98 | tables holding one transaction on a day with 5 units of product A and 9 of product B: that day's report names B with 9 |
| Schema.ValidTables | database/database.go:33-44 | its definition: the two migrated id columns are unique and below their SERIAL counters, every detail's `transaction_id` references an existing transaction, and (an assumption about the external `products` table) product ids are unique |
| Schema.NextIdsUnused | database/database.go:34-39 | under those constraints the next SERIAL value of each id column is not yet in use |
| TransactionRepository.DetailRows | repositories/transaction_repository.go:42-46 | the detail rows in input order: consecutive new ids, each referencing the header id, and product, quantity and subtotal copied from the line item |
| TransactionRepository.DetailRowsSnoc | repositories/transaction_repository.go:42-51 | inserting one more line item appends exactly its row |
| TransactionRepository.Record | repositories/transaction_repository.go:17-54 | a run never changes the caller's total or line items nor the products table, and a failed run leaves the tables as they were |
| TransactionRepository.RecordAllOrNothing | repositories/transaction_repository.go:17-54 | a run succeeds exactly when no call fails. On failure the tables are unchanged. On success exactly one header row and one row per line item are added, in input order |
| TransactionRepository.RecordErrors | repositories/transaction_repository.go:18-21 | the error returned is that of the failing call: begin, header insert, the k-th detail insert, or commit |
| TransactionRepository.RecordUpdatesCaller | repositories/transaction_repository.go:28-39 | after Begin a zero date becomes `now` and any other date is kept. After the header insert the caller's id is the new header id. Total and line items are never changed, and the header row holds the caller's date and total |
| TransactionRepository.FreshTxId | repositories/transaction_repository.go:26-33 | a header row numbered by the SERIAL counter keeps the transaction ids unique and below the advanced counter |
| TransactionRepository.FreshDetailIds | repositories/transaction_repository.go:42-46 | detail rows numbered consecutively from the counter keep the detail ids unique and below the advanced counter |
| TransactionRepository.ReferencesResolve | repositories/transaction_repository.go:42-46 | detail rows that reference the new header leave every detail's transaction reference resolvable once the header is added |
| TransactionRepository.CommittedKeepsTablesValid | repositories/transaction_repository.go:33-53 | committing the header and its detail rows keeps the schema's key and reference constraints |
| TransactionRepository.RecordKeepsTablesValid | repositories/transaction_repository.go:33-53 | every run keeps the primary keys unique and below their counters, and keeps every detail's transaction reference pointing at an existing transaction |
| TransactionRepository.RecordReferencesNewHeader | repositories/transaction_repository.go:33-51 | on success every new detail row references the new header id, which was not in the table before and is now |
| TransactionRepository.RecordIgnoresCallerIds | repositories/transaction_repository.go:42-46 | what is written does not depend on the caller's detail ids, detail transaction references, or transaction id |
| TransactionRepository.RecordedSaleIsReported | repositories/transaction_repository.go:33-72 | after a successful run the report of the sale's day has its total added to revenue and one added to the count; other days are unchanged |
| TransactionRepository.Store.constructor | database/database.go:33-44 | freshly migrated empty tables with SERIAL counters at 1 satisfy the schema's constraints |
| TransactionRepository.Store.Rollback | repositories/transaction_repository.go:35 | the tables return to the state at Begin |
| TransactionRepository.Store.InsertDetails | repositories/transaction_repository.go:42-51 | the detail loop stops exactly at the failing insert. It has then appended the rows for the line items before that one (all of them when none fails), under the header id, and touched no other table |
| TransactionRepository.Store.CreateTransaction | repositories/transaction_repository.go:17-54 | the new tables and the updated caller transaction are those of `Record` for the same inputs, clock and failure point, and the tables stay valid |
| TransactionRepository.Store.GetDailyReport | repositories/transaction_repository.go:72-101 | on tables meeting the schema's constraints: a failing query's error is returned and nothing else; otherwise the report of the day `date` falls in, not an error even when nothing was sold |
| TransactionService.SubtotalSum | services/transaction_service.go:20-22 | the summed subtotals: never negative when no subtotal is, and a single item's own subtotal |
| TransactionService.SubtotalSumAppend | services/transaction_service.go:20-22 | the subtotal sum is additive over concatenation |
| TransactionService.SubtotalSumWithout | services/transaction_service.go:20-22 | taking one line item out lowers the sum by exactly its subtotal |
| TransactionService.SubtotalSumReorder | services/transaction_service.go:20-22 | the computed total does not depend on the order of the line items |
| TransactionService.DefaultTotal | services/transaction_service.go:19-23 | a non-zero total is passed through unchanged. A zero total becomes the sum of all subtotals, which is 0 when there are no line items |
| TransactionService.ZeroTotalIsComputed | services/transaction_service.go:19-24 | with a zero input total, a successful run persists a header whose amount is the sum of the subtotals |
| TransactionService.Service.CreateTransaction | services/transaction_service.go:17-25 | the repository records the transaction with the defaulted total, and its success or error is returned unchanged; the line items are not modified |
| TransactionService.Service.constructor | services/transaction_service.go:13-15 | the service holds the repository it is given |
| TransactionService.Service.GetDailyReport | services/transaction_service.go:27-29 | exactly the repository's report, or its error, for the same date |

## Left out

- HTTP method dispatch, header setting, JSON encoding and decoding. A body that fails to decode is modelled only as `None`.
- The list-all handlers (`getCategories`, `getProducts`) only encode the slice as it is. They change nothing and are not modelled.
- The two `RegisterHandlers` functions are not modelled, and neither is the routing in main.go, where these two packages are no longer registered.
- Configuration loading, server start-up, connection opening and pool settings in main.go and database/database.go. Only the schema shapes the store.
- The SQL engine and the PostgreSQL driver. The two queries are functions over the tables' rows. The join with `transactions` is a lookup by its primary key, which the migrations declare.
- Report.FindProduct, Report.SalesOf: the join with `products` takes the first row with the detail's product id. The `products` table is created outside the migrations, and its key is not part of this model. The model assumes its ids are unique (the last conjunct of `Schema.ValidTables`), which `Report.FindProductById`, `Report.GroupQtyOfJoin` and `Report.BestSellerOverDetails` rely on. With duplicate product ids, SQL would join a detail once per matching row, and the model does not.
- `time.Format` and time zones. The window is computed on integer seconds. A stored timestamp with a fraction of a second after 23:59:59, which `BETWEEN` would leave out, cannot occur in this model.
- Integer widths. Go's 64-bit overflow in the subtotal sum and in the `nextID` counters is not modelled: integers are unbounded here. Path ids are still bounded to the 64-bit range, as `strconv.Atoi` bounds them.
- TransactionRepository.Record: the SERIAL ids and the `total_amount`, `quantity` and `subtotal` columns are PostgreSQL `integer`, which is 32-bit (database/database.go:33-44). An out-of-range value, or a sequence past 2^31-1, makes the header or detail insert fail and the transaction roll back. The model does not derive that failure from the values: it is represented only by the caller choosing `AtHeader` or `AtDetail(k)`, and a run with `NoFailure` commits such a row.
- PathId.Atoi: it returns None for both of Go's error kinds (syntax and range); the handlers treat both as a bad request.
- TransactionRepository.Store.Rollback: it restores the SERIAL counters too. In PostgreSQL, sequence values drawn by rolled-back inserts are not returned, so real ids can have gaps. The model's ids stay fresh either way.
- Concurrency: unsynchronised access to the catalog slices, and the two report queries seeing different snapshots. Each operation here runs on its own.
- The caller's `Transaction` is a value that the repository method returns updated, not a shared pointer. Aliasing of it is not modelled.
- Report.TopGroup: the tie-break it uses (the earliest candidate in line-item order) is one the query allows. Nothing stated about the report depends on it: the contracts promise only maximality and membership.
