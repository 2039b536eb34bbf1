# Sales KPI totals, stock lookup and posting outcomes of the Trading backend

This project models the logic of `fullprogram.cs` (the minimal-API host of the inventory
backend) that is not plumbing:

- **`GET /api/kpi/sales` totals.** A set-based SQL query joins every shipment line with its
  shipment and its sales-order line. Both joins are inner joins. The query keeps the shipments
  dated inside an inclusive window of whole dates. For each row it resolves a point-in-time
  purchase cost with `OUTER APPLY (SELECT TOP 1 ... ORDER BY p.PoDate DESC)`. It then sums
  revenue (qty × sales price) and cost (qty × attributed cost). The C# code coalesces both
  `NULL` sums to 0 and computes `margin = revenue - cost`.
- **`GET /api/items/{id}/stock`.** The on-hand figure read from the stock view, 0 when the view has no row.
- **`POST /api/receipts/{id}/post` and `POST /api/shipments/{id}/post`.** How the stored
  procedure's return code, or the `SqlException` it raised, becomes an HTTP answer.

Everything is pure functions over sequences of table rows:

- `Schema` holds the tables.
- `Sql` holds `NULL`, `SUM` and `??`.
- `CostAttribution` holds the `OUTER APPLY` subquery and what its `TOP 1` may return.
- `SalesKpi` holds the joins, the window, the sums and the handler.
- `Endpoints` holds the stock and posting mappings.

Modelling choices:

- **Dates.** Dates are day numbers counted from 0001-01-01. A request `DateTime` is its .NET
  tick count, and `.Date` is `ticks / TicksPerDay`.
- **Money.** Money is `real`, because SQL `decimal` is exact.
- **Joins.** The joins are read the way SQL reads them. Every triple of stored rows (shipment
  line, shipment, sales-order line) that satisfies both join conditions, with the shipment in
  the window, produces exactly one row. Each row carries its origin (`RowId`), so two rows with
  equal values are still two rows and `SUM` adds both. When keys are duplicated, a shipment line
  therefore produces several rows. With unique shipment and sales-order-line ids it produces at
  most one: the row its key lookups find.
- **Ties in `TOP 1`.** `ORDER BY p.PoDate DESC` gives no order among purchase lines with the
  same latest date. So the model does not pick one. The engine's per-row answers are an
  explicit argument `top1`, and the predicate `IsTop1` says which answers are permitted: `NULL`
  exactly when no line qualifies, otherwise the cost of *some* qualifying line that no other
  line post-dates. Every property about cost holds for every permitted answer.
  `CostAttribution.SomeTop1` and `SalesKpi.SomeAnswers` only show that a permitted answer
  always exists.
- **`TOP 1` breaks no ties.** Nothing in the query prefers one of several purchase lines
  dated on the same latest day, for instance the most recently created one. The cost of any
  of them may be attributed.
- **Rows without a qualifying purchase.** A row whose item has no purchase dated on or before
  its ship date is costed at 0 (`ISNULL(lastp.UnitCost, 0)`). Nothing records that its cost
  was unknown: it is indistinguishable from a row bought at cost 0.

## Model

| member | source | states |
|---|---|---|
| `Sql.Coalesce` | fullprogram.cs:183-184 | `v ?? fallback` (and `ISNULL(v, fallback)`): the value when there is one, the fallback for `NULL` |
| `Sql.SqlSumSplits` | fullprogram.cs:183-184 | splitting the rows of a `SUM` in two and coalescing each part to 0 adds up to the coalesced `SUM` of all of them, even when one part is empty and its `SUM` is `NULL` |
| `CostAttribution.Qualifies` | fullprogram.cs:174-175 | a purchase line and an order qualify when they join on `PoId`, the line is for the item and the order is dated on or before the as-of date |
| `CostAttribution.Matches` | fullprogram.cs:173-175 | the subquery rows one purchase line yields are exactly the orders it joins with on `PoId` for the same item dated on or before the as-of date |
| `CostAttribution.Candidates` | fullprogram.cs:171-175 | the `OUTER APPLY` subquery holds a row for every qualifying (line, order) pair and nothing else; no row is dated after the as-of date |
| `CostAttribution.IsTop1` | fullprogram.cs:172-176 | what `TOP 1 … ORDER BY PoDate DESC` may return: `NULL` exactly when the subquery is empty, otherwise the cost of some row no other row post-dates; ties are left open |
| `CostAttribution.AttributedCost` | fullprogram.cs:167 | `ISNULL(lastp.UnitCost, 0)`: the `TOP 1` answer, 0 when it is `NULL` |
| `CostAttribution.Top1Attributes` | fullprogram.cs:167 | any permitted `TOP 1` answer, passed through `ISNULL(…, 0)`, is 0 when nothing qualifies, otherwise the cost of a latest-dated qualifying line |
| `CostAttribution.LatestIndex` | fullprogram.cs:176 | every non-empty subquery result has a row whose date no other row exceeds |
| `CostAttribution.SomeTop1` | fullprogram.cs:172-176 | `TOP 1 … ORDER BY PoDate DESC` always has a permitted answer |
| `CostAttribution.Top1Determined` | fullprogram.cs:172-176 | when the latest-dated candidates share one cost, every permitted answer is that cost, whatever the engine's choice |
| `CostAttribution.FuturePurchaseIgnored` | fullprogram.cs:175 | adding a new purchase order dated after the as-of date, with its lines, leaves the subquery's rows unchanged |
| `CostAttribution.NewerPurchaseTakesOver` | fullprogram.cs:175-176 | a new purchase dated on or before the as-of date and later than every earlier qualifying one determines the attributed cost |
| `SalesKpi.InWindow` | fullprogram.cs:178 | `BETWEEN @s AND @e` includes both ends |
| `SalesKpi.OrderRows` | fullprogram.cs:170 | for one shipment line and one matching shipment in the window, the join with `SalesOrderLines` yields one row per sales-order line with the line's `SoLineId`: every row comes from such a triple and is built from its stored rows, every such triple gives a row, and no triple gives two |
| `SalesKpi.LineRows` | fullprogram.cs:168-178 | one shipment line yields one row per (matching shipment in the window, matching sales-order line) pair: each row is built from a joining triple of that line, every such triple occurs, and none occurs twice |
| `SalesKpi.SelectedFrom` | fullprogram.cs:168-178 | the selected rows are one row per triple of stored rows that satisfies both inner joins with the ship date in `[start, end]`: each built from its triple, every triple present, none twice |
| `SalesKpi.Selected` | fullprogram.cs:168-178 | every row the totals query aggregates has its ship date inside the window |
| `SalesKpi.SelectedCount` | fullprogram.cs:168-178 | the query has exactly as many rows as there are joining triples of stored rows, so duplicated keys multiply rows |
| `SalesKpi.RevenueTerms` | fullprogram.cs:166 | the k-th revenue term is qtyShipped × unit price of the k-th row |
| `SalesKpi.CostTerms` | fullprogram.cs:167 | the k-th cost term is qtyShipped × the coalesced `TOP 1` answer of the k-th row |
| `SalesKpi.SomeAnswers` | fullprogram.cs:171-177 | the engine always has a permitted `OUTER APPLY` answer for every selected row |
| `SalesKpi.TotalsQuery` | fullprogram.cs:164-179 | both sums of the totals row are `NULL` exactly when no row is selected |
| `SalesKpi.DateOf` | fullprogram.cs:180 | `DateTime.Date` of a tick count is the day whose midnight is the last one at or before it |
| `SalesKpi.GetSalesKpi` | fullprogram.cs:180-191 | both bounds are truncated to dates; revenue is Σ qty × price and cost is Σ qty × attributed cost over the selected rows; margin is exactly revenue − cost; an empty selection gives 0, 0, 0 |
| `SalesKpi.RevenueAppend` | fullprogram.cs:166 | the revenue of two sets of rows together is the sum of their revenues |
| `SalesKpi.CostAppend` | fullprogram.cs:167 | the cost of two sets of rows together is the sum of their costs, each with its own `TOP 1` answers |
| `SalesKpi.SelectedIffInWindow` | fullprogram.cs:178 | a joining triple's row is selected exactly when its ship date is within `[start, end]`, both ends included |
| `SalesKpi.EmptyWindowYieldsZero` | fullprogram.cs:178-185 | an end date before the start date gives zero revenue, cost and margin, not an error |
| `SalesKpi.TimeOfDayIgnored` | fullprogram.cs:180 | the response depends only on the dates of the two bounds, not their time of day |
| `SalesKpi.UnshippedLineHasNoRows` | fullprogram.cs:169 | a shipment line whose shipment is missing contributes no row |
| `SalesKpi.UnorderedLineHasNoRows` | fullprogram.cs:170 | a shipment line whose sales-order line is missing contributes no row |
| `SalesKpi.RowCostIsAttributed` | fullprogram.cs:167 | each row's cost term is qtyShipped × the cost of a latest qualifying purchase, and exactly 0 when no purchase qualifies for that row |
| `SalesKpi.CostFallsBackToZero` | fullprogram.cs:167 | when no selected row has a qualifying purchase, the cost is 0 |
| `SalesKpi.MarginWithoutPurchaseHistory` | fullprogram.cs:183-185 | with no purchase lines the cost is 0 and the margin equals the revenue |
| `SalesKpi.FuturePurchaseLeavesKpiUnchanged` | fullprogram.cs:175 | a purchase order dated after the window changes neither the selected rows, nor the permitted `TOP 1` answers, nor the totals |
| `SalesKpi.ExampleRows` | fullprogram.cs:168-178 | in the example database, February 2024 selects the one shipment line, and only the purchase of 2024-01-01 qualifies for it |
| `SalesKpi.ExampleKpi` | fullprogram.cs:164-185 | purchases at 10.00 (2024-01-01) and 12.00 (2024-03-01) and 5 units shipped 2024-02-01 at 20.00 give revenue 100, cost 50 and margin 50 for February |
| `SalesKpi.ShipmentIndex` | fullprogram.cs:169 | the key lookup of a shipment finds a shipment with the `ShipId`, or there is none |
| `SalesKpi.OrderLineIndex` | fullprogram.cs:170 | the key lookup of a sales-order line finds one with the `SoLineId`, or there is none |
| `SalesKpi.Matched` | fullprogram.cs:168-178 | the triple a shipment line's key lookups find, when there is one, is a joining triple of that line in the window |
| `SalesKpi.LineRow` | fullprogram.cs:168-178 | the expected rows of one shipment line are zero or one, built from a joining triple of that line |
| `SalesKpi.LineRowsWithUniqueKeys` | fullprogram.cs:168-178 | with unique `ShipId` and `SoLineId`, a shipment line yields exactly the row its key lookups find, or none |
| `SalesKpi.SelectionWithUniqueKeys` | fullprogram.cs:168-178 | with unique keys the selection is one row per shipment line whose shipment and sales-order line exist and whose shipment is in the window, in shipment-line order, and nothing else |
| `SalesKpi.RevenueWithUniqueKeys` | fullprogram.cs:166-170 | with unique shipment and sales-order-line ids, revenue is Σ over shipment lines of qty × price when the line's shipment is in the window, and 0 otherwise or when a join fails |
| `SalesKpi.CostWithUniqueKeys` | fullprogram.cs:167-178 | with unique ids and any permitted `TOP 1` answers, cost is Σ over shipment lines of qty × a unit cost, each line's unit cost the cost of a latest qualifying purchase of its item as of its ship date, and 0 when the line joins no row |
| `Endpoints.OnHandRows` | fullprogram.cs:119 | the stock query returns one value per view row for the item, exactly the `OnHand` values of those rows, the first one the first matching row's |
| `Endpoints.GetStock` | fullprogram.cs:116-121 | no view row gives on-hand 0; exactly one row gives its value, 0 when it is `NULL`; the query fails exactly when more than one row matches |
| `Endpoints.ReturnCodeResponse` | fullprogram.cs:131-133 | return code 0 gives 200 `OK` with returnCode 0; any other code gives 400 with the handler's failure code carrying that same code |
| `Endpoints.PostReceipt` | fullprogram.cs:124-134 | receipt posting maps 0 to OK and a nonzero code to `POST_RECEIPT_FAILED` with that code; a raised SQL error escapes the handler |
| `Endpoints.PostShipment` | fullprogram.cs:137-155 | shipment posting maps 0 to OK and a nonzero code to `POST_SHIPMENT_FAILED` with that code; a raised SQL error becomes a 400 `SQL_ERROR` with its message |
| `Endpoints.PostingHandlersAgree` | fullprogram.cs:131-148 | both posting handlers report the procedure's return value unchanged and agree on the status |

## Left out

- Posting itself: `usp_PostReceipt`, `usp_PostShipment`, the `vw_StockOnHand` view and the stock ledger behind it are database objects not in the repository. The model takes their outcome (a return value or a raised error, and the rows of the view) as input and states nothing about stock, at-most-once posting or atomicity.
- The top-N ranking (`usp_TopItemsByMargin`, fullprogram.cs:182) is a stored procedure not in the repository. The `topItems` field of the response is not modelled.
- The default window `DateTime.UtcNow.AddMonths(-1)` … `DateTime.UtcNow` (fullprogram.cs:160-161) depends on the clock and on calendar arithmetic. Both bounds are parameters.
- SalesKpi.GetSalesKpi: does not model SQL `decimal` precision and scale or C# `decimal` overflow. Money is an exact, unbounded `real`.
- Ship dates and order dates are whole-day values. The table definitions are not in the repository. If `ShipDate` carried a time of day, `BETWEEN s.Date AND e.Date` would drop shipments later than midnight on the end date, and this model does not capture that.
- `NULL` in `QtyShipped`, `UnitPrice` or `UnitCost` is not modelled (`SUM` would skip such terms). These columns are taken as non-null.
- The error middleware (fullprogram.cs:48-64), which turns an escaped `SqlException` into a 400 `SQL_ERROR` and any other exception into a 500, is I/O plumbing. The receipt handler's escaping error and `GetStock`'s `MoreThanOneRow` stop at the handler boundary.
- Exceptions raised by the KPI and stock queries themselves (connection or SQL errors) are not modelled.
- JWT setup, login with SHA-256 password comparison and token issuance, Swagger, connection creation and async/await are foreign library calls or plumbing.
- Role-based authorization of the posting endpoints is not modelled.
- Item search and pagination (fullprogram.cs:98-113) depend on SQL `LIKE` wildcards and collation, which cannot be modelled faithfully.
- The controllers in `PostingController.cs`, `KPIController.cs` and `ItemsController.cs`, and `main.cs`, only forward to SQL or configure the host. They duplicate endpoints of `fullprogram.cs`.
- Concurrency: each query is one statement over a consistent snapshot. Concurrent posting is handled inside the database and is not modelled.
