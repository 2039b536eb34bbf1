/** The totals of `GET /api/kpi/sales`: the set-based query that joins shipment lines with
    their shipment and sales-order line, keeps the shipments of a whole-day window, attributes
    a point-in-time purchase cost to every row, and sums; then the C# null handling and margin. */
module SalesKpi {
  import opened Sql
  import opened Schema
  import opened CostAttribution

  /** Which stored rows a joined row is made of: the positions of the shipment line, the
      shipment and the sales-order line in their tables. Two joined rows with equal values
      but different origins are two rows, and `SUM` adds both. */
  datatype RowId = RowId(line: nat, shipment: nat, orderLine: nat)

  /** A row of the joined query: its origin and what the two `SUM`s and the `OUTER APPLY` read. */
  datatype Row = Row(id: RowId, qtyShipped: int, unitPrice: real, itemId: int, shipDate: int)

  /** `sh.ShipDate BETWEEN @s AND @e`: inclusive at both ends. */
  predicate InWindow(shipDate: int, start: int, end: int)
  {
    start <= shipDate <= end
  }

  /** The two inner-join conditions for a shipment line, a shipment and a sales-order line. */
  predicate Joins(sl: ShipmentLine, sh: Shipment, sol: SalesOrderLine)
  {
    sl.shipId == sh.shipId && sl.soLineId == sol.soLineId
  }

  /** The stored rows at `id` exist, satisfy both joins and the shipment lies in the window. */
  predicate JoinsAt(sls: seq<ShipmentLine>, shs: seq<Shipment>, sols: seq<SalesOrderLine>, start: int, end: int, id: RowId)
  {
    && id.line < |sls| && id.shipment < |shs| && id.orderLine < |sols|
    && Joins(sls[id.line], shs[id.shipment], sols[id.orderLine])
    && InWindow(shs[id.shipment].shipDate, start, end)
  }

  /** The joined row made of the stored rows at `id`. */
  function RowAt(sls: seq<ShipmentLine>, shs: seq<Shipment>, sols: seq<SalesOrderLine>, id: RowId): Row
    requires id.line < |sls| && id.shipment < |shs| && id.orderLine < |sols|
  {
    Row(id, sls[id.line].qtyShipped, sols[id.orderLine].unitPrice, sols[id.orderLine].itemId, shs[id.shipment].shipDate)
  }

  /** No two rows are made of the same stored rows. */
  predicate Distinct(rows: seq<Row>)
  {
    forall a, b :: 0 <= a < b < |rows| ==> rows[a].id != rows[b].id
  }

  lemma DistinctAppend(a: seq<Row>, b: seq<Row>)
    requires Distinct(a) && Distinct(b)
    requires forall x, y :: x in a && y in b ==> x.id != y.id
    ensures Distinct(a + b)
  {
    forall i, j | 0 <= i < j < |a + b| ensures (a + b)[i].id != (a + b)[j].id {
      if j < |a| {
      } else if i < |a| {
        assert (a + b)[i] in a && (a + b)[j] in b;
      } else {
        assert (a + b)[i] == b[i - |a|] && (a + b)[j] == b[j - |a|];
      }
    }
  }

  /** The rows the pair (shipment line `i`, shipment `j`) produces with the sales-order
      lines from position `k` on: one per sales-order line with the shipment line's `SoLineId`. */
  function OrderRows(sls: seq<ShipmentLine>, shs: seq<Shipment>, sols: seq<SalesOrderLine>, start: int, end: int,
                     i: nat, j: nat, k: nat): (r: seq<Row>)
    requires i < |sls| && j < |shs| && k <= |sols|
    requires sls[i].shipId == shs[j].shipId && InWindow(shs[j].shipDate, start, end)
    ensures forall row :: row in r ==>
      && row.id.line == i && row.id.shipment == j && k <= row.id.orderLine
      && JoinsAt(sls, shs, sols, start, end, row.id) && row == RowAt(sls, shs, sols, row.id)
    ensures forall id :: JoinsAt(sls, shs, sols, start, end, id) && id.line == i && id.shipment == j && k <= id.orderLine ==>
      RowAt(sls, shs, sols, id) in r
    ensures Distinct(r)
    decreases |sols| - k
  {
    if k == |sols| then []
    else
      var head := if sols[k].soLineId == sls[i].soLineId then [RowAt(sls, shs, sols, RowId(i, j, k))] else [];
      var tail := OrderRows(sls, shs, sols, start, end, i, j, k + 1);
      DistinctAppend(head, tail);
      head + tail
  }

  /** The rows shipment line `i` produces with the shipments from position `j` on: one per
      matching shipment inside the window and matching sales-order line. */
  function LineRows(sls: seq<ShipmentLine>, shs: seq<Shipment>, sols: seq<SalesOrderLine>, start: int, end: int,
                    i: nat, j: nat): (r: seq<Row>)
    requires i < |sls| && j <= |shs|
    ensures forall row :: row in r ==>
      && row.id.line == i && j <= row.id.shipment
      && JoinsAt(sls, shs, sols, start, end, row.id) && row == RowAt(sls, shs, sols, row.id)
    ensures forall id :: JoinsAt(sls, shs, sols, start, end, id) && id.line == i && j <= id.shipment ==>
      RowAt(sls, shs, sols, id) in r
    ensures Distinct(r)
    decreases |shs| - j
  {
    if j == |shs| then []
    else
      var head := if shs[j].shipId == sls[i].shipId && InWindow(shs[j].shipDate, start, end)
                  then OrderRows(sls, shs, sols, start, end, i, j, 0) else [];
      var tail := LineRows(sls, shs, sols, start, end, i, j + 1);
      DistinctAppend(head, tail);
      head + tail
  }

  /** The rows of `FROM ShipmentLines sl INNER JOIN Shipments sh ... INNER JOIN SalesOrderLines sol
      ... WHERE sh.ShipDate BETWEEN start AND end`, for the shipment lines from position `i` on:
      exactly one row for every joining triple of stored rows, and no other. */
  function SelectedFrom(sls: seq<ShipmentLine>, shs: seq<Shipment>, sols: seq<SalesOrderLine>, start: int, end: int,
                        i: nat): (r: seq<Row>)
    requires i <= |sls|
    ensures forall row :: row in r ==>
      i <= row.id.line && JoinsAt(sls, shs, sols, start, end, row.id) && row == RowAt(sls, shs, sols, row.id)
    ensures forall id :: JoinsAt(sls, shs, sols, start, end, id) && i <= id.line ==> RowAt(sls, shs, sols, id) in r
    ensures Distinct(r)
    decreases |sls| - i
  {
    if i == |sls| then []
    else
      var head := LineRows(sls, shs, sols, start, end, i, 0);
      var tail := SelectedFrom(sls, shs, sols, start, end, i + 1);
      DistinctAppend(head, tail);
      head + tail
  }

  /** The rows the totals query aggregates, over the whole database. */
  function Selected(db: Db, start: int, end: int): (r: seq<Row>)
    ensures forall row :: row in r ==> InWindow(row.shipDate, start, end)
  {
    SelectedFrom(db.shipmentLines, db.shipments, db.salesOrderLines, start, end, 0)
  }

  /** The origins of all joining triples. */
  function JoiningIds(sls: seq<ShipmentLine>, shs: seq<Shipment>, sols: seq<SalesOrderLine>, start: int, end: int): set<RowId>
  {
    set l: nat, j: nat, k: nat | l < |sls| && j < |shs| && k < |sols| && JoinsAt(sls, shs, sols, start, end, RowId(l, j, k)) :: RowId(l, j, k)
  }

  /** The query has exactly as many rows as there are joining triples of stored rows. */
  lemma SelectedCount(db: Db, start: int, end: int)
    ensures |Selected(db, start, end)| == |JoiningIds(db.shipmentLines, db.shipments, db.salesOrderLines, start, end)|
  {
    var rows := Selected(db, start, end);
    var ids := JoiningIds(db.shipmentLines, db.shipments, db.salesOrderLines, start, end);
    assert (set x | x in rows :: x.id) == ids by {
      forall id | id in ids ensures id in (set x | x in rows :: x.id) {
        assert RowAt(db.shipmentLines, db.shipments, db.salesOrderLines, id) in rows;
      }
    }
    DistinctCard(rows);
  }

  lemma {:induction false} DistinctCard(rows: seq<Row>)
    requires Distinct(rows)
    ensures |set x | x in rows :: x.id| == |rows|
  {
    if rows == [] {
      assert (set x | x in rows :: x.id) == {};
    } else {
      var tail := set x | x in rows[1..] :: x.id;
      assert (set x | x in rows :: x.id) == tail + {rows[0].id};
      forall x | x in rows[1..] ensures x.id != rows[0].id {
        var m :| 0 <= m < |rows[1..]| && rows[1..][m] == x;
        assert rows[m + 1] == x;
      }
      assert Distinct(rows[1..]) by {
        forall a, b | 0 <= a < b < |rows[1..]| ensures rows[1..][a].id != rows[1..][b].id {
          assert rows[1..][a] == rows[a + 1] && rows[1..][b] == rows[b + 1];
        }
      }
      DistinctCard(rows[1..]);
    }
  }

  // ----- Sums, engine answers and the handler -----

  /** Reference revenue: Σ qtyShipped × unit price over the rows. */
  function Revenue(rows: seq<Row>): real
  {
    if rows == [] then 0.0 else rows[0].qtyShipped as real * rows[0].unitPrice + Revenue(rows[1..])
  }

  /** Reference cost: Σ qtyShipped × attributed cost, the `k`-th row costed with the
      `k`-th `TOP 1` answer. */
  function Cost(rows: seq<Row>, top1: seq<Option<real>>): real
    requires |top1| == |rows|
  {
    if rows == [] then 0.0
    else rows[0].qtyShipped as real * AttributedCost(top1[0]) + Cost(rows[1..], top1[1..])
  }

  /** The terms of `SUM(sl.QtyShipped * sol.UnitPrice)`. */
  function RevenueTerms(rows: seq<Row>): (r: seq<real>)
    ensures |r| == |rows|
    ensures forall k :: 0 <= k < |rows| ==> r[k] == rows[k].qtyShipped as real * rows[k].unitPrice
  {
    if rows == [] then [] else [rows[0].qtyShipped as real * rows[0].unitPrice] + RevenueTerms(rows[1..])
  }

  /** The terms of `SUM(sl.QtyShipped * ISNULL(lastp.UnitCost, 0))`. */
  function CostTerms(rows: seq<Row>, top1: seq<Option<real>>): (r: seq<real>)
    requires |top1| == |rows|
    ensures |r| == |rows|
    ensures forall k :: 0 <= k < |rows| ==> r[k] == rows[k].qtyShipped as real * AttributedCost(top1[k])
  {
    if rows == [] then [] else [rows[0].qtyShipped as real * AttributedCost(top1[0])] + CostTerms(rows[1..], top1[1..])
  }

  /** The subquery rows the `OUTER APPLY` ranks for one joined row. */
  function CandidatesFor(db: Db, row: Row): seq<Candidate>
  {
    Candidates(db.purchaseOrderLines, db.purchaseOrders, row.itemId, row.shipDate)
  }

  /** `top1` is what the database engine may have answered for the `OUTER APPLY` of each row. */
  ghost predicate Admissible(db: Db, rows: seq<Row>, top1: seq<Option<real>>)
  {
    |top1| == |rows| && forall k {:trigger IsTop1(CandidatesFor(db, rows[k]), top1[k])} :: 0 <= k < |rows| ==> IsTop1(CandidatesFor(db, rows[k]), top1[k])
  }

  /** The engine always has a permitted answer for every row. */
  function SomeAnswers(db: Db, rows: seq<Row>): (top1: seq<Option<real>>)
    ensures Admissible(db, rows, top1)
  {
    if rows == [] then []
    else
      var rest := SomeAnswers(db, rows[1..]);
      var r := [SomeTop1(CandidatesFor(db, rows[0]))] + rest;
      assert forall k | 1 <= k < |rows| :: rows[k] == rows[1..][k - 1] && r[k] == rest[k - 1];
      r
  }

  /** The single row the totals query returns: both sums are `NULL` when no row is selected. */
  datatype Totals = Totals(totalRevenue: Option<real>, totalCost: Option<real>)

  function TotalsQuery(db: Db, start: int, end: int, top1: seq<Option<real>>): (t: Totals)
    requires |top1| == |Selected(db, start, end)|
    ensures t.totalRevenue.None? <==> Selected(db, start, end) == []
    ensures t.totalCost.None? <==> Selected(db, start, end) == []
  {
    var rows := Selected(db, start, end);
    Totals(SqlSum(RevenueTerms(rows)), SqlSum(CostTerms(rows, top1)))
  }

  /** .NET `DateTime` ticks (100 ns) in a day; `DateTime.Date` truncates to a multiple of it. */
  const TicksPerDay: nat := 864_000_000_000

  /** `t.Date` as a day number, for a `DateTime` given by its tick count: the day whose
      midnight is the last one at or before `t`. */
  function DateOf(ticks: nat): (d: nat)
    ensures d * TicksPerDay <= ticks < d * TicksPerDay + TicksPerDay
  {
    ticks / TicksPerDay
  }

  /** The totals part of the `/api/kpi/sales` response. */
  datatype KpiResponse = KpiResponse(startDate: int, endDate: int, revenue: real, cost: real, margin: real)

  /** The handler for given `startDate` and `endDate`: query with both truncated to whole
      dates, coalesce the sums to 0 and take their exact difference. */
  function GetSalesKpi(db: Db, startTicks: nat, endTicks: nat, top1: seq<Option<real>>): (k: KpiResponse)
    requires |top1| == |Selected(db, DateOf(startTicks), DateOf(endTicks))|
    ensures k.startDate == DateOf(startTicks) && k.endDate == DateOf(endTicks)
    ensures k.revenue == Revenue(Selected(db, k.startDate, k.endDate))
    ensures k.cost == Cost(Selected(db, k.startDate, k.endDate), top1)
    ensures k.margin == k.revenue - k.cost
    ensures Selected(db, k.startDate, k.endDate) == [] ==> k.revenue == 0.0 && k.cost == 0.0 && k.margin == 0.0
  {
    var s, e := DateOf(startTicks), DateOf(endTicks);
    var t := TotalsQuery(db, s, e, top1);
    SumRevenueTerms(Selected(db, s, e));
    SumCostTerms(Selected(db, s, e), top1);
    var revenue := Coalesce(t.totalRevenue, 0.0);
    var cost := Coalesce(t.totalCost, 0.0);
    KpiResponse(s, e, revenue, cost, revenue - cost)
  }

  lemma {:induction false} SumRevenueTerms(rows: seq<Row>)
    ensures Sum(RevenueTerms(rows)) == Revenue(rows)
  {
    if rows != [] {
      assert RevenueTerms(rows)[1..] == RevenueTerms(rows[1..]);
      SumRevenueTerms(rows[1..]);
    }
  }

  lemma {:induction false} SumCostTerms(rows: seq<Row>, top1: seq<Option<real>>)
    requires |top1| == |rows|
    ensures Sum(CostTerms(rows, top1)) == Cost(rows, top1)
  {
    if rows != [] {
      assert CostTerms(rows, top1)[1..] == CostTerms(rows[1..], top1[1..]);
      SumCostTerms(rows[1..], top1[1..]);
    }
  }

  lemma {:induction false} RevenueAppend(a: seq<Row>, b: seq<Row>)
    ensures Revenue(a + b) == Revenue(a) + Revenue(b)
  {
    if a == [] {
      assert a + b == b;
    } else {
      assert (a + b)[1..] == a[1..] + b;
      RevenueAppend(a[1..], b);
    }
  }

  lemma {:induction false} CostAppend(a: seq<Row>, b: seq<Row>, top1: seq<Option<real>>)
    requires |top1| == |a| + |b|
    ensures Cost(a + b, top1) == Cost(a, top1[..|a|]) + Cost(b, top1[|a|..])
  {
    if a == [] {
      assert a + b == b;
      assert top1[|a|..] == top1;
    } else {
      assert (a + b)[1..] == a[1..] + b;
      assert top1[..|a|][1..] == top1[1..][..|a| - 1];
      assert top1[|a|..] == top1[1..][|a| - 1..];
      CostAppend(a[1..], b, top1[1..]);
    }
  }

  /** Only shipments dated inside the inclusive window contribute a row. */
  lemma SelectedIffInWindow(db: Db, start: int, end: int, id: RowId)
    requires id.line < |db.shipmentLines| && id.shipment < |db.shipments| && id.orderLine < |db.salesOrderLines|
    requires Joins(db.shipmentLines[id.line], db.shipments[id.shipment], db.salesOrderLines[id.orderLine])
    ensures RowAt(db.shipmentLines, db.shipments, db.salesOrderLines, id) in Selected(db, start, end)
        <==> start <= db.shipments[id.shipment].shipDate <= end
  {
  }

  /** An empty window (end date before start date) yields zero revenue, cost and margin. */
  lemma EmptyWindowYieldsZero(db: Db, startTicks: nat, endTicks: nat, top1: seq<Option<real>>)
    requires DateOf(endTicks) < DateOf(startTicks)
    requires |top1| == |Selected(db, DateOf(startTicks), DateOf(endTicks))|
    ensures GetSalesKpi(db, startTicks, endTicks, top1) == KpiResponse(DateOf(startTicks), DateOf(endTicks), 0.0, 0.0, 0.0)
  {
    NothingInEmptyWindow(db.shipmentLines, db.shipments, db.salesOrderLines, DateOf(startTicks), DateOf(endTicks), 0);
  }

  lemma {:induction false} NothingInEmptyWindow(sls: seq<ShipmentLine>, shs: seq<Shipment>, sols: seq<SalesOrderLine>,
                                                start: int, end: int, i: nat)
    requires end < start && i <= |sls|
    ensures SelectedFrom(sls, shs, sols, start, end, i) == []
    decreases |sls| - i
  {
    if i < |sls| {
      NoShipmentInWindow(sls, shs, sols, start, end, i, 0);
      NothingInEmptyWindow(sls, shs, sols, start, end, i + 1);
    }
  }

  lemma {:induction false} NoShipmentInWindow(sls: seq<ShipmentLine>, shs: seq<Shipment>, sols: seq<SalesOrderLine>,
                                              start: int, end: int, i: nat, j: nat)
    requires end < start && i < |sls| && j <= |shs|
    ensures LineRows(sls, shs, sols, start, end, i, j) == []
    decreases |shs| - j
  {
    if j < |shs| {
      NoShipmentInWindow(sls, shs, sols, start, end, i, j + 1);
    }
  }

  /** The window is a window of whole dates: the time of day of either bound does not matter. */
  lemma TimeOfDayIgnored(db: Db, startTicks: nat, endTicks: nat, startTicks': nat, endTicks': nat, top1: seq<Option<real>>)
    requires DateOf(startTicks) == DateOf(startTicks') && DateOf(endTicks) == DateOf(endTicks')
    requires |top1| == |Selected(db, DateOf(startTicks), DateOf(endTicks))|
    ensures GetSalesKpi(db, startTicks, endTicks, top1) == GetSalesKpi(db, startTicks', endTicks', top1)
  {
  }

  /** Inner join with `Shipments`: a shipment line whose shipment is missing contributes nothing. */
  lemma {:induction false} UnshippedLineHasNoRows(sls: seq<ShipmentLine>, shs: seq<Shipment>, sols: seq<SalesOrderLine>,
                                                  start: int, end: int, i: nat, j: nat)
    requires i < |sls| && j <= |shs|
    requires forall m :: j <= m < |shs| ==> shs[m].shipId != sls[i].shipId
    ensures LineRows(sls, shs, sols, start, end, i, j) == []
    decreases |shs| - j
  {
    if j < |shs| {
      UnshippedLineHasNoRows(sls, shs, sols, start, end, i, j + 1);
    }
  }

  /** Inner join with `SalesOrderLines`: a shipment line whose sales-order line is missing
      contributes nothing. */
  lemma {:induction false} UnorderedLineHasNoRows(sls: seq<ShipmentLine>, shs: seq<Shipment>, sols: seq<SalesOrderLine>,
                                                  start: int, end: int, i: nat, j: nat)
    requires i < |sls| && j <= |shs|
    requires forall m :: 0 <= m < |sols| ==> sols[m].soLineId != sls[i].soLineId
    ensures LineRows(sls, shs, sols, start, end, i, j) == []
    decreases |shs| - j
  {
    if j < |shs| {
      if shs[j].shipId == sls[i].shipId && InWindow(shs[j].shipDate, start, end) {
        UnorderedLineHasNoOrderRows(sls, shs, sols, start, end, i, j, 0);
      }
      UnorderedLineHasNoRows(sls, shs, sols, start, end, i, j + 1);
    }
  }

  lemma {:induction false} UnorderedLineHasNoOrderRows(sls: seq<ShipmentLine>, shs: seq<Shipment>, sols: seq<SalesOrderLine>,
                                                       start: int, end: int, i: nat, j: nat, k: nat)
    requires i < |sls| && j < |shs| && k <= |sols|
    requires sls[i].shipId == shs[j].shipId && InWindow(shs[j].shipDate, start, end)
    requires forall m :: k <= m < |sols| ==> sols[m].soLineId != sls[i].soLineId
    ensures OrderRows(sls, shs, sols, start, end, i, j, k) == []
    decreases |sols| - k
  {
    if k < |sols| {
      UnorderedLineHasNoOrderRows(sls, shs, sols, start, end, i, j, k + 1);
    }
  }

  // ----- Cost attribution inside the totals -----

  /** Every row is costed at qtyShipped × an attributed cost of its item as of its ship date;
      a row for which no purchase qualifies adds 0. */
  lemma RowCostIsAttributed(db: Db, rows: seq<Row>, top1: seq<Option<real>>, k: nat)
    requires Admissible(db, rows, top1) && k < |rows|
    ensures IsAttributedCost(CandidatesFor(db, rows[k]), AttributedCost(top1[k]))
    ensures CostTerms(rows, top1)[k] == rows[k].qtyShipped as real * AttributedCost(top1[k])
    ensures CandidatesFor(db, rows[k]) == [] ==> CostTerms(rows, top1)[k] == 0.0
  {
    Top1Attributes(CandidatesFor(db, rows[k]), top1[k]);
  }

  /** When no selected row has a qualifying purchase, the cost is 0. */
  lemma {:induction false} CostFallsBackToZero(db: Db, rows: seq<Row>, top1: seq<Option<real>>)
    requires Admissible(db, rows, top1)
    requires forall row :: row in rows ==> CandidatesFor(db, row) == []
    ensures Cost(rows, top1) == 0.0
  {
    if rows != [] {
      assert rows[0] in rows;
      assert IsTop1(CandidatesFor(db, rows[0]), top1[0]);
      assert Admissible(db, rows[1..], top1[1..]) by {
        forall k | 0 <= k < |rows[1..]| ensures IsTop1(CandidatesFor(db, rows[1..][k]), top1[1..][k]) {
          assert rows[1..][k] == rows[k + 1] && top1[1..][k] == top1[k + 1];
        }
      }
      CostFallsBackToZero(db, rows[1..], top1[1..]);
    }
  }

  /** Without purchase history the margin is the whole revenue, still exactly revenue − cost. */
  lemma MarginWithoutPurchaseHistory(db: Db, startTicks: nat, endTicks: nat, top1: seq<Option<real>>)
    requires db.purchaseOrderLines == []
    requires Admissible(db, Selected(db, DateOf(startTicks), DateOf(endTicks)), top1)
    ensures GetSalesKpi(db, startTicks, endTicks, top1).cost == 0.0
    ensures GetSalesKpi(db, startTicks, endTicks, top1).margin == GetSalesKpi(db, startTicks, endTicks, top1).revenue
  {
    CostFallsBackToZero(db, Selected(db, DateOf(startTicks), DateOf(endTicks)), top1);
  }

  /** A purchase order dated after the end of the window, added with lines of its own, changes
      neither the selected rows nor what the engine may answer for them, hence no total. */
  lemma FuturePurchaseLeavesKpiUnchanged(db: Db, p: PurchaseOrder, lines: seq<PurchaseOrderLine>,
                                         startTicks: nat, endTicks: nat, top1: seq<Option<real>>)
    requires DateOf(endTicks) < p.poDate
    requires forall q :: q in db.purchaseOrders ==> q.poId != p.poId
    requires forall l :: l in lines ==> l.poId == p.poId
    requires |top1| == |Selected(db, DateOf(startTicks), DateOf(endTicks))|
    ensures var db' := db.(purchaseOrders := db.purchaseOrders + [p], purchaseOrderLines := db.purchaseOrderLines + lines);
      && Selected(db', DateOf(startTicks), DateOf(endTicks)) == Selected(db, DateOf(startTicks), DateOf(endTicks))
      && (Admissible(db', Selected(db', DateOf(startTicks), DateOf(endTicks)), top1)
          <==> Admissible(db, Selected(db, DateOf(startTicks), DateOf(endTicks)), top1))
      && GetSalesKpi(db', startTicks, endTicks, top1) == GetSalesKpi(db, startTicks, endTicks, top1)
  {
    var db' := db.(purchaseOrders := db.purchaseOrders + [p], purchaseOrderLines := db.purchaseOrderLines + lines);
    var rows := Selected(db, DateOf(startTicks), DateOf(endTicks));
    forall k | 0 <= k < |rows| ensures CandidatesFor(db', rows[k]) == CandidatesFor(db, rows[k]) {
      assert rows[k] in rows;
      FuturePurchaseIgnored(db.purchaseOrderLines, db.purchaseOrders, p, lines, rows[k].itemId, rows[k].shipDate);
    }
  }

  /** A worked example: purchases of item 7 at 10.00 on 2024-01-01 and at 12.00 on
      2024-03-01, and a shipment on 2024-02-01 of 5 units sold at 20.00. Over February 2024
      (the end bound taken at 13:00) the shipment is costed at 10.00 a unit. */
  function ExampleDb(): Db
  {
    Db(
      [Shipment(1, 738916)],
      [ShipmentLine(1, 10, 5)],
      [SalesOrderLine(10, 7, 20.0)],
      [PurchaseOrder(100, 738885), PurchaseOrder(101, 738945)],
      [PurchaseOrderLine(100, 7, 10.0), PurchaseOrderLine(101, 7, 12.0)])
  }

  /** In the example, February selects the one shipment line, and the purchase of 2024-01-01
      is the only one that qualifies for it. */
  lemma ExampleRows()
    ensures Selected(ExampleDb(), 738916, 738944) == [Row(RowId(0, 0, 0), 5, 20.0, 7, 738916)]
    ensures CandidatesFor(ExampleDb(), Row(RowId(0, 0, 0), 5, 20.0, 7, 738916)) == [Candidate(738885, 10.0)]
  {
    var db := ExampleDb();
    assert LineRows(db.shipmentLines, db.shipments, db.salesOrderLines, 738916, 738944, 0, 1) == [];
    assert OrderRows(db.shipmentLines, db.shipments, db.salesOrderLines, 738916, 738944, 0, 0, 1) == [];
    assert Matches(db.purchaseOrderLines[0], db.purchaseOrders[1..], 7, 738916) == [];
    assert Candidates(db.purchaseOrderLines[1..], db.purchaseOrders, 7, 738916) == [];
  }

  lemma ExampleKpi(top1: seq<Option<real>>)
    requires Admissible(ExampleDb(), Selected(ExampleDb(), 738916, 738944), top1)
    ensures GetSalesKpi(ExampleDb(), 738916 * TicksPerDay, 738944 * TicksPerDay + 468_000_000_000, top1)
         == KpiResponse(738916, 738944, 100.0, 50.0, 50.0)
  {
    var row := Row(RowId(0, 0, 0), 5, 20.0, 7, 738916);
    var c := Candidate(738885, 10.0);
    ExampleRows();
    assert top1[0] == Some(10.0) by {
      assert IsTop1(CandidatesFor(ExampleDb(), row), top1[0]);
      Top1Determined([c], c, top1[0]);
    }
    assert DateOf(738916 * TicksPerDay) == 738916;
    assert DateOf(738944 * TicksPerDay + 468_000_000_000) == 738944;
    assert Revenue([row]) == 100.0;
    assert Cost([row], top1) == 50.0;
  }

  // ----- Reading the join with unique keys -----

  /** `ShipId` identifies a shipment. */
  predicate UniqueShipIds(shs: seq<Shipment>)
  {
    forall a, b :: 0 <= a < b < |shs| ==> shs[a].shipId != shs[b].shipId
  }

  /** `SoLineId` identifies a sales-order line. */
  predicate UniqueSoLineIds(sols: seq<SalesOrderLine>)
  {
    forall a, b :: 0 <= a < b < |sols| ==> sols[a].soLineId != sols[b].soLineId
  }

  /** Key lookup of a shipment, from position `j` on: the first one with `shipId`. */
  function ShipmentIndex(shs: seq<Shipment>, shipId: int, j: nat): (r: Option<nat>)
    requires j <= |shs|
    ensures r.Some? ==> j <= r.value < |shs| && shs[r.value].shipId == shipId
    ensures r.None? ==> forall m :: j <= m < |shs| ==> shs[m].shipId != shipId
    decreases |shs| - j
  {
    if j == |shs| then None
    else if shs[j].shipId == shipId then Some(j)
    else ShipmentIndex(shs, shipId, j + 1)
  }

  /** Key lookup of a sales-order line, from position `k` on: the first one with `soLineId`. */
  function OrderLineIndex(sols: seq<SalesOrderLine>, soLineId: int, k: nat): (r: Option<nat>)
    requires k <= |sols|
    ensures r.Some? ==> k <= r.value < |sols| && sols[r.value].soLineId == soLineId
    ensures r.None? ==> forall m :: k <= m < |sols| ==> sols[m].soLineId != soLineId
    decreases |sols| - k
  {
    if k == |sols| then None
    else if sols[k].soLineId == soLineId then Some(k)
    else OrderLineIndex(sols, soLineId, k + 1)
  }

  /** The stored rows shipment line `i` is expected to join with: its shipment and its
      sales-order line looked up by key, when both exist and the shipment is in the window. */
  function Matched(sls: seq<ShipmentLine>, shs: seq<Shipment>, sols: seq<SalesOrderLine>, start: int, end: int, i: nat): (r: Option<RowId>)
    requires i < |sls|
    ensures r.Some? ==> r.value.line == i && JoinsAt(sls, shs, sols, start, end, r.value)
  {
    match ShipmentIndex(shs, sls[i].shipId, 0)
    case None => None
    case Some(j) =>
      if !InWindow(shs[j].shipDate, start, end) then None
      else match OrderLineIndex(sols, sls[i].soLineId, 0)
        case None => None
        case Some(k) => Some(RowId(i, j, k))
  }

  /** The zero-or-one rows shipment line `i` is expected to produce. */
  function LineRow(sls: seq<ShipmentLine>, shs: seq<Shipment>, sols: seq<SalesOrderLine>, start: int, end: int, i: nat): (r: seq<Row>)
    requires i < |sls|
    ensures |r| <= 1
    ensures forall row :: row in r ==> row.id.line == i && JoinsAt(sls, shs, sols, start, end, row.id) && row == RowAt(sls, shs, sols, row.id)
  {
    match Matched(sls, shs, sols, start, end, i)
    case None => []
    case Some(id) => [RowAt(sls, shs, sols, id)]
  }

  /** With unique keys the join produces, for every shipment line, exactly the row its key
      lookups find, or none. */
  lemma LineRowsWithUniqueKeys(sls: seq<ShipmentLine>, shs: seq<Shipment>, sols: seq<SalesOrderLine>, start: int, end: int, i: nat)
    requires i < |sls|
    requires UniqueShipIds(shs) && UniqueSoLineIds(sols)
    ensures LineRows(sls, shs, sols, start, end, i, 0) == LineRow(sls, shs, sols, start, end, i)
  {
    match ShipmentIndex(shs, sls[i].shipId, 0)
    case None =>
      UnshippedLineHasNoRows(sls, shs, sols, start, end, i, 0);
    case Some(j) =>
      LineRowsAtKey(sls, shs, sols, start, end, i, 0, j);
      if InWindow(shs[j].shipDate, start, end) {
        match OrderLineIndex(sols, sls[i].soLineId, 0)
        case None =>
          UnorderedLineHasNoOrderRows(sls, shs, sols, start, end, i, j, 0);
        case Some(k) =>
          OrderRowsAtKey(sls, shs, sols, start, end, i, j, 0, k);
      }
  }

  /** Under a unique `ShipId`, shipment line `i` meets only the shipment `m` with its key. */
  lemma {:induction false} LineRowsAtKey(sls: seq<ShipmentLine>, shs: seq<Shipment>, sols: seq<SalesOrderLine>,
                                         start: int, end: int, i: nat, j: nat, m: nat)
    requires i < |sls| && j <= m < |shs|
    requires UniqueShipIds(shs) && shs[m].shipId == sls[i].shipId
    ensures LineRows(sls, shs, sols, start, end, i, j)
         == if InWindow(shs[m].shipDate, start, end) then OrderRows(sls, shs, sols, start, end, i, m, 0) else []
    decreases m - j
  {
    if j < m {
      LineRowsAtKey(sls, shs, sols, start, end, i, j + 1, m);
    } else {
      UnshippedLineHasNoRows(sls, shs, sols, start, end, i, m + 1);
    }
  }

  /** Under a unique `SoLineId`, shipment line `i` meets only the sales-order line `m` with its key. */
  lemma {:induction false} OrderRowsAtKey(sls: seq<ShipmentLine>, shs: seq<Shipment>, sols: seq<SalesOrderLine>,
                                          start: int, end: int, i: nat, j: nat, k: nat, m: nat)
    requires i < |sls| && j < |shs| && k <= m < |sols|
    requires sls[i].shipId == shs[j].shipId && InWindow(shs[j].shipDate, start, end)
    requires UniqueSoLineIds(sols) && sols[m].soLineId == sls[i].soLineId
    ensures OrderRows(sls, shs, sols, start, end, i, j, k) == [RowAt(sls, shs, sols, RowId(i, j, m))]
    decreases m - k
  {
    if k < m {
      OrderRowsAtKey(sls, shs, sols, start, end, i, j, k + 1, m);
    } else {
      UnorderedLineHasNoOrderRows(sls, shs, sols, start, end, i, j, m + 1);
    }
  }

  /** The expected rows of the shipment lines from position `i` on, line after line. */
  function ExpectedRows(sls: seq<ShipmentLine>, shs: seq<Shipment>, sols: seq<SalesOrderLine>, start: int, end: int, i: nat): seq<Row>
    requires i <= |sls|
    decreases |sls| - i
  {
    if i == |sls| then [] else LineRow(sls, shs, sols, start, end, i) + ExpectedRows(sls, shs, sols, start, end, i + 1)
  }

  /** With unique keys the selection is exactly the expected rows: one row for each shipment
      line whose shipment and sales-order line exist and whose shipment is in the window,
      in shipment-line order, and nothing else. */
  lemma {:induction false} SelectionWithUniqueKeys(sls: seq<ShipmentLine>, shs: seq<Shipment>, sols: seq<SalesOrderLine>,
                                                   start: int, end: int, i: nat)
    requires i <= |sls|
    requires UniqueShipIds(shs) && UniqueSoLineIds(sols)
    ensures SelectedFrom(sls, shs, sols, start, end, i) == ExpectedRows(sls, shs, sols, start, end, i)
    decreases |sls| - i
  {
    if i < |sls| {
      LineRowsWithUniqueKeys(sls, shs, sols, start, end, i);
      SelectionWithUniqueKeys(sls, shs, sols, start, end, i + 1);
    }
  }

  /** What one shipment line is expected to bring in: qtyShipped × the price of its
      sales-order line when its shipment lies in the window, nothing when the shipment is
      outside it or either the shipment or the sales-order line is missing. */
  function LineRevenue(sls: seq<ShipmentLine>, shs: seq<Shipment>, sols: seq<SalesOrderLine>, start: int, end: int, i: nat): real
    requires i < |sls|
  {
    match Matched(sls, shs, sols, start, end, i)
    case None => 0.0
    case Some(id) => sls[i].qtyShipped as real * sols[id.orderLine].unitPrice
  }

  lemma LineRowRevenue(sls: seq<ShipmentLine>, shs: seq<Shipment>, sols: seq<SalesOrderLine>, start: int, end: int, i: nat)
    requires i < |sls|
    ensures Revenue(LineRow(sls, shs, sols, start, end, i)) == LineRevenue(sls, shs, sols, start, end, i)
  {
    var r := LineRow(sls, shs, sols, start, end, i);
    if r != [] {
      assert r[1..] == [];
    }
  }

  /** Expected revenue, line by line, from shipment line `i` on. */
  function ExpectedRevenue(sls: seq<ShipmentLine>, shs: seq<Shipment>, sols: seq<SalesOrderLine>, start: int, end: int, i: nat): real
    requires i <= |sls|
    decreases |sls| - i
  {
    if i == |sls| then 0.0
    else LineRevenue(sls, shs, sols, start, end, i) + ExpectedRevenue(sls, shs, sols, start, end, i + 1)
  }

  /** With unique shipment and sales-order-line ids the revenue is the line-by-line expectation. */
  lemma RevenueWithUniqueKeys(sls: seq<ShipmentLine>, shs: seq<Shipment>, sols: seq<SalesOrderLine>, start: int, end: int)
    requires UniqueShipIds(shs) && UniqueSoLineIds(sols)
    ensures Revenue(SelectedFrom(sls, shs, sols, start, end, 0)) == ExpectedRevenue(sls, shs, sols, start, end, 0)
  {
    SelectionWithUniqueKeys(sls, shs, sols, start, end, 0);
    ExpectedRowsRevenue(sls, shs, sols, start, end, 0);
  }

  lemma {:induction false} ExpectedRowsRevenue(sls: seq<ShipmentLine>, shs: seq<Shipment>, sols: seq<SalesOrderLine>,
                                               start: int, end: int, i: nat)
    requires i <= |sls|
    ensures Revenue(ExpectedRows(sls, shs, sols, start, end, i)) == ExpectedRevenue(sls, shs, sols, start, end, i)
    decreases |sls| - i
  {
    if i < |sls| {
      RevenueAppend(LineRow(sls, shs, sols, start, end, i), ExpectedRows(sls, shs, sols, start, end, i + 1));
      LineRowRevenue(sls, shs, sols, start, end, i);
      ExpectedRowsRevenue(sls, shs, sols, start, end, i + 1);
    }
  }

  /** `c` is what shipment line `i` is expected to be costed at, a unit: an attributed cost
      of the item of its sales-order line as of its ship date, and 0 when it joins no row. */
  ghost predicate IsLineCost(db: Db, start: int, end: int, i: nat, c: real)
    requires i < |db.shipmentLines|
  {
    match Matched(db.shipmentLines, db.shipments, db.salesOrderLines, start, end, i)
    case None => c == 0.0
    case Some(id) =>
      IsAttributedCost(Candidates(db.purchaseOrderLines, db.purchaseOrders,
                                  db.salesOrderLines[id.orderLine].itemId, db.shipments[id.shipment].shipDate), c)
  }

  /** Unit costs for the shipment lines from `i` on, the first for line `i`, each as expected. */
  ghost predicate IsLineCosting(db: Db, start: int, end: int, costs: seq<real>, i: nat)
  {
    |costs| == |db.shipmentLines| - i && forall m :: 0 <= m < |costs| ==> IsLineCost(db, start, end, i + m, costs[m])
  }

  /** Σ qtyShipped × unit cost over the shipment lines from `i` on, `costs[0]` for line `i`. */
  function LinesCost(sls: seq<ShipmentLine>, costs: seq<real>, i: nat): real
    requires i <= |sls| && |costs| == |sls| - i
    decreases |sls| - i
  {
    if i == |sls| then 0.0 else sls[i].qtyShipped as real * costs[0] + LinesCost(sls, costs[1..], i + 1)
  }

  /** The unit costs the engine's answers give the shipment lines from `i` on, when the rows
      are the lines' expected rows: the next answer for a line with a row, 0 for one without. */
  function UnitCosts(sls: seq<ShipmentLine>, shs: seq<Shipment>, sols: seq<SalesOrderLine>, start: int, end: int,
                     top1: seq<Option<real>>, i: nat): (costs: seq<real>)
    requires i <= |sls| && |top1| == |ExpectedRows(sls, shs, sols, start, end, i)|
    ensures |costs| == |sls| - i
    decreases |sls| - i
  {
    if i == |sls| then []
    else
      var n := |LineRow(sls, shs, sols, start, end, i)|;
      [if n == 0 then 0.0 else AttributedCost(top1[0])] + UnitCosts(sls, shs, sols, start, end, top1[n..], i + 1)
  }

  lemma AdmissibleSplit(db: Db, a: seq<Row>, b: seq<Row>, top1: seq<Option<real>>)
    requires Admissible(db, a + b, top1)
    ensures Admissible(db, a, top1[..|a|]) && Admissible(db, b, top1[|a|..])
  {
    forall k | 0 <= k < |b| ensures IsTop1(CandidatesFor(db, b[k]), top1[|a|..][k]) {
      assert (a + b)[|a| + k] == b[k];
    }
    forall k | 0 <= k < |a| ensures IsTop1(CandidatesFor(db, a[k]), top1[..|a|][k]) {
      assert (a + b)[k] == a[k];
    }
  }

  /** With unique shipment and sales-order-line ids, whatever the engine answers, the cost is
      the line-by-line sum of qtyShipped × an attributed cost of each shipment line's item as
      of its ship date, each line in the window counted once. */
  lemma CostWithUniqueKeys(db: Db, start: int, end: int, top1: seq<Option<real>>)
    requires UniqueShipIds(db.shipments) && UniqueSoLineIds(db.salesOrderLines)
    requires Admissible(db, Selected(db, start, end), top1)
    ensures exists costs :: IsLineCosting(db, start, end, costs, 0)
                         && Cost(Selected(db, start, end), top1) == LinesCost(db.shipmentLines, costs, 0)
  {
    SelectionWithUniqueKeys(db.shipmentLines, db.shipments, db.salesOrderLines, start, end, 0);
    var costs := UnitCosts(db.shipmentLines, db.shipments, db.salesOrderLines, start, end, top1, 0);
    ExpectedRowsCost(db.shipmentLines, db.shipments, db.salesOrderLines, start, end, top1, 0);
    UnitCostsAttributed(db, start, end, top1, 0);
  }

  /** Costing the expected rows is costing the lines at the unit costs the answers give them. */
  lemma {:induction false} ExpectedRowsCost(sls: seq<ShipmentLine>, shs: seq<Shipment>, sols: seq<SalesOrderLine>,
                                            start: int, end: int, top1: seq<Option<real>>, i: nat)
    requires i <= |sls| && |top1| == |ExpectedRows(sls, shs, sols, start, end, i)|
    ensures Cost(ExpectedRows(sls, shs, sols, start, end, i), top1)
         == LinesCost(sls, UnitCosts(sls, shs, sols, start, end, top1, i), i)
    decreases |sls| - i
  {
    if i < |sls| {
      var head := LineRow(sls, shs, sols, start, end, i);
      var tail := ExpectedRows(sls, shs, sols, start, end, i + 1);
      var n := |head|;
      CostAppend(head, tail, top1);
      ExpectedRowsCost(sls, shs, sols, start, end, top1[n..], i + 1);
      var costs := UnitCosts(sls, shs, sols, start, end, top1, i);
      assert costs[1..] == UnitCosts(sls, shs, sols, start, end, top1[n..], i + 1);
      if n != 0 {
        assert head[0] in head;
        assert head[1..] == [];
        assert top1[..n][1..] == [];
        assert Cost(head, top1[..n]) == sls[i].qtyShipped as real * costs[0];
      }
    }
  }

  /** Under admissible answers every line's unit cost is as expected. */
  lemma {:induction false} UnitCostsAttributed(db: Db, start: int, end: int, top1: seq<Option<real>>, i: nat)
    requires i <= |db.shipmentLines|
    requires Admissible(db, ExpectedRows(db.shipmentLines, db.shipments, db.salesOrderLines, start, end, i), top1)
    ensures IsLineCosting(db, start, end, UnitCosts(db.shipmentLines, db.shipments, db.salesOrderLines, start, end, top1, i), i)
    decreases |db.shipmentLines| - i
  {
    var sls, shs, sols := db.shipmentLines, db.shipments, db.salesOrderLines;
    if i < |sls| {
      var head := LineRow(sls, shs, sols, start, end, i);
      var tail := ExpectedRows(sls, shs, sols, start, end, i + 1);
      var n := |head|;
      assert Admissible(db, head, top1[..n]) && Admissible(db, tail, top1[n..]) by {
        AdmissibleSplit(db, head, tail, top1);
      }
      UnitCostsAttributed(db, start, end, top1[n..], i + 1);
      UnitCostsStep(db, start, end, top1, i);
    }
  }

  /** Line `i`'s expected unit cost in front of the lines after it. */
  lemma UnitCostsStep(db: Db, start: int, end: int, top1: seq<Option<real>>, i: nat)
    requires i < |db.shipmentLines|
    requires |top1| == |ExpectedRows(db.shipmentLines, db.shipments, db.salesOrderLines, start, end, i)|
    requires var n := |LineRow(db.shipmentLines, db.shipments, db.salesOrderLines, start, end, i)|;
      && Admissible(db, LineRow(db.shipmentLines, db.shipments, db.salesOrderLines, start, end, i), top1[..n])
      && IsLineCosting(db, start, end, UnitCosts(db.shipmentLines, db.shipments, db.salesOrderLines, start, end, top1[n..], i + 1), i + 1)
    ensures IsLineCosting(db, start, end, UnitCosts(db.shipmentLines, db.shipments, db.salesOrderLines, start, end, top1, i), i)
  {
    var sls, shs, sols := db.shipmentLines, db.shipments, db.salesOrderLines;
    var head := LineRow(sls, shs, sols, start, end, i);
    var n := |head|;
    var rest := UnitCosts(sls, shs, sols, start, end, top1[n..], i + 1);
    var c := if n == 0 then 0.0 else AttributedCost(top1[0]);
    LineRowCost(db, start, end, top1[..n], i);
    LineCostingCons(db, start, end, c, rest, i);
    assert UnitCosts(sls, shs, sols, start, end, top1, i) == [c] + rest;
  }

  lemma LineCostingCons(db: Db, start: int, end: int, c: real, rest: seq<real>, i: nat)
    requires i < |db.shipmentLines|
    requires IsLineCost(db, start, end, i, c) && IsLineCosting(db, start, end, rest, i + 1)
    ensures IsLineCosting(db, start, end, [c] + rest, i)
  {
    var costs := [c] + rest;
    forall m | 0 <= m < |costs| ensures IsLineCost(db, start, end, i + m, costs[m]) {
      if m > 0 {
        assert costs[m] == rest[m - 1];
        assert i + m == (i + 1) + (m - 1);
      }
    }
  }

  /** The expected row of one shipment line, costed with an admissible answer, has an
      expected unit cost. */
  lemma LineRowCost(db: Db, start: int, end: int, top1: seq<Option<real>>, i: nat)
    requires i < |db.shipmentLines|
    requires Admissible(db, LineRow(db.shipmentLines, db.shipments, db.salesOrderLines, start, end, i), top1)
    ensures IsLineCost(db, start, end, i, if top1 == [] then 0.0 else AttributedCost(top1[0]))
  {
    var head := LineRow(db.shipmentLines, db.shipments, db.salesOrderLines, start, end, i);
    if head != [] {
      Top1Attributes(CandidatesFor(db, head[0]), top1[0]);
    }
  }
}
