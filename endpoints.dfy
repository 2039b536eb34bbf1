/** The two result mappings around database calls whose bodies are not part of this model:
    the stock lookup on the `vw_StockOnHand` view and the posting stored procedures. */
module Endpoints {
  import opened Sql

  // ----- GET /api/items/{id}/stock -----

  /** A row of `vw_StockOnHand`; its `OnHand` column may be `NULL`. */
  datatype StockRow = StockRow(itemId: int, onHand: Option<int>)

  /** The handler's outcome: the response body, or the failure of `QuerySingleOrDefault`
      when the view yields more than one row for the item. */
  datatype StockResult = Stock(itemId: int, onHand: int) | MoreThanOneRow

  /** The positions of the view rows from `i` on that `WHERE ItemId = @id` keeps. */
  function MatchingRows(view: seq<StockRow>, id: int, i: nat): set<nat>
  {
    set j: nat | i <= j < |view| && view[j].itemId == id
  }

  /** The values `SELECT OnHand FROM vw_StockOnHand WHERE ItemId = @id` returns, over the view
      rows from `i` on: one value per matching row, the first one the first matching row's. */
  function OnHandRows(view: seq<StockRow>, id: int, i: nat): (r: seq<Option<int>>)
    requires i <= |view|
    ensures |r| == |MatchingRows(view, id, i)|
    ensures forall v :: v in r <==> StockRow(id, v) in view[i..]
    ensures forall j :: i <= j < |view| && view[j].itemId == id && (forall m :: i <= m < j ==> view[m].itemId != id) ==>
      r != [] && r[0] == view[j].onHand
    decreases |view| - i
  {
    MatchingRowsStep(view, id, i);
    if i == |view| then []
    else
      assert view[i..] == [view[i]] + view[i + 1..];
      (if view[i].itemId == id then [view[i].onHand] else []) + OnHandRows(view, id, i + 1)
  }

  /** The matching positions from `i` on: `i` itself when it matches, then those after it. */
  lemma MatchingRowsStep(view: seq<StockRow>, id: int, i: nat)
    requires i <= |view|
    ensures i == |view| ==> MatchingRows(view, id, i) == {}
    ensures i < |view| ==> |MatchingRows(view, id, i)| == |MatchingRows(view, id, i + 1)| + (if view[i].itemId == id then 1 else 0)
  {
    if i == |view| {
      assert MatchingRows(view, id, i) == {};
    } else if view[i].itemId == id {
      assert MatchingRows(view, id, i) == MatchingRows(view, id, i + 1) + {i};
    } else {
      assert MatchingRows(view, id, i) == MatchingRows(view, id, i + 1);
    }
  }

  /** `onHand ?? 0` over the single-or-default query result: no matching row reads as 0, one
      matching row gives its `OnHand` (0 when `NULL`), and more than one makes the query fail. */
  function GetStock(view: seq<StockRow>, id: int): (r: StockResult)
    ensures r == MoreThanOneRow <==> |MatchingRows(view, id, 0)| > 1
    ensures MatchingRows(view, id, 0) == {} ==> r == Stock(id, 0)
    ensures forall j :: 0 <= j < |view| && MatchingRows(view, id, 0) == {j} ==> r == Stock(id, Coalesce(view[j].onHand, 0))
  {
    var rows := OnHandRows(view, id, 0);
    if |rows| == 0 then Stock(id, 0)
    else if |rows| == 1 then Stock(id, Coalesce(rows[0], 0))
    else MoreThanOneRow
  }

  // ----- POST /api/receipts/{id}/post and POST /api/shipments/{id}/post -----

  /** A `SqlException` as the handlers see it. */
  datatype SqlError = SqlError(number: int, message: string)

  /** How a stored-procedure call ended: with its `RETURN` value, or by raising an error. */
  datatype ProcOutcome = Returned(returnValue: int) | Raised(error: SqlError)

  /** A response body of a posting endpoint. */
  datatype Body =
    | CodeBody(code: string, returnCode: int)   // { code, returnCode }
    | ErrorBody(code: string, message: string)  // { code, message }

  /** What a handler does: answer with an HTTP status and a body, or let the exception escape
      to the error middleware (not part of this model). */
  datatype HandlerResult = Respond(status: int, body: Body) | Escapes(error: SqlError)

  const StatusOk := 200
  const StatusBadRequest := 400

  /** The mapping both posting handlers apply to a return value. */
  function ReturnCodeResponse(failureCode: string, rv: int): (r: HandlerResult)
    ensures r.Respond?
    ensures r.body.CodeBody? && r.body.returnCode == rv
    ensures r.status == StatusOk <==> rv == 0
    ensures rv == 0 ==> r.body.code == "OK"
    ensures rv != 0 ==> r.status == StatusBadRequest && r.body.code == failureCode
  {
    if rv != 0 then Respond(StatusBadRequest, CodeBody(failureCode, rv))
    else Respond(StatusOk, CodeBody("OK", rv))
  }

  /** `usp_PostReceipt` outcome to response; a `SqlException` is not caught by this handler. */
  function PostReceipt(outcome: ProcOutcome): (r: HandlerResult)
    ensures outcome == Returned(0) <==> r == Respond(StatusOk, CodeBody("OK", 0))
    ensures outcome.Returned? && outcome.returnValue != 0 ==>
            r == Respond(StatusBadRequest, CodeBody("POST_RECEIPT_FAILED", outcome.returnValue))
    ensures outcome.Raised? ==> r == Escapes(outcome.error)
    ensures r.Escapes? <==> outcome.Raised?
  {
    match outcome
    case Returned(rv) => ReturnCodeResponse("POST_RECEIPT_FAILED", rv)
    case Raised(err) => Escapes(err)
  }

  /** `usp_PostShipment` outcome to response; a `SqlException` (a `RAISERROR` in the procedure)
      becomes a `SQL_ERROR` bad request carrying the error message. */
  function PostShipment(outcome: ProcOutcome): (r: HandlerResult)
    ensures r.Respond?
    ensures r.status == StatusOk <==> outcome == Returned(0)
    ensures outcome == Returned(0) ==> r.body == CodeBody("OK", 0)
    ensures outcome.Returned? && outcome.returnValue != 0 ==>
            r == Respond(StatusBadRequest, CodeBody("POST_SHIPMENT_FAILED", outcome.returnValue))
    ensures outcome.Raised? ==> r == Respond(StatusBadRequest, ErrorBody("SQL_ERROR", outcome.error.message))
  {
    match outcome
    case Returned(rv) => ReturnCodeResponse("POST_SHIPMENT_FAILED", rv)
    case Raised(err) => Respond(StatusBadRequest, ErrorBody("SQL_ERROR", err.message))
  }

  /** The return code a posting response reports, if it reports one. */
  function ReportedCode(r: HandlerResult): Option<int>
  {
    if r.Respond? && r.body.CodeBody? then Some(r.body.returnCode) else None
  }

  /** Both handlers report the procedure's return value unchanged and agree on success;
      they differ only in the failure code they name. */
  lemma PostingHandlersAgree(rv: int)
    ensures ReportedCode(PostReceipt(Returned(rv))) == Some(rv)
    ensures ReportedCode(PostShipment(Returned(rv))) == Some(rv)
    ensures PostReceipt(Returned(rv)).status == PostShipment(Returned(rv)).status
    ensures PostReceipt(Returned(rv)).body.code == "POST_RECEIPT_FAILED" <==>
            PostShipment(Returned(rv)).body.code == "POST_SHIPMENT_FAILED"
  {
  }
}
