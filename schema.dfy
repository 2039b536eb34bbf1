/** The tables the sales-KPI query reads. Dates are whole-day numbers (days since
    0001-01-01, the origin of .NET `DateTime`); money is an exact decimal, here `real`. */
module Schema {

  /** A row of `Shipments`. */
  datatype Shipment = Shipment(shipId: int, shipDate: int)

  /** A row of `ShipmentLines`: which shipment it belongs to and which sales-order line it fills. */
  datatype ShipmentLine = ShipmentLine(shipId: int, soLineId: int, qtyShipped: int)

  /** A row of `SalesOrderLines`. */
  datatype SalesOrderLine = SalesOrderLine(soLineId: int, itemId: int, unitPrice: real)

  /** A row of `PurchaseOrders`. */
  datatype PurchaseOrder = PurchaseOrder(poId: int, poDate: int)

  /** A row of `PurchaseOrderLines`. */
  datatype PurchaseOrderLine = PurchaseOrderLine(poId: int, itemId: int, unitCost: real)

  /** The database: one sequence of rows per table (row order carries no meaning). */
  datatype Db = Db(
    shipments: seq<Shipment>,
    shipmentLines: seq<ShipmentLine>,
    salesOrderLines: seq<SalesOrderLine>,
    purchaseOrders: seq<PurchaseOrder>,
    purchaseOrderLines: seq<PurchaseOrderLine>)
}
