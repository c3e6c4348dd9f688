/** The rows the second migration's `up` seeds, and the values its two UPDATEs compute from them. */
module SeedRows {
  import opened MockData

  // ---------------------------------------------------------------------------
  // The seeded rows

  /** Seeded stock of products 1 to 16. */
  const SeedStock: seq<int> := [50, 30, 100, 200, 75, 150, 300, 80, 25, 120, 40, 90, 150, 60, 200, 250]

  /** Seeded status of orders 1 to 10. */
  const SeedOrderStatus: seq<string> := [
    "delivered", "shipped", "confirmed", "pending", "delivered",
    "cancelled", "delivered", "shipped", "confirmed", "delivered"]

  const SeedOrderItems: seq<SeedItem> := [
    SeedItem(1, 1, 1), SeedItem(1, 4, 1), SeedItem(2, 2, 1), SeedItem(2, 3, 1), SeedItem(2, 6, 1),
    SeedItem(3, 7, 5), SeedItem(4, 5, 1), SeedItem(4, 10, 2), SeedItem(4, 12, 3), SeedItem(5, 3, 1),
    SeedItem(6, 5, 1), SeedItem(7, 11, 1), SeedItem(8, 16, 2), SeedItem(8, 13, 1), SeedItem(9, 9, 1),
    SeedItem(9, 8, 1), SeedItem(9, 15, 3), SeedItem(10, 14, 1)]

  /** Seeded status of shipments 1 to 10. */
  const SeedShipmentStatus: seq<string> := [
    "delivered", "delivered", "delivered", "delivered", "delivered",
    "in_transit", "in_transit", "cancelled", "delivered", "in_transit"]

  const SeedShipmentItems: seq<SeedItem> := [
    SeedItem(1, 1, 20), SeedItem(1, 2, 10), SeedItem(1, 3, 50), SeedItem(2, 4, 100), SeedItem(2, 5, 50),
    SeedItem(3, 6, 60), SeedItem(3, 7, 100), SeedItem(4, 8, 100), SeedItem(4, 9, 20), SeedItem(5, 10, 150),
    SeedItem(5, 11, 30), SeedItem(6, 12, 100), SeedItem(7, 13, 100), SeedItem(8, 14, 15), SeedItem(9, 15, 200),
    SeedItem(9, 16, 100), SeedItem(10, 16, 150), SeedItem(10, 13, 50)]

  // ---------------------------------------------------------------------------
  // What the UPDATEs compute from them

  /** The rows of the shipments subquery over the seeded rows: product 14's only shipment is cancelled. */
  const SeedShipmentGroups: map<int, int> := map[1 := 20, 2 := 10, 3 := 50, 4 := 100, 5 := 50, 6 := 60, 7 := 100, 8 := 100, 9 := 20, 10 := 150, 11 := 30, 12 := 100, 13 := 150, 15 := 200, 16 := 250]

  /** The rows of the orders subquery over the seeded rows: products 5, 10 and 12 are only in pending or cancelled orders. */
  const SeedOrderGroups: map<int, int> := map[1 := 1, 2 := 1, 3 := 2, 4 := 1, 6 := 1, 7 := 5, 8 := 1, 9 := 1, 11 := 1, 13 := 1, 14 := 1, 15 := 3, 16 := 2]

  /** The seeded stock after the shipments UPDATE. */
  const SeedStockAfterShipments: seq<int> := [70, 40, 150, 300, 125, 210, 400, 180, 45, 270, 70, 190, 300, 60, 400, 500]

  /** The stock the seeded products end with. */
  const ReconciledSeedStock: seq<int> := [69, 39, 148, 299, 125, 209, 395, 179, 44, 270, 69, 190, 299, 59, 397, 498]
}
