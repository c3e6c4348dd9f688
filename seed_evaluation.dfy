/**
 * The two UPDATEs of `up` evaluated on the seeded rows. The subqueries are
 * evaluated two rows at a time, each step in a lemma of its own.
 */
module SeedEvaluation {
  import opened Base
  import opened Errors
  import opened MockData
  import opened SeedRows

  // ---------------------------------------------------------------------------
  // The seeded rows, evaluated two rows at a time

  lemma ShipmentGroups02()
    ensures Subquery(SeedShipmentItems[..2], SeedShipmentStatus, ShipmentFilter) == map[1 := 20, 2 := 10]
  {
    assert SeedShipmentItems[..1][..0] == [];
    assert Subquery(SeedShipmentItems[..1], SeedShipmentStatus, ShipmentFilter) == map[1 := 20];
    assert SeedShipmentItems[..2][..1] == SeedShipmentItems[..1];
  }

  lemma ShipmentGroups04()
    ensures Subquery(SeedShipmentItems[..4], SeedShipmentStatus, ShipmentFilter) == map[1 := 20, 2 := 10, 3 := 50, 4 := 100]
  {
    ShipmentGroups02();
    assert SeedShipmentItems[..4][..3] == SeedShipmentItems[..3];
    assert SeedShipmentItems[..3][..2] == SeedShipmentItems[..2];
  }

  lemma ShipmentGroups06()
    ensures Subquery(SeedShipmentItems[..6], SeedShipmentStatus, ShipmentFilter) == map[1 := 20, 2 := 10, 3 := 50, 4 := 100, 5 := 50, 6 := 60]
  {
    ShipmentGroups04();
    assert SeedShipmentItems[..6][..5] == SeedShipmentItems[..5];
    assert SeedShipmentItems[..5][..4] == SeedShipmentItems[..4];
  }

  lemma ShipmentGroups08()
    ensures Subquery(SeedShipmentItems[..8], SeedShipmentStatus, ShipmentFilter) == map[1 := 20, 2 := 10, 3 := 50, 4 := 100, 5 := 50, 6 := 60, 7 := 100, 8 := 100]
  {
    ShipmentGroups06();
    assert SeedShipmentItems[..8][..7] == SeedShipmentItems[..7];
    assert SeedShipmentItems[..7][..6] == SeedShipmentItems[..6];
  }

  lemma ShipmentGroups10()
    ensures Subquery(SeedShipmentItems[..10], SeedShipmentStatus, ShipmentFilter) == map[1 := 20, 2 := 10, 3 := 50, 4 := 100, 5 := 50, 6 := 60, 7 := 100, 8 := 100, 9 := 20, 10 := 150]
  {
    ShipmentGroups08();
    assert SeedShipmentItems[..10][..9] == SeedShipmentItems[..9];
    assert SeedShipmentItems[..9][..8] == SeedShipmentItems[..8];
  }

  lemma ShipmentGroups12()
    ensures Subquery(SeedShipmentItems[..12], SeedShipmentStatus, ShipmentFilter) == map[1 := 20, 2 := 10, 3 := 50, 4 := 100, 5 := 50, 6 := 60, 7 := 100, 8 := 100, 9 := 20, 10 := 150, 11 := 30, 12 := 100]
  {
    ShipmentGroups10();
    assert SeedShipmentItems[..12][..11] == SeedShipmentItems[..11];
    assert SeedShipmentItems[..11][..10] == SeedShipmentItems[..10];
  }

  lemma ShipmentGroups14()
    ensures Subquery(SeedShipmentItems[..14], SeedShipmentStatus, ShipmentFilter) == map[1 := 20, 2 := 10, 3 := 50, 4 := 100, 5 := 50, 6 := 60, 7 := 100, 8 := 100, 9 := 20, 10 := 150, 11 := 30, 12 := 100, 13 := 100]
  {
    ShipmentGroups12();
    assert SeedShipmentItems[..14][..13] == SeedShipmentItems[..13];
    assert SeedShipmentItems[..13][..12] == SeedShipmentItems[..12];
  }

  lemma ShipmentGroups16()
    ensures Subquery(SeedShipmentItems[..16], SeedShipmentStatus, ShipmentFilter) == map[1 := 20, 2 := 10, 3 := 50, 4 := 100, 5 := 50, 6 := 60, 7 := 100, 8 := 100, 9 := 20, 10 := 150, 11 := 30, 12 := 100, 13 := 100, 15 := 200, 16 := 100]
  {
    ShipmentGroups14();
    assert SeedShipmentItems[..16][..15] == SeedShipmentItems[..15];
    assert SeedShipmentItems[..15][..14] == SeedShipmentItems[..14];
  }

  lemma ShipmentGroups18()
    ensures Subquery(SeedShipmentItems[..18], SeedShipmentStatus, ShipmentFilter) == SeedShipmentGroups
  {
    ShipmentGroups16();
    assert SeedShipmentItems[..18][..17] == SeedShipmentItems[..17];
    assert SeedShipmentItems[..17][..16] == SeedShipmentItems[..16];
  }

  lemma OrderGroups02()
    ensures Subquery(SeedOrderItems[..2], SeedOrderStatus, OrderFilter) == map[1 := 1, 4 := 1]
  {
    assert SeedOrderItems[..1][..0] == [];
    assert Subquery(SeedOrderItems[..1], SeedOrderStatus, OrderFilter) == map[1 := 1];
    assert SeedOrderItems[..2][..1] == SeedOrderItems[..1];
  }

  lemma OrderGroups04()
    ensures Subquery(SeedOrderItems[..4], SeedOrderStatus, OrderFilter) == map[1 := 1, 2 := 1, 3 := 1, 4 := 1]
  {
    OrderGroups02();
    assert SeedOrderItems[..4][..3] == SeedOrderItems[..3];
    assert SeedOrderItems[..3][..2] == SeedOrderItems[..2];
  }

  lemma OrderGroups06()
    ensures Subquery(SeedOrderItems[..6], SeedOrderStatus, OrderFilter) == map[1 := 1, 2 := 1, 3 := 1, 4 := 1, 6 := 1, 7 := 5]
  {
    OrderGroups04();
    assert SeedOrderItems[..6][..5] == SeedOrderItems[..5];
    assert SeedOrderItems[..5][..4] == SeedOrderItems[..4];
  }

  lemma OrderGroups08()
    ensures Subquery(SeedOrderItems[..8], SeedOrderStatus, OrderFilter) == map[1 := 1, 2 := 1, 3 := 1, 4 := 1, 6 := 1, 7 := 5]
  {
    OrderGroups06();
    assert SeedOrderItems[..8][..7] == SeedOrderItems[..7];
    assert SeedOrderItems[..7][..6] == SeedOrderItems[..6];
  }

  lemma OrderGroups10()
    ensures Subquery(SeedOrderItems[..10], SeedOrderStatus, OrderFilter) == map[1 := 1, 2 := 1, 3 := 2, 4 := 1, 6 := 1, 7 := 5]
  {
    OrderGroups08();
    assert SeedOrderItems[..10][..9] == SeedOrderItems[..9];
    assert SeedOrderItems[..9][..8] == SeedOrderItems[..8];
  }

  lemma OrderGroups12()
    ensures Subquery(SeedOrderItems[..12], SeedOrderStatus, OrderFilter) == map[1 := 1, 2 := 1, 3 := 2, 4 := 1, 6 := 1, 7 := 5, 11 := 1]
  {
    OrderGroups10();
    assert SeedOrderItems[..12][..11] == SeedOrderItems[..11];
    assert SeedOrderItems[..11][..10] == SeedOrderItems[..10];
  }

  lemma OrderGroups14()
    ensures Subquery(SeedOrderItems[..14], SeedOrderStatus, OrderFilter) == map[1 := 1, 2 := 1, 3 := 2, 4 := 1, 6 := 1, 7 := 5, 11 := 1, 13 := 1, 16 := 2]
  {
    OrderGroups12();
    assert SeedOrderItems[..14][..13] == SeedOrderItems[..13];
    assert SeedOrderItems[..13][..12] == SeedOrderItems[..12];
  }

  lemma OrderGroups16()
    ensures Subquery(SeedOrderItems[..16], SeedOrderStatus, OrderFilter) == map[1 := 1, 2 := 1, 3 := 2, 4 := 1, 6 := 1, 7 := 5, 8 := 1, 9 := 1, 11 := 1, 13 := 1, 16 := 2]
  {
    OrderGroups14();
    assert SeedOrderItems[..16][..15] == SeedOrderItems[..15];
    assert SeedOrderItems[..15][..14] == SeedOrderItems[..14];
  }

  lemma OrderGroups18()
    ensures Subquery(SeedOrderItems[..18], SeedOrderStatus, OrderFilter) == SeedOrderGroups
  {
    OrderGroups16();
    assert SeedOrderItems[..18][..17] == SeedOrderItems[..17];
    assert SeedOrderItems[..17][..16] == SeedOrderItems[..16];
  }

  lemma SeedGroups()
    ensures Subquery(SeedShipmentItems, SeedShipmentStatus, ShipmentFilter) == SeedShipmentGroups
    ensures Subquery(SeedOrderItems, SeedOrderStatus, OrderFilter) == SeedOrderGroups
  {
    ShipmentGroups18();
    OrderGroups18();
    assert SeedShipmentItems[..18] == SeedShipmentItems;
    assert SeedOrderItems[..18] == SeedOrderItems;
  }

  lemma SeedShipmentUpdateRows1To4()
    ensures var stock := Updated(SeedStock, SeedShipmentGroups, Add); stock[0] == 70 && stock[1] == 40 && stock[2] == 150 && stock[3] == 300
  {
  }

  lemma SeedShipmentUpdateRows5To8()
    ensures var stock := Updated(SeedStock, SeedShipmentGroups, Add); stock[4] == 125 && stock[5] == 210 && stock[6] == 400 && stock[7] == 180
  {
  }

  lemma SeedShipmentUpdateRows9To12()
    ensures var stock := Updated(SeedStock, SeedShipmentGroups, Add); stock[8] == 45 && stock[9] == 270 && stock[10] == 70 && stock[11] == 190
  {
  }

  lemma SeedShipmentUpdateRows13To16()
    ensures var stock := Updated(SeedStock, SeedShipmentGroups, Add); stock[12] == 300 && stock[13] == 60 && stock[14] == 400 && stock[15] == 500
  {
  }

  /** The shipments UPDATE over the seeded stock. */
  lemma SeedShipmentUpdate()
    ensures Updated(SeedStock, SeedShipmentGroups, Add) == SeedStockAfterShipments
  {
    SeedShipmentUpdateRows1To4();
    SeedShipmentUpdateRows5To8();
    SeedShipmentUpdateRows9To12();
    SeedShipmentUpdateRows13To16();
  }

  lemma SeedOrderUpdateRows1To4()
    ensures var stock := Updated(SeedStockAfterShipments, SeedOrderGroups, Subtract); stock[0] == 69 && stock[1] == 39 && stock[2] == 148 && stock[3] == 299
  {
  }

  lemma SeedOrderUpdateRows5To8()
    ensures var stock := Updated(SeedStockAfterShipments, SeedOrderGroups, Subtract); stock[4] == 125 && stock[5] == 209 && stock[6] == 395 && stock[7] == 179
  {
  }

  lemma SeedOrderUpdateRows9To12()
    ensures var stock := Updated(SeedStockAfterShipments, SeedOrderGroups, Subtract); stock[8] == 44 && stock[9] == 270 && stock[10] == 69 && stock[11] == 190
  {
  }

  lemma SeedOrderUpdateRows13To16()
    ensures var stock := Updated(SeedStockAfterShipments, SeedOrderGroups, Subtract); stock[12] == 299 && stock[13] == 59 && stock[14] == 397 && stock[15] == 498
  {
  }

  /** The orders UPDATE over the stock the shipments UPDATE left. */
  lemma SeedOrderUpdate()
    ensures Updated(SeedStockAfterShipments, SeedOrderGroups, Subtract) == ReconciledSeedStock
  {
    SeedOrderUpdateRows1To4();
    SeedOrderUpdateRows5To8();
    SeedOrderUpdateRows9To12();
    SeedOrderUpdateRows13To16();
  }

  lemma StockAfterShipmentsFits()
    ensures forall i :: 0 <= i < |SeedStockAfterShipments| ==> 0 <= SeedStockAfterShipments[i] <= I32Max
  {
  }

  lemma ReconciledStockFits()
    ensures forall i :: 0 <= i < |ReconciledSeedStock| ==> 0 <= ReconciledSeedStock[i] <= I32Max
  {
  }

  /** Every value either UPDATE writes into the seeded stock column is a non-negative `INT`. */
  lemma SeedValuesFit()
    ensures FirstRowError(SeedStock, SeedShipmentGroups, Add, 0).None?
    ensures FirstRowError(SeedStockAfterShipments, SeedOrderGroups, Subtract, 0).None?
    ensures forall i :: 0 <= i < |ReconciledSeedStock| ==> 0 <= ReconciledSeedStock[i] <= I32Max
  {
    SeedShipmentUpdate();
    StockAfterShipmentsFits();
    FirstRowErrorMeaning(SeedStock, SeedShipmentGroups, Add, 0);
    SeedOrderUpdate();
    ReconciledStockFits();
    FirstRowErrorMeaning(SeedStockAfterShipments, SeedOrderGroups, Subtract, 0);
  }

  /**
   * On the seeded rows: product 1 ends at 50 + 20 - 1; product 5 gains its
   * shipment and loses nothing to its pending and cancelled orders; product 12
   * gains the 100 of an in-transit shipment; product 14 gains nothing from its
   * cancelled shipment. Both statements go through, and every product ends with
   * a stock the column accepts.
   */
  lemma SeedReconciliation()
    ensures Reconciled(SeedStock, SeedOrderStatus, SeedOrderItems, SeedShipmentStatus, SeedShipmentItems) == ReconciledSeedStock
    ensures FirstRowError(SeedStock, Subquery(SeedShipmentItems, SeedShipmentStatus, ShipmentFilter), Add, 0).None?
    ensures FirstRowError(Updated(SeedStock, Subquery(SeedShipmentItems, SeedShipmentStatus, ShipmentFilter), Add),
      Subquery(SeedOrderItems, SeedOrderStatus, OrderFilter), Subtract, 0).None?
    ensures forall i :: 0 <= i < |ReconciledSeedStock| ==> 0 <= ReconciledSeedStock[i] <= I32Max
  {
    SeedGroups();
    SeedShipmentUpdate();
    SeedOrderUpdate();
    SeedValuesFit();
  }

  /**
   * The two UPDATEs of `up`, run in place over the seeded stock column: both go
   * through and leave the reconciled stock.
   */
  method ReconcileSeedStock(stock: array<int>) returns (err: Option<DbErr>)
    requires stock[..] == SeedStock
    modifies stock
    ensures err.None?
    ensures stock[..] == ReconciledSeedStock
  {
    SeedReconciliation();
    err := ApplyTotals(stock, Subquery(SeedShipmentItems, SeedShipmentStatus, ShipmentFilter), Add);
    if err.Some? {
      return;
    }
    err := ApplyTotals(stock, Subquery(SeedOrderItems, SeedOrderStatus, OrderFilter), Subtract);
  }
}
