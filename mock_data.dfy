/**
 * The second migration. `up` seeds every table and then reconciles the seeded
 * stock with the seeded documents in two UPDATE statements: products gain what
 * the shipments that were not cancelled brought in, then lose what the
 * confirmed, shipped and delivered orders took out. `down` empties the tables,
 * children before parents.
 *
 * The stock column of the products table is an array indexed by product id minus
 * one (the ids are SERIAL values handed out from 1). Each UPDATE runs over it in
 * place, row by row; a statement that fails for some row changes no row.
 */
module MockData {
  import opened Base
  import opened Errors
  import opened Schema

  /** A seeded item row: the order or shipment it belongs to, the product and the quantity. */
  datatype SeedItem = SeedItem(documentId: int, productId: int, quantity: int)

  /** The WHERE clause on the joined document's status. */
  datatype StatusFilter = StatusIn(statuses: set<string>) | StatusNotIn(excluded: set<string>)

  /** Whether an UPDATE adds its totals to the stock or subtracts them. */
  datatype Direction = Add | Subtract

  predicate Passes(filter: StatusFilter, status: string) {
    match filter
    case StatusIn(statuses) => status in statuses
    case StatusNotIn(excluded) => status !in excluded
  }

  /** Shipments that count towards stock: every one that is not cancelled. */
  const ShipmentFilter: StatusFilter := StatusNotIn({"cancelled"})
  /** Orders that count against stock: the confirmed, shipped and delivered ones. */
  const OrderFilter: StatusFilter := StatusIn({"delivered", "shipped", "confirmed"})

  // ---------------------------------------------------------------------------
  // The grouped subqueries

  /** The status of the document with SERIAL id `id`; None when there is no such row. */
  function StatusOf(statuses: seq<string>, id: int): Option<string> {
    if 1 <= id <= |statuses| then Some(statuses[id - 1]) else None
  }

  /** The item row survives the JOIN with its document and the WHERE clause. */
  predicate Counted(statuses: seq<string>, filter: StatusFilter, item: SeedItem) {
    StatusOf(statuses, item.documentId).Some? && Passes(filter, StatusOf(statuses, item.documentId).value)
  }

  /** The quantities of product `productId` over the rows that survive the JOIN and the WHERE clause, summed. */
  function Total(items: seq<SeedItem>, statuses: seq<string>, filter: StatusFilter, productId: int): int
    decreases |items|
  {
    if items == [] then 0
    else
      var last := items[|items| - 1];
      Total(items[..|items| - 1], statuses, filter, productId)
      + (if last.productId == productId && Counted(statuses, filter, last) then last.quantity else 0)
  }

  /** Some row of product `productId` survives the JOIN and the WHERE clause. */
  predicate Grouped(items: seq<SeedItem>, statuses: seq<string>, filter: StatusFilter, productId: int) {
    exists k :: 0 <= k < |items| && items[k].productId == productId && Counted(statuses, filter, items[k])
  }

  /**
   * The subquery `SELECT product_id, SUM(quantity) ... GROUP BY product_id`,
   * accumulated row by row: one entry per product with a surviving row.
   */
  function Subquery(items: seq<SeedItem>, statuses: seq<string>, filter: StatusFilter): map<int, int>
    decreases |items|
  {
    if items == [] then map[]
    else
      var groups := Subquery(items[..|items| - 1], statuses, filter);
      var last := items[|items| - 1];
      if !Counted(statuses, filter, last) then groups
      else groups[last.productId := (if last.productId in groups then groups[last.productId] else 0) + last.quantity]
  }

  /** A product is grouped by all rows exactly when it is by all but the last row, or by the last. */
  lemma GroupedInit(items: seq<SeedItem>, statuses: seq<string>, filter: StatusFilter, productId: int)
    requires items != []
    ensures Grouped(items, statuses, filter, productId) <==>
      Grouped(items[..|items| - 1], statuses, filter, productId) ||
      (items[|items| - 1].productId == productId && Counted(statuses, filter, items[|items| - 1]))
  {
    var init := items[..|items| - 1];
    if Grouped(items, statuses, filter, productId) {
      var k :| 0 <= k < |items| && items[k].productId == productId && Counted(statuses, filter, items[k]);
      if k < |init| {
        assert init[k] == items[k];
      }
    }
    if Grouped(init, statuses, filter, productId) {
      var k :| 0 <= k < |init| && init[k].productId == productId && Counted(statuses, filter, init[k]);
      assert items[k] == init[k];
    }
  }

  /**
   * The subquery has a row for exactly the products with a surviving item row,
   * and that row carries their summed quantity; a product without one sums to zero.
   */
  lemma {:induction false} SubqueryTotals(items: seq<SeedItem>, statuses: seq<string>, filter: StatusFilter)
    ensures forall p :: p in Subquery(items, statuses, filter) <==> Grouped(items, statuses, filter, p)
    ensures forall p :: p in Subquery(items, statuses, filter) ==> Subquery(items, statuses, filter)[p] == Total(items, statuses, filter, p)
    ensures forall p :: !Grouped(items, statuses, filter, p) ==> Total(items, statuses, filter, p) == 0
    decreases |items|
  {
    if items != [] {
      SubqueryTotals(items[..|items| - 1], statuses, filter);
      forall p ensures Grouped(items, statuses, filter, p) <==>
        Grouped(items[..|items| - 1], statuses, filter, p) ||
        (items[|items| - 1].productId == p && Counted(statuses, filter, items[|items| - 1]))
      {
        GroupedInit(items, statuses, filter, p);
      }
    }
  }

  // ---------------------------------------------------------------------------
  // One UPDATE statement

  /** The stock the UPDATE computes for the row of product `productId`; rows the subquery has no entry for keep theirs. */
  function RowAfter(stock: int, productId: int, groups: map<int, int>, dir: Direction): int {
    if productId !in groups then stock
    else if dir == Add then stock + groups[productId]
    else stock - groups[productId]
  }

  /** The stock column after the UPDATE, when it goes through. */
  function Updated(stock: seq<int>, groups: map<int, int>, dir: Direction): (r: seq<int>)
    ensures |r| == |stock|
  {
    seq(|stock|, i requires 0 <= i < |stock| => RowAfter(stock[i], i + 1, groups, dir))
  }

  /** What writing `value` into the `INT` stock column fails with: a value outside `INT`, then the CHECK clause. */
  function StockWriteError(value: int): (r: Option<DbErr>)
    ensures r.None? <==> 0 <= value <= I32Max
    ensures r == Some(CheckViolation) ==> I32Min <= value < 0
  {
    if !(I32Min <= value <= I32Max) then Some(OutOfRange)
    else if value < 0 then Some(CheckViolation)
    else None
  }

  /**
   * What writing the row of product `productId` fails with. The join only
   * writes the rows the subquery has an entry for; any other row is left alone
   * and cannot fail.
   */
  function RowWriteError(stock: int, productId: int, groups: map<int, int>, dir: Direction): Option<DbErr> {
    if productId !in groups then None else StockWriteError(RowAfter(stock, productId, groups, dir))
  }

  /** The error of the first row, from `from` on, whose new value cannot be written; None when every row can. */
  function FirstRowError(stock: seq<int>, groups: map<int, int>, dir: Direction, from: nat): Option<DbErr>
    requires from <= |stock|
    decreases |stock| - from
  {
    if from == |stock| then None
    else if RowWriteError(stock[from], from + 1, groups, dir).Some? then RowWriteError(stock[from], from + 1, groups, dir)
    else FirstRowError(stock, groups, dir, from + 1)
  }

  /** An UPDATE goes through exactly when every row it joins receives a non-negative `INT`. */
  lemma {:induction false} FirstRowErrorMeaning(stock: seq<int>, groups: map<int, int>, dir: Direction, from: nat)
    requires from <= |stock|
    ensures FirstRowError(stock, groups, dir, from).None? <==>
      forall i :: from <= i < |stock| && i + 1 in groups ==> 0 <= Updated(stock, groups, dir)[i] <= I32Max
    decreases |stock| - from
  {
    if from < |stock| {
      FirstRowErrorMeaning(stock, groups, dir, from + 1);
      assert Updated(stock, groups, dir)[from] == RowAfter(stock[from], from + 1, groups, dir);
    }
  }

  /**
   * One UPDATE, in place, given the rows of its subquery. It first looks for a
   * joined row whose new value cannot be written; if there is one the statement
   * fails with that row's error and no row changes. Otherwise every row receives
   * its new value.
   */
  method ApplyTotals(stock: array<int>, groups: map<int, int>, dir: Direction) returns (err: Option<DbErr>)
    modifies stock
    ensures err == FirstRowError(old(stock[..]), groups, dir, 0)
    ensures err.Some? ==> stock[..] == old(stock[..])
    ensures err.None? ==> stock[..] == Updated(old(stock[..]), groups, dir)
  {
    ghost var target := Updated(stock[..], groups, dir);
    var i := 0;
    while i < stock.Length
      invariant 0 <= i <= stock.Length
      invariant FirstRowError(stock[..], groups, dir, i) == FirstRowError(stock[..], groups, dir, 0)
    {
      var rowError := RowWriteError(stock[i], i + 1, groups, dir);
      if rowError.Some? {
        return rowError;
      }
      i := i + 1;
    }
    i := 0;
    while i < stock.Length
      invariant 0 <= i <= stock.Length
      invariant stock[..i] == target[..i]
      invariant stock[i..] == old(stock[i..])
    {
      assert stock[i] == old(stock[i]);
      stock[i] := RowAfter(stock[i], i + 1, groups, dir);
      i := i + 1;
    }
    assert stock[..] == stock[..i];
    err := None;
  }

  // ---------------------------------------------------------------------------
  // The reconciliation

  /** The stock column after both UPDATEs, shipments first. */
  function Reconciled(stock: seq<int>, orderStatus: seq<string>, orderItems: seq<SeedItem>, shipmentStatus: seq<string>, shipmentItems: seq<SeedItem>): seq<int> {
    Updated(Updated(stock, Subquery(shipmentItems, shipmentStatus, ShipmentFilter), Add), Subquery(orderItems, orderStatus, OrderFilter), Subtract)
  }

  /**
   * Each product ends at its seeded stock plus the quantities of its lines in
   * shipments that were not cancelled, minus those of its lines in confirmed,
   * shipped or delivered orders; a product without such lines keeps its stock.
   */
  lemma ReconciledStock(stock: seq<int>, orderStatus: seq<string>, orderItems: seq<SeedItem>, shipmentStatus: seq<string>, shipmentItems: seq<SeedItem>)
    ensures |Reconciled(stock, orderStatus, orderItems, shipmentStatus, shipmentItems)| == |stock|
    ensures forall i :: 0 <= i < |stock| ==>
      Reconciled(stock, orderStatus, orderItems, shipmentStatus, shipmentItems)[i]
        == stock[i] + Total(shipmentItems, shipmentStatus, ShipmentFilter, i + 1) - Total(orderItems, orderStatus, OrderFilter, i + 1)
    ensures forall i :: 0 <= i < |stock| && !Grouped(shipmentItems, shipmentStatus, ShipmentFilter, i + 1) && !Grouped(orderItems, orderStatus, OrderFilter, i + 1) ==>
      Reconciled(stock, orderStatus, orderItems, shipmentStatus, shipmentItems)[i] == stock[i]
  {
    SubqueryTotals(shipmentItems, shipmentStatus, ShipmentFilter);
    SubqueryTotals(orderItems, orderStatus, OrderFilter);
  }

  // ---------------------------------------------------------------------------
  // down

  /** The tables `down` empties, in its order. */
  const DownOrder: seq<Table> := [ShipmentItems, OrderItems, Shipments, Orders, Products, Customers, Suppliers, Categories]

  /** `DELETE FROM` each table of `order` in turn; None as soon as one is refused. */
  function DeleteInOrder(order: seq<Table>, nonEmpty: set<Table>): Option<set<Table>>
    decreases |order|
  {
    if order == [] then Some(nonEmpty)
    else
      match DeleteAllRows(order[0], nonEmpty)
      case None => None
      case Some(rest) => DeleteInOrder(order[1..], rest)
  }
}
