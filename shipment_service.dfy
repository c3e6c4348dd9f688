/**
 * Inbound shipments: creating a shipment receives stock, line by line, inside one
 * transaction that is committed only when every line went through; updating a
 * shipment patches its header and may replace all of its item rows; deleting a
 * shipment drops it with its items. Neither update nor delete takes stock back.
 *
 * The new stock is the `i32` sum of the old stock and the line's quantity. A
 * release build wraps that sum around; the wrapped value is negative, so the
 * products CHECK clause refuses the write and the transaction is dropped.
 */
module ShipmentService {
  import opened Base
  import opened Errors
  import opened Schema
  import opened Store
  import opened LineItems
  import ProductService

  /** The request of `create`; each line carries the product, the quantity and the unit cost. */
  datatype ShipmentCreate = ShipmentCreate(
    supplierId: int,
    shipmentDate: int,
    expectedDeliveryDate: int,
    status: Option<string>,
    totalCost: int,
    items: seq<LineItem>)

  /** The request of `update`: every field is optional. */
  datatype ShipmentUpdate = ShipmentUpdate(
    status: Option<string>,
    expectedDeliveryDate: Option<int>,
    totalCost: Option<int>,
    items: Option<seq<LineItem>>)

  // ---------------------------------------------------------------------------
  // Item rows

  /** The item row written for `line` in shipment `shipmentId`. */
  function ItemRow(shipmentId: int, line: LineItem): ShipmentItem {
    ShipmentItem(shipmentId, line.productId, line.quantity, line.unitAmount)
  }

  /** The item rows that inserting `lines` one after the other into shipment `shipmentId` produces. */
  function Rows(shipmentId: int, lines: seq<LineItem>): map<ItemKey, ShipmentItem>
    decreases |lines|
  {
    if lines == [] then map[]
    else
      var last := lines[|lines| - 1];
      Rows(shipmentId, lines[..|lines| - 1])[(shipmentId, last.productId) := ItemRow(shipmentId, last)]
  }

  /** Item table after the rows of `shipmentId` are deleted and `lines` inserted in their place. */
  function Replaced(items: map<ItemKey, ShipmentItem>, shipmentId: int, lines: seq<LineItem>): map<ItemKey, ShipmentItem> {
    WithoutShipment(items, shipmentId) + Rows(shipmentId, lines)
  }

  /** The rows of `lines` are keyed by the shipment and exactly the products the lines name. */
  lemma {:induction false} RowsKeys(shipmentId: int, lines: seq<LineItem>)
    ensures forall k :: k in Rows(shipmentId, lines) <==> k.0 == shipmentId && Mentions(lines, k.1)
    ensures forall k :: k in Rows(shipmentId, lines) ==>
      Rows(shipmentId, lines)[k].shipmentId == k.0 && Rows(shipmentId, lines)[k].productId == k.1
    decreases |lines|
  {
    if lines != [] {
      RowsKeys(shipmentId, lines[..|lines| - 1]);
      forall p ensures Mentions(lines, p) <==> Mentions(lines[..|lines| - 1], p) || lines[|lines| - 1].productId == p {
        MentionsInit(lines, p);
      }
    }
  }

  /** When the lines name different products, each line's row is exactly the row written for it. */
  lemma {:induction false} RowsOfDistinct(shipmentId: int, lines: seq<LineItem>, k: nat)
    requires Distinct(lines)
    requires k < |lines|
    ensures (shipmentId, lines[k].productId) in Rows(shipmentId, lines)
    ensures Rows(shipmentId, lines)[(shipmentId, lines[k].productId)] == ItemRow(shipmentId, lines[k])
    decreases |lines|
  {
    var n := |lines| - 1;
    if k < n {
      var init := lines[..n];
      assert Distinct(init) by {
        forall i, j | 0 <= i < j < |init| ensures init[i].productId != init[j].productId {
          assert init[i] == lines[i] && init[j] == lines[j];
        }
      }
      assert init[k] == lines[k];
      RowsOfDistinct(shipmentId, init, k);
    }
  }

  /** One more line inserted: one more row. */
  lemma RowsExtend(shipmentId: int, lines: seq<LineItem>, i: nat)
    requires i < |lines|
    ensures Rows(shipmentId, lines[..i + 1]) == Rows(shipmentId, lines[..i])[(shipmentId, lines[i].productId) := ItemRow(shipmentId, lines[i])]
  {
    assert lines[..i + 1][..i] == lines[..i];
  }

  /**
   * While the shipment's only rows are those of the earlier lines, the database's
   * own insert check on the item table says what `ItemInsertError` says.
   */
  lemma InsertCheckAgrees(base: map<ItemKey, ShipmentItem>, shipmentIds: set<int>, products: map<int, Product>, shipmentId: int, earlier: seq<LineItem>, line: LineItem)
    requires forall k :: k in base ==> k.0 != shipmentId
    requires shipmentId in shipmentIds
    ensures ShipmentItemInsertError(base + Rows(shipmentId, earlier), shipmentIds, products.Keys, ItemRow(shipmentId, line)) == ItemInsertError(products, earlier, line)
  {
    RowsKeys(shipmentId, earlier);
  }

  /** The item rows of lines that all insert passed their CHECK clauses and point at the shipment and existing products. */
  lemma PostedItemsValid(products: map<int, Product>, base: map<ItemKey, ShipmentItem>, shipmentIds: set<int>, shipmentId: int, lines: seq<LineItem>)
    requires ShipmentItemsValid(base, shipmentIds, products.Keys)
    requires shipmentId in shipmentIds
    requires InsertsUpTo(products, lines, |lines|)
    ensures ShipmentItemsValid(base + Rows(shipmentId, lines), shipmentIds, products.Keys)
  {
    RowsKeys(shipmentId, lines);
    InsertedLinesDistinct(products, lines);
    forall key | key in Rows(shipmentId, lines)
      ensures ShipmentItemChecks(Rows(shipmentId, lines)[key]) && key.1 in products
    {
      var k :| 0 <= k < |lines| && lines[k].productId == key.1;
      assert ItemInsertError(products, lines[..k], lines[k]).None?;
      RowsOfDistinct(shipmentId, lines, k);
    }
  }

  /**
   * Replacing the items of a shipment leaves it exactly one row per supplied line,
   * no other row of that shipment, and the rows of every other shipment as they were.
   */
  lemma ReplacedItems(products: map<int, Product>, items: map<ItemKey, ShipmentItem>, shipmentId: int, lines: seq<LineItem>)
    requires InsertsUpTo(products, lines, |lines|)
    ensures forall k :: 0 <= k < |lines| ==>
      (shipmentId, lines[k].productId) in Replaced(items, shipmentId, lines) &&
      Replaced(items, shipmentId, lines)[(shipmentId, lines[k].productId)] == ItemRow(shipmentId, lines[k])
    ensures forall key :: key in Replaced(items, shipmentId, lines) && key.0 == shipmentId ==> Mentions(lines, key.1)
    ensures forall key: ItemKey :: key.0 != shipmentId ==>
      (key in Replaced(items, shipmentId, lines) <==> key in items) &&
      (key in items ==> Replaced(items, shipmentId, lines)[key] == items[key])
  {
    RowsKeys(shipmentId, lines);
    InsertedLinesDistinct(products, lines);
    forall k | 0 <= k < |lines|
      ensures (shipmentId, lines[k].productId) in Replaced(items, shipmentId, lines)
      ensures Replaced(items, shipmentId, lines)[(shipmentId, lines[k].productId)] == ItemRow(shipmentId, lines[k])
    {
      RowsOfDistinct(shipmentId, lines, k);
    }
  }

  /** Replacing the rows of an existing shipment by lines that all insert keeps the item table valid. */
  lemma ReplacedValid(products: map<int, Product>, items: map<ItemKey, ShipmentItem>, shipmentIds: set<int>, shipmentId: int, lines: seq<LineItem>)
    requires ShipmentItemsValid(items, shipmentIds, products.Keys)
    requires shipmentId in shipmentIds
    requires InsertsUpTo(products, lines, |lines|)
    ensures ShipmentItemsValid(Replaced(items, shipmentId, lines), shipmentIds, products.Keys)
  {
    WithoutShipmentKeepsItemsValid(items, shipmentIds, products.Keys, shipmentId);
    PostedItemsValid(products, WithoutShipment(items, shipmentId), shipmentIds, shipmentId, lines);
  }

  // ---------------------------------------------------------------------------
  // Receiving stock

  /** The stock a product holds after a line of `quantity` is received, as the `i32` addition computes it. */
  function Received(stock: i32, quantity: i32): i32 {
    WrappingAdd(stock, quantity)
  }

  /** A stock and a quantity the CHECK clauses admit: the received stock is refused exactly when the true sum leaves `i32`. */
  lemma ReceivedRefusedIffOverflow(stock: i32, quantity: i32)
    requires stock >= 0 && quantity > 0
    ensures Received(stock, quantity) < 0 <==> stock + quantity > I32Max
    ensures Received(stock, quantity) >= 0 ==> Received(stock, quantity) == stock + quantity
  {
  }

  /**
   * Why `create` stops at line `k`, if it does: the item insert fails, or the stock
   * written back for the product, as committed before the call, is negative and
   * fails the products CHECK clause.
   */
  function LineError(products: map<int, Product>, lines: seq<LineItem>, k: nat): Option<AppError>
    requires k < |lines|
  {
    match ItemInsertError(products, lines[..k], lines[k])
    case Some(e) => Some(Database(e))
    case None =>
      if Received(products[lines[k].productId].stockQuantity, lines[k].quantity) < 0
      then Some(Database(CheckViolation))
      else None
  }

  /** `create` gets past the first `n` lines. */
  predicate AcceptedUpTo(products: map<int, Product>, lines: seq<LineItem>, n: nat)
    requires n <= |lines|
  {
    forall k :: 0 <= k < n ==> LineError(products, lines, k).None?
  }

  /** Why the lines of `create` from `from` on stop, at the first line that does not go through; None when none stops them. */
  function FirstLineError(products: map<int, Product>, lines: seq<LineItem>, from: nat): Option<AppError>
    requires from <= |lines|
    decreases |lines| - from
  {
    if from == |lines| then None
    else if LineError(products, lines, from).Some? then LineError(products, lines, from)
    else FirstLineError(products, lines, from + 1)
  }

  /**
   * Once `create` is past the first `from` lines, it fails exactly when some later
   * line does not go through, and then with the error of the first such line.
   */
  lemma {:induction false} FirstLineErrorMeaning(products: map<int, Product>, lines: seq<LineItem>, from: nat)
    requires from <= |lines|
    requires AcceptedUpTo(products, lines, from)
    ensures FirstLineError(products, lines, from).None? <==> AcceptedUpTo(products, lines, |lines|)
    ensures FirstLineError(products, lines, from).Some? ==>
      exists k :: from <= k < |lines| && AcceptedUpTo(products, lines, k) && LineError(products, lines, k) == FirstLineError(products, lines, from)
    decreases |lines| - from
  {
    if from < |lines| && LineError(products, lines, from).None? {
      assert AcceptedUpTo(products, lines, from + 1);
      FirstLineErrorMeaning(products, lines, from + 1);
    }
  }

  /** What `create` answers for header `shipment` and `lines`: the header's insert error, else the first line's. */
  function CreateError(suppliers: set<int>, products: map<int, Product>, shipment: Shipment, lines: seq<LineItem>): Option<AppError> {
    match ShipmentRowError(suppliers, shipment)
    case Some(e) => Some(Database(e))
    case None => FirstLineError(products, lines, 0)
  }

  /**
   * `after` is `before` with the stock of every product raised by the quantity the
   * lines bring, and nothing else changed.
   */
  ghost predicate CreditedBy(before: map<int, Product>, after: map<int, Product>, lines: seq<LineItem>) {
    && after.Keys == before.Keys
    && forall id :: id in before ==>
         && after[id].stockQuantity == before[id].stockQuantity + Quantity(lines, id)
         && after[id] == before[id].(stockQuantity := after[id].stockQuantity)
  }

  /** Lines `create` accepts all insert. */
  lemma AcceptedInserts(products: map<int, Product>, lines: seq<LineItem>)
    requires AcceptedUpTo(products, lines, |lines|)
    ensures InsertsUpTo(products, lines, |lines|)
  {
    forall k | 0 <= k < |lines| ensures ItemInsertError(products, lines[..k], lines[k]).None? {
      assert LineError(products, lines, k).None?;
    }
  }

  /**
   * After a successful `create`, a product some line names has gained exactly that
   * line's quantity, so its stock went up; a product no line names is untouched.
   */
  lemma AcceptedShipmentCredit(before: map<int, Product>, after: map<int, Product>, lines: seq<LineItem>)
    requires AcceptedUpTo(before, lines, |lines|)
    requires CreditedBy(before, after, lines)
    ensures forall k :: 0 <= k < |lines| ==>
      && lines[k].productId in after
      && after[lines[k].productId].stockQuantity == before[lines[k].productId].stockQuantity + lines[k].quantity
      && after[lines[k].productId].stockQuantity > before[lines[k].productId].stockQuantity
    ensures forall id :: id in before && !Mentions(lines, id) ==> after[id] == before[id]
  {
    AcceptedInserts(before, lines);
    InsertedLinesDistinct(before, lines);
    forall k | 0 <= k < |lines|
      ensures lines[k].productId in after
      ensures after[lines[k].productId].stockQuantity == before[lines[k].productId].stockQuantity + lines[k].quantity
      ensures after[lines[k].productId].stockQuantity > before[lines[k].productId].stockQuantity
    {
      assert ItemInsertError(before, lines[..k], lines[k]).None?;
      QuantityOfDistinct(lines, k);
    }
    forall id | id in before && !Mentions(lines, id) ensures after[id] == before[id] {
      QuantityUnmentioned(lines, id);
    }
  }

  /**
   * A line whose quantity would carry its product's stock past the `i32` range makes
   * `create` fail, at that line or before it; at that line the error is the products
   * CHECK violation.
   */
  lemma OverflowingLineRejects(products: map<int, Product>, lines: seq<LineItem>, k: nat)
    requires k < |lines|
    requires ItemInsertError(products, lines[..k], lines[k]).None?
    requires products[lines[k].productId].stockQuantity >= 0
    requires products[lines[k].productId].stockQuantity + lines[k].quantity > I32Max
    ensures LineError(products, lines, k) == Some(Database(CheckViolation))
    ensures !AcceptedUpTo(products, lines, |lines|)
  {
    ReceivedRefusedIffOverflow(products[lines[k].productId].stockQuantity, lines[k].quantity);
  }

  /** One line through `create`: its row is added and its product credited. */
  lemma LineStep(before: map<int, Product>, products: map<int, Product>, base: map<ItemKey, ShipmentItem>, items: map<ItemKey, ShipmentItem>,
                 shipmentId: int, lines: seq<LineItem>, i: nat)
    requires i < |lines|
    requires items == base + Rows(shipmentId, lines[..i])
    requires CreditedBy(before, products, lines[..i])
    requires AcceptedUpTo(before, lines, i)
    requires LineError(before, lines, i).None?
    ensures lines[i].productId in before
    ensures Received(before[lines[i].productId].stockQuantity, lines[i].quantity) == before[lines[i].productId].stockQuantity + lines[i].quantity
    ensures items[(shipmentId, lines[i].productId) := ItemRow(shipmentId, lines[i])] == base + Rows(shipmentId, lines[..i + 1])
    ensures CreditedBy(before, products[lines[i].productId := before[lines[i].productId].(stockQuantity := Received(before[lines[i].productId].stockQuantity, lines[i].quantity))], lines[..i + 1])
    ensures AcceptedUpTo(before, lines, i + 1)
  {
    RowsExtend(shipmentId, lines, i);
    UnionUpdate(base, Rows(shipmentId, lines[..i]), (shipmentId, lines[i].productId), ItemRow(shipmentId, lines[i]));
    assert ItemInsertError(before, lines[..i], lines[i]).None?;
    assert lines[..i + 1][..i] == lines[..i];
    QuantityUnmentioned(lines[..i], lines[i].productId);
  }

  /** The stock `create` commits stays within the CHECK clause, so the product table stays valid. */
  lemma CreditKeepsProductsValid(before: map<int, Product>, after: map<int, Product>, categories: set<int>, suppliers: set<int>, nextId: int, lines: seq<LineItem>)
    requires ProductsValid(before, categories, suppliers, nextId)
    requires AcceptedUpTo(before, lines, |lines|)
    requires CreditedBy(before, after, lines)
    ensures ProductsValid(after, categories, suppliers, nextId)
  {
    AcceptedShipmentCredit(before, after, lines);
    forall id | id in after ensures after[id].stockQuantity >= 0 {
      if Mentions(lines, id) {
        var k :| 0 <= k < |lines| && lines[k].productId == id;
      }
    }
  }

  // ---------------------------------------------------------------------------
  // Headers

  /** The header `create` inserts: the request's fields, "in_transit" unless a status is given. */
  function NewShipment(shipmentId: int, dto: ShipmentCreate): (s: Shipment)
    ensures dto.status.None? ==> s.status == DefaultShipmentStatus
    ensures dto.status.Some? ==> s.status == dto.status.value
    ensures s.shipmentId == shipmentId && s.supplierId == dto.supplierId
    ensures s.shipmentDate == dto.shipmentDate && s.expectedDeliveryDate == dto.expectedDeliveryDate
    ensures s.totalCost == dto.totalCost
  {
    Shipment(shipmentId, dto.supplierId, dto.shipmentDate, dto.expectedDeliveryDate, dto.status.GetOr(DefaultShipmentStatus), dto.totalCost)
  }

  /** The header `update` writes: status, expected delivery date and total cost are replaced when present. */
  function PatchShipment(s: Shipment, dto: ShipmentUpdate): Shipment {
    s.(status := dto.status.GetOr(s.status),
       expectedDeliveryDate := dto.expectedDeliveryDate.GetOr(s.expectedDeliveryDate),
       totalCost := dto.totalCost.GetOr(s.totalCost))
  }

  /** A header patch never changes the id, the supplier or the shipment date, and keeps the fields it leaves out. */
  lemma PatchShipmentKeepsIdentity(s: Shipment, dto: ShipmentUpdate)
    ensures PatchShipment(s, dto).shipmentId == s.shipmentId
    ensures PatchShipment(s, dto).supplierId == s.supplierId
    ensures PatchShipment(s, dto).shipmentDate == s.shipmentDate
    ensures dto.status.None? ==> PatchShipment(s, dto).status == s.status
    ensures dto.expectedDeliveryDate.None? ==> PatchShipment(s, dto).expectedDeliveryDate == s.expectedDeliveryDate
    ensures dto.totalCost.None? ==> PatchShipment(s, dto).totalCost == s.totalCost
  {
  }

  /**
   * Moving the expected delivery date before the shipment date is refused by the
   * CHECK clause, whatever else the patch says, unless a status too long for its
   * column is refused first.
   */
  lemma EarlyDeliveryDateRefused(s: Shipment, dto: ShipmentUpdate, suppliers: set<int>)
    requires dto.expectedDeliveryDate.Some? && dto.expectedDeliveryDate.value < s.shipmentDate
    ensures ShipmentRowError(suppliers, PatchShipment(s, dto)) ==
      if !ShipmentFits(PatchShipment(s, dto)) then Some(ValueTooLong) else Some(CheckViolation)
  {
  }

  /** Committing a new header with its item rows and the credited products keeps the schema's constraints. */
  lemma CommitKeepsValid(db: Database, shipment: Shipment, items: map<ItemKey, ShipmentItem>, products: map<int, Product>)
    requires db.Valid()
    requires shipment.shipmentId == db.shipmentSeq - 1 && shipment.shipmentId !in db.shipments
    requires ShipmentRowError(db.suppliers, shipment).None?
    requires products.Keys == db.products.Keys
    requires ProductsValid(products, db.categories, db.suppliers, db.productSeq)
    requires ShipmentItemsValid(items, db.shipments.Keys + {shipment.shipmentId}, db.products.Keys)
    ensures ProductsValid(products, db.categories, db.suppliers, db.productSeq)
    ensures ShipmentsValid(db.shipments[shipment.shipmentId := shipment], db.suppliers, db.shipmentSeq)
    ensures ShipmentItemsValid(items, db.shipments[shipment.shipmentId := shipment].Keys, products.Keys)
    ensures OrdersValid(db.orders, db.customers, db.orderSeq)
    ensures OrderItemsValid(db.orderItems, db.orders.Keys, products.Keys)
  {
    assert db.shipments[shipment.shipmentId := shipment].Keys == db.shipments.Keys + {shipment.shipmentId};
  }

  // ---------------------------------------------------------------------------
  // Operations

  /** `find_by_id`: the stored header, or NotFound. */
  function FindById(db: Database, id: int): (r: Result<Shipment>)
    reads db
    requires db.Valid()
    ensures r.Ok? <==> id in db.shipments
    ensures r.Ok? ==> r.value == db.shipments[id] && r.value.shipmentId == id
    ensures r.Err? ==> r.error == NotFound
  {
    if id in db.shipments then Ok(db.shipments[id]) else Err(NotFound)
  }

  /** `find_with_details`: the header together with exactly the item rows of that shipment. */
  function FindWithDetails(db: Database, id: int): (r: Result<(Shipment, map<ItemKey, ShipmentItem>)>)
    reads db
    requires db.Valid()
    ensures r.Err? <==> id !in db.shipments
    ensures r.Err? ==> r.error == NotFound
    ensures r.Ok? ==> r.value.0 == db.shipments[id]
    ensures r.Ok? ==> forall k :: k in r.value.1 <==> k in db.shipmentItems && k.0 == id
    ensures r.Ok? ==> forall k :: k in r.value.1 ==> r.value.1[k] == db.shipmentItems[k] && r.value.1[k].shipmentId == id
  {
    match FindById(db, id)
    case Err(e) => Err(e)
    case Ok(shipment) => Ok((shipment, map k | k in db.shipmentItems && k.0 == id :: db.shipmentItems[k]))
  }

  /**
   * The loop of `create` over the request's lines, run against the transaction's
   * copies of the item and product tables once header `shipmentId` is in them. It
   * stops at the first line whose insert fails or whose stock update the database
   * refuses; otherwise it yields the tables the transaction holds after the last line.
   */
  method PostLines(db: Database, shipmentId: int, lines: seq<LineItem>)
    returns (failure: Option<AppError>, items: map<ItemKey, ShipmentItem>, products: map<int, Product>)
    requires db.Valid()
    requires shipmentId !in db.shipments
    ensures failure == FirstLineError(db.products, lines, 0)
    ensures failure.None? ==>
      && items == db.shipmentItems + Rows(shipmentId, lines)
      && CreditedBy(db.products, products, lines)
      && ProductsValid(products, db.categories, db.suppliers, db.productSeq)
      && ShipmentItemsValid(items, db.shipments.Keys + {shipmentId}, db.products.Keys)
  {
    var shipmentIds := db.shipments.Keys + {shipmentId};
    items, products := db.shipmentItems, db.products;
    var i := 0;
    while i < |lines|
      invariant 0 <= i <= |lines|
      invariant items == db.shipmentItems + Rows(shipmentId, lines[..i])
      invariant CreditedBy(db.products, products, lines[..i])
      invariant AcceptedUpTo(db.products, lines, i)
      invariant FirstLineError(db.products, lines, i) == FirstLineError(db.products, lines, 0)
    {
      var line := lines[i];
      var insertError := ShipmentItemInsertError(items, shipmentIds, products.Keys, ItemRow(shipmentId, line));
      InsertCheckAgrees(db.shipmentItems, shipmentIds, db.products, shipmentId, lines[..i], line);
      if insertError.Some? {
        assert LineError(db.products, lines, i) == Some(Database(insertError.value));
        return Some(Database(insertError.value)), items, products;
      }
      // As in the order service, `find_by_id` reads the committed table; the
      // primary key makes it agree with the transaction's copy, and the foreign
      // key rules out NotFound.
      var product := ProductService.FindById(db, line.productId).value;
      var newStock := Received(product.stockQuantity, line.quantity);
      if newStock < 0 {
        assert LineError(db.products, lines, i) == Some(Database(CheckViolation));
        return Some(Database(CheckViolation)), items[(shipmentId, line.productId) := ItemRow(shipmentId, line)], products;
      }
      LineStep(db.products, products, db.shipmentItems, items, shipmentId, lines, i);
      items := items[(shipmentId, line.productId) := ItemRow(shipmentId, line)];
      products := products[line.productId := product.(stockQuantity := newStock)];
      i := i + 1;
    }
    assert lines[..i] == lines;
    FirstLineErrorMeaning(db.products, lines, 0);
    CreditKeepsProductsValid(db.products, products, db.categories, db.suppliers, db.productSeq, lines);
    AcceptedInserts(db.products, lines);
    PostedItemsValid(db.products, db.shipmentItems, shipmentIds, shipmentId, lines);
    failure := None;
  }

  /**
   * `create`. The header is inserted under the next id of the sequence (which is
   * consumed even when the transaction is dropped); each line then inserts its
   * row and adds its quantity to the product's stock. The call succeeds exactly
   * when the header and every line pass; it then commits the header, one row per
   * line and the raised stock. Otherwise it reports the first failure and nothing
   * of the transaction persists.
   */
  method Create(db: Database, dto: ShipmentCreate) returns (r: Result<Shipment>)
    requires db.Valid()
    modifies db`shipments, db`shipmentItems, db`products, db`shipmentSeq
    ensures db.Valid()
    ensures db.shipmentSeq == old(db.shipmentSeq) + 1
    ensures var shipment := NewShipment(old(db.shipmentSeq), dto);
      match CreateError(db.suppliers, old(db.products), shipment, dto.items)
      case Some(e) =>
        r == Err(e) && db.shipments == old(db.shipments) && db.shipmentItems == old(db.shipmentItems) && db.products == old(db.products)
      case None =>
        && r == Ok(shipment)
        && shipment.shipmentId !in old(db.shipments)
        && db.shipments == old(db.shipments)[shipment.shipmentId := shipment]
        && db.shipmentItems == old(db.shipmentItems) + Rows(shipment.shipmentId, dto.items)
        && CreditedBy(old(db.products), db.products, dto.items)
  {
    // The SERIAL value is consumed by the header insert, whether or not the
    // transaction commits.
    var id := db.shipmentSeq;
    assert id !in db.shipments;
    ShipmentsValidRaise(db.shipments, db.suppliers, id + 1);
    db.shipmentSeq := id + 1;
    assert db.Valid();
    var shipment := NewShipment(id, dto);
    var headerError := ShipmentRowError(db.suppliers, shipment);
    if headerError.Some? {
      return Err(Database(headerError.value));
    }
    var failure, txnItems, txnProducts := PostLines(db, id, dto.items);
    if failure.Some? {
      return Err(failure.value);
    }
    CommitKeepsValid(db, shipment, txnItems, txnProducts);
    db.shipments, db.shipmentItems, db.products := db.shipments[id := shipment], txnItems, txnProducts;
    r := Ok(shipment);
  }

  /**
   * The item replacement of `update`, run in its own transaction: the rows of
   * shipment `shipmentId` are deleted, then one row per line is inserted. It stops
   * at the first insert that fails; otherwise it yields the item table to commit.
   */
  method ReplaceLines(db: Database, shipmentId: int, lines: seq<LineItem>)
    returns (failure: Option<DbErr>, items: map<ItemKey, ShipmentItem>)
    requires db.Valid()
    requires shipmentId in db.shipments
    ensures failure == FirstInsertError(db.products, lines, 0)
    ensures failure.None? ==>
      items == Replaced(db.shipmentItems, shipmentId, lines) && ShipmentItemsValid(items, db.shipments.Keys, db.products.Keys)
  {
    var remaining := WithoutShipment(db.shipmentItems, shipmentId);
    assert forall k :: k in remaining ==> k.0 != shipmentId;
    items := remaining;
    var i := 0;
    while i < |lines|
      invariant 0 <= i <= |lines|
      invariant items == remaining + Rows(shipmentId, lines[..i])
      invariant InsertsUpTo(db.products, lines, i)
      invariant FirstInsertError(db.products, lines, i) == FirstInsertError(db.products, lines, 0)
    {
      var line := lines[i];
      var insertError := ShipmentItemInsertError(items, db.shipments.Keys, db.products.Keys, ItemRow(shipmentId, line));
      InsertCheckAgrees(remaining, db.shipments.Keys, db.products, shipmentId, lines[..i], line);
      if insertError.Some? {
        return insertError, items;
      }
      RowsExtend(shipmentId, lines, i);
      UnionUpdate(remaining, Rows(shipmentId, lines[..i]), (shipmentId, line.productId), ItemRow(shipmentId, line));
      InsertsExtend(db.products, lines, i);
      items := items[(shipmentId, line.productId) := ItemRow(shipmentId, line)];
      i := i + 1;
    }
    assert lines[..i] == lines;
    FirstInsertErrorMeaning(db.products, lines, 0);
    ReplacedValid(db.products, db.shipmentItems, db.shipments.Keys, shipmentId, lines);
    failure := None;
  }

  /**
   * `update`. NotFound for an absent id, before anything changes. With `items`,
   * the shipment's rows are replaced by the supplied lines in a transaction of their
   * own; if an insert fails, nothing changes. The patched header is written last,
   * so a header the database rejects leaves the replaced rows in place. Stock is
   * never touched.
   */
  method Update(db: Database, id: int, dto: ShipmentUpdate) returns (r: Result<Shipment>)
    requires db.Valid()
    modifies db`shipments, db`shipmentItems
    ensures db.Valid()
    ensures db.products == old(db.products)
    ensures id !in old(db.shipments) ==>
      r == Err(NotFound) && db.shipments == old(db.shipments) && db.shipmentItems == old(db.shipmentItems)
    ensures id in old(db.shipments) && dto.items.Some? && FirstInsertError(db.products, dto.items.value, 0).Some? ==>
      && r == Err(Database(FirstInsertError(db.products, dto.items.value, 0).value))
      && db.shipments == old(db.shipments) && db.shipmentItems == old(db.shipmentItems)
    ensures id in old(db.shipments) && (dto.items.Some? ==> FirstInsertError(db.products, dto.items.value, 0).None?) ==>
      && db.shipmentItems == (if dto.items.Some? then Replaced(old(db.shipmentItems), id, dto.items.value) else old(db.shipmentItems))
      && var patched := PatchShipment(old(db.shipments)[id], dto);
         match ShipmentRowError(db.suppliers, patched)
         case Some(e) => r == Err(Database(e)) && db.shipments == old(db.shipments)
         case None => r == Ok(patched) && db.shipments == old(db.shipments)[id := patched]
  {
    var found := FindById(db, id);
    if found.Err? {
      return Err(found.error);
    }
    var patched := PatchShipment(found.value, dto);
    if dto.items.Some? {
      var failure, txnItems := ReplaceLines(db, id, dto.items.value);
      if failure.Some? {
        return Err(Database(failure.value));
      }
      db.shipmentItems := txnItems;
    }
    var headerError := ShipmentRowError(db.suppliers, patched);
    if headerError.Some? {
      return Err(Database(headerError.value));
    }
    db.shipments := db.shipments[id := patched];
    r := Ok(patched);
  }

  /** `delete`: NotFound for an absent id; otherwise the header goes and its rows cascade. Stock stays. */
  method Delete(db: Database, id: int) returns (r: Result<()>)
    requires db.Valid()
    modifies db`shipments, db`shipmentItems
    ensures db.Valid()
    ensures db.products == old(db.products)
    ensures id !in old(db.shipments) ==>
      r == Err(NotFound) && db.shipments == old(db.shipments) && db.shipmentItems == old(db.shipmentItems)
    ensures id in old(db.shipments) ==>
      r == Ok(()) && db.shipments == old(db.shipments) - {id} && db.shipmentItems == WithoutShipment(old(db.shipmentItems), id)
  {
    var found := FindById(db, id);
    if found.Err? {
      return Err(found.error);
    }
    WithoutShipmentKeepsItemsValid(db.shipmentItems, db.shipments.Keys, db.products.Keys, id);
    db.shipments, db.shipmentItems := db.shipments - {id}, WithoutShipment(db.shipmentItems, id);
    r := Ok(());
  }
}
