/**
 * Order processing: creating an order sells stock, line by line, inside one
 * transaction that is committed only when every line went through; updating an
 * order patches its header and may replace all of its item rows; deleting an
 * order drops it with its items. Neither update nor delete gives stock back.
 *
 * A transaction is modelled as working copies of the tables it writes: commit
 * assigns them to the database, an early `return Err` drops them.
 */
module OrderService {
  import opened Base
  import opened Errors
  import opened Schema
  import opened Store
  import opened LineItems
  import ProductService

  /** The request of `create`; each line carries the product, the quantity and the unit price. */
  datatype OrderCreate = OrderCreate(
    customerId: int,
    status: Option<string>,
    totalAmount: int,
    shippingAddress: string,
    items: seq<LineItem>)

  /** The request of `update`: every field is optional. */
  datatype OrderUpdate = OrderUpdate(
    status: Option<string>,
    totalAmount: Option<int>,
    shippingAddress: Option<string>,
    items: Option<seq<LineItem>>)

  const InsufficientStock: string := "Insufficient stock"

  // ---------------------------------------------------------------------------
  // Item rows

  /** The item row written for `line` in order `orderId`. */
  function ItemRow(orderId: int, line: LineItem): OrderItem {
    OrderItem(orderId, line.productId, line.quantity, line.unitAmount)
  }

  /** The item rows that inserting `lines` one after the other into order `orderId` produces. */
  function Rows(orderId: int, lines: seq<LineItem>): map<ItemKey, OrderItem>
    decreases |lines|
  {
    if lines == [] then map[]
    else
      var last := lines[|lines| - 1];
      Rows(orderId, lines[..|lines| - 1])[(orderId, last.productId) := ItemRow(orderId, last)]
  }

  /** Item table after the rows of `orderId` are deleted and `lines` inserted in their place. */
  function Replaced(items: map<ItemKey, OrderItem>, orderId: int, lines: seq<LineItem>): map<ItemKey, OrderItem> {
    WithoutOrder(items, orderId) + Rows(orderId, lines)
  }

  /** The rows of `lines` are keyed by the order and exactly the products the lines name. */
  lemma {:induction false} RowsKeys(orderId: int, lines: seq<LineItem>)
    ensures forall k :: k in Rows(orderId, lines) <==> k.0 == orderId && Mentions(lines, k.1)
    ensures forall k :: k in Rows(orderId, lines) ==> Rows(orderId, lines)[k].orderId == k.0 && Rows(orderId, lines)[k].productId == k.1
    decreases |lines|
  {
    if lines != [] {
      RowsKeys(orderId, lines[..|lines| - 1]);
      forall p ensures Mentions(lines, p) <==> Mentions(lines[..|lines| - 1], p) || lines[|lines| - 1].productId == p {
        MentionsInit(lines, p);
      }
    }
  }

  /** When the lines name different products, each line's row is exactly the row written for it. */
  lemma {:induction false} RowsOfDistinct(orderId: int, lines: seq<LineItem>, k: nat)
    requires Distinct(lines)
    requires k < |lines|
    ensures (orderId, lines[k].productId) in Rows(orderId, lines)
    ensures Rows(orderId, lines)[(orderId, lines[k].productId)] == ItemRow(orderId, lines[k])
    decreases |lines|
  {
    var n := |lines| - 1;
    if k < n {
      var init := lines[..n];
      assert Distinct(init) by {
        forall i, j | 0 <= i < j < |init| ensures init[i].productId != init[j].productId {
          assert init[i] == lines[i] && init[j] == lines[j];
        }
      }
      assert init[k] == lines[k];
      RowsOfDistinct(orderId, init, k);
    }
  }

  /** One more line inserted: one more row. */
  lemma RowsExtend(orderId: int, lines: seq<LineItem>, i: nat)
    requires i < |lines|
    ensures Rows(orderId, lines[..i + 1]) == Rows(orderId, lines[..i])[(orderId, lines[i].productId) := ItemRow(orderId, lines[i])]
  {
    assert lines[..i + 1][..i] == lines[..i];
  }

  /**
   * While the order's only rows are those of the earlier lines, the database's own
   * insert check on the item table says what `ItemInsertError` says.
   */
  lemma InsertCheckAgrees(base: map<ItemKey, OrderItem>, orderIds: set<int>, products: map<int, Product>, orderId: int, earlier: seq<LineItem>, line: LineItem)
    requires forall k :: k in base ==> k.0 != orderId
    requires orderId in orderIds
    ensures OrderItemInsertError(base + Rows(orderId, earlier), orderIds, products.Keys, ItemRow(orderId, line)) == ItemInsertError(products, earlier, line)
  {
    RowsKeys(orderId, earlier);
  }

  /**
   * Replacing the items of an order leaves it exactly one row per supplied line,
   * no other row of that order, and the rows of every other order as they were.
   */
  lemma ReplacedItems(products: map<int, Product>, items: map<ItemKey, OrderItem>, orderId: int, lines: seq<LineItem>)
    requires InsertsUpTo(products, lines, |lines|)
    ensures forall k :: 0 <= k < |lines| ==>
      (orderId, lines[k].productId) in Replaced(items, orderId, lines) &&
      Replaced(items, orderId, lines)[(orderId, lines[k].productId)] == ItemRow(orderId, lines[k])
    ensures forall key :: key in Replaced(items, orderId, lines) && key.0 == orderId ==> Mentions(lines, key.1)
    ensures forall key: ItemKey :: key.0 != orderId ==>
      (key in Replaced(items, orderId, lines) <==> key in items) &&
      (key in items ==> Replaced(items, orderId, lines)[key] == items[key])
  {
    RowsKeys(orderId, lines);
    InsertedLinesDistinct(products, lines);
    forall k | 0 <= k < |lines|
      ensures (orderId, lines[k].productId) in Replaced(items, orderId, lines)
      ensures Replaced(items, orderId, lines)[(orderId, lines[k].productId)] == ItemRow(orderId, lines[k])
    {
      RowsOfDistinct(orderId, lines, k);
    }
  }

  /** Replacing the rows of an existing order by lines that all insert keeps the item table valid. */
  lemma ReplacedValid(products: map<int, Product>, items: map<ItemKey, OrderItem>, orderIds: set<int>, orderId: int, lines: seq<LineItem>)
    requires OrderItemsValid(items, orderIds, products.Keys)
    requires orderId in orderIds
    requires InsertsUpTo(products, lines, |lines|)
    ensures OrderItemsValid(Replaced(items, orderId, lines), orderIds, products.Keys)
  {
    WithoutOrderKeepsItemsValid(items, orderIds, products.Keys, orderId);
    PostedItemsValid(products, WithoutOrder(items, orderId), orderIds, orderId, lines);
  }

  // ---------------------------------------------------------------------------
  // Selling stock

  /**
   * Why `create` stops at line `k`, if it does: the item insert fails, or the stock
   * of the product, as committed before the call, is smaller than the line's quantity.
   */
  function LineError(products: map<int, Product>, lines: seq<LineItem>, k: nat): Option<AppError>
    requires k < |lines|
  {
    match ItemInsertError(products, lines[..k], lines[k])
    case Some(e) => Some(Database(e))
    case None =>
      if products[lines[k].productId].stockQuantity - lines[k].quantity < 0
      then Some(Validation(InsufficientStock))
      else None
  }

  /** `create` gets past the first `n` lines. */
  predicate AcceptedUpTo(products: map<int, Product>, lines: seq<LineItem>, n: nat)
    requires n <= |lines|
  {
    forall k :: 0 <= k < n ==> LineError(products, lines, k).None?
  }

  /**
   * `after` is `before` with the stock of every product lowered by the quantity the
   * lines ask for, and nothing else changed.
   */
  ghost predicate DebitedBy(before: map<int, Product>, after: map<int, Product>, lines: seq<LineItem>) {
    && after.Keys == before.Keys
    && forall id :: id in before ==>
         && after[id].stockQuantity == before[id].stockQuantity - Quantity(lines, id)
         && after[id] == before[id].(stockQuantity := after[id].stockQuantity)
  }

  /** Lines `create` accepts all insert. */
  lemma AcceptedInserts(products: map<int, Product>, lines: seq<LineItem>)
    requires AcceptedUpTo(products, lines, |lines|)
    ensures InsertsUpTo(products, lines, |lines|)
  {
    forall k | 0 <= k < |lines| ensures ItemInsertError(products, lines[..k], lines[k]).None? {
      assert LineError(products, lines, k).None?;
    }
  }

  /**
   * After a successful `create`, a product some line names has lost exactly that
   * line's quantity and still holds a non-negative stock; a product no line names
   * is untouched.
   */
  lemma AcceptedOrderDebit(before: map<int, Product>, after: map<int, Product>, lines: seq<LineItem>)
    requires AcceptedUpTo(before, lines, |lines|)
    requires DebitedBy(before, after, lines)
    ensures forall k :: 0 <= k < |lines| ==>
      && lines[k].productId in after
      && after[lines[k].productId].stockQuantity == before[lines[k].productId].stockQuantity - lines[k].quantity
      && after[lines[k].productId].stockQuantity >= 0
    ensures forall id :: id in before && !Mentions(lines, id) ==> after[id] == before[id]
  {
    AcceptedInserts(before, lines);
    InsertedLinesDistinct(before, lines);
    forall k | 0 <= k < |lines|
      ensures lines[k].productId in after
      ensures after[lines[k].productId].stockQuantity == before[lines[k].productId].stockQuantity - lines[k].quantity
      ensures after[lines[k].productId].stockQuantity >= 0
    {
      assert LineError(before, lines, k).None?;
      QuantityOfDistinct(lines, k);
    }
    forall id | id in before && !Mentions(lines, id) ensures after[id] == before[id] {
      QuantityUnmentioned(lines, id);
    }
  }

  /**
   * A line asking for more than the product holds makes `create` fail, at that
   * line or before it. When every earlier line went through and this one inserts,
   * `create` answers "Insufficient stock".
   */
  lemma OverdrawnLineRejects(products: map<int, Product>, lines: seq<LineItem>, k: nat)
    requires k < |lines|
    requires lines[k].productId in products
    requires lines[k].quantity > products[lines[k].productId].stockQuantity
    ensures !AcceptedUpTo(products, lines, |lines|)
    ensures LineError(products, lines, k).Some?
    ensures AcceptedUpTo(products, lines, k) && ItemInsertError(products, lines[..k], lines[k]).None? ==>
      FirstLineError(products, lines, 0) == Some(Validation(InsufficientStock))
  {
    assert LineError(products, lines, k).Some?;
    if AcceptedUpTo(products, lines, k) && ItemInsertError(products, lines[..k], lines[k]).None? {
      FirstLineErrorSkips(products, lines, 0, k);
    }
  }

  /** Lines that all went through do not change where `create` stops. */
  lemma {:induction false} FirstLineErrorSkips(products: map<int, Product>, lines: seq<LineItem>, from: nat, k: nat)
    requires from <= k <= |lines|
    requires AcceptedUpTo(products, lines, k)
    ensures FirstLineError(products, lines, from) == FirstLineError(products, lines, k)
    decreases k - from
  {
    if from < k {
      assert LineError(products, lines, from).None?;
      FirstLineErrorSkips(products, lines, from + 1, k);
    }
  }

  /** Why the lines of `create` from `from` on stop, at the first line that does not go through; None when none stops them. */
  function FirstLineError(products: map<int, Product>, lines: seq<LineItem>, from: nat): Option<AppError>
    requires from <= |lines|
    decreases |lines| - from
  {
    if from == |lines| then None
    else if LineError(products, lines, from).Some? then LineError(products, lines, from)
    else FirstLineError(products, lines, from + 1)
  }

  /**
   * Once `create` is past the first `from` lines, it fails exactly when some later
   * line does not go through, and then with the error of the first such line.
   */
  lemma {:induction false} FirstLineErrorMeaning(products: map<int, Product>, lines: seq<LineItem>, from: nat)
    requires from <= |lines|
    requires AcceptedUpTo(products, lines, from)
    ensures FirstLineError(products, lines, from).None? <==> AcceptedUpTo(products, lines, |lines|)
    ensures FirstLineError(products, lines, from).Some? ==>
      exists k :: from <= k < |lines| && AcceptedUpTo(products, lines, k) && LineError(products, lines, k) == FirstLineError(products, lines, from)
    decreases |lines| - from
  {
    if from < |lines| && LineError(products, lines, from).None? {
      assert AcceptedUpTo(products, lines, from + 1);
      FirstLineErrorMeaning(products, lines, from + 1);
    }
  }

  /** What `create` answers for header `order` and `lines`: the header's insert error, else the first line's. */
  function CreateError(customers: set<int>, products: map<int, Product>, order: Order, lines: seq<LineItem>): Option<AppError> {
    match OrderRowError(customers, order)
    case Some(e) => Some(Database(e))
    case None => FirstLineError(products, lines, 0)
  }

  /** One line through `create`: its row is added and its product debited. */
  lemma LineStep(before: map<int, Product>, products: map<int, Product>, base: map<ItemKey, OrderItem>, items: map<ItemKey, OrderItem>,
                 orderId: int, lines: seq<LineItem>, i: nat)
    requires i < |lines|
    requires items == base + Rows(orderId, lines[..i])
    requires DebitedBy(before, products, lines[..i])
    requires AcceptedUpTo(before, lines, i)
    requires LineError(before, lines, i).None?
    ensures lines[i].productId in before
    ensures items[(orderId, lines[i].productId) := ItemRow(orderId, lines[i])] == base + Rows(orderId, lines[..i + 1])
    ensures DebitedBy(before, products[lines[i].productId := before[lines[i].productId].(stockQuantity := before[lines[i].productId].stockQuantity - lines[i].quantity)], lines[..i + 1])
    ensures AcceptedUpTo(before, lines, i + 1)
  {
    RowsExtend(orderId, lines, i);
    UnionUpdate(base, Rows(orderId, lines[..i]), (orderId, lines[i].productId), ItemRow(orderId, lines[i]));
    assert ItemInsertError(before, lines[..i], lines[i]).None?;
    assert lines[..i + 1][..i] == lines[..i];
    QuantityUnmentioned(lines[..i], lines[i].productId);
  }

  /** The stock `create` commits is still non-negative, so the product table stays valid. */
  lemma DebitKeepsProductsValid(before: map<int, Product>, after: map<int, Product>, categories: set<int>, suppliers: set<int>, nextId: int, lines: seq<LineItem>)
    requires ProductsValid(before, categories, suppliers, nextId)
    requires AcceptedUpTo(before, lines, |lines|)
    requires DebitedBy(before, after, lines)
    ensures ProductsValid(after, categories, suppliers, nextId)
  {
    AcceptedOrderDebit(before, after, lines);
    forall id | id in after ensures after[id].stockQuantity >= 0 {
      if Mentions(lines, id) {
        var k :| 0 <= k < |lines| && lines[k].productId == id;
      }
    }
  }

  /** The item rows `create` commits passed their CHECK clauses and point at the order and existing products. */
  lemma PostedItemsValid(products: map<int, Product>, base: map<ItemKey, OrderItem>, orderIds: set<int>, orderId: int, lines: seq<LineItem>)
    requires OrderItemsValid(base, orderIds, products.Keys)
    requires orderId in orderIds
    requires InsertsUpTo(products, lines, |lines|)
    ensures OrderItemsValid(base + Rows(orderId, lines), orderIds, products.Keys)
  {
    RowsKeys(orderId, lines);
    InsertedLinesDistinct(products, lines);
    forall key | key in Rows(orderId, lines)
      ensures OrderItemChecks(Rows(orderId, lines)[key]) && key.1 in products
    {
      var k :| 0 <= k < |lines| && lines[k].productId == key.1;
      assert ItemInsertError(products, lines[..k], lines[k]).None?;
      RowsOfDistinct(orderId, lines, k);
    }
  }

  // ---------------------------------------------------------------------------
  // Headers

  /** The header `create` inserts: the request's fields, `now` as the date, "pending" unless a status is given. */
  function NewOrder(orderId: int, dto: OrderCreate, now: int): (o: Order)
    ensures dto.status.None? ==> o.status == DefaultOrderStatus
    ensures dto.status.Some? ==> o.status == dto.status.value
    ensures o.orderId == orderId && o.customerId == dto.customerId && o.orderDate == now
    ensures o.totalAmount == dto.totalAmount && o.shippingAddress == dto.shippingAddress
  {
    Order(orderId, dto.customerId, now, dto.status.GetOr(DefaultOrderStatus), dto.totalAmount, dto.shippingAddress)
  }

  /** The header `update` writes: status, total and address are replaced when present. */
  function PatchOrder(o: Order, dto: OrderUpdate): Order {
    o.(status := dto.status.GetOr(o.status),
       totalAmount := dto.totalAmount.GetOr(o.totalAmount),
       shippingAddress := dto.shippingAddress.GetOr(o.shippingAddress))
  }

  /** A header patch never changes the id, the customer or the date, and keeps the fields it leaves out. */
  lemma PatchOrderKeepsIdentity(o: Order, dto: OrderUpdate)
    ensures PatchOrder(o, dto).orderId == o.orderId
    ensures PatchOrder(o, dto).customerId == o.customerId
    ensures PatchOrder(o, dto).orderDate == o.orderDate
    ensures dto.status.None? ==> PatchOrder(o, dto).status == o.status
    ensures dto.totalAmount.None? ==> PatchOrder(o, dto).totalAmount == o.totalAmount
    ensures dto.shippingAddress.None? ==> PatchOrder(o, dto).shippingAddress == o.shippingAddress
  {
  }

  /** Committing a new header with its item rows and the debited products keeps the schema's constraints. */
  lemma CommitKeepsValid(db: Database, order: Order, items: map<ItemKey, OrderItem>, products: map<int, Product>)
    requires db.Valid()
    requires order.orderId == db.orderSeq - 1 && order.orderId !in db.orders && OrderRowError(db.customers, order).None?
    requires products.Keys == db.products.Keys
    requires ProductsValid(products, db.categories, db.suppliers, db.productSeq)
    requires OrderItemsValid(items, db.orders.Keys + {order.orderId}, db.products.Keys)
    ensures ProductsValid(products, db.categories, db.suppliers, db.productSeq)
    ensures OrdersValid(db.orders[order.orderId := order], db.customers, db.orderSeq)
    ensures OrderItemsValid(items, db.orders[order.orderId := order].Keys, products.Keys)
    ensures ShipmentsValid(db.shipments, db.suppliers, db.shipmentSeq)
    ensures ShipmentItemsValid(db.shipmentItems, db.shipments.Keys, products.Keys)
  {
    assert db.orders[order.orderId := order].Keys == db.orders.Keys + {order.orderId};
  }

  // ---------------------------------------------------------------------------
  // Operations

  /** `find_by_id`: the stored header, or NotFound. */
  function FindById(db: Database, id: int): (r: Result<Order>)
    reads db
    requires db.Valid()
    ensures r.Ok? <==> id in db.orders
    ensures r.Ok? ==> r.value == db.orders[id] && r.value.orderId == id
    ensures r.Err? ==> r.error == NotFound
  {
    if id in db.orders then Ok(db.orders[id]) else Err(NotFound)
  }

  /** `find_with_details`: the header together with exactly the item rows of that order. */
  function FindWithDetails(db: Database, id: int): (r: Result<(Order, map<ItemKey, OrderItem>)>)
    reads db
    requires db.Valid()
    ensures r.Err? <==> id !in db.orders
    ensures r.Err? ==> r.error == NotFound
    ensures r.Ok? ==> r.value.0 == db.orders[id]
    ensures r.Ok? ==> forall k :: k in r.value.1 <==> k in db.orderItems && k.0 == id
    ensures r.Ok? ==> forall k :: k in r.value.1 ==> r.value.1[k] == db.orderItems[k] && r.value.1[k].orderId == id
  {
    match FindById(db, id)
    case Err(e) => Err(e)
    case Ok(order) => Ok((order, map k | k in db.orderItems && k.0 == id :: db.orderItems[k]))
  }

  /**
   * The loop of `create` over the request's lines, run against the transaction's
   * copies of the item and product tables once header `orderId` is in them. It
   * stops at the first line whose insert fails or whose product has too little
   * stock (as committed before the call); otherwise it yields the tables the
   * transaction holds after the last line.
   */
  method PostLines(db: Database, orderId: int, lines: seq<LineItem>)
    returns (failure: Option<AppError>, items: map<ItemKey, OrderItem>, products: map<int, Product>)
    requires db.Valid()
    requires orderId !in db.orders
    ensures failure == FirstLineError(db.products, lines, 0)
    ensures failure.None? ==>
      && items == db.orderItems + Rows(orderId, lines)
      && DebitedBy(db.products, products, lines)
      && ProductsValid(products, db.categories, db.suppliers, db.productSeq)
      && OrderItemsValid(items, db.orders.Keys + {orderId}, db.products.Keys)
  {
    var orderIds := db.orders.Keys + {orderId};
    items, products := db.orderItems, db.products;
    var i := 0;
    while i < |lines|
      invariant 0 <= i <= |lines|
      invariant items == db.orderItems + Rows(orderId, lines[..i])
      invariant DebitedBy(db.products, products, lines[..i])
      invariant AcceptedUpTo(db.products, lines, i)
      invariant FirstLineError(db.products, lines, i) == FirstLineError(db.products, lines, 0)
    {
      var line := lines[i];
      var insertError := OrderItemInsertError(items, orderIds, products.Keys, ItemRow(orderId, line));
      InsertCheckAgrees(db.orderItems, orderIds, db.products, orderId, lines[..i], line);
      if insertError.Some? {
        assert LineError(db.products, lines, i) == Some(Database(insertError.value));
        return Some(Database(insertError.value)), items, products;
      }
      // `find_by_id` reads the committed table, not the transaction's copy. The
      // primary key has just ruled out an earlier line for this product, so both
      // agree; the foreign key has just ruled out the NotFound outcome.
      var product := ProductService.FindById(db, line.productId).value;
      var newStock := product.stockQuantity - line.quantity;
      if newStock < 0 {
        assert LineError(db.products, lines, i) == Some(Validation(InsufficientStock));
        return Some(Validation(InsufficientStock)), items[(orderId, line.productId) := ItemRow(orderId, line)], products;
      }
      LineStep(db.products, products, db.orderItems, items, orderId, lines, i);
      items := items[(orderId, line.productId) := ItemRow(orderId, line)];
      products := products[line.productId := product.(stockQuantity := newStock)];
      i := i + 1;
    }
    assert lines[..i] == lines;
    FirstLineErrorMeaning(db.products, lines, 0);
    DebitKeepsProductsValid(db.products, products, db.categories, db.suppliers, db.productSeq, lines);
    AcceptedInserts(db.products, lines);
    PostedItemsValid(db.products, db.orderItems, orderIds, orderId, lines);
    failure := None;
  }

  /**
   * `create`. The header is inserted under the next id of the sequence (which is
   * consumed even when the transaction is dropped); each line then inserts its
   * row and takes its quantity off the product's stock. The call succeeds exactly
   * when the header and every line pass; it then commits the header, one row per
   * line and the lowered stock. Otherwise it reports the first failure and nothing
   * of the transaction persists.
   */
  method Create(db: Database, dto: OrderCreate, now: int) returns (r: Result<Order>)
    requires db.Valid()
    modifies db`orders, db`orderItems, db`products, db`orderSeq
    ensures db.Valid()
    ensures db.orderSeq == old(db.orderSeq) + 1
    ensures var order := NewOrder(old(db.orderSeq), dto, now);
      match CreateError(db.customers, old(db.products), order, dto.items)
      case Some(e) =>
        r == Err(e) && db.orders == old(db.orders) && db.orderItems == old(db.orderItems) && db.products == old(db.products)
      case None =>
        && r == Ok(order)
        && order.orderId !in old(db.orders)
        && db.orders == old(db.orders)[order.orderId := order]
        && db.orderItems == old(db.orderItems) + Rows(order.orderId, dto.items)
        && DebitedBy(old(db.products), db.products, dto.items)
  {
    // The SERIAL value is consumed by the header insert, whether or not the
    // transaction commits.
    var id := db.orderSeq;
    assert id !in db.orders;
    OrdersValidRaise(db.orders, db.customers, id + 1);
    db.orderSeq := id + 1;
    assert db.Valid();
    var order := NewOrder(id, dto, now);
    var headerError := OrderRowError(db.customers, order);
    if headerError.Some? {
      return Err(Database(headerError.value));
    }
    var failure, txnItems, txnProducts := PostLines(db, id, dto.items);
    if failure.Some? {
      return Err(failure.value);
    }
    CommitKeepsValid(db, order, txnItems, txnProducts);
    db.orders, db.orderItems, db.products := db.orders[id := order], txnItems, txnProducts;
    r := Ok(order);
  }

  /**
   * The item replacement of `update`, run in its own transaction: the rows of order
   * `orderId` are deleted, then one row per line is inserted. It stops at the first
   * insert that fails; otherwise it yields the item table to commit.
   */
  method ReplaceLines(db: Database, orderId: int, lines: seq<LineItem>)
    returns (failure: Option<DbErr>, items: map<ItemKey, OrderItem>)
    requires db.Valid()
    requires orderId in db.orders
    ensures failure == FirstInsertError(db.products, lines, 0)
    ensures failure.None? ==>
      items == Replaced(db.orderItems, orderId, lines) && OrderItemsValid(items, db.orders.Keys, db.products.Keys)
  {
    var remaining := WithoutOrder(db.orderItems, orderId);
    assert forall k :: k in remaining ==> k.0 != orderId;
    items := remaining;
    var i := 0;
    while i < |lines|
      invariant 0 <= i <= |lines|
      invariant items == remaining + Rows(orderId, lines[..i])
      invariant InsertsUpTo(db.products, lines, i)
      invariant FirstInsertError(db.products, lines, i) == FirstInsertError(db.products, lines, 0)
    {
      var line := lines[i];
      var insertError := OrderItemInsertError(items, db.orders.Keys, db.products.Keys, ItemRow(orderId, line));
      InsertCheckAgrees(remaining, db.orders.Keys, db.products, orderId, lines[..i], line);
      if insertError.Some? {
        return insertError, items;
      }
      RowsExtend(orderId, lines, i);
      UnionUpdate(remaining, Rows(orderId, lines[..i]), (orderId, line.productId), ItemRow(orderId, line));
      InsertsExtend(db.products, lines, i);
      items := items[(orderId, line.productId) := ItemRow(orderId, line)];
      i := i + 1;
    }
    assert lines[..i] == lines;
    FirstInsertErrorMeaning(db.products, lines, 0);
    ReplacedValid(db.products, db.orderItems, db.orders.Keys, orderId, lines);
    failure := None;
  }

  /**
   * `update`. NotFound for an absent id, before anything changes. With `items`,
   * the order's rows are replaced by the supplied lines in a transaction of their
   * own; if an insert fails, nothing changes. The patched header is written last,
   * so a header the database rejects leaves the replaced rows in place. Stock is
   * never touched.
   */
  method Update(db: Database, id: int, dto: OrderUpdate) returns (r: Result<Order>)
    requires db.Valid()
    modifies db`orders, db`orderItems
    ensures db.Valid()
    ensures db.products == old(db.products)
    ensures id !in old(db.orders) ==>
      r == Err(NotFound) && db.orders == old(db.orders) && db.orderItems == old(db.orderItems)
    ensures id in old(db.orders) && dto.items.Some? && FirstInsertError(db.products, dto.items.value, 0).Some? ==>
      && r == Err(Database(FirstInsertError(db.products, dto.items.value, 0).value))
      && db.orders == old(db.orders) && db.orderItems == old(db.orderItems)
    ensures id in old(db.orders) && (dto.items.Some? ==> FirstInsertError(db.products, dto.items.value, 0).None?) ==>
      && db.orderItems == (if dto.items.Some? then Replaced(old(db.orderItems), id, dto.items.value) else old(db.orderItems))
      && var patched := PatchOrder(old(db.orders)[id], dto);
         match OrderRowError(db.customers, patched)
         case Some(e) => r == Err(Database(e)) && db.orders == old(db.orders)
         case None => r == Ok(patched) && db.orders == old(db.orders)[id := patched]
  {
    var found := FindById(db, id);
    if found.Err? {
      return Err(found.error);
    }
    var patched := PatchOrder(found.value, dto);
    if dto.items.Some? {
      var failure, txnItems := ReplaceLines(db, id, dto.items.value);
      if failure.Some? {
        return Err(Database(failure.value));
      }
      db.orderItems := txnItems;
    }
    var headerError := OrderRowError(db.customers, patched);
    if headerError.Some? {
      return Err(Database(headerError.value));
    }
    db.orders := db.orders[id := patched];
    r := Ok(patched);
  }

  /** `delete`: NotFound for an absent id; otherwise the header goes and its rows cascade. Stock stays. */
  method Delete(db: Database, id: int) returns (r: Result<()>)
    requires db.Valid()
    modifies db`orders, db`orderItems
    ensures db.Valid()
    ensures db.products == old(db.products)
    ensures id !in old(db.orders) ==>
      r == Err(NotFound) && db.orders == old(db.orders) && db.orderItems == old(db.orderItems)
    ensures id in old(db.orders) ==>
      r == Ok(()) && db.orders == old(db.orders) - {id} && db.orderItems == WithoutOrder(old(db.orderItems), id)
  {
    var found := FindById(db, id);
    if found.Err? {
      return Err(found.error);
    }
    WithoutOrderKeepsItemsValid(db.orderItems, db.orders.Keys, db.products.Keys, id);
    db.orders, db.orderItems := db.orders - {id}, WithoutOrder(db.orderItems, id);
    r := Ok(());
  }
}
