/**
 * The relational schema of the shop: one row type per table, the CHECK clauses as
 * row predicates, the PRIMARY KEY and FOREIGN KEY clauses as table predicates, and
 * what ON DELETE CASCADE / RESTRICT do when rows or whole tables are deleted.
 */
module Schema {
  import opened Base
  import opened Errors

  /** A row of `Products`. Prices are DECIMAL(10,2) amounts, kept as whole cents. */
  datatype Product = Product(
    productId: int,
    name: string,
    description: Option<string>,
    price: int,
    stockQuantity: i32,
    categoryId: int,
    supplierId: int)

  /** A row of `Orders`; `orderDate` is a timestamp, kept as an opaque number. */
  datatype Order = Order(
    orderId: int,
    customerId: int,
    orderDate: int,
    status: string,
    totalAmount: int,
    shippingAddress: string)

  /** A row of `OrderItems`; `unitPrice` is the price snapshot taken when the row was written. */
  datatype OrderItem = OrderItem(orderId: int, productId: int, quantity: i32, unitPrice: int)

  /** A row of `Shipments`; dates are day numbers. */
  datatype Shipment = Shipment(
    shipmentId: int,
    supplierId: int,
    shipmentDate: int,
    expectedDeliveryDate: int,
    status: string,
    totalCost: int)

  /** A row of `ShipmentItems`. */
  datatype ShipmentItem = ShipmentItem(shipmentId: int, productId: int, quantity: i32, unitCost: int)

  /** The composite primary key (document id, product id) of both item tables. */
  type ItemKey = (int, int)

  const DefaultOrderStatus: string := "pending"
  const DefaultShipmentStatus: string := "in_transit"
  const OrderStatuses: set<string> := {"pending", "confirmed", "shipped", "delivered", "cancelled"}
  const ShipmentStatuses: set<string> := {"in_transit", "delivered", "cancelled"}

  /** The VARCHAR(n) widths: `Products.name` is VARCHAR(200), both `status` columns VARCHAR(20). */
  const ProductNameWidth: nat := 200
  const StatusWidth: nat := 20

  // ---------------------------------------------------------------------------
  // VARCHAR(n) widths. PostgreSQL coerces a string to its column type before it
  // tests any constraint: characters past the n-th are dropped when they are all
  // spaces, and otherwise the value is refused as too long.

  /** `s` can be assigned to a VARCHAR(n) column: nothing but spaces lies past its n-th character. */
  predicate FitsVarchar(s: string, n: nat) {
    forall i :: n <= i < |s| ==> s[i] == ' '
  }

  /** The value a VARCHAR(n) column receives for `s`: its first n characters at most. */
  function ToVarchar(s: string, n: nat): (r: string)
    ensures |r| <= n && |r| <= |s| && r == s[..|r|]
    ensures |s| <= n ==> r == s
    ensures FitsVarchar(s, n) ==> forall i :: |r| <= i < |s| ==> s[i] == ' '
  {
    if |s| <= n then s else s[..n]
  }

  predicate ProductFits(p: Product) {
    FitsVarchar(p.name, ProductNameWidth)
  }

  predicate OrderFits(o: Order) {
    FitsVarchar(o.status, StatusWidth)
  }

  predicate ShipmentFits(s: Shipment) {
    FitsVarchar(s.status, StatusWidth)
  }

  /** The product row as stored: its name cut to VARCHAR(200). */
  function StoredProduct(p: Product): (r: Product)
    ensures |r.name| <= ProductNameWidth
    ensures r == p.(name := r.name) && |r.name| <= |p.name| && r.name == p.name[..|r.name|]
    ensures |p.name| <= ProductNameWidth ==> r == p
  {
    p.(name := ToVarchar(p.name, ProductNameWidth))
  }

  // ---------------------------------------------------------------------------
  // CHECK clauses, one predicate per table

  predicate ProductChecks(p: Product) {
    p.price >= 0 && p.stockQuantity >= 0
  }

  predicate OrderChecks(o: Order) {
    o.status in OrderStatuses && o.totalAmount >= 0
  }

  predicate OrderItemChecks(i: OrderItem) {
    i.quantity > 0 && i.unitPrice >= 0
  }

  predicate ShipmentChecks(s: Shipment) {
    s.expectedDeliveryDate >= s.shipmentDate && s.status in ShipmentStatuses && s.totalCost >= 0
  }

  predicate ShipmentItemChecks(i: ShipmentItem) {
    i.quantity > 0 && i.unitCost >= 0
  }

  // ---------------------------------------------------------------------------
  // Whole tables: keys agree with the rows' own ids, every row passes its CHECK
  // clauses, every foreign key points at an existing row, and every SERIAL id is
  // below the next value of its sequence.

  ghost predicate ProductsValid(products: map<int, Product>, categories: set<int>, suppliers: set<int>, nextId: int) {
    forall id :: id in products ==>
      && products[id].productId == id
      && id < nextId
      && |products[id].name| <= ProductNameWidth
      && ProductChecks(products[id])
      && products[id].categoryId in categories
      && products[id].supplierId in suppliers
  }

  ghost predicate OrdersValid(orders: map<int, Order>, customers: set<int>, nextId: int) {
    forall id :: id in orders ==>
      && orders[id].orderId == id
      && id < nextId
      && OrderChecks(orders[id])
      && orders[id].customerId in customers
  }

  ghost predicate OrderItemsValid(items: map<ItemKey, OrderItem>, orderIds: set<int>, productIds: set<int>) {
    forall k :: k in items ==>
      && items[k].orderId == k.0
      && items[k].productId == k.1
      && OrderItemChecks(items[k])
      && k.0 in orderIds
      && k.1 in productIds
  }

  ghost predicate ShipmentsValid(shipments: map<int, Shipment>, suppliers: set<int>, nextId: int) {
    forall id :: id in shipments ==>
      && shipments[id].shipmentId == id
      && id < nextId
      && ShipmentChecks(shipments[id])
      && shipments[id].supplierId in suppliers
  }

  ghost predicate ShipmentItemsValid(items: map<ItemKey, ShipmentItem>, shipmentIds: set<int>, productIds: set<int>) {
    forall k :: k in items ==>
      && items[k].shipmentId == k.0
      && items[k].productId == k.1
      && ShipmentItemChecks(items[k])
      && k.0 in shipmentIds
      && k.1 in productIds
  }

  // ---------------------------------------------------------------------------
  // What the database answers to a single-row write. PostgreSQL coerces the
  // strings to their VARCHAR(n) types first, then tests the CHECK clauses, then
  // the primary key, then the foreign keys.

  /** Writing product row `p` (insert or update). */
  function ProductRowError(categories: set<int>, suppliers: set<int>, p: Product): (r: Option<DbErr>)
    ensures r.None? <==> ProductFits(p) && ProductChecks(p) && p.categoryId in categories && p.supplierId in suppliers
    ensures r == Some(ValueTooLong) <==> !ProductFits(p)
    ensures r == Some(ForeignKeyViolation) ==> ProductFits(p) && ProductChecks(p)
  {
    if !ProductFits(p) then Some(ValueTooLong)
    else if !ProductChecks(p) then Some(CheckViolation)
    else if p.categoryId !in categories || p.supplierId !in suppliers then Some(ForeignKeyViolation)
    else None
  }

  /** Writing order header `o` (insert or update); its SERIAL id never clashes. */
  function OrderRowError(customers: set<int>, o: Order): (r: Option<DbErr>)
    ensures r.None? <==> OrderFits(o) && OrderChecks(o) && o.customerId in customers
    ensures r == Some(ValueTooLong) <==> !OrderFits(o)
    ensures r == Some(ForeignKeyViolation) ==> OrderFits(o) && OrderChecks(o)
  {
    if !OrderFits(o) then Some(ValueTooLong)
    else if !OrderChecks(o) then Some(CheckViolation)
    else if o.customerId !in customers then Some(ForeignKeyViolation)
    else None
  }

  /** Inserting `row` into `OrderItems`. */
  function OrderItemInsertError(items: map<ItemKey, OrderItem>, orderIds: set<int>, productIds: set<int>, row: OrderItem): (r: Option<DbErr>)
    ensures r.None? <==>
      OrderItemChecks(row) && (row.orderId, row.productId) !in items && row.orderId in orderIds && row.productId in productIds
    ensures r == Some(UniqueViolation) ==> OrderItemChecks(row)
    ensures r == Some(ForeignKeyViolation) ==> OrderItemChecks(row) && (row.orderId, row.productId) !in items
  {
    if !OrderItemChecks(row) then Some(CheckViolation)
    else if (row.orderId, row.productId) in items then Some(UniqueViolation)
    else if row.orderId !in orderIds || row.productId !in productIds then Some(ForeignKeyViolation)
    else None
  }

  /** Writing shipment header `s` (insert or update); its SERIAL id never clashes. */
  function ShipmentRowError(suppliers: set<int>, s: Shipment): (r: Option<DbErr>)
    ensures r.None? <==> ShipmentFits(s) && ShipmentChecks(s) && s.supplierId in suppliers
    ensures r == Some(ValueTooLong) <==> !ShipmentFits(s)
    ensures r == Some(ForeignKeyViolation) ==> ShipmentFits(s) && ShipmentChecks(s)
  {
    if !ShipmentFits(s) then Some(ValueTooLong)
    else if !ShipmentChecks(s) then Some(CheckViolation)
    else if s.supplierId !in suppliers then Some(ForeignKeyViolation)
    else None
  }

  /** Inserting `row` into `ShipmentItems`. */
  function ShipmentItemInsertError(items: map<ItemKey, ShipmentItem>, shipmentIds: set<int>, productIds: set<int>, row: ShipmentItem): (r: Option<DbErr>)
    ensures r.None? <==>
      ShipmentItemChecks(row) && (row.shipmentId, row.productId) !in items && row.shipmentId in shipmentIds && row.productId in productIds
    ensures r == Some(UniqueViolation) ==> ShipmentItemChecks(row)
    ensures r == Some(ForeignKeyViolation) ==> ShipmentItemChecks(row) && (row.shipmentId, row.productId) !in items
  {
    if !ShipmentItemChecks(row) then Some(CheckViolation)
    else if (row.shipmentId, row.productId) in items then Some(UniqueViolation)
    else if row.shipmentId !in shipmentIds || row.productId !in productIds then Some(ForeignKeyViolation)
    else None
  }

  /**
   * The CHECK on `status` gives the same answer for the value as sent and for
   * the value cut to VARCHAR(20): every admitted status is shorter than 20
   * characters, so a cut value is never one of them.
   */
  lemma StatusCheckSeesStoredValue(o: Order, s: Shipment)
    ensures OrderChecks(o.(status := ToVarchar(o.status, StatusWidth))) <==> OrderChecks(o)
    ensures ShipmentChecks(s.(status := ToVarchar(s.status, StatusWidth))) <==> ShipmentChecks(s)
  {
    if |o.status| > StatusWidth {
      assert o.status !in OrderStatuses;
      assert ToVarchar(o.status, StatusWidth) !in OrderStatuses;
    }
    if |s.status| > StatusWidth {
      assert s.status !in ShipmentStatuses;
      assert ToVarchar(s.status, StatusWidth) !in ShipmentStatuses;
    }
  }

  /** A status padded past 20 characters with spaces is cut, not refused as too long; the CHECK then refuses it. */
  lemma PaddedStatusRefusedByCheck(customers: set<int>, suppliers: set<int>, o: Order, s: Shipment)
    ensures FitsVarchar(o.status, StatusWidth) && |o.status| > StatusWidth ==> OrderRowError(customers, o) == Some(CheckViolation)
    ensures FitsVarchar(s.status, StatusWidth) && |s.status| > StatusWidth ==> ShipmentRowError(suppliers, s) == Some(CheckViolation)
  {
    if |o.status| > StatusWidth {
      assert o.status !in OrderStatuses;
    }
    if |s.status| > StatusWidth {
      assert s.status !in ShipmentStatuses;
    }
  }

  /**
   * A name padded past 200 characters with spaces is cut, not refused: the row
   * is written when it passes the other clauses, with the name's first 200
   * characters.
   */
  lemma PaddedNameStoredCut(categories: set<int>, suppliers: set<int>, p: Product)
    requires FitsVarchar(p.name, ProductNameWidth) && |p.name| > ProductNameWidth
    requires ProductChecks(p) && p.categoryId in categories && p.supplierId in suppliers
    ensures ProductRowError(categories, suppliers, p).None?
    ensures StoredProduct(p).name == p.name[..ProductNameWidth]
  {
  }

  /** Every stored order id is below the sequence's next value; a header takes the next value itself. */
  lemma OrdersValidRaise(orders: map<int, Order>, customers: set<int>, nextId: int)
    requires OrdersValid(orders, customers, nextId - 1) || OrdersValid(orders, customers, nextId)
    ensures OrdersValid(orders, customers, nextId)
  {
  }

  /** Every stored shipment id is below the sequence's next value; a header takes the next value itself. */
  lemma ShipmentsValidRaise(shipments: map<int, Shipment>, suppliers: set<int>, nextId: int)
    requires ShipmentsValid(shipments, suppliers, nextId - 1) || ShipmentsValid(shipments, suppliers, nextId)
    ensures ShipmentsValid(shipments, suppliers, nextId)
  {
  }

  // ---------------------------------------------------------------------------
  // ON DELETE behaviour of single rows

  /** ON DELETE CASCADE from `Orders`: the item rows left once order `orderId` is gone. */
  function WithoutOrder(items: map<ItemKey, OrderItem>, orderId: int): map<ItemKey, OrderItem> {
    map k | k in items && k.0 != orderId :: items[k]
  }

  /** ON DELETE CASCADE from `Shipments`: the item rows left once shipment `shipmentId` is gone. */
  function WithoutShipment(items: map<ItemKey, ShipmentItem>, shipmentId: int): map<ItemKey, ShipmentItem> {
    map k | k in items && k.0 != shipmentId :: items[k]
  }

  /** ON DELETE RESTRICT from `Products`: some item row still points at `productId`. */
  predicate ProductReferenced(productId: int, orderItems: map<ItemKey, OrderItem>, shipmentItems: map<ItemKey, ShipmentItem>) {
    (exists k :: k in orderItems && k.1 == productId) || (exists k :: k in shipmentItems && k.1 == productId)
  }

  /** Cascading the deletion of an order keeps every foreign key of the item table intact. */
  lemma WithoutOrderKeepsItemsValid(items: map<ItemKey, OrderItem>, orderIds: set<int>, productIds: set<int>, orderId: int)
    requires OrderItemsValid(items, orderIds, productIds)
    ensures OrderItemsValid(WithoutOrder(items, orderId), orderIds - {orderId}, productIds)
    ensures forall k :: k in WithoutOrder(items, orderId) ==> k.0 != orderId
  {
  }

  /** Cascading the deletion of a shipment keeps every foreign key of the item table intact. */
  lemma WithoutShipmentKeepsItemsValid(items: map<ItemKey, ShipmentItem>, shipmentIds: set<int>, productIds: set<int>, shipmentId: int)
    requires ShipmentItemsValid(items, shipmentIds, productIds)
    ensures ShipmentItemsValid(WithoutShipment(items, shipmentId), shipmentIds - {shipmentId}, productIds)
    ensures forall k :: k in WithoutShipment(items, shipmentId) ==> k.0 != shipmentId
  {
  }

  // ---------------------------------------------------------------------------
  // Whole tables and the FOREIGN KEY graph between them

  datatype Table = Categories | Suppliers | Customers | Products | Orders | OrderItems | Shipments | ShipmentItems

  datatype OnDelete = Restrict | Cascade

  /** A FOREIGN KEY clause: rows of `child` point at rows of `parent`. */
  datatype ForeignKey = ForeignKey(child: Table, parent: Table, onDelete: OnDelete)

  const AllTables: set<Table> := {Categories, Suppliers, Customers, Products, Orders, OrderItems, Shipments, ShipmentItems}

  const ForeignKeys: set<ForeignKey> := {
    ForeignKey(Products, Categories, Restrict),    // fk_product_category
    ForeignKey(Products, Suppliers, Restrict),     // fk_product_supplier
    ForeignKey(Orders, Customers, Cascade),        // fk_order_customer
    ForeignKey(OrderItems, Orders, Cascade),       // fk_orderitem_order
    ForeignKey(OrderItems, Products, Restrict),    // fk_orderitem_product
    ForeignKey(Shipments, Suppliers, Cascade),     // fk_shipment_supplier
    ForeignKey(ShipmentItems, Shipments, Cascade), // fk_shipmentitem_shipment
    ForeignKey(ShipmentItems, Products, Restrict)  // fk_shipmentitem_product
  }

  /** How far a table is from the leaves of the reference graph; every foreign key goes up. */
  function Level(t: Table): nat {
    match t
    case OrderItems | ShipmentItems => 0
    case Products | Orders | Shipments => 1
    case Categories | Suppliers | Customers => 2
  }

  /** The tables with an ON DELETE CASCADE foreign key into `t`. */
  function CascadeChildren(t: Table): set<Table> {
    set fk | fk in ForeignKeys && fk.parent == t && fk.onDelete == Cascade :: fk.child
  }

  /** The tables with an ON DELETE RESTRICT foreign key into `t`. */
  function RestrictChildren(t: Table): set<Table> {
    set fk | fk in ForeignKeys && fk.parent == t && fk.onDelete == Restrict :: fk.child
  }

  /** The tables whose rows are deleted along with the rows of `t` (ON DELETE CASCADE, transitively). */
  function CascadeClosure(t: Table): (r: set<Table>)
    ensures t !in r
    ensures forall c :: c in r ==> Level(c) < Level(t)
    decreases Level(t)
  {
    var children := CascadeChildren(t);
    assert forall c :: c in children ==> Level(c) < Level(t);
    children + (set c, d | c in children && d in CascadeClosure(c) :: d)
  }

  /**
   * `DELETE FROM t` when the tables in `nonEmpty` hold rows (all of them satisfying
   * their foreign keys): it fails if a RESTRICT child of `t` still holds rows, and
   * otherwise empties `t` and every table the deletion cascades to.
   */
  function DeleteAllRows(t: Table, nonEmpty: set<Table>): Option<set<Table>> {
    if RestrictChildren(t) * nonEmpty != {} then None
    else Some(nonEmpty - {t} - CascadeClosure(t))
  }

  /** `DELETE FROM t` in terms of the tables that guard `t` and the tables it cascades to. */
  lemma DeleteAllRowsOf(t: Table, nonEmpty: set<Table>, restrict: set<Table>, closure: set<Table>)
    requires RestrictChildren(t) == restrict && CascadeClosure(t) == closure
    ensures DeleteAllRows(t, nonEmpty) == if restrict * nonEmpty != {} then None else Some(nonEmpty - {t} - closure)
  {
  }

  /**
   * The RESTRICT keys as the schema declares them: products are guarded by both
   * item tables, and categories and suppliers by products; nothing else is.
   */
  lemma RestrictChildrenOf(t: Table)
    ensures RestrictChildren(t) ==
      match t
      case Products => {OrderItems, ShipmentItems}
      case Categories | Suppliers => {Products}
      case _ => {}
  {
  }

  /**
   * The CASCADE keys as the schema declares them: an order or a shipment takes its
   * items along, a customer their orders, a supplier their shipments.
   */
  lemma CascadeChildrenOf(t: Table)
    ensures CascadeChildren(t) ==
      match t
      case Orders => {OrderItems}
      case Shipments => {ShipmentItems}
      case Customers => {Orders}
      case Suppliers => {Shipments}
      case _ => {}
  {
  }

  /** A table nothing cascades from cascades to nothing. */
  lemma CascadeClosureOfLeaf(t: Table)
    requires t !in {Orders, Shipments, Customers, Suppliers}
    ensures CascadeClosure(t) == {}
  {
    CascadeChildrenOf(t);
  }

  /** Deleting orders cascades to their items. */
  lemma CascadeFromOrders()
    ensures CascadeClosure(Orders) == {OrderItems}
  {
    CascadeChildrenOf(Orders);
    CascadeClosureOfLeaf(OrderItems);
  }

  /** Deleting shipments cascades to their items. */
  lemma CascadeFromShipments()
    ensures CascadeClosure(Shipments) == {ShipmentItems}
  {
    CascadeChildrenOf(Shipments);
    CascadeClosureOfLeaf(ShipmentItems);
  }

  /** Deleting customers cascades to their orders, and through them to the order items. */
  lemma CascadeFromCustomers()
    ensures CascadeClosure(Customers) == {Orders, OrderItems}
  {
    CascadeChildrenOf(Customers);
    CascadeFromOrders();
  }

  /** Deleting suppliers cascades to their shipments, and through them to the shipment items. */
  lemma CascadeFromSuppliers()
    ensures CascadeClosure(Suppliers) == {Shipments, ShipmentItems}
  {
    CascadeChildrenOf(Suppliers);
    CascadeFromShipments();
  }

  /** The reference graph has no cycle: every foreign key points from a lower level to a higher one. */
  lemma ForeignKeysGoUp()
    ensures forall fk :: fk in ForeignKeys ==> Level(fk.child) < Level(fk.parent)
  {
  }
}
