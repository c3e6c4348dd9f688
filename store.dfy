/**
 * The database the services talk to: every table of the schema as a field, plus
 * the SERIAL sequences that hand out new ids. `Valid()` is the conjunction of the
 * schema's constraints; every service operation keeps it.
 *
 * Categories, suppliers and customers are only referenced by the documents and
 * products, so their tables are kept as sets of ids.
 */
module Store {
  import opened Schema

  class Database {
    var categories: set<int>
    var suppliers: set<int>
    var customers: set<int>
    var products: map<int, Product>
    var orders: map<int, Order>
    var orderItems: map<ItemKey, OrderItem>
    var shipments: map<int, Shipment>
    var shipmentItems: map<ItemKey, ShipmentItem>

    /** Next values of `products_product_id_seq`, `orders_order_id_seq` and `shipments_shipment_id_seq`. */
    var productSeq: int
    var orderSeq: int
    var shipmentSeq: int

    ghost predicate Valid()
      reads this
    {
      && ProductsValid(products, categories, suppliers, productSeq)
      && OrdersValid(orders, customers, orderSeq)
      && OrderItemsValid(orderItems, orders.Keys, products.Keys)
      && ShipmentsValid(shipments, suppliers, shipmentSeq)
      && ShipmentItemsValid(shipmentItems, shipments.Keys, products.Keys)
    }

    /** A freshly migrated database: the reference tables are given, everything else is empty. */
    constructor (categories: set<int>, suppliers: set<int>, customers: set<int>)
      ensures Valid()
      ensures this.categories == categories && this.suppliers == suppliers && this.customers == customers
      ensures products == map[] && orders == map[] && orderItems == map[]
      ensures shipments == map[] && shipmentItems == map[]
      ensures productSeq == 1 && orderSeq == 1 && shipmentSeq == 1
    {
      this.categories, this.suppliers, this.customers := categories, suppliers, customers;
      products, orders, orderItems := map[], map[], map[];
      shipments, shipmentItems := map[], map[];
      productSeq, orderSeq, shipmentSeq := 1, 1, 1;
    }
  }
}
