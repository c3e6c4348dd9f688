/**
 * What `down` of the seed migration does to a database, whichever of its tables
 * hold rows: the DELETE statements run children first, so no RESTRICT key
 * refuses one, and every table ends empty.
 */
module MockDataDown {
  import opened Base
  import opened Schema
  import opened MockData

  /** `down` names every table, and each only once. */
  lemma DownNamesEveryTableOnce()
    ensures forall t :: t in AllTables <==> t in DownOrder
    ensures forall i, j :: 0 <= i < j < |DownOrder| ==> DownOrder[i] != DownOrder[j]
  {
  }

  /** `down` empties each child table before the table it references. */
  lemma DownDeletesChildrenFirst()
    ensures forall fk, i, j ::
      (fk in ForeignKeys && 0 <= i < |DownOrder| && 0 <= j < |DownOrder| &&
       DownOrder[i] == fk.child && DownOrder[j] == fk.parent) ==> i < j
  {
  }

  /** One `DELETE FROM` of `down`, from the `k`-th on, given what the remaining ones do. */
  lemma DownStep(k: nat, nonEmpty: set<Table>, rest: set<Table>)
    requires k < |DownOrder|
    requires DeleteAllRows(DownOrder[k], nonEmpty) == Some(rest)
    ensures DeleteInOrder(DownOrder[k..], nonEmpty) == DeleteInOrder(DownOrder[k + 1..], rest)
  {
    assert DownOrder[k..][0] == DownOrder[k];
    assert DownOrder[k..][1..] == DownOrder[k + 1..];
  }

  /** `DELETE FROM ShipmentItems`, on any tables still holding rows once those `down` empties before it are empty. */
  lemma DownDeletesShipmentItems(nonEmpty: set<Table>)
    requires nonEmpty <= {ShipmentItems, OrderItems, Shipments, Orders, Products, Customers, Suppliers, Categories}
    ensures DownOrder[0] == ShipmentItems
    ensures DeleteAllRows(ShipmentItems, nonEmpty) == Some(nonEmpty - {ShipmentItems} - {})
    ensures nonEmpty - {ShipmentItems} - {} <= {OrderItems, Shipments, Orders, Products, Customers, Suppliers, Categories}
  {
    assert DownOrder[0] == ShipmentItems;
    RestrictChildrenOf(ShipmentItems);
    CascadeClosureOfLeaf(ShipmentItems);
    DeleteAllRowsOf(ShipmentItems, nonEmpty, {}, {});
  }

  /** `DELETE FROM OrderItems`, on any tables still holding rows once those `down` empties before it are empty. */
  lemma DownDeletesOrderItems(nonEmpty: set<Table>)
    requires nonEmpty <= {OrderItems, Shipments, Orders, Products, Customers, Suppliers, Categories}
    ensures DownOrder[1] == OrderItems
    ensures DeleteAllRows(OrderItems, nonEmpty) == Some(nonEmpty - {OrderItems} - {})
    ensures nonEmpty - {OrderItems} - {} <= {Shipments, Orders, Products, Customers, Suppliers, Categories}
  {
    assert DownOrder[1] == OrderItems;
    RestrictChildrenOf(OrderItems);
    CascadeClosureOfLeaf(OrderItems);
    DeleteAllRowsOf(OrderItems, nonEmpty, {}, {});
  }

  /** `DELETE FROM Shipments`, on any tables still holding rows once those `down` empties before it are empty. */
  lemma DownDeletesShipments(nonEmpty: set<Table>)
    requires nonEmpty <= {Shipments, Orders, Products, Customers, Suppliers, Categories}
    ensures DownOrder[2] == Shipments
    ensures DeleteAllRows(Shipments, nonEmpty) == Some(nonEmpty - {Shipments} - {ShipmentItems})
    ensures nonEmpty - {Shipments} - {ShipmentItems} <= {Orders, Products, Customers, Suppliers, Categories}
  {
    assert DownOrder[2] == Shipments;
    RestrictChildrenOf(Shipments);
    CascadeFromShipments();
    DeleteAllRowsOf(Shipments, nonEmpty, {}, {ShipmentItems});
  }

  /** `DELETE FROM Orders`, on any tables still holding rows once those `down` empties before it are empty. */
  lemma DownDeletesOrders(nonEmpty: set<Table>)
    requires nonEmpty <= {Orders, Products, Customers, Suppliers, Categories}
    ensures DownOrder[3] == Orders
    ensures DeleteAllRows(Orders, nonEmpty) == Some(nonEmpty - {Orders} - {OrderItems})
    ensures nonEmpty - {Orders} - {OrderItems} <= {Products, Customers, Suppliers, Categories}
  {
    assert DownOrder[3] == Orders;
    RestrictChildrenOf(Orders);
    CascadeFromOrders();
    DeleteAllRowsOf(Orders, nonEmpty, {}, {OrderItems});
  }

  /** `DELETE FROM Products`, on any tables still holding rows once those `down` empties before it are empty. */
  lemma DownDeletesProducts(nonEmpty: set<Table>)
    requires nonEmpty <= {Products, Customers, Suppliers, Categories}
    ensures DownOrder[4] == Products
    ensures DeleteAllRows(Products, nonEmpty) == Some(nonEmpty - {Products} - {})
    ensures nonEmpty - {Products} - {} <= {Customers, Suppliers, Categories}
  {
    assert DownOrder[4] == Products;
    assert {OrderItems, ShipmentItems} * {Products, Customers, Suppliers, Categories} == {};
    assert {OrderItems, ShipmentItems} * nonEmpty == {} by {
      forall x | x in {OrderItems, ShipmentItems} * nonEmpty ensures x in {OrderItems, ShipmentItems} * {Products, Customers, Suppliers, Categories} { }
    }
    RestrictChildrenOf(Products);
    CascadeClosureOfLeaf(Products);
    DeleteAllRowsOf(Products, nonEmpty, {OrderItems, ShipmentItems}, {});
  }

  /** `DELETE FROM Customers`, on any tables still holding rows once those `down` empties before it are empty. */
  lemma DownDeletesCustomers(nonEmpty: set<Table>)
    requires nonEmpty <= {Customers, Suppliers, Categories}
    ensures DownOrder[5] == Customers
    ensures DeleteAllRows(Customers, nonEmpty) == Some(nonEmpty - {Customers} - {Orders, OrderItems})
    ensures nonEmpty - {Customers} - {Orders, OrderItems} <= {Suppliers, Categories}
  {
    assert DownOrder[5] == Customers;
    RestrictChildrenOf(Customers);
    CascadeFromCustomers();
    DeleteAllRowsOf(Customers, nonEmpty, {}, {Orders, OrderItems});
  }

  /** `DELETE FROM Suppliers`, on any tables still holding rows once those `down` empties before it are empty. */
  lemma DownDeletesSuppliers(nonEmpty: set<Table>)
    requires nonEmpty <= {Suppliers, Categories}
    ensures DownOrder[6] == Suppliers
    ensures DeleteAllRows(Suppliers, nonEmpty) == Some(nonEmpty - {Suppliers} - {Shipments, ShipmentItems})
    ensures nonEmpty - {Suppliers} - {Shipments, ShipmentItems} <= {Categories}
  {
    assert DownOrder[6] == Suppliers;
    assert {Products} * {Suppliers, Categories} == {};
    assert {Products} * nonEmpty == {} by {
      forall x | x in {Products} * nonEmpty ensures x in {Products} * {Suppliers, Categories} { }
    }
    RestrictChildrenOf(Suppliers);
    CascadeFromSuppliers();
    DeleteAllRowsOf(Suppliers, nonEmpty, {Products}, {Shipments, ShipmentItems});
  }

  /** `DELETE FROM Categories`, on any tables still holding rows once those `down` empties before it are empty. */
  lemma DownDeletesCategories(nonEmpty: set<Table>)
    requires nonEmpty <= {Categories}
    ensures DownOrder[7] == Categories
    ensures DeleteAllRows(Categories, nonEmpty) == Some(nonEmpty - {Categories} - {})
    ensures nonEmpty - {Categories} - {} <= {}
  {
    assert DownOrder[7] == Categories;
    assert {Products} * {Categories} == {};
    assert {Products} * nonEmpty == {} by {
      forall x | x in {Products} * nonEmpty ensures x in {Products} * {Categories} { }
    }
    RestrictChildrenOf(Categories);
    CascadeClosureOfLeaf(Categories);
    DeleteAllRowsOf(Categories, nonEmpty, {Products}, {});
  }

  /** `down` from `DELETE FROM Categories` on, on any tables still holding rows by then. */
  lemma DownFromCategories(nonEmpty: set<Table>)
    requires nonEmpty <= {Categories}
    ensures DeleteInOrder(DownOrder[7..], nonEmpty) == Some({})
  {
    DownDeletesCategories(nonEmpty);
    DownStep(7, nonEmpty, nonEmpty - {Categories} - {});
    assert nonEmpty - {Categories} - {} == {};
    assert DownOrder[8..] == [];
  }

  /** `down` from `DELETE FROM Suppliers` on, on any tables still holding rows by then. */
  lemma DownFromSuppliers(nonEmpty: set<Table>)
    requires nonEmpty <= {Suppliers, Categories}
    ensures DeleteInOrder(DownOrder[6..], nonEmpty) == Some({})
  {
    DownDeletesSuppliers(nonEmpty);
    DownStep(6, nonEmpty, nonEmpty - {Suppliers} - {Shipments, ShipmentItems});
    DownFromCategories(nonEmpty - {Suppliers} - {Shipments, ShipmentItems});
  }

  /** `down` from `DELETE FROM Customers` on, on any tables still holding rows by then. */
  lemma DownFromCustomers(nonEmpty: set<Table>)
    requires nonEmpty <= {Customers, Suppliers, Categories}
    ensures DeleteInOrder(DownOrder[5..], nonEmpty) == Some({})
  {
    DownDeletesCustomers(nonEmpty);
    DownStep(5, nonEmpty, nonEmpty - {Customers} - {Orders, OrderItems});
    DownFromSuppliers(nonEmpty - {Customers} - {Orders, OrderItems});
  }

  /** `down` from `DELETE FROM Products` on, on any tables still holding rows by then. */
  lemma DownFromProducts(nonEmpty: set<Table>)
    requires nonEmpty <= {Products, Customers, Suppliers, Categories}
    ensures DeleteInOrder(DownOrder[4..], nonEmpty) == Some({})
  {
    DownDeletesProducts(nonEmpty);
    DownStep(4, nonEmpty, nonEmpty - {Products} - {});
    DownFromCustomers(nonEmpty - {Products} - {});
  }

  /** `down` from `DELETE FROM Orders` on, on any tables still holding rows by then. */
  lemma DownFromOrders(nonEmpty: set<Table>)
    requires nonEmpty <= {Orders, Products, Customers, Suppliers, Categories}
    ensures DeleteInOrder(DownOrder[3..], nonEmpty) == Some({})
  {
    DownDeletesOrders(nonEmpty);
    DownStep(3, nonEmpty, nonEmpty - {Orders} - {OrderItems});
    DownFromProducts(nonEmpty - {Orders} - {OrderItems});
  }

  /** `down` from `DELETE FROM Shipments` on, on any tables still holding rows by then. */
  lemma DownFromShipments(nonEmpty: set<Table>)
    requires nonEmpty <= {Shipments, Orders, Products, Customers, Suppliers, Categories}
    ensures DeleteInOrder(DownOrder[2..], nonEmpty) == Some({})
  {
    DownDeletesShipments(nonEmpty);
    DownStep(2, nonEmpty, nonEmpty - {Shipments} - {ShipmentItems});
    DownFromOrders(nonEmpty - {Shipments} - {ShipmentItems});
  }

  /** `down` from `DELETE FROM OrderItems` on, on any tables still holding rows by then. */
  lemma DownFromOrderItems(nonEmpty: set<Table>)
    requires nonEmpty <= {OrderItems, Shipments, Orders, Products, Customers, Suppliers, Categories}
    ensures DeleteInOrder(DownOrder[1..], nonEmpty) == Some({})
  {
    DownDeletesOrderItems(nonEmpty);
    DownStep(1, nonEmpty, nonEmpty - {OrderItems} - {});
    DownFromShipments(nonEmpty - {OrderItems} - {});
  }

  /** `down` from `DELETE FROM ShipmentItems` on, on any tables still holding rows by then. */
  lemma DownFromShipmentItems(nonEmpty: set<Table>)
    requires nonEmpty <= {ShipmentItems, OrderItems, Shipments, Orders, Products, Customers, Suppliers, Categories}
    ensures DeleteInOrder(DownOrder[0..], nonEmpty) == Some({})
  {
    DownDeletesShipmentItems(nonEmpty);
    DownStep(0, nonEmpty, nonEmpty - {ShipmentItems} - {});
    DownFromOrderItems(nonEmpty - {ShipmentItems} - {});
  }

  /**
   * Whichever tables hold rows, `down` is refused nowhere and leaves every table
   * empty: on a fully seeded database and on a partly emptied one alike.
   */
  lemma DownEmptiesEveryTable(nonEmpty: set<Table>)
    ensures DeleteInOrder(DownOrder, nonEmpty) == Some({})
  {
    assert nonEmpty <= {ShipmentItems, OrderItems, Shipments, Orders, Products, Customers, Suppliers, Categories} by {
      forall t | t in nonEmpty ensures t in {ShipmentItems, OrderItems, Shipments, Orders, Products, Customers, Suppliers, Categories} {
        match t
        case ShipmentItems =>
        case OrderItems =>
        case Shipments =>
        case Orders =>
        case Products =>
        case Customers =>
        case Suppliers =>
        case Categories =>
      }
    }
    assert DownOrder[0..] == DownOrder;
    DownFromShipmentItems(nonEmpty);
  }

  /** The order matters: emptying the products first is refused while item rows still reference them. */
  lemma ProductsBeforeItemsRefused()
    ensures DeleteAllRows(Products, AllTables).None?
  {
    RestrictChildrenOf(Products);
    assert OrderItems in RestrictChildren(Products) * AllTables;
  }
}
