/**
 * The product store primitives: lookup, insert, optional-field patch, the
 * unchecked stock overwrite and delete. Every write goes through the database's
 * CHECK and FOREIGN KEY clauses, which can reject it.
 */
module ProductService {
  import opened Base
  import opened Errors
  import opened Schema
  import opened Store

  /** The fields a client sends to create a product. */
  datatype ProductCreate = ProductCreate(
    name: string,
    description: Option<string>,
    price: int,
    stockQuantity: i32,
    categoryId: int,
    supplierId: int)

  /** A patch: every present field replaces the stored one, every absent field is kept. */
  datatype ProductUpdate = ProductUpdate(
    name: Option<string>,
    description: Option<string>,
    price: Option<int>,
    stockQuantity: Option<i32>,
    categoryId: Option<int>,
    supplierId: Option<int>)

  /** The patch that changes nothing. */
  const EmptyPatch: ProductUpdate := ProductUpdate(None, None, None, None, None, None)

  /** `find_by_id`: the stored product, or NotFound. */
  function FindById(db: Database, id: int): (r: Result<Product>)
    reads db
    requires db.Valid()
    ensures r.Ok? <==> id in db.products
    ensures r.Ok? ==> r.value == db.products[id] && r.value.productId == id
    ensures r.Err? ==> r.error == NotFound
  {
    if id in db.products then Ok(db.products[id]) else Err(NotFound)
  }

  /** The row `create` inserts when the sequence hands out `id`. */
  function NewProduct(id: int, dto: ProductCreate): Product {
    Product(id, dto.name, dto.description, dto.price, dto.stockQuantity, dto.categoryId, dto.supplierId)
  }

  /** The row `update` writes: present fields replace stored ones; a description is always stored as present. */
  function ApplyPatch(p: Product, dto: ProductUpdate): Product {
    Product(
      p.productId,
      dto.name.GetOr(p.name),
      if dto.description.Some? then Some(dto.description.value) else p.description,
      dto.price.GetOr(p.price),
      dto.stockQuantity.GetOr(p.stockQuantity),
      dto.categoryId.GetOr(p.categoryId),
      dto.supplierId.GetOr(p.supplierId))
  }

  /** Two patches applied one after the other, as one patch: the later one wins field by field. */
  function Then(first: ProductUpdate, second: ProductUpdate): ProductUpdate {
    ProductUpdate(
      if second.name.Some? then second.name else first.name,
      if second.description.Some? then second.description else first.description,
      if second.price.Some? then second.price else first.price,
      if second.stockQuantity.Some? then second.stockQuantity else first.stockQuantity,
      if second.categoryId.Some? then second.categoryId else first.categoryId,
      if second.supplierId.Some? then second.supplierId else first.supplierId)
  }

  /** Patching twice is patching once with the combined patch. */
  lemma PatchesCompose(p: Product, first: ProductUpdate, second: ProductUpdate)
    ensures ApplyPatch(ApplyPatch(p, first), second) == ApplyPatch(p, Then(first, second))
  {
  }

  /** A patch is idempotent, and the empty patch changes nothing. */
  lemma PatchIdempotent(p: Product, dto: ProductUpdate)
    ensures ApplyPatch(ApplyPatch(p, dto), dto) == ApplyPatch(p, dto)
    ensures ApplyPatch(p, EmptyPatch) == p
  {
  }

  /**
   * A patch never changes the id, keeps every field it does not mention, and can
   * set a description but never clear one.
   */
  lemma PatchTouchesOnlyPresentFields(p: Product, dto: ProductUpdate)
    ensures ApplyPatch(p, dto).productId == p.productId
    ensures dto.name.None? ==> ApplyPatch(p, dto).name == p.name
    ensures dto.price.None? ==> ApplyPatch(p, dto).price == p.price
    ensures dto.stockQuantity.None? ==> ApplyPatch(p, dto).stockQuantity == p.stockQuantity
    ensures dto.categoryId.None? ==> ApplyPatch(p, dto).categoryId == p.categoryId
    ensures dto.supplierId.None? ==> ApplyPatch(p, dto).supplierId == p.supplierId
    ensures dto.description.None? ==> ApplyPatch(p, dto).description == p.description
    ensures dto.description.Some? ==> ApplyPatch(p, dto).description == Some(dto.description.value)
    ensures p.description.Some? ==> ApplyPatch(p, dto).description.Some?
  {
  }

  /**
   * `create`: inserts a row holding the six request fields under the next id of
   * the sequence, and returns the row as stored, its name cut to the column width.
   */
  method Create(db: Database, dto: ProductCreate) returns (r: Result<Product>)
    requires db.Valid()
    modifies db`products, db`productSeq
    ensures db.Valid()
    ensures db.productSeq == old(db.productSeq) + 1
    ensures old(db.productSeq) !in old(db.products)
    ensures !FitsVarchar(dto.name, ProductNameWidth) ==> r == Err(Database(ValueTooLong)) && db.products == old(db.products)
    ensures r.Ok? ==> r.value.name == ToVarchar(dto.name, ProductNameWidth)
    ensures var row := NewProduct(old(db.productSeq), dto);
      match ProductRowError(db.categories, db.suppliers, row)
      case Some(e) => r == Err(Database(e)) && db.products == old(db.products)
      case None => r == Ok(StoredProduct(row)) && db.products == old(db.products)[row.productId := StoredProduct(row)]
  {
    var id := db.productSeq;
    db.productSeq := db.productSeq + 1;
    var row := NewProduct(id, dto);
    var e := ProductRowError(db.categories, db.suppliers, row);
    if e.Some? {
      return Err(Database(e.value));
    }
    db.products := db.products[id := StoredProduct(row)];
    r := Ok(StoredProduct(row));
  }

  /** `update`: NotFound for an absent id; otherwise the patched row, if the database accepts it. */
  method Update(db: Database, id: int, dto: ProductUpdate) returns (r: Result<Product>)
    requires db.Valid()
    modifies db`products
    ensures db.Valid()
    ensures id !in old(db.products) ==> r == Err(NotFound) && db.products == old(db.products)
    ensures id in old(db.products) && dto.name.Some? && !FitsVarchar(dto.name.value, ProductNameWidth) ==>
      r == Err(Database(ValueTooLong)) && db.products == old(db.products)
    ensures id in old(db.products) && dto.name.Some? && r.Ok? ==> r.value.name == ToVarchar(dto.name.value, ProductNameWidth)
    ensures id in old(db.products) ==>
      var patched := ApplyPatch(old(db.products)[id], dto);
      match ProductRowError(db.categories, db.suppliers, patched)
      case Some(e) => r == Err(Database(e)) && db.products == old(db.products)
      case None => r == Ok(StoredProduct(patched)) && db.products == old(db.products)[id := StoredProduct(patched)]
  {
    var found := FindById(db, id);
    if found.Err? {
      return Err(found.error);
    }
    var patched := ApplyPatch(found.value, dto);
    var e := ProductRowError(db.categories, db.suppliers, patched);
    if e.Some? {
      return Err(Database(e.value));
    }
    db.products := db.products[id := StoredProduct(patched)];
    r := Ok(StoredProduct(patched));
  }

  /**
   * `update_stock`: overwrites the stock with `newQuantity`. The service itself does
   * no sign check; only the table's CHECK clause rejects a negative value.
   */
  method UpdateStock(db: Database, id: int, newQuantity: i32) returns (r: Result<Product>)
    requires db.Valid()
    modifies db`products
    ensures db.Valid()
    ensures id !in old(db.products) ==> r == Err(NotFound) && db.products == old(db.products)
    ensures id in old(db.products) && newQuantity < 0 ==>
      r == Err(Database(CheckViolation)) && db.products == old(db.products)
    ensures id in old(db.products) && newQuantity >= 0 ==>
      var row := old(db.products)[id].(stockQuantity := newQuantity);
      r == Ok(row) && db.products == old(db.products)[id := row]
  {
    var found := FindById(db, id);
    if found.Err? {
      return Err(found.error);
    }
    var row := found.value.(stockQuantity := newQuantity);
    var e := ProductRowError(db.categories, db.suppliers, row);
    if e.Some? {
      return Err(Database(e.value));
    }
    db.products := db.products[id := row];
    r := Ok(row);
  }

  /** `delete`: NotFound for an absent id; refused while an order or shipment item points at the product. */
  method Delete(db: Database, id: int) returns (r: Result<()>)
    requires db.Valid()
    modifies db`products
    ensures db.Valid()
    ensures id !in old(db.products) ==> r == Err(NotFound) && db.products == old(db.products)
    ensures id in old(db.products) && ProductReferenced(id, db.orderItems, db.shipmentItems) ==>
      r == Err(Database(ForeignKeyViolation)) && db.products == old(db.products)
    ensures id in old(db.products) && !ProductReferenced(id, db.orderItems, db.shipmentItems) ==>
      r == Ok(()) && db.products == old(db.products) - {id}
  {
    var found := FindById(db, id);
    if found.Err? {
      return Err(found.error);
    }
    if ProductReferenced(id, db.orderItems, db.shipmentItems) {
      return Err(Database(ForeignKeyViolation));
    }
    db.products := db.products - {id};
    r := Ok(());
  }
}
