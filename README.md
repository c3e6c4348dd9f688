# crud_shop_slop: a verified model of the shop's order, shipment and product core

The shop is a small REST back end over PostgreSQL. It sells products from stock,
receives shipments from suppliers, and keeps the stock column of the products
table in step with both. This project models that core in Dafny and proves what it
promises.

- `Store.Database` is the database as a class. Every table is a field: the
  reference tables are sets of ids, the others maps from key to row. The SERIAL
  sequences are counters. `Valid()` is the schema's VARCHAR(n) widths and its
  CHECK, PRIMARY KEY and FOREIGN KEY clauses, taken together.
- `Schema` has the rows, the CHECK clauses as predicates, and what a single-row
  write answers: a string too long for its VARCHAR(n) column first (one whose
  excess is all spaces is cut to the width instead), then CHECK,
  then the primary key, then the foreign keys. It also holds the reference graph
  with its ON DELETE CASCADE and RESTRICT actions.
- `ProductService`, `OrderService` and `ShipmentService` are the three services.
  Each operation is a method on the database, proved against the state it leaves
  and the `Result` it returns.
  - A transaction is working copies of the tables it writes. Commit assigns them
    back; an early `return Err` drops them.
  - Creating an order debits stock line by line. It is refused with
    "Insufficient stock" when a line asks for more than the product holds.
  - Creating a shipment credits stock. The addition wraps around as a release
    build's `i32` does, and a wrapped negative stock is refused by the products
    CHECK clause.
  - Update and delete never touch stock.
- `LineItems` is what both services share about request lines. Each line becomes
  one item row keyed by (document, product), so a repeated product is refused by
  the primary key.
- `Errors` is `AppError` and the HTTP response each error becomes.
- `MockData` is the seed migration, and `MockDataDown` what its `down` does.
  - The two reconciliation UPDATEs are a GROUP BY subquery and an in-place pass
    over the stock column, which is an `array`.
  - `down` deletes every table, children first.
- `SeedRows` and `SeedEvaluation` hold the seeded rows and evaluate the
  reconciliation on them.
- `Connection` is the `postgres://` connection string.

Money (DECIMAL(10,2)) is kept as whole cents. Timestamps and dates are plain
numbers. `Utc::now()` is a parameter.

## Model

| member | source | states |
|---|---|---|
| Base.WrappingAdd | src/services/shipment_service.rs:58 | `stock + quantity` on `i32` as a release build computes it: the true sum when it fits, and a negative number when it overflows upwards |
| Errors.Respond | src/error.rs:20-37 | NotFound → 404 with body "Resource not found"; Validation → 400 with the bare message as body; Database → 500 with the database error's text; Internal → 500 with "Internal server error"; a status is below 500 exactly for NotFound and Validation |
| Errors.Display | src/error.rs:7-17 | the `#[error]` text of each variant: "Database error: " and the database error's text, "Not found", "Validation error: " and the message, "Internal server error" |
| Errors.ValidationBodyIsNotDisplay | src/error.rs:13-31 | the client gets the message, never the "Validation error: " display text |
| Store.Database.constructor | src/migration/m20220101_000001_create_table.rs:13-104 | a freshly created schema satisfies every constraint: data tables empty, every sequence at 1 |
| Schema.ToVarchar | src/migration/m20220101_000001_create_table.rs:40-85 | the value a VARCHAR(n) column receives: at most n characters, a prefix of the value sent, and the whole value when it is short enough; what it drops of a fitting value is spaces |
| Schema.StoredProduct | src/migration/m20220101_000001_create_table.rs:40 | the product row as stored: only the name changes, cut to at most 200 characters, and a row that is short enough is stored as sent |
| Schema.StatusCheckSeesStoredValue | src/migration/m20220101_000001_create_table.rs:58-85 | the status CHECK gives the same answer for the value sent and for the value cut to VARCHAR(20), so it may be tested on either |
| Schema.PaddedStatusRefusedByCheck | src/migration/m20220101_000001_create_table.rs:58-85 | a status padded with spaces past 20 characters is not refused as too long; the status CHECK refuses it |
| Schema.PaddedNameStoredCut | src/migration/m20220101_000001_create_table.rs:40 | a product name padded with spaces past 200 characters is accepted and stored as its first 200 characters |
| Schema.ProductRowError | src/migration/m20220101_000001_create_table.rs:38-52 | a product row is accepted exactly when its name fits VARCHAR(200) (nothing but spaces past the 200th character), it passes both CHECK clauses and both foreign keys point at rows; a too-long name is reported as such, and a foreign key is reported only for a row that fits and passes the CHECKs |
| Schema.OrderRowError | src/migration/m20220101_000001_create_table.rs:54-64 | an order header is accepted exactly when its status fits VARCHAR(20) (nothing but spaces past the 20th character), it passes the CHECK clauses and its customer exists; too long first, the foreign key last |
| Schema.OrderItemInsertError | src/migration/m20220101_000001_create_table.rs:66-78 | an order item row inserts exactly when it passes its CHECKs, its (order, product) key is new and both foreign keys hold; the key is tested only for rows passing the CHECKs, the foreign keys only after the key |
| Schema.ShipmentRowError | src/migration/m20220101_000001_create_table.rs:80-90 | a shipment header is accepted exactly when its status fits VARCHAR(20) (nothing but spaces past the 20th character), it passes the CHECK clauses and its supplier exists; too long first, the foreign key last |
| Schema.ShipmentItemInsertError | src/migration/m20220101_000001_create_table.rs:92-104 | a shipment item row inserts exactly when it passes its CHECKs, its (shipment, product) key is new and both foreign keys hold; CHECK, then key, then foreign keys |
| Schema.OrdersValidRaise | src/migration/m20220101_000001_create_table.rs:54-64 | a table valid below the next sequence value stays valid once the sequence moves past the new header's id |
| Schema.ShipmentsValidRaise | src/migration/m20220101_000001_create_table.rs:80-90 | the same for shipments |
| Schema.WithoutOrderKeepsItemsValid | src/migration/m20220101_000001_create_table.rs:72-74 | the ON DELETE CASCADE of an order removes exactly its item rows and leaves every remaining foreign key intact |
| Schema.WithoutShipmentKeepsItemsValid | src/migration/m20220101_000001_create_table.rs:98-100 | the same for a shipment and its item rows |
| Schema.CascadeClosure | src/migration/m20220101_000001_create_table.rs:61-100 | the tables a deletion cascades to never include the table itself, and lie strictly lower in the reference graph |
| Schema.RestrictChildrenOf | src/migration/m20220101_000001_create_table.rs:46-103 | the RESTRICT keys: products are guarded by both item tables; categories and suppliers by products; nothing else is |
| Schema.CascadeChildrenOf | src/migration/m20220101_000001_create_table.rs:61-63 | the CASCADE keys: orders → order items, shipments → shipment items, customers → orders, suppliers → shipments |
| Schema.CascadeFromOrders | src/migration/m20220101_000001_create_table.rs:72-74 | deleting orders removes their items and nothing else |
| Schema.CascadeFromShipments | src/migration/m20220101_000001_create_table.rs:98-100 | deleting shipments removes their items and nothing else |
| Schema.CascadeFromCustomers | src/migration/m20220101_000001_create_table.rs:61-74 | deleting customers removes their orders and, through them, the order items |
| Schema.CascadeFromSuppliers | src/migration/m20220101_000001_create_table.rs:87-100 | deleting suppliers removes their shipments and, through them, the shipment items |
| Schema.CascadeClosureOfLeaf | src/migration/m20220101_000001_create_table.rs:66-104 | a table with no CASCADE key pointing at it cascades to nothing |
| Schema.ForeignKeysGoUp | src/migration/m20220101_000001_create_table.rs:46-103 | the eight foreign keys form an acyclic graph: each one points from a lower level to a higher one |
| LineItems.MentionsInit | src/services/order_service.rs:47-67 | a product is named by the lines exactly when it is named by all but the last line, or by the last one |
| LineItems.QuantityUnmentioned | src/services/order_service.rs:47-67 | a product no line names is carried in quantity zero |
| LineItems.InsertedLinesDistinct | src/migration/m20220101_000001_create_table.rs:71 | lines that all insert under the (document, product) primary key name pairwise different products |
| LineItems.QuantityOfDistinct | src/services/order_service.rs:47-67 | among distinct lines, a product's total quantity is the quantity of its one line |
| LineItems.InsertsExtend | src/services/order_service.rs:99-108 | a prefix of lines that inserted, followed by a line that inserts, is a longer prefix that inserted |
| LineItems.FirstInsertErrorMeaning | src/services/order_service.rs:99-108 | the run of inserts fails exactly when some line does not insert, and then with the error of the first such line |
| OrderService.RowsKeys | src/services/order_service.rs:47-55 | the rows posted for the lines are keyed by the order and exactly the products the lines name, and carry those ids |
| OrderService.RowsOfDistinct | src/services/order_service.rs:48-54 | for distinct lines, each line's key holds exactly the row written for that line |
| OrderService.RowsExtend | src/services/order_service.rs:55 | posting one more line adds exactly that line's row |
| OrderService.InsertCheckAgrees | src/services/order_service.rs:55 | while the order holds only the rows of earlier lines, the table's insert check answers what the per-line insert error says |
| OrderService.ReplacedItems | src/services/order_service.rs:92-108 | after replacement, the order holds exactly one row per supplied line and no other row; other orders' rows are unchanged |
| OrderService.ReplacedValid | src/services/order_service.rs:89-111 | replacing an existing order's rows by lines that all insert keeps the item table valid |
| OrderService.AcceptedInserts | src/services/order_service.rs:55 | the lines `create` accepts all insert |
| OrderService.AcceptedOrderDebit | src/services/order_service.rs:57-66 | after a successful `create`, each named product lost exactly its line's quantity and is still non-negative; unnamed products are untouched |
| OrderService.OverdrawnLineRejects | src/services/order_service.rs:59-62 | a line asking for more than the product holds makes `create` fail, at that line or earlier; when every earlier line went through and this one inserts, `create` answers "Insufficient stock" |
| OrderService.FirstLineErrorSkips | src/services/order_service.rs:47-67 | lines that went through do not change where the line loop stops |
| OrderService.FirstLineErrorMeaning | src/services/order_service.rs:47-67 | `create`'s line loop fails exactly when some line fails (insert error or insufficient stock), with the first such line's error |
| OrderService.LineStep | src/services/order_service.rs:47-67 | one accepted line adds its row and debits its product by its quantity |
| OrderService.DebitKeepsProductsValid | src/services/order_service.rs:59-66 | the stock `create` commits satisfies the products CHECK clause |
| OrderService.PostedItemsValid | src/services/order_service.rs:47-55 | the committed item rows pass their CHECK clauses and point at the order and at existing products |
| OrderService.NewOrder | src/services/order_service.rs:35-42 | the header copies the request, takes `now` as its date, and has status "pending" unless one is given |
| OrderService.PatchOrderKeepsIdentity | src/services/order_service.rs:76-86 | a patch never changes the id, customer or date; a field the request leaves out is kept |
| OrderService.CommitKeepsValid | src/services/order_service.rs:69 | committing the header, its rows and the debited stock keeps every table constraint |
| OrderService.FindById | src/services/order_service.rs:24-29 | the stored header when the id exists, NotFound otherwise |
| OrderService.FindWithDetails | src/services/order_service.rs:123-127 | NotFound exactly for an absent id; otherwise the header and exactly the item rows of that order |
| OrderService.PostLines | src/services/order_service.rs:47-67 | the loop stops with the first line's error; otherwise it yields the stored rows plus one per line, and the debited products, all valid |
| OrderService.Create | src/services/order_service.rs:31-71 | consumes one sequence value; on any header or line error, returns it and changes no table; otherwise commits the header, one row per line and the debited stock |
| OrderService.ReplaceLines | src/services/order_service.rs:89-111 | the first failing insert's error; otherwise the order's rows replaced by the supplied lines, with the table still valid |
| OrderService.Update | src/services/order_service.rs:73-114 | NotFound for an absent id; a failing item insert changes nothing; otherwise rows are replaced, then the header is written or refused on its own; stock is never touched |
| OrderService.Delete | src/services/order_service.rs:116-121 | NotFound for an absent id; otherwise the header goes and its item rows cascade; stock is unchanged |
| ProductService.FindById | src/services/product_service.rs:20-25 | the stored product when the id exists, NotFound otherwise |
| ProductService.PatchesCompose | src/services/product_service.rs:41-66 | two successive patches equal one patch in which the later field wins |
| ProductService.PatchIdempotent | src/services/product_service.rs:41-66 | applying a patch twice equals applying it once; the empty patch changes nothing |
| ProductService.PatchTouchesOnlyPresentFields | src/services/product_service.rs:46-63 | a patch keeps the id and every absent field, and can set a description but never clear one |
| ProductService.Create | src/services/product_service.rs:27-39 | the row gets the next sequence value; a name with a non-space past the 200th character is refused as too long, then a CHECK or FOREIGN KEY violation, each returned with no row added; otherwise the row is stored and returned with its name cut to 200 characters |
| ProductService.Update | src/services/product_service.rs:41-66 | NotFound for an absent id; a new name with a non-space past the 200th character is refused as too long; otherwise the patched row, its name cut to 200 characters, if the database accepts it, else its error and no change |
| ProductService.UpdateStock | src/services/product_service.rs:75-80 | NotFound for an absent id; a negative quantity is refused only by the CHECK clause; otherwise only the stock changes |
| ProductService.Delete | src/services/product_service.rs:68-73 | NotFound for an absent id; refused while an order or shipment item references the product; otherwise the row is removed |
| ShipmentService.RowsKeys | src/services/shipment_service.rs:46-54 | the rows posted for the lines are keyed by the shipment and exactly the products the lines name |
| ShipmentService.RowsOfDistinct | src/services/shipment_service.rs:47-53 | for distinct lines, each line's key holds exactly the row written for that line |
| ShipmentService.RowsExtend | src/services/shipment_service.rs:54 | posting one more line adds exactly that line's row |
| ShipmentService.InsertCheckAgrees | src/services/shipment_service.rs:54 | while the shipment holds only the rows of earlier lines, the table's insert check answers what the per-line insert error says |
| ShipmentService.PostedItemsValid | src/services/shipment_service.rs:46-54 | the committed item rows pass their CHECK clauses and point at the shipment and at existing products |
| ShipmentService.ReplacedItems | src/services/shipment_service.rs:88-104 | after replacement, the shipment holds exactly one row per supplied line and no other row; other shipments' rows are unchanged |
| ShipmentService.ReplacedValid | src/services/shipment_service.rs:85-107 | replacing an existing shipment's rows by lines that all insert keeps the item table valid |
| ShipmentService.ReceivedRefusedIffOverflow | src/services/shipment_service.rs:58-62 | for a valid stock and quantity, the written stock is negative (so refused) exactly when the true sum exceeds the `i32` range; otherwise it is the true sum |
| ShipmentService.FirstLineErrorMeaning | src/services/shipment_service.rs:46-63 | `create`'s line loop fails exactly when some line fails, with the first such line's error |
| ShipmentService.AcceptedInserts | src/services/shipment_service.rs:54 | the lines `create` accepts all insert |
| ShipmentService.AcceptedShipmentCredit | src/services/shipment_service.rs:56-62 | after a successful `create`, each named product gained exactly its line's quantity, so its stock went up; unnamed products are untouched |
| ShipmentService.OverflowingLineRejects | src/services/shipment_service.rs:58-62 | a line that would carry stock past the `i32` range fails with the products CHECK violation, so `create` fails |
| ShipmentService.LineStep | src/services/shipment_service.rs:46-63 | one accepted line adds its row and credits its product by its exact quantity |
| ShipmentService.CreditKeepsProductsValid | src/services/shipment_service.rs:58-62 | the stock `create` commits satisfies the products CHECK clause |
| ShipmentService.NewShipment | src/services/shipment_service.rs:34-41 | the header copies the request and has status "in_transit" unless one is given |
| ShipmentService.PatchShipmentKeepsIdentity | src/services/shipment_service.rs:72-82 | a patch never changes the id, supplier or shipment date; a field the request leaves out is kept |
| ShipmentService.EarlyDeliveryDateRefused | src/services/shipment_service.rs:77-79 | a patched expected delivery date before the shipment date is refused by the CHECK clause, or as too long when the status has a non-space past its 20th character |
| ShipmentService.CommitKeepsValid | src/services/shipment_service.rs:65 | committing the header, its rows and the credited stock keeps every table constraint |
| ShipmentService.FindById | src/services/shipment_service.rs:23-28 | the stored header when the id exists, NotFound otherwise |
| ShipmentService.FindWithDetails | src/services/shipment_service.rs:119-123 | NotFound exactly for an absent id; otherwise the header and exactly the item rows of that shipment |
| ShipmentService.PostLines | src/services/shipment_service.rs:46-63 | the loop stops with the first line's error; otherwise it yields the stored rows plus one per line, and the credited products, all valid |
| ShipmentService.Create | src/services/shipment_service.rs:30-67 | consumes one sequence value; on any header or line error, returns it and changes no table; otherwise commits the header, one row per line and the credited stock |
| ShipmentService.ReplaceLines | src/services/shipment_service.rs:85-107 | the first failing insert's error; otherwise the shipment's rows replaced by the supplied lines, with the table still valid |
| ShipmentService.Update | src/services/shipment_service.rs:69-110 | NotFound for an absent id; a failing item insert changes nothing; otherwise rows are replaced, then the header is written or refused on its own; stock is never touched |
| ShipmentService.Delete | src/services/shipment_service.rs:112-117 | NotFound for an absent id; otherwise the header goes and its item rows cascade; stock is unchanged |
| MockData.GroupedInit | src/migration/m20220101_000002_insert_mock_data.rs:145-149 | a product has a surviving joined row exactly when all but the last row have one, or the last row is one |
| MockData.Subquery | src/migration/m20220101_000002_insert_mock_data.rs:144-150 | the GROUP BY subquery built row by row; `SubqueryTotals` states that it holds exactly the grouped products, each with its SUM |
| MockData.SubqueryTotals | src/migration/m20220101_000002_insert_mock_data.rs:144-150 | the GROUP BY subquery has an entry exactly for products with a surviving row, holding their summed quantity |
| MockData.StockWriteError | src/migration/m20220101_000002_insert_mock_data.rs:142-163 | a value written into the stock column is accepted exactly when it is a non-negative `INT`; a CHECK refusal is reported only for an in-range negative value |
| MockData.FirstRowErrorMeaning | src/migration/m20220101_000002_insert_mock_data.rs:142-151 | an UPDATE goes through exactly when every row the join reaches gets a non-negative `INT`; rows without a subquery entry are not written and cannot fail |
| MockData.ApplyTotals | src/migration/m20220101_000002_insert_mock_data.rs:142-151 | one UPDATE in place: it fails with the first unwritable joined row's error and changes nothing, or writes every row's new value |
| MockData.ReconciledStock | src/migration/m20220101_000002_insert_mock_data.rs:142-163 | each product ends at its stock, plus its non-cancelled shipment quantities, minus its confirmed, shipped or delivered order quantities; a product with no such rows keeps its stock |
| MockData.DeleteInOrder | src/migration/m20220101_000002_insert_mock_data.rs:174-181 | the DELETE statements run in order, stopping at the first one a RESTRICT key refuses; `DownEmptiesEveryTable` states what it gives for `down` |
| MockDataDown.DownNamesEveryTableOnce | src/migration/m20220101_000002_insert_mock_data.rs:174-181 | `down` deletes from every table, each exactly once |
| MockDataDown.DownDeletesChildrenFirst | src/migration/m20220101_000002_insert_mock_data.rs:174-181 | for every foreign key, `down` empties the child table before the parent |
| MockDataDown.DownEmptiesEveryTable | src/migration/m20220101_000002_insert_mock_data.rs:174-181 | whichever tables hold rows, from all of them to none, no DELETE is refused and every table ends empty |
| MockDataDown.ProductsBeforeItemsRefused | src/migration/m20220101_000001_create_table.rs:75-77 | deleting the products while item rows exist is refused by RESTRICT, which is why the order matters |
| SeedEvaluation.SeedGroups | src/migration/m20220101_000002_insert_mock_data.rs:144-162 | on the seeded rows the two subqueries give the per-product totals: in-transit shipments count, the cancelled one and pending or cancelled orders do not |
| SeedEvaluation.SeedShipmentUpdate | src/migration/m20220101_000002_insert_mock_data.rs:142-151 | the stock after the shipments UPDATE on the seed |
| SeedEvaluation.SeedOrderUpdate | src/migration/m20220101_000002_insert_mock_data.rs:154-163 | the stock after the orders UPDATE on the seed |
| SeedEvaluation.SeedValuesFit | src/migration/m20220101_000002_insert_mock_data.rs:142-163 | every value either UPDATE writes on the seed is a non-negative `INT` |
| SeedEvaluation.SeedReconciliation | src/migration/m20220101_000002_insert_mock_data.rs:55-163 | the seeded stock reconciles to the stated final stock, and both statements go through |
| SeedEvaluation.ReconcileSeedStock | src/migration/m20220101_000002_insert_mock_data.rs:142-163 | run in place on the seeded stock column, both UPDATEs succeed and leave the reconciled stock |
| Connection.DecimalString | src/db/mod.rs:39-44 | the port written by `format!`: one or more decimal digits, with no leading zero |
| Connection.DecimalRoundTrip | src/db/mod.rs:44 | the port's decimal text reads back as the port |
| Connection.ConnectionString | src/db/mod.rs:31-50 | the result starts with "postgres://"; it is `user:password@host:port`, followed by "/" and the name when one is given |
| Connection.AfterLast | src/db/mod.rs:38-48 | the text after the last occurrence of a character: a suffix of the string that does not contain the character |
| Connection.PortReadsBack | src/db/mod.rs:38-45 | without a name, the text after the last colon is the port, and it parses back to the port |
| Connection.NoNameNoSlash | src/db/mod.rs:46-49 | without a name, the string ends in a digit of the port: there is no trailing slash |
| Connection.NameReadsBack | src/db/mod.rs:46-48 | a name that holds no slash is exactly the text after the last slash |

## Left out

- `find_all` of every service is left out. It is a full table read with an ORDER BY. Sorting by a string or timestamp column is not modelled.
- The category, customer and supplier services are not part of this model. Their tables are kept only as the sets of ids that foreign keys point at. The e-mail CHECK regular expressions are left out.
- HTTP handlers, configuration, `connect_database` and `migrate` are left out. They are I/O and the driver's own code.
- Failures of the connection itself, such as `begin` or `commit` failing, are not modelled. Apart from the order-item table name described below, every statement either succeeds or is refused by the database for one of the error kinds modelled: a string with a non-space past the width of its VARCHAR(n) column, an `INT` out of range, a CHECK, a primary key or a foreign key.
- A database error is kept as the kind of constraint violated. The driver's full wording, with its table and constraint names, is left out.
- OrderService.Create, OrderService.Update and OrderService.FindWithDetails assume that the order-item entity reaches the `OrderItems` table. The entity declares the table name `order_items` (src/db/order_items.rs:4). The schema creates `OrderItems` without quotes, which PostgreSQL folds to `orderitems`. The later migrations named in src/migration/mod.rs:5-6 are not part of this model. As written, every statement on order items would therefore fail because the relation does not exist, and the model has no error kind for that. This covers the item insert in `create`, the delete and inserts in `update`, and the item read in `find_with_details`.
- Concurrency and isolation between requests are left out. Every operation runs alone.
- DECIMAL(10,2) precision and overflow are left out. Amounts are unbounded whole cents, so only their sign is checked.
- Ids are unbounded integers. A SERIAL sequence running past the `INT` range is not modelled.
- `OrderService.Create` and `ShipmentService.Create` read the product without its NotFound branch. The item insert's foreign key refuses an absent product before the lookup, so that branch cannot be reached.
- ShipmentService.Create: the stock addition is modelled as a release build's wrap-around. A debug build would panic on overflow instead.
- The order and shipment line DTOs (`OrderItemCreate` with a unit price, `ShipmentItemCreate` with a unit cost) are one `LineItems.LineItem` type. Its `unitAmount` field stands for either.
- `update` of orders and shipments is not atomic: the item transaction commits before the header is written. The model keeps that order, so a refused header leaves the replaced rows in place.
- MockData: the seed INSERTs for categories, suppliers and customers are not modelled row by row. Only the stock column and the order and shipment rows the reconciliation reads are.
- MockData: each UPDATE is modelled as visiting the rows in product-id order. A statement that fails changes no row, so the visiting order matters only for which error is reported when several rows fail.
- MockData: the sequence resets in `down` (`ALTER SEQUENCE ... RESTART`) are left out. They change no row.
- The `down` of the schema migration (DROP TABLE ... CASCADE) is left out. It removes the tables themselves, not their rows.
- The connection string pastes the user, password, host and name in without percent-encoding, and the model does the same. `NameReadsBack` and `PortReadsBack` therefore hold only for parts without a slash (the name) or in the no-name case (the port).
