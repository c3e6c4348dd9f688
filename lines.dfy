/**
 * The lines of a create or update request. Orders and shipments take their items
 * the same way: one line per product, each inserted as a row keyed by the document
 * and the product, so a second line for the same product is refused by the
 * primary key. What is proved here is shared by both services.
 */
module LineItems {
  import opened Base
  import opened Errors
  import opened Schema

  /**
   * A requested line: the product, a quantity and a unit amount (the unit price of
   * an order line, the unit cost of a shipment line).
   */
  datatype LineItem = LineItem(productId: int, quantity: i32, unitAmount: int)

  /** Some line of `lines` is for product `productId`. */
  predicate Mentions(lines: seq<LineItem>, productId: int) {
    exists j :: 0 <= j < |lines| && lines[j].productId == productId
  }

  /** The total quantity of product `productId` that `lines` carry. */
  function Quantity(lines: seq<LineItem>, productId: int): int
    decreases |lines|
  {
    if lines == [] then 0
    else
      var last := lines[|lines| - 1];
      Quantity(lines[..|lines| - 1], productId) + (if last.productId == productId then last.quantity else 0)
  }

  /**
   * What the database answers to the insert of `line` into a document whose only
   * rows so far are those of `earlier`: the CHECK clauses of the item table, then
   * the primary key (the product already has a row in this document), then the
   * product foreign key.
   */
  function ItemInsertError(products: map<int, Product>, earlier: seq<LineItem>, line: LineItem): Option<DbErr> {
    if !(line.quantity > 0 && line.unitAmount >= 0) then Some(CheckViolation)
    else if Mentions(earlier, line.productId) then Some(UniqueViolation)
    else if line.productId !in products then Some(ForeignKeyViolation)
    else None
  }

  /** The first `n` lines all insert, one after the other, into a document without rows. */
  predicate InsertsUpTo(products: map<int, Product>, lines: seq<LineItem>, n: nat)
    requires n <= |lines|
  {
    forall k :: 0 <= k < n ==> ItemInsertError(products, lines[..k], lines[k]).None?
  }

  /** No two lines name the same product. */
  predicate Distinct(lines: seq<LineItem>) {
    forall j, k :: 0 <= j < k < |lines| ==> lines[j].productId != lines[k].productId
  }

  /** A product is mentioned by `lines` exactly when it is by all but the last line, or by the last. */
  lemma MentionsInit(lines: seq<LineItem>, productId: int)
    requires lines != []
    ensures Mentions(lines, productId) <==>
      Mentions(lines[..|lines| - 1], productId) || lines[|lines| - 1].productId == productId
  {
    var init := lines[..|lines| - 1];
    if Mentions(lines, productId) {
      var j :| 0 <= j < |lines| && lines[j].productId == productId;
      if j < |lines| - 1 {
        assert init[j] == lines[j];
      }
    }
    if Mentions(init, productId) {
      var j :| 0 <= j < |init| && init[j].productId == productId;
      assert lines[j] == init[j];
    }
  }

  /** A product that no line names is carried in quantity zero. */
  lemma {:induction false} QuantityUnmentioned(lines: seq<LineItem>, productId: int)
    requires !Mentions(lines, productId)
    ensures Quantity(lines, productId) == 0
    decreases |lines|
  {
    if lines != [] {
      MentionsInit(lines, productId);
      QuantityUnmentioned(lines[..|lines| - 1], productId);
    }
  }

  /** Lines that all insert name pairwise different products. */
  lemma InsertedLinesDistinct(products: map<int, Product>, lines: seq<LineItem>)
    requires InsertsUpTo(products, lines, |lines|)
    ensures Distinct(lines)
  {
    forall j, k | 0 <= j < k < |lines| ensures lines[j].productId != lines[k].productId {
      assert ItemInsertError(products, lines[..k], lines[k]).None?;
      assert lines[..k][j] == lines[j];
    }
  }

  /** In lines naming different products, the quantity of a line's product is that line's quantity. */
  lemma {:induction false} QuantityOfDistinct(lines: seq<LineItem>, k: nat)
    requires Distinct(lines)
    requires k < |lines|
    ensures Quantity(lines, lines[k].productId) == lines[k].quantity
    decreases |lines|
  {
    var n := |lines| - 1;
    var init := lines[..n];
    assert Distinct(init) by {
      forall i, j | 0 <= i < j < |init| ensures init[i].productId != init[j].productId {
        assert init[i] == lines[i] && init[j] == lines[j];
      }
    }
    if k == n {
      assert !Mentions(init, lines[k].productId) by {
        forall j | 0 <= j < |init| ensures init[j].productId != lines[k].productId {
          assert init[j] == lines[j];
        }
      }
      QuantityUnmentioned(init, lines[k].productId);
    } else {
      assert init[k] == lines[k];
      QuantityOfDistinct(init, k);
    }
  }

  /** One more line inserted. */
  lemma InsertsExtend(products: map<int, Product>, lines: seq<LineItem>, i: nat)
    requires i < |lines|
    requires InsertsUpTo(products, lines, i) && ItemInsertError(products, lines[..i], lines[i]).None?
    ensures InsertsUpTo(products, lines, i + 1)
  {
  }

  /** What the inserts of `lines[from..]`, one after the other, first fail with; None when all of them go in. */
  function FirstInsertError(products: map<int, Product>, lines: seq<LineItem>, from: nat): Option<DbErr>
    requires from <= |lines|
    decreases |lines| - from
  {
    if from == |lines| then None
    else if ItemInsertError(products, lines[..from], lines[from]).Some? then ItemInsertError(products, lines[..from], lines[from])
    else FirstInsertError(products, lines, from + 1)
  }

  /**
   * Once the first `from` lines have gone in, the run fails exactly when some later
   * line does not insert, and then with the error of the first such line.
   */
  lemma {:induction false} FirstInsertErrorMeaning(products: map<int, Product>, lines: seq<LineItem>, from: nat)
    requires from <= |lines|
    requires InsertsUpTo(products, lines, from)
    ensures FirstInsertError(products, lines, from).None? <==> InsertsUpTo(products, lines, |lines|)
    ensures FirstInsertError(products, lines, from).Some? ==>
      exists k :: from <= k < |lines| && InsertsUpTo(products, lines, k) && ItemInsertError(products, lines[..k], lines[k]) == FirstInsertError(products, lines, from)
    decreases |lines| - from
  {
    if from < |lines| {
      if ItemInsertError(products, lines[..from], lines[from]).None? {
        InsertsExtend(products, lines, from);
        FirstInsertErrorMeaning(products, lines, from + 1);
      }
    }
  }
}
