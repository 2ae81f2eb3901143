/**
 The derived cart total. A line's total is its product's price at the time
 of reading times its quantity; a cart's total is the sum of its lines'
 totals. Prices are whole cents, so the arithmetic is exact.
 */
module Pricing {
  import opened Fields
  import opened Schema
  import opened Sums
  import opened Cascade
  import opened Writes

  /** Line `i` can be priced: it exists and its product exists. */
  predicate Priceable(db: Db, i: Id) {
    i in db.items && db.items[i].product in db.products
  }

  /** The source's `CarItem.get_total_price`. */
  function LineTotal(db: Db, i: Id): int
    requires Priceable(db, i)
  {
    db.products[db.items[i].product].price * db.items[i].quantity
  }

  /** Line totals as a total function of the key (0 off the table). */
  ghost function Lines(db: Db): Id -> int {
    (i: Id) => if Priceable(db, i) then LineTotal(db, i) else 0
  }

  /** Units of product `p` on line `i` (0 when the line is of another
      product). */
  ghost function UnitsOf(db: Db, p: Id): Id -> int {
    (i: Id) => if i in db.items && db.items[i].product == p then db.items[i].quantity else 0
  }

  /** The source's `cart.items`: the lines that reference cart `c`. */
  function ItemsOf(db: Db, c: Id): set<Id> {
    set i | i in db.items && db.items[i].cart == c
  }

  /** Every line of cart `c` references an existing product. */
  ghost predicate CartPriceable(db: Db, c: Id) {
    forall i :: i in ItemsOf(db, c) ==> Priceable(db, i)
  }

  /** The value `Cart.get_total_price` denotes. */
  ghost function CartTotal(db: Db, c: Id): int {
    Sum(ItemsOf(db, c), Lines(db))
  }

  /** How many units of product `p` cart `c` holds over all its lines. */
  ghost function Units(db: Db, c: Id, p: Id): int {
    Sum(ItemsOf(db, c), UnitsOf(db, p))
  }

  /** `Cart.get_total_price`: adds up the line totals one line at a time,
      in whatever order the lines come. */
  method GetTotalPrice(db: Db, c: Id) returns (total: int)
    requires CartPriceable(db, c)
    ensures total == CartTotal(db, c)
  {
    var todo := ItemsOf(db, c);
    total := 0;
    while todo != {}
      invariant todo <= ItemsOf(db, c)
      invariant total + Sum(todo, Lines(db)) == CartTotal(db, c)
      decreases todo
    {
      var i :| i in todo;
      SumPick(todo, Lines(db), i);
      total := total + LineTotal(db, i);
      todo := todo - {i};
    }
  }

  /** A cart without lines totals 0. */
  lemma EmptyCartTotal(db: Db, c: Id)
    requires forall i :: i in db.items ==> db.items[i].cart != c
    ensures CartTotal(db, c) == 0
  {
    assert ItemsOf(db, c) == {};
  }

  /** Adding a line to a cart raises that cart's total by the line's price
      times quantity and leaves every other cart's total as it was. */
  lemma AddItemTotal(db: Db, id: Id, it: CartItem, c: Id)
    requires AddItem(db, id, it).Ok?
    ensures var d := AddItem(db, id, it).value;
      CartTotal(d, c) ==
        CartTotal(db, c) + (if c == it.cart then db.products[it.product].price * it.quantity else 0)
  {
    var d := AddItem(db, id, it).value;
    var old_ := ItemsOf(db, c);
    forall i | i in old_ ensures Lines(d)(i) == Lines(db)(i) {
      assert i != id;
    }
    SumAgree(old_, Lines(d), Lines(db));
    if c == it.cart {
      assert ItemsOf(d, c) == old_ + {id};
      SumPick(ItemsOf(d, c), Lines(d), id);
      assert ItemsOf(d, c) - {id} == old_;
    } else {
      assert ItemsOf(d, c) == old_;
    }
  }

  /** A line's total reads its product's price at the time of reading:
      after a reprice of `p`, each line of `p` totals the new price times
      its quantity, and every other line totals what it did. */
  lemma RepriceLine(db: Db, p: Id, cents: int, i: Id)
    requires SetPrice(db, p, cents).Ok?
    requires Priceable(db, i)
    ensures var d := SetPrice(db, p, cents).value;
      && Priceable(d, i)
      && LineTotal(d, i) == (if db.items[i].product == p then cents * db.items[i].quantity else LineTotal(db, i))
  {
  }

  /** The total reads the product's price at the time of reading: repricing
      a product shifts every cart's total by the price difference times the
      units of that product in the cart. */
  lemma RepriceTotal(db: Db, p: Id, cents: int, c: Id)
    requires SetPrice(db, p, cents).Ok?
    ensures var d := SetPrice(db, p, cents).value;
      CartTotal(d, c) == CartTotal(db, c) + (cents - db.products[p].price) * Units(db, c, p)
  {
    var d := SetPrice(db, p, cents).value;
    var k := cents - db.products[p].price;
    assert ItemsOf(d, c) == ItemsOf(db, c);
    forall i | i in ItemsOf(db, c)
      ensures Lines(d)(i) == Lines(db)(i) + k * UnitsOf(db, p)(i)
    {
      if db.items[i].product == p {
        var q := db.items[i].quantity;
        assert cents * q == db.products[p].price * q + k * q;
      }
    }
    SumLinear(ItemsOf(db, c), Lines(db), UnitsOf(db, p), Lines(d), k);
  }

  /** Deleting a product cascades to the lines that reference it, so every
      cart's total drops by that product's price times its units there. */
  lemma DeleteProductTotal(db: Db, p: Id, c: Id)
    requires p in db.products
    requires CartPriceable(db, c)
    ensures CartTotal(Delete(db, Ref(Products, p)), c) == CartTotal(db, c) - db.products[p].price * Units(db, c, p)
  {
    DeleteProductLines(db, p);
    DropProductTotal(db, Delete(db, Ref(Products, p)), p, c);
  }

  /** The total of a cart in a store `d` that lacks exactly the lines of
      product `p` and the product itself. */
  lemma DropProductTotal(db: Db, d: Db, p: Id, c: Id)
    requires p in db.products
    requires CartPriceable(db, c)
    requires forall i :: i in d.items <==> i in db.items && db.items[i].product != p
    requires forall i :: i in d.items ==> d.items[i] == db.items[i]
    requires d.products == db.products - {p}
    ensures CartTotal(d, c) == CartTotal(db, c) - db.products[p].price * Units(db, c, p)
  {
    var k := -db.products[p].price;
    var all := ItemsOf(db, c);
    DropProductLines(db, d, p, c);
    DropProductZeros(db, d, p, c);
    SumShift(all, ItemsOf(d, c), Lines(db), UnitsOf(db, p), Lines(d), k);
    NegateFactor(db.products[p].price, Units(db, c, p));
  }

  lemma NegateFactor(a: int, b: int)
    ensures -a * b == -(a * b)
  {
  }

  /** Line by line, dropping product `p` takes its price times the units
      of `p` off each line of cart `c`. */
  lemma DropProductLines(db: Db, d: Db, p: Id, c: Id)
    requires p in db.products
    requires CartPriceable(db, c)
    requires forall i :: i in d.items <==> i in db.items && db.items[i].product != p
    requires forall i :: i in d.items ==> d.items[i] == db.items[i]
    requires d.products == db.products - {p}
    ensures forall i :: i in ItemsOf(db, c) ==>
      Lines(d)(i) == Lines(db)(i) + -db.products[p].price * UnitsOf(db, p)(i)
  {
    var k := -db.products[p].price;
    forall i | i in ItemsOf(db, c)
      ensures Lines(d)(i) == Lines(db)(i) + k * UnitsOf(db, p)(i)
    {
      var q := db.items[i].quantity;
      if db.items[i].product == p {
        assert Lines(d)(i) == 0;
        assert Lines(db)(i) == db.products[p].price * q;
        assert UnitsOf(db, p)(i) == q;
        assert db.products[p].price * q + k * q == 0;
      } else {
        assert Lines(d)(i) == Lines(db)(i);
        assert UnitsOf(db, p)(i) == 0;
      }
    }
  }

  /** The lines of cart `c` that `d` lacks are worth nothing in `d`. */
  lemma DropProductZeros(db: Db, d: Db, p: Id, c: Id)
    requires forall i :: i in d.items <==> i in db.items && db.items[i].product != p
    requires forall i :: i in d.items ==> d.items[i] == db.items[i]
    ensures ItemsOf(d, c) <= ItemsOf(db, c)
    ensures forall i :: i in ItemsOf(db, c) - ItemsOf(d, c) ==> Lines(d)(i) == 0
  {
    forall i | i in ItemsOf(db, c) - ItemsOf(d, c) ensures Lines(d)(i) == 0 {
      assert i !in d.items;
    }
  }

  /** After deleting product `p`, exactly its lines are gone and the other
      products are as they were. */
  lemma DeleteProductLines(db: Db, p: Id)
    ensures var d := Delete(db, Ref(Products, p));
      && (forall i :: i in d.items <==> i in db.items && db.items[i].product != p)
      && (forall i :: i in d.items ==> d.items[i] == db.items[i])
      && d.products == db.products - {p}
  {
    var t := Ref(Products, p);
    var d := Delete(db, t);
    assert DoomedStores(db, t) == {};
    assert DoomedCarts(db, t) == {};
    assert DoomedProducts(db, t) == {p};
    assert d.items == db.items - DoomedItems(db, t);
    assert d.products == db.products - DoomedProducts(db, t);
    forall i ensures i in DoomedItems(db, t) <==> i in db.items && db.items[i].product == p {
    }
  }

  /** A store with one cart holding 2 units at 10.00 and 1 unit at 5.50. */
  function ExampleDb(): Db {
    Empty.(
      users := map[1 := User()],
      categories := map[1 := Category("Food")],
      stores := map[1 := Store("Shop", None, 1, "shop.png", 1, "Main street 1")],
      products := map[1 := Product("Soup", "Hot", 1000, 1, "soup.png", 1), 2 := Product("Tea", "Green", 550, 1, "tea.png", 1)],
      carts := map[1 := Cart(1)],
      items := map[1 := CartItem(1, 1, 2), 2 := CartItem(1, 2, 1)])
  }

  /** Two lines, 10.00 x 2 and 5.50 x 1, total 25.50. */
  lemma ExampleTotal()
    ensures CartTotal(ExampleDb(), 1) == 2550
  {
    var db := ExampleDb();
    assert ItemsOf(db, 1) == {1, 2};
    SumPick({1, 2}, Lines(db), 1);
    assert {1, 2} - {1} == {2};
    SumPick({2}, Lines(db), 2);
    assert {2} - {2} == {};
  }
}
