/**
 * The amounts the point-of-sale screen derives from a cart and a discount
 * percentage: subtotal, 10% tax, discount amount and grand total. Money is
 * exact (real); the two-decimal rounding of the display is not part of it.
 */
module Totals {
  import opened Menu
  import opened Carts

  /** The tax rate applied to every order. */
  const TaxRate: real := 0.1

  /** What one line costs: its price times its quantity. */
  function LineTotal(l: Line): real {
    l.price * l.quantity as real
  }

  /** The sum of the line totals, folded from the first line to the last. */
  function Subtotal(c: Cart): real {
    if c == [] then 0.0 else Subtotal(c[..|c| - 1]) + LineTotal(c[|c| - 1])
  }

  function Tax(c: Cart): real {
    Subtotal(c) * TaxRate
  }

  /** The amount the discount percentage takes off the subtotal. */
  function DiscountAmount(c: Cart, discount: real): real {
    Subtotal(c) * discount / 100.0
  }

  function Total(c: Cart, discount: real): real {
    Subtotal(c) + Tax(c) - DiscountAmount(c, discount)
  }

  /** The subtotal of two carts laid end to end is the sum of their subtotals. */
  lemma {:induction false} SubtotalAppend(a: Cart, b: Cart)
    ensures Subtotal(a + b) == Subtotal(a) + Subtotal(b)
  {
    if b != [] {
      var ab := a + b;
      assert ab[..|ab| - 1] == a + b[..|b| - 1];
      assert ab[|ab| - 1] == b[|b| - 1];
      SubtotalAppend(a, b[..|b| - 1]);
    } else {
      assert a + b == a;
    }
  }

  /** Lines at non-negative prices with positive quantities never sum below zero. */
  lemma {:induction false} SubtotalNonNegative(c: Cart)
    requires Positive(c)
    requires forall i :: 0 <= i < |c| ==> c[i].price >= 0.0
    ensures Subtotal(c) >= 0.0
  {
    if c != [] {
      var init := c[..|c| - 1];
      assert forall i :: 0 <= i < |init| ==> init[i] == c[i];
      SubtotalNonNegative(init);
      var last := c[|c| - 1];
      assert last.price * last.quantity as real >= 0.0;
    }
  }

  /** Replacing one line changes the subtotal by the difference of the two line totals. */
  lemma SubtotalUpdate(c: Cart, k: int, l: Line)
    requires 0 <= k < |c|
    ensures Subtotal(c[k := l]) == Subtotal(c) - LineTotal(c[k]) + LineTotal(l)
  {
    var before, after := c[..k], c[k + 1..];
    assert c == (before + [c[k]]) + after;
    assert c[k := l] == (before + [l]) + after;
    SubtotalAppend(before + [c[k]], after);
    SubtotalAppend(before + [l], after);
    SubtotalAppend(before, [c[k]]);
    SubtotalAppend(before, [l]);
    assert [c[k]][..0] == [] && [l][..0] == [];
  }

  /** Ordering one more of line k adds one unit price of that line. */
  lemma SubtotalBump(c: Cart, k: int)
    requires 0 <= k < |c|
    ensures Subtotal(c[k := c[k].(quantity := c[k].quantity + 1)]) == Subtotal(c) + c[k].price
  {
    var bumped := c[k].(quantity := c[k].quantity + 1);
    SubtotalUpdate(c, k, bumped);
    BumpedLineTotal(c[k]);
  }

  /** One more of a line costs one more unit price. */
  lemma BumpedLineTotal(l: Line)
    ensures LineTotal(l.(quantity := l.quantity + 1)) == LineTotal(l) + l.price
  {
    OneMore(l.price, l.quantity as real);
    assert (l.quantity + 1) as real == l.quantity as real + 1.0;
  }

  lemma OneMore(price: real, quantity: real)
    ensures price * (quantity + 1.0) == price * quantity + price
  {
  }

  /**
   * One "Add" raises the subtotal by one unit price: that of the line already
   * in the cart, or that of the item when a new line is appended.
   */
  lemma SubtotalAfterAdd(c: Cart, item: MenuItem)
    requires Unique(c)
    ensures HasId(c, item.id) ==>
              Subtotal(AddToCart(c, item)) == Subtotal(c) + Find(c, item.id).value.price
    ensures !HasId(c, item.id) ==>
              Subtotal(AddToCart(c, item)) == Subtotal(c) + item.price
  {
    if HasId(c, item.id) {
      var line := Find(c, item.id).value;
      var k :| 0 <= k < |c| && c[k] == line;
      AddExisting(c, item, k);
      SubtotalBump(c, k);
    } else {
      SubtotalAppend(c, [NewLine(item)]);
      assert [NewLine(item)][..0] == [];
    }
  }

  /** Adding a catalogue item to a cart made from the catalogue raises the subtotal by its price. */
  lemma SubtotalAfterAddFromMenu(c: Cart, item: MenuItem)
    requires WellFormed(c) && FromMenu(c, Items) && item in Items
    ensures Subtotal(AddToCart(c, item)) == Subtotal(c) + item.price
  {
    SubtotalAfterAdd(c, item);
    if HasId(c, item.id) {
      var line := Find(c, item.id).value;
      var j :| 0 <= j < |c| && c[j] == line;
      assert InMenu(c[j], Items);
      var m :| m in Items && Describes(c[j], m);
      ItemsWellFormed();
      SameIdSameItem(Items, m, item);
    }
  }

  /** Removing an item from a cart with one line per item takes exactly its line total off. */
  lemma SubtotalAfterRemove(c: Cart, id: int, k: int)
    requires Unique(c) && 0 <= k < |c| && c[k].id == id
    ensures Subtotal(RemoveFromCart(c, id)) == Subtotal(c) - LineTotal(c[k])
  {
    RemoveAt(c, id, k);
    var before, after := c[..k], c[k + 1..];
    assert c == (before + [c[k]]) + after;
    SubtotalAppend(before + [c[k]], after);
    SubtotalAppend(before, [c[k]]);
    SubtotalAppend(before, after);
    assert [c[k]][..0] == [];
  }

  /**
   * The grand total is the subtotal plus a tenth of it minus the discount
   * share of it; for a discount in 0..100 the discount amount lies between 0
   * and the subtotal and the total is at least the tax.
   */
  lemma TotalBreakdown(c: Cart, discount: real)
    ensures Tax(c) == Subtotal(c) / 10.0
    ensures Total(c, discount) == Subtotal(c) + Tax(c) - DiscountAmount(c, discount)
    ensures Total(c, discount) == Subtotal(c) * (110.0 - discount) / 100.0
    ensures Subtotal(c) >= 0.0 && 0.0 <= discount <= 100.0 ==>
              0.0 <= DiscountAmount(c, discount) <= Subtotal(c) && Total(c, discount) >= Tax(c)
  {
    var s := Subtotal(c);
    if s >= 0.0 && 0.0 <= discount <= 100.0 {
      Scale(s, discount, 100.0);
      Scale(s, 0.0, discount);
    }
  }

  /**
   * The total of a non-empty order goes negative exactly when the discount
   * exceeds 110 percent, because the tax offsets the first 10 percent.
   */
  lemma TotalNegative(c: Cart, discount: real)
    requires Subtotal(c) > 0.0
    ensures Total(c, discount) < 0.0 <==> discount > 110.0
  {
    var s := Subtotal(c);
    if discount > 110.0 {
      ScaleStrict(s, 110.0, discount);
    } else {
      Scale(s, discount, 110.0);
    }
  }

  lemma Scale(s: real, a: real, b: real)
    requires s >= 0.0 && a <= b
    ensures s * a <= s * b
  {
  }

  lemma ScaleStrict(s: real, a: real, b: real)
    requires s > 0.0 && a < b
    ensures s * a < s * b
  {
  }

  /**
   * Two Pizzas and a Coke at a 10 percent discount: 450 subtotal, 45 tax,
   * 45 off, 450 to pay.
   */
  lemma PizzaAndCokeExample()
    ensures AddAll([], [Pizza, Pizza, Coke]) == [Line(1, "Pizza", 200.0, 2), Line(3, "Coke", 50.0, 1)]
    ensures var c := [Line(1, "Pizza", 200.0, 2), Line(3, "Coke", 50.0, 1)];
            Subtotal(c) == 450.0 && Tax(c) == 45.0
            && DiscountAmount(c, 10.0) == 45.0 && Total(c, 10.0) == 450.0
  {
    var items := [Pizza, Pizza, Coke];
    assert items[..2] == [Pizza, Pizza] && [Pizza, Pizza][..1] == [Pizza] && [Pizza][..0] == [];
    var c1 := AddToCart([], Pizza);
    assert c1 == [NewLine(Pizza)];
    assert AddAll([], [Pizza]) == c1;
    var c2 := AddToCart(c1, Pizza);
    AddExisting(c1, Pizza, 0);
    assert c2 == [Line(1, "Pizza", 200.0, 2)];
    assert AddAll([], [Pizza, Pizza]) == c2;
    var c3 := AddToCart(c2, Coke);
    assert !HasId(c2, Coke.id);
    assert c3 == [Line(1, "Pizza", 200.0, 2), Line(3, "Coke", 50.0, 1)];
    assert AddAll([], items) == c3;
    assert c3[..1] == c2 && c2[..0] == [];
    assert Subtotal(c2) == 400.0;
    assert Subtotal(c3) == Subtotal(c2) + 50.0;
  }
}
