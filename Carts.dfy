/**
 * The cart of the point-of-sale screen: an ordered list of lines, each a
 * menu item's fields together with a quantity, and the three list
 * transforms the screen applies to it (add one of an item, remove an item,
 * set an item's quantity).
 */
module Carts {
  import opened Wrappers
  import opened Menu

  /** A cart line: the spread of a menu item plus how many were ordered. */
  datatype Line = Line(id: int, name: string, price: real, quantity: int)

  type Cart = seq<Line>

  /** The line a first "Add" creates: the item's fields with quantity 1. */
  function NewLine(item: MenuItem): Line {
    Line(item.id, item.name, item.price, 1)
  }

  predicate HasId(c: Cart, id: int) {
    exists i :: 0 <= i < |c| && c[i].id == id
  }

  /** No two lines carry the same item id. */
  predicate Unique(c: Cart) {
    forall i, j :: 0 <= i < j < |c| ==> c[i].id != c[j].id
  }

  /** Every line has been ordered at least once. */
  predicate Positive(c: Cart) {
    forall i :: 0 <= i < |c| ==> c[i].quantity >= 1
  }

  /** The invariant the screen keeps: one line per item, each with quantity at least 1. */
  predicate WellFormed(c: Cart) {
    Unique(c) && Positive(c)
  }

  /** The line carries the id, name and price of the catalogue entry. */
  predicate Describes(l: Line, m: MenuItem) {
    l.id == m.id && l.name == m.name && l.price == m.price
  }

  /** The line was made from some entry of the catalogue. */
  predicate InMenu(l: Line, menu: seq<MenuItem>) {
    exists m :: m in menu && Describes(l, m)
  }

  /** Every line was made from an entry of the given catalogue. */
  predicate FromMenu(c: Cart, menu: seq<MenuItem>) {
    forall i :: 0 <= i < |c| ==> InMenu(c[i], menu)
  }

  /** A line with the given id, searched from the front as the source's array search does. */
  function Find(c: Cart, id: int): (r: Option<Line>)
    ensures r.Some? <==> HasId(c, id)
    ensures r.Some? ==> r.value in c && r.value.id == id
  {
    if c == [] then None
    else if c[0].id == id then Some(c[0])
    else
      var rest := c[1..];
      assert HasId(c, id) ==> HasId(rest, id) by {
        if HasId(c, id) {
          var i :| 0 <= i < |c| && c[i].id == id;
          assert rest[i - 1] == c[i];
        }
      }
      Find(rest, id)
  }

  /** The line found is the first one carrying the id. */
  lemma {:induction false} FindFirst(c: Cart, id: int, j: int)
    requires 0 <= j < |c| && c[j].id == id
    requires forall i :: 0 <= i < j ==> c[i].id != id
    ensures Find(c, id) == Some(c[j])
  {
    if j > 0 {
      var rest := c[1..];
      assert forall i :: 0 <= i < j - 1 ==> rest[i] == c[i + 1];
      FindFirst(rest, id, j - 1);
    }
  }

  /** Add one of the item: bump every line with its id, or append a fresh line. */
  function AddToCart(c: Cart, item: MenuItem): Cart {
    if Find(c, item.id).Some? then
      seq(|c|, i requires 0 <= i < |c| =>
            if c[i].id == item.id then c[i].(quantity := c[i].quantity + 1) else c[i])
    else
      c + [NewLine(item)]
  }

  /** Keep exactly the lines whose id differs, in their order. */
  function RemoveFromCart(c: Cart, id: int): Cart {
    if c == [] then []
    else (if c[0].id != id then [c[0]] else []) + RemoveFromCart(c[1..], id)
  }

  /** Below 1 the line goes; otherwise every line with the id gets the new quantity. */
  function UpdateQuantity(c: Cart, id: int, newQuantity: int): Cart {
    if newQuantity < 1 then RemoveFromCart(c, id)
    else
      seq(|c|, i requires 0 <= i < |c| =>
            if c[i].id == id then c[i].(quantity := newQuantity) else c[i])
  }

  // ---------------------------------------------------------------------
  // Adding

  /** Adding an item already in the cart bumps that one line and touches nothing else. */
  lemma AddExisting(c: Cart, item: MenuItem, k: int)
    requires Unique(c) && 0 <= k < |c| && c[k].id == item.id
    ensures AddToCart(c, item) == c[k := c[k].(quantity := c[k].quantity + 1)]
  {
    assert HasId(c, item.id);
    var r := AddToCart(c, item);
    forall i | 0 <= i < |c| && i != k ensures r[i] == c[i] {
      if i < k { assert c[i].id != c[k].id; } else { assert c[k].id != c[i].id; }
    }
  }

  /** Adding an item not yet in the cart appends one line with quantity 1 at the end. */
  lemma AddAbsent(c: Cart, item: MenuItem)
    requires !HasId(c, item.id)
    ensures AddToCart(c, item) == c + [NewLine(item)]
    ensures |AddToCart(c, item)| == |c| + 1
  {
  }

  lemma AddPreservesWellFormed(c: Cart, item: MenuItem)
    requires WellFormed(c)
    ensures WellFormed(AddToCart(c, item))
  {
    if HasId(c, item.id) {
      var k :| 0 <= k < |c| && c[k].id == item.id;
      AddExisting(c, item, k);
    } else {
      var r := AddToCart(c, item);
      forall i, j | 0 <= i < j < |r| ensures r[i].id != r[j].id {
        if j == |c| { assert r[i] == c[i]; }
      }
    }
  }

  lemma AddPreservesFromMenu(c: Cart, item: MenuItem, menu: seq<MenuItem>)
    requires FromMenu(c, menu) && item in menu
    ensures FromMenu(AddToCart(c, item), menu)
  {
    var r := AddToCart(c, item);
    forall i | 0 <= i < |r| ensures InMenu(r[i], menu) {
      if i < |c| {
        var m :| m in menu && Describes(c[i], m);
        assert Describes(r[i], m);
      } else {
        assert Describes(r[i], item);
      }
    }
  }

  // ---------------------------------------------------------------------
  // Removing

  /** A line survives removal exactly when it was there and has another id. */
  lemma {:induction false} RemoveMembers(c: Cart, id: int)
    ensures forall l :: l in RemoveFromCart(c, id) <==> l in c && l.id != id
    ensures !HasId(RemoveFromCart(c, id), id)
    ensures |RemoveFromCart(c, id)| <= |c|
  {
    if c != [] {
      RemoveMembers(c[1..], id);
      assert c == [c[0]] + c[1..];
    }
  }

  /** Removal distributes over concatenation, so the remaining lines keep their order. */
  lemma {:induction false} RemoveConcat(a: Cart, b: Cart, id: int)
    ensures RemoveFromCart(a + b, id) == RemoveFromCart(a, id) + RemoveFromCart(b, id)
  {
    if a != [] {
      var ab := a + b;
      var head := if a[0].id != id then [a[0]] else [];
      assert ab[0] == a[0] && ab[1..] == a[1..] + b;
      RemoveConcat(a[1..], b, id);
      calc {
        RemoveFromCart(ab, id);
        head + RemoveFromCart(a[1..] + b, id);
        head + (RemoveFromCart(a[1..], id) + RemoveFromCart(b, id));
        (head + RemoveFromCart(a[1..], id)) + RemoveFromCart(b, id);
        RemoveFromCart(a, id) + RemoveFromCart(b, id);
      }
    } else {
      assert a + b == b;
    }
  }

  /** Removing an id that is absent leaves the cart as it was. */
  lemma {:induction false} RemoveAbsent(c: Cart, id: int)
    requires !HasId(c, id)
    ensures RemoveFromCart(c, id) == c
  {
    if c != [] {
      var rest := c[1..];
      assert !HasId(rest, id) by {
        forall i | 0 <= i < |rest| ensures rest[i].id != id { assert rest[i] == c[i + 1]; }
      }
      RemoveAbsent(rest, id);
      assert c[0].id != id;
      assert c == [c[0]] + c[1..];
    }
  }

  /** In a cart with one line per item, the id of line k occurs nowhere before or after it. */
  lemma IdOnlyAt(c: Cart, k: int)
    requires Unique(c) && 0 <= k < |c|
    ensures !HasId(c[..k], c[k].id) && !HasId(c[k + 1..], c[k].id)
  {
    var before, after := c[..k], c[k + 1..];
    forall i | 0 <= i < |before| ensures before[i].id != c[k].id {
      assert before[i] == c[i];
    }
    forall i | 0 <= i < |after| ensures after[i].id != c[k].id {
      assert after[i] == c[k + 1 + i];
    }
  }

  /** In a cart with one line per item, removal cuts out exactly that line. */
  lemma RemoveAt(c: Cart, id: int, k: int)
    requires Unique(c) && 0 <= k < |c| && c[k].id == id
    ensures RemoveFromCart(c, id) == c[..k] + c[k + 1..]
  {
    var before, after := c[..k], c[k + 1..];
    assert c == before + ([c[k]] + after);
    IdOnlyAt(c, k);
    RemoveConcat(before, [c[k]] + after, id);
    RemoveConcat([c[k]], after, id);
    RemoveAbsent(before, id);
    RemoveAbsent(after, id);
    assert RemoveFromCart([c[k]], id) == [] by {
      assert [c[k]][1..] == [];
    }
    calc {
      RemoveFromCart(c, id);
      RemoveFromCart(before, id) + RemoveFromCart([c[k]] + after, id);
      before + (RemoveFromCart([c[k]], id) + RemoveFromCart(after, id));
      before + ([] + after);
      { assert [] + after == after; }
      before + after;
    }
  }

  lemma RemovePreservesWellFormed(c: Cart, id: int)
    requires WellFormed(c)
    ensures WellFormed(RemoveFromCart(c, id))
  {
    if HasId(c, id) {
      var k :| 0 <= k < |c| && c[k].id == id;
      RemoveAt(c, id, k);
      var r := RemoveFromCart(c, id);
      forall i, j | 0 <= i < j < |r| ensures r[i].id != r[j].id {
        var i' := if i < k then i else i + 1;
        var j' := if j < k then j else j + 1;
        assert r[i] == c[i'] && r[j] == c[j'];
      }
      forall i | 0 <= i < |r| ensures r[i].quantity >= 1 {
        assert r[i] == c[if i < k then i else i + 1];
      }
    } else {
      RemoveAbsent(c, id);
    }
  }

  lemma RemovePreservesFromMenu(c: Cart, id: int, menu: seq<MenuItem>)
    requires FromMenu(c, menu)
    ensures FromMenu(RemoveFromCart(c, id), menu)
  {
    RemoveMembers(c, id);
    var r := RemoveFromCart(c, id);
    forall i | 0 <= i < |r| ensures InMenu(r[i], menu) {
      assert r[i] in c;
      var j :| 0 <= j < |c| && c[j] == r[i];
      assert InMenu(c[j], menu);
    }
  }

  // ---------------------------------------------------------------------
  // Setting a quantity

  /** A new quantity below 1 removes the item, exactly as removal does. */
  lemma UpdateBelowOne(c: Cart, id: int, newQuantity: int)
    requires newQuantity < 1
    ensures UpdateQuantity(c, id, newQuantity) == RemoveFromCart(c, id)
    ensures !HasId(UpdateQuantity(c, id, newQuantity), id)
    ensures forall l :: l in UpdateQuantity(c, id, newQuantity) <==> l in c && l.id != id
  {
    RemoveMembers(c, id);
  }

  /** A quantity of at least 1 replaces that line's quantity where it stands. */
  lemma UpdateAt(c: Cart, id: int, newQuantity: int, k: int)
    requires Unique(c) && 0 <= k < |c| && c[k].id == id && newQuantity >= 1
    ensures UpdateQuantity(c, id, newQuantity) == c[k := c[k].(quantity := newQuantity)]
  {
    var r := UpdateQuantity(c, id, newQuantity);
    forall i | 0 <= i < |c| && i != k ensures r[i] == c[i] {
      if i < k { assert c[i].id != c[k].id; } else { assert c[k].id != c[i].id; }
    }
  }

  /** Setting the quantity of an item that is not in the cart changes nothing. */
  lemma UpdateAbsent(c: Cart, id: int, newQuantity: int)
    requires !HasId(c, id)
    ensures UpdateQuantity(c, id, newQuantity) == c
  {
    if newQuantity < 1 {
      RemoveAbsent(c, id);
    } else {
      var r := UpdateQuantity(c, id, newQuantity);
      forall i | 0 <= i < |c| ensures r[i] == c[i] {
        assert c[i].id != id;
      }
    }
  }

  lemma UpdatePreservesWellFormed(c: Cart, id: int, newQuantity: int)
    requires WellFormed(c)
    ensures WellFormed(UpdateQuantity(c, id, newQuantity))
  {
    if newQuantity < 1 {
      RemovePreservesWellFormed(c, id);
    } else {
      var r := UpdateQuantity(c, id, newQuantity);
      assert forall i :: 0 <= i < |r| ==> r[i].id == c[i].id;
    }
  }

  lemma UpdatePreservesFromMenu(c: Cart, id: int, newQuantity: int, menu: seq<MenuItem>)
    requires FromMenu(c, menu)
    ensures FromMenu(UpdateQuantity(c, id, newQuantity), menu)
  {
    if newQuantity < 1 {
      RemovePreservesFromMenu(c, id, menu);
    } else {
      var r := UpdateQuantity(c, id, newQuantity);
      forall i | 0 <= i < |r| ensures InMenu(r[i], menu) {
        assert InMenu(c[i], menu);
        var m :| m in menu && Describes(c[i], m);
        assert Describes(r[i], m);
      }
    }
  }

  // ---------------------------------------------------------------------
  // Repeated adds

  /** How many of the item the cart holds: the quantities of its lines with that id. */
  function QuantityOf(c: Cart, id: int): int {
    if c == [] then 0
    else QuantityOf(c[..|c| - 1], id) + (if c[|c| - 1].id == id then c[|c| - 1].quantity else 0)
  }

  /** How many of the items pressed carry the id. */
  function Count(items: seq<MenuItem>, id: int): nat {
    if items == [] then 0
    else Count(items[..|items| - 1], id) + (if items[|items| - 1].id == id then 1 else 0)
  }

  /** The cart after pressing "Add" on each of the items in turn. */
  function AddAll(c: Cart, items: seq<MenuItem>): Cart {
    if items == [] then c
    else AddToCart(AddAll(c, items[..|items| - 1]), items[|items| - 1])
  }

  lemma {:induction false} QuantityOfAppend(a: Cart, b: Cart, id: int)
    ensures QuantityOf(a + b, id) == QuantityOf(a, id) + QuantityOf(b, id)
  {
    if b != [] {
      var ab, last := a + b, b[|b| - 1];
      var tail := if last.id == id then last.quantity else 0;
      assert ab[..|ab| - 1] == a + b[..|b| - 1];
      assert ab[|ab| - 1] == last;
      QuantityOfAppend(a, b[..|b| - 1], id);
      calc {
        QuantityOf(ab, id);
        QuantityOf(a + b[..|b| - 1], id) + tail;
        QuantityOf(a, id) + QuantityOf(b[..|b| - 1], id) + tail;
        QuantityOf(a, id) + QuantityOf(b, id);
      }
    } else {
      assert a + b == a;
    }
  }

  /** Replacing one line changes the count by the difference of the two lines. */
  lemma QuantityOfUpdate(c: Cart, k: int, l: Line, id: int)
    requires 0 <= k < |c|
    ensures QuantityOf(c[k := l], id)
            == QuantityOf(c, id) - (if c[k].id == id then c[k].quantity else 0)
                                 + (if l.id == id then l.quantity else 0)
  {
    assert c == c[..k] + [c[k]] + c[k + 1..];
    assert c[k := l] == c[..k] + [l] + c[k + 1..];
    QuantityOfAppend(c[..k] + [c[k]], c[k + 1..], id);
    QuantityOfAppend(c[..k] + [l], c[k + 1..], id);
    QuantityOfAppend(c[..k], [c[k]], id);
    QuantityOfAppend(c[..k], [l], id);
    assert [c[k]][..0] == [] && [l][..0] == [];
  }

  /** With one line per item, the cart's count of an item is the quantity on its line, or 0. */
  lemma QuantityOfUnique(c: Cart, k: int)
    requires Unique(c) && 0 <= k < |c|
    ensures QuantityOf(c, c[k].id) == c[k].quantity
  {
    var id := c[k].id;
    IdOnlyAt(c, k);
    QuantityOfAbsent(c[..k], id);
    QuantityOfAbsent(c[k + 1..], id);
    assert c == c[..k] + [c[k]] + c[k + 1..];
    QuantityOfAppend(c[..k] + [c[k]], c[k + 1..], id);
    QuantityOfAppend(c[..k], [c[k]], id);
    assert [c[k]][..0] == [];
  }

  lemma {:induction false} QuantityOfAbsent(c: Cart, id: int)
    requires !HasId(c, id)
    ensures QuantityOf(c, id) == 0
  {
    if c != [] {
      var init := c[..|c| - 1];
      assert !HasId(init, id) by {
        forall i | 0 <= i < |init| ensures init[i].id != id { assert init[i] == c[i]; }
      }
      QuantityOfAbsent(init, id);
    }
  }

  /** One "Add" raises the count of that item by 1 and of no other item. */
  lemma AddQuantity(c: Cart, item: MenuItem, id: int)
    requires Unique(c)
    ensures QuantityOf(AddToCart(c, item), id) == QuantityOf(c, id) + (if id == item.id then 1 else 0)
  {
    if HasId(c, item.id) {
      var k :| 0 <= k < |c| && c[k].id == item.id;
      AddExisting(c, item, k);
      QuantityOfUpdate(c, k, c[k].(quantity := c[k].quantity + 1), id);
    } else {
      QuantityOfAppend(c, [NewLine(item)], id);
      assert [NewLine(item)][..0] == [];
    }
  }

  lemma {:induction false} AddAllHasId(c: Cart, items: seq<MenuItem>, id: int)
    ensures HasId(AddAll(c, items), id) <==> HasId(c, id) || Count(items, id) > 0
  {
    if items != [] {
      var prefix := items[..|items| - 1];
      var item := items[|items| - 1];
      AddAllHasId(c, prefix, id);
      var before := AddAll(c, prefix);
      if HasId(before, item.id) {
        var r := AddToCart(before, item);
        assert |r| == |before|;
        assert forall i :: 0 <= i < |r| ==> r[i].id == before[i].id;
        assert HasId(r, id) ==> HasId(before, id) by {
          if HasId(r, id) { var i :| 0 <= i < |r| && r[i].id == id; assert before[i].id == id; }
        }
        assert HasId(before, id) ==> HasId(r, id) by {
          if HasId(before, id) { var i :| 0 <= i < |before| && before[i].id == id; assert r[i].id == id; }
        }
      } else {
        var r := before + [NewLine(item)];
        assert r[|before|].id == item.id;
        assert HasId(r, id) ==> HasId(before, id) || id == item.id by {
          if HasId(r, id) {
            var i :| 0 <= i < |r| && r[i].id == id;
            if i < |before| { assert before[i].id == id; }
          }
        }
        assert HasId(before, id) ==> HasId(r, id) by {
          if HasId(before, id) { var i :| 0 <= i < |before| && before[i].id == id; assert r[i].id == id; }
        }
      }
    }
  }

  /**
   * Pressing "Add" on a sequence of items keeps one line per item, every line
   * at quantity 1 or more, and raises each item's count by the number of
   * times it was pressed.
   */
  lemma {:induction false} AddAllCounts(c: Cart, items: seq<MenuItem>)
    requires WellFormed(c)
    ensures WellFormed(AddAll(c, items))
    ensures forall id :: QuantityOf(AddAll(c, items), id) == QuantityOf(c, id) + Count(items, id)
  {
    if items != [] {
      var prefix := items[..|items| - 1];
      var item := items[|items| - 1];
      AddAllCounts(c, prefix);
      AddPreservesWellFormed(AddAll(c, prefix), item);
      forall id ensures QuantityOf(AddAll(c, items), id) == QuantityOf(c, id) + Count(items, id) {
        AddQuantity(AddAll(c, prefix), item, id);
      }
    }
  }

  /** From an empty cart, each line's quantity is the number of times its item was added. */
  lemma AddAllFromEmpty(items: seq<MenuItem>)
    ensures WellFormed(AddAll([], items))
    ensures forall k :: 0 <= k < |AddAll([], items)| ==>
              AddAll([], items)[k].quantity == Count(items, AddAll([], items)[k].id)
    ensures forall id :: HasId(AddAll([], items), id) <==> Count(items, id) > 0
  {
    AddAllCounts([], items);
    var r := AddAll([], items);
    forall k | 0 <= k < |r| ensures r[k].quantity == Count(items, r[k].id) {
      QuantityOfUnique(r, k);
    }
    forall id ensures HasId(r, id) <==> Count(items, id) > 0 {
      AddAllHasId([], items, id);
    }
  }
}
