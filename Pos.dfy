/**
 * The state of the point-of-sale screen and its event handlers. Each handler
 * is one atomic step over the state it was invoked with; the clock reads
 * that give an order its id and timestamp are parameters.
 */
module Pos {
  import opened Wrappers
  import opened Menu
  import opened Carts
  import opened Totals
  import opened Session

  /** A completed order: a copy of the cart and the amounts computed from it. */
  datatype Order = Order(id: int, items: Cart, subtotal: real, tax: real,
                         discountAmount: real, total: real, timestamp: int)

  /** The order that completing cart c at the given discount percentage records. */
  function Snapshot(id: int, c: Cart, discount: real, timestamp: int): Order {
    Order(id, c, Subtotal(c), Tax(c), DiscountAmount(c, discount), Total(c, discount), timestamp)
  }

  /**
   * What holds of every order the screen has recorded: it has lines, one per
   * catalogue item, each ordered at least once, and its amounts agree with its
   * lines and with each other.
   */
  predicate Recorded(o: Order) {
    o.items != [] && WellFormed(o.items) && FromMenu(o.items, Items)
    && o.subtotal == Subtotal(o.items) && o.tax == Tax(o.items)
    && o.total == o.subtotal + o.tax - o.discountAmount
  }

  /** Completing a non-empty cart of catalogue lines records an order that satisfies Recorded. */
  lemma SnapshotRecorded(id: int, c: Cart, discount: real, timestamp: int)
    requires c != [] && WellFormed(c) && FromMenu(c, Items)
    ensures Recorded(Snapshot(id, c, discount, timestamp))
    ensures Snapshot(id, c, discount, timestamp).total == Subtotal(c) * (110.0 - discount) / 100.0
    ensures Snapshot(id, c, discount, timestamp).discountAmount == Subtotal(c) * discount / 100.0
  {
    TotalBreakdown(c, discount);
  }

  class Terminal {
    var loggedIn: bool
    var username: string
    var password: string
    var loginError: string
    var cart: Cart
    /** The discount percentage as last typed, not necessarily in 0..100. */
    var discount: real
    var orderHistory: seq<Order>
    /** The order shown on the receipt. */
    var currentOrder: Option<Order>

    /**
     * The invariant every handler keeps: one cart line per catalogue item,
     * each at quantity 1 or more, and every recorded order well formed.
     */
    ghost predicate Valid()
      reads this`cart, this`orderHistory
    {
      WellFormed(cart) && FromMenu(cart, Items)
      && forall i :: 0 <= i < |orderHistory| ==> Recorded(orderHistory[i])
    }

    /** The screen as it first appears: signed out, empty fields, empty cart, no orders. */
    constructor ()
      ensures Valid()
      ensures !loggedIn && username == "" && password == "" && loginError == ""
      ensures cart == [] && discount == 0.0 && orderHistory == [] && currentOrder == None
    {
      loggedIn, username, password, loginError := false, "", "", "";
      cart, discount, orderHistory, currentOrder := [], 0.0, [], None;
    }

    /** Typing into the username field. */
    method SetUsername(text: string)
      modifies this`username
      ensures username == text
    {
      username := text;
    }

    /** Typing into the password field. */
    method SetPassword(text: string)
      modifies this`password
      ensures password == text
    {
      password := text;
    }

    /** Typing into the discount field, given the number it parses to. */
    method SetDiscount(percent: real)
      modifies this`discount
      ensures discount == percent
    {
      discount := percent;
    }

    /**
     * Pressing "Login". Blank fields set the missing-credentials message; an
     * exact match signs in and clears both fields and the message; anything
     * else sets the invalid-credentials message and keeps the fields.
     */
    method HandleLogin()
      modifies this`loggedIn, this`username, this`password, this`loginError
      ensures Authenticate(old(username), old(password)) == MissingCredentials ==>
                loginError == MissingCredentialsMessage && loggedIn == old(loggedIn)
                && username == old(username) && password == old(password)
      ensures Authenticate(old(username), old(password)) == InvalidCredentials ==>
                loginError == InvalidCredentialsMessage && loggedIn == old(loggedIn)
                && username == old(username) && password == old(password)
      ensures Authenticate(old(username), old(password)).SignedIn? ==>
                loggedIn && loginError == "" && username == "" && password == ""
    {
      // IsBlank(s) is Trim(s) == "" (Session.TrimEmptyIffBlank).
      if IsBlank(username) || IsBlank(password) {
        loginError := MissingCredentialsMessage;
        return;
      }
      var user := FindUser(Users, username, password);
      if user.Some? {
        loggedIn := true;
        loginError := "";
        username := "";
        password := "";
      } else {
        loginError := InvalidCredentialsMessage;
      }
    }

    /** Pressing "Logout": signs out and clears the fields, the cart and the discount, but keeps the orders. */
    method HandleLogout()
      modifies this`loggedIn, this`username, this`password, this`cart, this`discount
      ensures !loggedIn && username == "" && password == ""
      ensures cart == [] && discount == 0.0
      ensures old(Valid()) ==> Valid()
    {
      loggedIn := false;
      username := "";
      password := "";
      cart := [];
      discount := 0.0;
    }

    /** Pressing "Add" on a menu item. */
    method AddToCart(item: MenuItem)
      modifies this`cart
      ensures cart == Carts.AddToCart(old(cart), item)
      ensures old(Valid()) && item in Items ==> Valid()
      ensures old(Valid()) && item in Items ==>
                QuantityOf(cart, item.id) == QuantityOf(old(cart), item.id) + 1
                && Subtotal(cart) == Subtotal(old(cart)) + item.price
    {
      ghost var before := cart;
      cart := Carts.AddToCart(cart, item);
      if WellFormed(before) && FromMenu(before, Items) && item in Items {
        AddPreservesWellFormed(before, item);
        AddPreservesFromMenu(before, item, Items);
        AddQuantity(before, item, item.id);
        SubtotalAfterAddFromMenu(before, item);
      }
    }

    /** Removing an item's line from the cart. */
    method RemoveFromCart(itemId: int)
      modifies this`cart
      ensures cart == Carts.RemoveFromCart(old(cart), itemId)
      ensures !HasId(cart, itemId)
      ensures old(Valid()) ==> Valid()
    {
      ghost var before := cart;
      cart := Carts.RemoveFromCart(cart, itemId);
      RemoveMembers(before, itemId);
      if WellFormed(before) && FromMenu(before, Items) {
        RemovePreservesWellFormed(before, itemId);
        RemovePreservesFromMenu(before, itemId, Items);
      }
    }

    /** Pressing "-" or "+" on a cart line: a quantity below 1 removes the line. */
    method UpdateQuantity(itemId: int, newQuantity: int)
      modifies this`cart
      ensures newQuantity < 1 ==> cart == Carts.RemoveFromCart(old(cart), itemId)
      ensures cart == Carts.UpdateQuantity(old(cart), itemId, newQuantity)
      ensures old(Valid()) ==> Valid()
    {
      if newQuantity < 1 {
        RemoveFromCart(itemId);
        return;
      }
      ghost var before := cart;
      cart := Carts.UpdateQuantity(cart, itemId, newQuantity);
      if WellFormed(before) && FromMenu(before, Items) {
        UpdatePreservesWellFormed(before, itemId, newQuantity);
        UpdatePreservesFromMenu(before, itemId, newQuantity, Items);
      }
    }

    /** Pressing "Apply": accepts a percentage in 0..100 and changes nothing either way. */
    method ApplyDiscount() returns (accepted: bool)
      ensures accepted <==> 0.0 <= discount <= 100.0
    {
      if discount < 0.0 || discount > 100.0 {
        return false;
      }
      return true;
    }

    /**
     * Pressing "Complete Order". An empty cart is refused and nothing changes.
     * Otherwise the cart and its amounts at the current discount are recorded
     * as a new order at the end of the history and shown on the receipt, and
     * the cart and the discount are reset. The discount is not range-checked
     * here.
     */
    method CompleteOrder(orderId: int, timestamp: int) returns (placed: Option<Order>)
      modifies this`cart, this`discount, this`orderHistory, this`currentOrder
      ensures old(cart) == [] ==>
                placed == None && cart == old(cart) && discount == old(discount)
                && orderHistory == old(orderHistory) && currentOrder == old(currentOrder)
      ensures old(cart) != [] ==>
                placed == Some(Snapshot(orderId, old(cart), old(discount), timestamp))
                && orderHistory == old(orderHistory) + [placed.value]
                && currentOrder == placed && cart == [] && discount == 0.0
      ensures old(Valid()) ==> Valid()
    {
      if |cart| == 0 {
        return None;
      }
      var order := Order(orderId, cart, Subtotal(cart), Tax(cart),
                         DiscountAmount(cart, discount), Total(cart, discount), timestamp);
      if WellFormed(cart) && FromMenu(cart, Items) {
        SnapshotRecorded(orderId, cart, discount, timestamp);
      }
      currentOrder := Some(order);
      orderHistory := orderHistory + [order];
      cart := [];
      discount := 0.0;
      placed := Some(order);
    }
  }

  /** Pressing "Add" on Pizza, Pizza and Coke, starting from an empty cart. */
  method AddPizzaPizzaCoke(t: Terminal)
    requires t.cart == []
    modifies t`cart
    ensures t.cart == [Line(1, "Pizza", 200.0, 2), Line(3, "Coke", 50.0, 1)]
  {
    t.AddToCart(Pizza);
    assert t.cart == [NewLine(Pizza)];
    t.AddToCart(Pizza);
    AddExisting([NewLine(Pizza)], Pizza, 0);
    assert t.cart == [Line(1, "Pizza", 200.0, 2)];
    t.AddToCart(Coke);
    assert !HasId([Line(1, "Pizza", 200.0, 2)], Coke.id);
  }

  /**
   * A whole session: sign in as staff, add two Pizzas and a Coke, type a 10
   * percent discount, apply it and complete the order; the receipt shows 450,
   * 45, 45 and 450, and the screen is ready for the next order.
   */
  method PizzaAndCokeSession() returns (placed: Option<Order>, signedIn: bool, accepted: bool)
    ensures signedIn && accepted
    ensures placed.Some?
    ensures placed.value.items == [Line(1, "Pizza", 200.0, 2), Line(3, "Coke", 50.0, 1)]
    ensures placed.value.subtotal == 450.0 && placed.value.tax == 45.0
    ensures placed.value.discountAmount == 45.0 && placed.value.total == 450.0
  {
    var t := new Terminal();
    t.SetUsername("staff");
    t.SetPassword("staff123");
    StaffSignsIn();
    t.HandleLogin();
    signedIn := t.loggedIn;
    AddPizzaPizzaCoke(t);
    t.SetDiscount(10.0);
    accepted := t.ApplyDiscount();
    PizzaAndCokeExample();
    placed := t.CompleteOrder(1, 0);
  }
}
