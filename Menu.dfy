/** The restaurant's fixed catalogue (App.js keeps it in state that is never updated). */
module Menu {

  /** An item the restaurant sells, at a fixed price in rupees. */
  datatype MenuItem = MenuItem(id: int, name: string, price: real)

  const Pizza := MenuItem(1, "Pizza", 200.0)
  const Burger := MenuItem(2, "Burger", 100.0)
  const Coke := MenuItem(3, "Coke", 50.0)
  const Pasta := MenuItem(4, "Pasta", 150.0)
  const Salad := MenuItem(5, "Salad", 120.0)
  const IceCream := MenuItem(6, "Ice Cream", 80.0)

  /** The catalogue, in display order. */
  const Items: seq<MenuItem> := [Pizza, Burger, Coke, Pasta, Salad, IceCream]

  /** No two catalogue entries share an id. */
  predicate UniqueIds(items: seq<MenuItem>) {
    forall i, j :: 0 <= i < j < |items| ==> items[i].id != items[j].id
  }

  predicate NonNegativePrices(items: seq<MenuItem>) {
    forall i :: 0 <= i < |items| ==> items[i].price >= 0.0
  }

  /** The catalogue is keyed by id and sells nothing at a negative price. */
  lemma ItemsWellFormed()
    ensures |Items| == 6
    ensures UniqueIds(Items) && NonNegativePrices(Items)
  {
  }

  /** Two catalogue entries with the same id are the same entry. */
  lemma SameIdSameItem(items: seq<MenuItem>, a: MenuItem, b: MenuItem)
    requires UniqueIds(items) && a in items && b in items && a.id == b.id
    ensures a == b
  {
    var i :| 0 <= i < |items| && items[i] == a;
    var j :| 0 <= j < |items| && items[j] == b;
  }
}
