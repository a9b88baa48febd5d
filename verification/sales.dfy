/** The arithmetic of `view_sales`: the total it reports is, coffee by
    coffee, `num_orders * average_price`.  The reference it is compared with
    is the plain sum of the prices of the orders each coffee lists, and, over
    the whole shop, the sum of the prices of every order ever created. */
module Sales {
  import opened Entities
  import opened Collections
  import opened Shop
  import opened Queries

  /** Every coffee lists only existing orders. */
  predicate AllInRange(coffees: seq<Coffee>, n: nat) {
    forall k :: 0 <= k < |coffees| ==> InRange(coffees[k].orders, n)
  }

  /** Reference total: the raw order prices, coffee after coffee. */
  function Revenue(orders: seq<Order>, coffees: seq<Coffee>): real
    requires AllInRange(coffees, |orders|)
  {
    if coffees == [] then 0.0
    else Revenue(orders, coffees[..|coffees| - 1]) + PriceSum(orders, coffees[|coffees| - 1].orders)
  }

  /** The price of every order in the shop, wherever it is listed. */
  function OrderTotal(orders: seq<Order>): real {
    if orders == [] then 0.0 else OrderTotal(orders[..|orders| - 1]) + orders[|orders| - 1].price
  }

  /** `view_sales`' total, computed with the program's loop and formula. */
  method ViewSalesTotal(orders: seq<Order>, coffees: seq<Coffee>) returns (total: real)
    requires AllInRange(coffees, |orders|)
    ensures total == Revenue(orders, coffees)
  {
    total := 0.0;
    for i := 0 to |coffees|
      invariant total == Revenue(orders, coffees[..i])
    {
      var coffee := coffees[i];
      var numOrders := NumOrders(coffee);
      var avgPrice := AveragePrice(orders, coffee);
      total := total + numOrders as real * avgPrice;
      assert coffees[..i + 1][..i] == coffees[..i];
    }
    assert coffees[..|coffees|] == coffees;
  }

  /** The sales total counts every order of the shop once
      (see WellFormedIsBalanced). */
  predicate Balanced(s: Shop) {
    AllInRange(s.coffees, |s.orders|) && Revenue(s.orders, s.coffees) == OrderTotal(s.orders)
  }

  // ---------------------------------------------------------------------
  // Lemmas
  // ---------------------------------------------------------------------

  lemma WellFormedInRange(s: Shop)
    requires WellFormed(s)
    ensures AllInRange(s.coffees, |s.orders|)
  {
    forall k | 0 <= k < |s.coffees|
      ensures InRange(s.coffees[k].orders, |s.orders|)
    {
      assert CoffeeOk(s, k);
    }
  }

  /** Appending orders to the central sequence leaves the total over ids
      that already existed unchanged. */
  lemma {:induction false} RevenueFrame(orders: seq<Order>, extra: seq<Order>, coffees: seq<Coffee>)
    requires AllInRange(coffees, |orders|)
    ensures AllInRange(coffees, |orders + extra|)
    ensures Revenue(orders + extra, coffees) == Revenue(orders, coffees)
  {
    if coffees != [] {
      var init := coffees[..|coffees| - 1];
      RevenueFrame(orders, extra, init);
      PriceSumFrame(orders, extra, coffees[|coffees| - 1].orders);
    }
  }

  /** Replacing one coffee changes the total by the difference of that
      coffee's price totals. */
  lemma {:induction false} RevenueUpdate(orders: seq<Order>, coffees: seq<Coffee>, k: nat, c: Coffee)
    requires AllInRange(coffees, |orders|)
    requires k < |coffees| && InRange(c.orders, |orders|)
    ensures AllInRange(coffees[k := c], |orders|)
    ensures Revenue(orders, coffees[k := c])
      == Revenue(orders, coffees) - PriceSum(orders, coffees[k].orders) + PriceSum(orders, c.orders)
  {
    var updated := coffees[k := c];
    var n := |coffees|;
    assert updated[..n - 1] == if k == n - 1 then coffees[..n - 1] else coffees[..n - 1][k := c];
    if k < n - 1 {
      RevenueUpdate(orders, coffees[..n - 1], k, c);
    }
  }

  lemma OrderTotalAppend(orders: seq<Order>, o: Order)
    ensures OrderTotal(orders + [o]) == OrderTotal(orders) + o.price
  {
    assert (orders + [o])[..|orders|] == orders;
  }

  /** A direct `Order(...)` adds its price to the sales total: the coffee
      side alone is what `view_sales` reads. */
  lemma NewOrderAddsPrice(s: Shop, customer: CustomerId, coffee: CoffeeId, price: real)
    requires WellFormed(s)
    requires customer < |s.customers| && coffee < |s.coffees|
    requires 1.0 <= price <= 10.0
    ensures var t := NewOrder(s, customer, coffee, price).shop;
      && AllInRange(s.coffees, |s.orders|)
      && AllInRange(t.coffees, |t.orders|)
      && Revenue(t.orders, t.coffees) == Revenue(s.orders, s.coffees) + price
      && OrderTotal(t.orders) == OrderTotal(s.orders) + price
  {
    var t := NewOrder(s, customer, coffee, price).shop;
    var o := Order(customer, coffee, price);
    var n := |s.orders|;
    WellFormedInRange(s);
    RevenueFrame(s.orders, [o], s.coffees);
    var c := s.coffees[coffee];
    assert InRange(c.orders, n);
    PriceSumFrame(s.orders, [o], c.orders);
    PriceSumAppend(t.orders, c.orders, n);
    assert t.coffees == s.coffees[coffee := AddOrder(c, n)];
    RevenueUpdate(t.orders, s.coffees, coffee, AddOrder(c, n));
    OrderTotalAppend(s.orders, o);
  }

  /** A successful `create_order` raises the sales total by exactly the new
      order's price; a rejected one leaves it as it was. */
  lemma CreateOrderAddsPrice(s: Shop, customer: CustomerId, coffee: CoffeeId, price: real)
    requires WellFormed(s)
    requires customer < |s.customers| && coffee < |s.coffees|
    ensures var t := CreateOrder(s, customer, coffee, price).shop;
      && AllInRange(s.coffees, |s.orders|)
      && AllInRange(t.coffees, |t.orders|)
      && Revenue(t.orders, t.coffees)
         == Revenue(s.orders, s.coffees) + (if 1.0 <= price <= 10.0 then price else 0.0)
  {
    WellFormedInRange(s);
    if 1.0 <= price <= 10.0 {
      NewOrderAddsPrice(s, customer, coffee, price);
    }
  }

  // ---------------------------------------------------------------------
  // The sales identity follows from well-formedness: every order is listed
  // exactly once, by exactly its own coffee, so the coffees' lists split
  // the orders into disjoint parts.
  // ---------------------------------------------------------------------

  /** The price total of those of the first n orders whose ids are in `ids`. */
  function SelectedTotal(orders: seq<Order>, ids: set<OrderId>, n: nat): real
    requires n <= |orders|
  {
    if n == 0 then 0.0
    else SelectedTotal(orders, ids, n - 1) + (if n - 1 in ids then orders[n - 1].price else 0.0)
  }

  /** The ids a list holds. */
  function Elements(ids: seq<OrderId>): set<OrderId> {
    set j | 0 <= j < |ids| :: ids[j]
  }

  /** The orders placed against coffee k. */
  function PlacedAgainst(orders: seq<Order>, k: CoffeeId): set<OrderId> {
    set i: OrderId | i < |orders| && orders[i].coffee == k
  }

  /** The orders placed against one of the first m coffees. */
  function PlacedBelow(orders: seq<Order>, m: nat): set<OrderId> {
    set i: OrderId | i < |orders| && orders[i].coffee < m
  }

  lemma {:induction false} SelectedUnion(orders: seq<Order>, a: set<OrderId>, b: set<OrderId>, n: nat)
    requires n <= |orders| && a !! b
    ensures SelectedTotal(orders, a + b, n) == SelectedTotal(orders, a, n) + SelectedTotal(orders, b, n)
  {
    if n > 0 {
      SelectedUnion(orders, a, b, n - 1);
    }
  }

  lemma {:induction false} SelectedNone(orders: seq<Order>, a: set<OrderId>, n: nat)
    requires n <= |orders|
    requires forall i :: i in a ==> i >= n
    ensures SelectedTotal(orders, a, n) == 0.0
  {
    if n > 0 {
      SelectedNone(orders, a, n - 1);
    }
  }

  lemma {:induction false} SelectedSingle(orders: seq<Order>, x: OrderId, n: nat)
    requires x < n <= |orders|
    ensures SelectedTotal(orders, {x}, n) == orders[x].price
  {
    if x == n - 1 {
      SelectedNone(orders, {x}, n - 1);
    } else {
      SelectedSingle(orders, x, n - 1);
    }
  }

  lemma {:induction false} SelectedAll(orders: seq<Order>, a: set<OrderId>, n: nat)
    requires n <= |orders|
    requires forall i: OrderId :: i < n ==> i in a
    ensures SelectedTotal(orders, a, n) == OrderTotal(orders[..n])
  {
    if n > 0 {
      SelectedAll(orders, a, n - 1);
      assert orders[..n][..n - 1] == orders[..n - 1];
    }
  }

  /** A duplicate-free list sums to the total of the set of ids it holds,
      whatever its order. */
  lemma {:induction false} PriceSumIsSelected(orders: seq<Order>, ids: seq<OrderId>)
    requires InRange(ids, |orders|) && NoDuplicates(ids)
    ensures PriceSum(orders, ids) == SelectedTotal(orders, Elements(ids), |orders|)
  {
    if ids == [] {
      SelectedNone(orders, Elements(ids), |orders|);
    } else {
      var init := ids[..|ids| - 1];
      var x := ids[|ids| - 1];
      PriceSumIsSelected(orders, init);
      assert Elements(ids) == Elements(init) + {x};
      SelectedUnion(orders, Elements(init), {x}, |orders|);
      SelectedSingle(orders, x, |orders|);
    }
  }

  /** In a well-formed shop a coffee's list holds exactly the orders placed
      against it. */
  lemma ListedArePlaced(s: Shop, k: CoffeeId)
    requires WellFormed(s) && k < |s.coffees|
    ensures Elements(s.coffees[k].orders) == PlacedAgainst(s.orders, k)
  {
    assert CoffeeOk(s, k);
    var ids := s.coffees[k].orders;
    forall i | i in PlacedAgainst(s.orders, k)
      ensures i in Elements(ids)
    {
      assert OrderOk(s, i);
      var j :| 0 <= j < |ids| && ids[j] == i;
    }
  }

  lemma {:induction false} RevenueOfPrefix(s: Shop, m: nat)
    requires WellFormed(s) && m <= |s.coffees|
    ensures AllInRange(s.coffees[..m], |s.orders|)
    ensures Revenue(s.orders, s.coffees[..m]) == SelectedTotal(s.orders, PlacedBelow(s.orders, m), |s.orders|)
  {
    WellFormedInRange(s);
    if m == 0 {
      SelectedNone(s.orders, PlacedBelow(s.orders, 0), |s.orders|);
    } else {
      RevenueOfPrefix(s, m - 1);
      assert s.coffees[..m][..m - 1] == s.coffees[..m - 1];
      var c := s.coffees[m - 1];
      assert CoffeeOk(s, m - 1);
      PriceSumIsSelected(s.orders, c.orders);
      ListedArePlaced(s, m - 1);
      assert PlacedBelow(s.orders, m) == PlacedBelow(s.orders, m - 1) + PlacedAgainst(s.orders, m - 1);
      SelectedUnion(s.orders, PlacedBelow(s.orders, m - 1), PlacedAgainst(s.orders, m - 1), |s.orders|);
    }
  }

  /** Every well-formed shop is balanced: summing each coffee's list counts
      every order exactly once. */
  lemma WellFormedIsBalanced(s: Shop)
    requires WellFormed(s)
    ensures Balanced(s)
  {
    WellFormedInRange(s);
    RevenueOfPrefix(s, |s.coffees|);
    assert s.coffees[..|s.coffees|] == s.coffees;
    forall i: OrderId | i < |s.orders|
      ensures i in PlacedBelow(s.orders, |s.coffees|)
    {
      assert OrderOk(s, i);
    }
    SelectedAll(s.orders, PlacedBelow(s.orders, |s.coffees|), |s.orders|);
    assert s.orders[..|s.orders|] == s.orders;
  }
}
