/** The queries a coffee and a customer answer about their order lists:
    `num_orders`, `average_price`, `customers()` and `coffees()`.  Each takes
    the shop's central order sequence, in which the listed ids are looked up. */
module Queries {
  import opened Entities
  import opened Collections
  import opened Shop

  /** `Coffee.num_orders`: zero exactly when the coffee has no orders, the
      case `average_price` treats apart. */
  function NumOrders(c: Coffee): (r: nat)
    ensures r == 0 <==> c.orders == []
  {
    |c.orders|
  }

  /** The sum of the prices of the listed orders, in list order. */
  function PriceSum(orders: seq<Order>, ids: seq<OrderId>): real
    requires InRange(ids, |orders|)
  {
    if ids == [] then 0.0
    else PriceSum(orders, ids[..|ids| - 1]) + orders[ids[|ids| - 1]].price
  }

  /** Every listed order passed the order price check. */
  predicate PricesValid(orders: seq<Order>, ids: seq<OrderId>)
    requires InRange(ids, |orders|)
  {
    forall j :: 0 <= j < |ids| ==> ValidOrderPrice(orders[ids[j]].price)
  }

  /** `Coffee.average_price`: exactly zero with no orders, otherwise the
      mean, i.e. the value that times the count gives the price total. */
  function AveragePrice(orders: seq<Order>, c: Coffee): (r: real)
    requires InRange(c.orders, |orders|)
    ensures |c.orders| == 0 ==> r == 0.0
    ensures |c.orders| > 0 ==> r * (NumOrders(c) as real) == PriceSum(orders, c.orders)
  {
    if |c.orders| == 0 then 0.0
    else PriceSum(orders, c.orders) / (|c.orders| as real)
  }

  /** `Coffee.customers`: the customers of the listed orders, without
      duplicates. */
  function Customers(orders: seq<Order>, c: Coffee): (r: seq<CustomerId>)
    requires InRange(c.orders, |orders|)
    ensures NoDuplicates(r)
    ensures forall u :: u in r <==>
      exists j :: 0 <= j < |c.orders| && orders[c.orders[j]].customer == u
  {
    var all := seq(|c.orders|, j requires 0 <= j < |c.orders| => orders[c.orders[j]].customer);
    assert forall j :: 0 <= j < |c.orders| ==> all[j] == orders[c.orders[j]].customer;
    Dedup(all)
  }

  /** `Customer.coffees`: the coffees of the listed orders, without
      duplicates. */
  function Coffees(orders: seq<Order>, u: Customer): (r: seq<CoffeeId>)
    requires InRange(u.orders, |orders|)
    ensures NoDuplicates(r)
    ensures forall k :: k in r <==>
      exists j :: 0 <= j < |u.orders| && orders[u.orders[j]].coffee == k
  {
    var all := seq(|u.orders|, j requires 0 <= j < |u.orders| => orders[u.orders[j]].coffee);
    assert forall j :: 0 <= j < |u.orders| ==> all[j] == orders[u.orders[j]].coffee;
    Dedup(all)
  }

  // ---------------------------------------------------------------------
  // Lemmas
  // ---------------------------------------------------------------------

  lemma PriceSumAppend(orders: seq<Order>, ids: seq<OrderId>, id: OrderId)
    requires InRange(ids, |orders|) && id < |orders|
    ensures InRange(ids + [id], |orders|)
    ensures PriceSum(orders, ids + [id]) == PriceSum(orders, ids) + orders[id].price
  {
    assert (ids + [id])[..|ids|] == ids;
  }

  /** Appending orders to the central sequence does not change the price
      total of ids that already existed. */
  lemma {:induction false} PriceSumFrame(orders: seq<Order>, extra: seq<Order>, ids: seq<OrderId>)
    requires InRange(ids, |orders|)
    ensures InRange(ids, |orders + extra|)
    ensures PriceSum(orders + extra, ids) == PriceSum(orders, ids)
  {
    if ids != [] {
      PriceSumFrame(orders, extra, ids[..|ids| - 1]);
    }
  }

  /** n valid prices sum to between n and 10 n. */
  lemma {:induction false} PriceSumBounds(orders: seq<Order>, ids: seq<OrderId>)
    requires InRange(ids, |orders|)
    requires PricesValid(orders, ids)
    ensures (|ids| as real) * MinOrderPrice <= PriceSum(orders, ids) <= (|ids| as real) * MaxOrderPrice
  {
    if ids != [] {
      PriceSumBounds(orders, ids[..|ids| - 1]);
      assert ValidOrderPrice(orders[ids[|ids| - 1]].price);
    }
  }

  /** With at least one order, the average lies in the order price range. */
  lemma AveragePriceInRange(orders: seq<Order>, c: Coffee)
    requires InRange(c.orders, |orders|)
    requires PricesValid(orders, c.orders)
    requires |c.orders| > 0
    ensures MinOrderPrice <= AveragePrice(orders, c) <= MaxOrderPrice
  {
    PriceSumBounds(orders, c.orders);
    var n := |c.orders| as real;
    var a := AveragePrice(orders, c);
    var total := PriceSum(orders, c.orders);
    assert a == total / n;
    MeanBetween(total, n, MinOrderPrice, MaxOrderPrice);
  }

  /** Dividing a total that lies between n lo and n hi by n > 0 gives a value
      between lo and hi. */
  lemma MeanBetween(total: real, n: real, lo: real, hi: real)
    requires n > 0.0
    requires n * lo <= total <= n * hi
    ensures lo <= total / n <= hi
  {
    var q := total / n;
    assert q * n == total;
    assert (q - lo) * n == total - n * lo;
    assert (hi - q) * n == n * hi - total;
  }

  /** In a well-formed shop every coffee that has orders averages within
      [1.0, 10.0]. */
  lemma ShopAveragePriceInRange(s: Shop, k: CoffeeId)
    requires WellFormed(s)
    requires k < |s.coffees| && |s.coffees[k].orders| > 0
    ensures InRange(s.coffees[k].orders, |s.orders|)
    ensures MinOrderPrice <= AveragePrice(s.orders, s.coffees[k]) <= MaxOrderPrice
  {
    assert CoffeeOk(s, k);
    var ids := s.coffees[k].orders;
    forall j | 0 <= j < |ids|
      ensures ValidOrderPrice(s.orders[ids[j]].price)
    {
      assert OrderOk(s, ids[j]);
    }
    AveragePriceInRange(s.orders, s.coffees[k]);
  }

  /** A successful `create_order` raises that coffee's `num_orders` by one
      and adds the new price to its price total; every other coffee's
      count and total stay as they were. */
  lemma CreateOrderUpdatesCoffee(s: Shop, customer: CustomerId, coffee: CoffeeId, price: real, k: CoffeeId)
    requires WellFormed(s)
    requires customer < |s.customers| && coffee < |s.coffees| && k < |s.coffees|
    requires 1.0 <= price <= 10.0
    ensures var t := CreateOrder(s, customer, coffee, price).shop;
      && InRange(s.coffees[k].orders, |s.orders|)
      && InRange(t.coffees[k].orders, |t.orders|)
      && NumOrders(t.coffees[k]) == NumOrders(s.coffees[k]) + (if k == coffee then 1 else 0)
      && PriceSum(t.orders, t.coffees[k].orders)
         == PriceSum(s.orders, s.coffees[k].orders) + (if k == coffee then price else 0.0)
  {
    var t := CreateOrder(s, customer, coffee, price).shop;
    var o := Order(customer, coffee, price);
    assert CoffeeOk(s, k);
    var ids := s.coffees[k].orders;
    PriceSumFrame(s.orders, [o], ids);
    if k == coffee {
      PriceSumAppend(t.orders, ids, |s.orders|);
    }
  }

  /** Worked example: a coffee whose two orders cost 4.0 and 6.0
      averages 5.0. */
  lemma AverageOfFourAndSix()
    ensures var orders := [Order(0, 0, 4.0), Order(0, 0, 6.0)];
      var c := Coffee("Latte", 5.0, [0, 1]);
      NumOrders(c) == 2 && AveragePrice(orders, c) == 5.0
  {
    var orders := [Order(0, 0, 4.0), Order(0, 0, 6.0)];
    var c := Coffee("Latte", 5.0, [0, 1]);
    assert [0, 1][..1] == [0];
    assert [0][..0] == [];
    assert PriceSum(orders, c.orders) == 10.0;
  }

  /** In a linked shop the two distinct-set queries are mutually consistent:
      customer u is among coffee k's customers exactly when coffee k is
      among customer u's coffees. */
  lemma CustomersCoffeesAgree(s: Shop, k: CoffeeId, u: CustomerId)
    requires Linked(s)
    requires k < |s.coffees| && u < |s.customers|
    ensures InRange(s.coffees[k].orders, |s.orders|) && InRange(s.customers[u].orders, |s.orders|)
    ensures u in Customers(s.orders, s.coffees[k]) <==> k in Coffees(s.orders, s.customers[u])
  {
    assert CoffeeOk(s, k);
    assert CustomerOk(s, u);
    var cids := s.coffees[k].orders;
    var uids := s.customers[u].orders;
    if u in Customers(s.orders, s.coffees[k]) {
      var j :| 0 <= j < |cids| && s.orders[cids[j]].customer == u;
      var id := cids[j];
      assert CustomerLinked(s, id);
      var j' :| 0 <= j' < |uids| && uids[j'] == id;
      assert s.orders[uids[j']].coffee == k;
    }
    if k in Coffees(s.orders, s.customers[u]) {
      var j :| 0 <= j < |uids| && s.orders[uids[j]].coffee == k;
      var id := uids[j];
      assert OrderOk(s, id);
      var j' :| 0 <= j' < |cids| && cids[j'] == id;
      assert s.orders[cids[j']].customer == u;
    }
  }
}
