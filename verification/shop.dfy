/** The shop state: the catalog, the customer registry and every order ever
    created, with the operations that change them.  Orders live in one
    central sequence and are referenced by their index in it; a coffee's and
    a customer's order lists hold such indices.

    Every operation returns a `Step`: the state after the call and the
    call's result.  When the program would raise, the state is the one
    before the call, because every check runs before any assignment. */
module Shop {
  import opened Wrappers
  import opened Entities
  import opened Collections

  datatype Shop = Shop(coffees: seq<Coffee>, customers: seq<Customer>, orders: seq<Order>)

  datatype Step<+T> = Step(shop: Shop, result: Result<T, Error>)

  const Empty := Shop([], [], [])

  /** Every id in `ids` names an existing order. */
  predicate InRange(ids: seq<OrderId>, n: nat) {
    forall j :: 0 <= j < |ids| ==> ids[j] < n
  }

  /** Coffee `k` passed its constructor's checks, lists each of its orders
      once, and every order it lists was placed against it. */
  predicate CoffeeOk(s: Shop, k: CoffeeId)
    requires k < |s.coffees|
  {
    var c := s.coffees[k];
    && ValidCoffeeName(c.name)
    && ValidCoffeePrice(c.price)
    && NoDuplicates(c.orders)
    && InRange(c.orders, |s.orders|)
    && forall j :: 0 <= j < |c.orders| ==> s.orders[c.orders[j]].coffee == k
  }

  /** Customer `k` has a valid name, lists each of its orders once, and every
      order it lists was created by it. */
  predicate CustomerOk(s: Shop, k: CustomerId)
    requires k < |s.customers|
  {
    var c := s.customers[k];
    && ValidCustomerName(c.name)
    && NoDuplicates(c.orders)
    && InRange(c.orders, |s.orders|)
    && forall j :: 0 <= j < |c.orders| ==> s.orders[c.orders[j]].customer == k
  }

  /** Order `i` names an existing customer and coffee, passed the price
      check, and is registered with its coffee (the `Order` constructor's
      side effect). */
  predicate OrderOk(s: Shop, i: OrderId)
    requires i < |s.orders|
  {
    var o := s.orders[i];
    && o.customer < |s.customers|
    && o.coffee < |s.coffees|
    && ValidOrderPrice(o.price)
    && i in s.coffees[o.coffee].orders
  }

  /** What every operation keeps, including a direct `Order(...)` call. */
  predicate WellFormed(s: Shop) {
    && (forall k :: 0 <= k < |s.coffees| ==> CoffeeOk(s, k))
    && (forall k :: 0 <= k < |s.customers| ==> CustomerOk(s, k))
    && (forall i :: 0 <= i < |s.orders| ==> OrderOk(s, i))
  }

  /** Order `i` is also registered with its customer. */
  predicate CustomerLinked(s: Shop, i: OrderId)
    requires i < |s.orders|
  {
    s.orders[i].customer < |s.customers| && i in s.customers[s.orders[i].customer].orders
  }

  /** The two-sided link: every order is listed by its coffee (WellFormed)
      and by its customer.  `create_order` keeps it; a bare `Order(...)`
      does not. */
  predicate Linked(s: Shop) {
    && WellFormed(s)
    && forall i :: 0 <= i < |s.orders| ==> CustomerLinked(s, i)
  }

  /** Adds a coffee to the catalog (the catalog list built at start-up). */
  function AddCoffee(s: Shop, name: string, price: real): (r: Step<CoffeeId>)
    ensures r.result.Ok? <==> |name| >= 3 && price > 0.0
    ensures r.result.Err? ==> r.shop == s
    ensures r.result.Ok? ==>
      && r.result.value == |s.coffees|
      && r.shop == s.(coffees := s.coffees + [Coffee(name, price, [])])
  {
    match NewCoffee(name, price)
    case Err(e) => Step(s, Err(e))
    case Ok(c) => Step(s.(coffees := s.coffees + [c]), Ok(|s.coffees|))
  }

  /** Adds a customer to the registry (`Customer(name)` then append). */
  function AddCustomer(s: Shop, name: string): (r: Step<CustomerId>)
    ensures r.result.Ok? <==> 1 <= |name| <= 15
    ensures r.result.Err? ==> r.shop == s && r.result.error == CustomerNameError
    ensures r.result.Ok? ==>
      && r.result.value == |s.customers|
      && r.shop == s.(customers := s.customers + [Customer(name, [])])
  {
    match NewCustomer(name)
    case Err(e) => Step(s, Err(e))
    case Ok(c) => Step(s.(customers := s.customers + [c]), Ok(|s.customers|))
  }

  /** `customer.name = name`: a rejected name leaves the whole state, and so
      the old name, unchanged; an accepted one changes only that name. */
  function RenameCustomer(s: Shop, k: CustomerId, name: string): (r: Step<()>)
    requires k < |s.customers|
    ensures r.result.Ok? <==> 1 <= |name| <= 15
    ensures r.result.Err? ==> r.shop == s && r.shop.customers[k].name == s.customers[k].name
    ensures r.result.Ok? ==>
      && r.shop.coffees == s.coffees
      && r.shop.orders == s.orders
      && |r.shop.customers| == |s.customers|
      && r.shop.customers[k].name == name
      && r.shop.customers[k].orders == s.customers[k].orders
      && forall j :: 0 <= j < |s.customers| && j != k ==> r.shop.customers[j] == s.customers[j]
  {
    match SetName(s.customers[k], name)
    case Err(e) => Step(s, Err(e))
    case Ok(c) => Step(s.(customers := s.customers[k := c]), Ok(()))
  }

  /** `Order(customer, coffee, price)` on its own: after the price check, the
      order is stored and registered with its coffee only. */
  function NewOrder(s: Shop, customer: CustomerId, coffee: CoffeeId, price: real): (r: Step<OrderId>)
    requires customer < |s.customers| && coffee < |s.coffees|
    ensures r.result.Ok? <==> 1.0 <= price <= 10.0
    ensures r.result.Err? ==> r.shop == s && r.result.error == OrderPriceError
    ensures r.result.Ok? ==>
      && r.result.value == |s.orders|
      && r.shop.orders == s.orders + [Order(customer, coffee, price)]
      && r.shop.customers == s.customers
      && |r.shop.coffees| == |s.coffees|
      && r.shop.coffees[coffee].orders == s.coffees[coffee].orders + [|s.orders|]
      && r.shop.coffees[coffee].name == s.coffees[coffee].name
      && r.shop.coffees[coffee].price == s.coffees[coffee].price
      && forall k :: 0 <= k < |s.coffees| && k != coffee ==> r.shop.coffees[k] == s.coffees[k]
  {
    if !ValidOrderPrice(price) then Step(s, Err(OrderPriceError))
    else
      var id := |s.orders|;
      var shop := s.(orders := s.orders + [Order(customer, coffee, price)],
                     coffees := s.coffees[coffee := AddOrder(s.coffees[coffee], id)]);
      Step(shop, Ok(id))
  }

  /** `customer.create_order(coffee, price)`: the same price check, then
      `Order(...)`, then the customer's own append.  It is the only way the
      program creates orders. */
  function CreateOrder(s: Shop, customer: CustomerId, coffee: CoffeeId, price: real): (r: Step<OrderId>)
    requires customer < |s.customers| && coffee < |s.coffees|
    ensures r.result.Ok? <==> 1.0 <= price <= 10.0
    ensures r.result.Err? ==> r.shop == s && r.result.error == OrderPriceError
    ensures r.result.Ok? ==>
      && r.result.value == |s.orders|
      && r.shop.orders == s.orders + [Order(customer, coffee, price)]
      && |r.shop.coffees| == |s.coffees|
      && |r.shop.customers| == |s.customers|
      && r.shop.coffees[coffee].orders == s.coffees[coffee].orders + [|s.orders|]
      && r.shop.coffees[coffee].name == s.coffees[coffee].name
      && r.shop.coffees[coffee].price == s.coffees[coffee].price
      && r.shop.customers[customer].orders == s.customers[customer].orders + [|s.orders|]
      && r.shop.customers[customer].name == s.customers[customer].name
      && (forall k :: 0 <= k < |s.coffees| && k != coffee ==> r.shop.coffees[k] == s.coffees[k])
      && (forall k :: 0 <= k < |s.customers| && k != customer ==> r.shop.customers[k] == s.customers[k])
  {
    if !ValidOrderPrice(price) then Step(s, Err(OrderPriceError))
    else
      var step := NewOrder(s, customer, coffee, price);
      var id := step.result.value;
      var c := s.customers[customer];
      Step(step.shop.(customers := s.customers[customer := c.(orders := c.orders + [id])]), Ok(id))
  }

  // ---------------------------------------------------------------------
  // Invariants kept by the operations
  // ---------------------------------------------------------------------

  lemma EmptyLinked()
    ensures Linked(Empty)
  {
  }

  lemma AddCoffeeKeepsLinked(s: Shop, name: string, price: real)
    requires Linked(s)
    ensures Linked(AddCoffee(s, name, price).shop)
  {
    var r := AddCoffee(s, name, price);
    if r.result.Ok? {
      var t := r.shop;
      forall k | 0 <= k < |t.coffees|
        ensures CoffeeOk(t, k)
      {
        if k < |s.coffees| {
          assert CoffeeOk(s, k);
        }
      }
      forall k | 0 <= k < |t.customers|
        ensures CustomerOk(t, k)
      {
        assert CustomerOk(s, k);
      }
      forall i | 0 <= i < |t.orders|
        ensures OrderOk(t, i) && CustomerLinked(t, i)
      {
        assert OrderOk(s, i) && CustomerLinked(s, i);
      }
    }
  }

  lemma AddCustomerKeepsLinked(s: Shop, name: string)
    requires Linked(s)
    ensures Linked(AddCustomer(s, name).shop)
  {
    var r := AddCustomer(s, name);
    if r.result.Ok? {
      var t := r.shop;
      forall k | 0 <= k < |t.coffees|
        ensures CoffeeOk(t, k)
      {
        assert CoffeeOk(s, k);
      }
      forall k | 0 <= k < |t.customers|
        ensures CustomerOk(t, k)
      {
        if k < |s.customers| {
          assert CustomerOk(s, k);
        }
      }
      forall i | 0 <= i < |t.orders|
        ensures OrderOk(t, i) && CustomerLinked(t, i)
      {
        assert OrderOk(s, i) && CustomerLinked(s, i);
      }
    }
  }

  lemma RenameKeepsLinked(s: Shop, k: CustomerId, name: string)
    requires Linked(s)
    requires k < |s.customers|
    ensures Linked(RenameCustomer(s, k, name).shop)
  {
    var r := RenameCustomer(s, k, name);
    if r.result.Ok? {
      var t := r.shop;
      forall j | 0 <= j < |t.coffees|
        ensures CoffeeOk(t, j)
      {
        assert CoffeeOk(s, j);
      }
      forall j | 0 <= j < |t.customers|
        ensures CustomerOk(t, j)
      {
        assert CustomerOk(s, j);
      }
      forall i | 0 <= i < |t.orders|
        ensures OrderOk(t, i) && CustomerLinked(t, i)
      {
        assert OrderOk(s, i) && CustomerLinked(s, i);
      }
    }
  }

  /** A direct `Order(...)` keeps every single-sided fact: the new order is
      registered with its coffee, once. */
  lemma NewOrderKeepsWellFormed(s: Shop, customer: CustomerId, coffee: CoffeeId, price: real)
    requires WellFormed(s)
    requires customer < |s.customers| && coffee < |s.coffees|
    ensures WellFormed(NewOrder(s, customer, coffee, price).shop)
  {
    var r := NewOrder(s, customer, coffee, price);
    if r.result.Ok? {
      var t := r.shop;
      var n := |s.orders|;
      forall k | 0 <= k < |t.coffees|
        ensures CoffeeOk(t, k)
      {
        assert CoffeeOk(s, k);
        var ids := s.coffees[k].orders;
        if k == coffee {
          assert n !in ids;
          AppendFresh(ids, n);
        }
      }
      forall k | 0 <= k < |t.customers|
        ensures CustomerOk(t, k)
      {
        assert CustomerOk(s, k);
      }
      forall i | 0 <= i < |t.orders|
        ensures OrderOk(t, i)
      {
        if i < n {
          assert OrderOk(s, i);
          assert i in t.coffees[t.orders[i].coffee].orders;
        }
      }
    }
  }

  /** The direct constructor leaves the customer side unregistered: after a
      successful `Order(...)` the customer does not list the new order. */
  lemma NewOrderIsOneSided(s: Shop, customer: CustomerId, coffee: CoffeeId, price: real)
    requires WellFormed(s)
    requires customer < |s.customers| && coffee < |s.coffees|
    requires 1.0 <= price <= 10.0
    ensures !CustomerLinked(NewOrder(s, customer, coffee, price).shop, |s.orders|)
  {
    var t := NewOrder(s, customer, coffee, price).shop;
    var ids := s.customers[customer].orders;
    assert CustomerOk(s, customer);
    assert |s.orders| !in ids;
  }

  /** `create_order` keeps the two-sided link: the new order is listed once
      by its coffee and once by its customer, and no earlier link is lost. */
  lemma CreateOrderKeepsLinked(s: Shop, customer: CustomerId, coffee: CoffeeId, price: real)
    requires Linked(s)
    requires customer < |s.customers| && coffee < |s.coffees|
    ensures Linked(CreateOrder(s, customer, coffee, price).shop)
  {
    var r := CreateOrder(s, customer, coffee, price);
    if r.result.Ok? {
      NewOrderKeepsWellFormed(s, customer, coffee, price);
      var m := NewOrder(s, customer, coffee, price).shop;
      var t := r.shop;
      var n := |s.orders|;
      assert t == m.(customers := t.customers);
      forall k | 0 <= k < |t.coffees|
        ensures CoffeeOk(t, k)
      {
        assert CoffeeOk(m, k);
      }
      forall k | 0 <= k < |t.customers|
        ensures CustomerOk(t, k)
      {
        assert CustomerOk(s, k);
        var ids := s.customers[k].orders;
        if k == customer {
          assert n !in ids;
          AppendFresh(ids, n);
        }
      }
      forall i | 0 <= i < |t.orders|
        ensures OrderOk(t, i) && CustomerLinked(t, i)
      {
        assert OrderOk(m, i);
        if i < n {
          assert CustomerLinked(s, i);
        }
      }
    }
  }

  /** After a successful `create_order` the new order occurs exactly once in
      its coffee's list and exactly once in its customer's list, and it
      names exactly the customer, coffee and price passed in. */
  lemma CreateOrderRegistersOnce(s: Shop, customer: CustomerId, coffee: CoffeeId, price: real)
    requires WellFormed(s)
    requires customer < |s.customers| && coffee < |s.coffees|
    requires 1.0 <= price <= 10.0
    ensures var r := CreateOrder(s, customer, coffee, price);
      var id := r.result.value;
      && id < |r.shop.orders|
      && r.shop.orders[id] == Order(customer, coffee, price)
      && multiset(r.shop.coffees[coffee].orders)[id] == 1
      && multiset(r.shop.customers[customer].orders)[id] == 1
  {
    var n := |s.orders|;
    var cids := s.coffees[coffee].orders;
    var uids := s.customers[customer].orders;
    assert CoffeeOk(s, coffee);
    assert CustomerOk(s, customer);
    assert n !in cids;
    assert n !in uids;
    AppendFresh(cids, n);
    AppendFresh(uids, n);
  }
}
