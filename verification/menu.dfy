/** The rule-bearing steps of the console menu: the start-up catalog, the
    find-or-create customer lookup and the order placement of
    `place_order`, and the sales total of `view_sales`.  Reading input and
    printing are not modelled: a request is the already-read menu number
    and name, and a query returns the number the menu would print. */
module Menu {
  import opened Wrappers
  import opened Entities
  import opened Collections
  import opened Shop
  import opened Queries
  import opened Sales

  /** One "Place Order" interaction: the number typed at "Select a coffee
      by number" (already parsed) and the name typed at "Enter your name". */
  datatype Request = Request(selection: int, name: string)

  /** The first customer at or after `from` whose name is `name`. */
  function FindFrom(customers: seq<Customer>, name: string, from: nat): (r: Option<CustomerId>)
    requires from <= |customers|
    ensures r.Some? ==> from <= r.value < |customers| && customers[r.value].name == name
    ensures r.Some? ==> forall j :: from <= j < r.value ==> customers[j].name != name
    ensures r.None? <==> forall j :: from <= j < |customers| ==> customers[j].name != name
    decreases |customers| - from
  {
    if from == |customers| then None
    else if customers[from].name == name then Some(from)
    else FindFrom(customers, name, from + 1)
  }

  /** `next((c for c in customers if c.name == name), None)`: the first
      registered customer with that name, or None when there is none. */
  function FindCustomer(customers: seq<Customer>, name: string): (r: Option<CustomerId>)
    ensures r.Some? ==> r.value < |customers| && customers[r.value].name == name
    ensures r.Some? ==> forall j :: 0 <= j < r.value ==> customers[j].name != name
    ensures r.None? <==> forall j :: 0 <= j < |customers| ==> customers[j].name != name
  {
    FindFrom(customers, name, 0)
  }

  /** `place_order` without its console I/O.  An out-of-range selection
      prints an error and changes nothing (`Ok(None)`).  A known name orders
      as the first customer with that name; an unknown name first creates
      and registers a customer.  If `create_order` then rejects the coffee's
      catalog price, that new customer stays registered, as in the program.
      An `Err` is a `ValueError` the program does not catch. */
  function PlaceOrder(s: Shop, req: Request): (r: Step<Option<OrderId>>)
    ensures !(1 <= req.selection <= |s.coffees|) ==> r == Step(s, Ok(None))
    ensures 1 <= req.selection <= |s.coffees| ==>
      var k := req.selection - 1;
      var found := FindCustomer(s.customers, req.name);
      var u := if found.Some? then found.value else |s.customers|;
      && (r.result.Ok? <==> (found.Some? || 1 <= |req.name| <= 15) && 1.0 <= s.coffees[k].price <= 10.0)
      && (r.result.Ok? ==>
            && r.result.value == Some(|s.orders|)
            && r.shop.orders == s.orders + [Order(u, k, s.coffees[k].price)]
            && |r.shop.customers| == |s.customers| + (if found.Some? then 0 else 1)
            && r.shop.customers[u].name == req.name
            && r.shop.customers[u].orders
               == (if found.Some? then s.customers[u].orders else []) + [|s.orders|]
            && (forall j :: 0 <= j < |s.customers| && j != u ==> r.shop.customers[j] == s.customers[j])
            && |r.shop.coffees| == |s.coffees|
            && r.shop.coffees[k].orders == s.coffees[k].orders + [|s.orders|]
            && r.shop.coffees[k].name == s.coffees[k].name
            && r.shop.coffees[k].price == s.coffees[k].price
            && (forall j :: 0 <= j < |s.coffees| && j != k ==> r.shop.coffees[j] == s.coffees[j]))
      && (r.result.Err? ==>
            r.result.error == if found.None? && !(1 <= |req.name| <= 15) then CustomerNameError else OrderPriceError)
      && (r.result.Err? && (found.Some? || !(1 <= |req.name| <= 15)) ==> r.shop == s)
      && (r.result.Err? && found.None? && 1 <= |req.name| <= 15 ==>
            r.shop == s.(customers := s.customers + [Customer(req.name, [])]))
  {
    var k := req.selection - 1;
    if k < 0 || k >= |s.coffees| then Step(s, Ok(None))
    else
      var price := s.coffees[k].price;
      var placed := match FindCustomer(s.customers, req.name)
        case Some(u) => CreateOrder(s, u, k, price)
        case None =>
          var added := AddCustomer(s, req.name);
          if added.result.Err? then Step(s, Err(added.result.error))
          else CreateOrder(added.shop, added.result.value, k, price);
      match placed.result
      case Ok(id) => Step(placed.shop, Ok(Some(id)))
      case Err(e) => Step(placed.shop, Err(e))
  }

  /** The catalog `main` starts with. */
  function OpenShop(): (r: Shop)
    ensures |r.coffees| == 3 && r.customers == [] && r.orders == []
    ensures forall k :: 0 <= k < 3 ==> r.coffees[k].orders == [] && ValidOrderPrice(r.coffees[k].price)
  {
    var latte := AddCoffee(Empty, "Latte", 5.0).shop;
    var espresso := AddCoffee(latte, "Espresso", 3.0).shop;
    AddCoffee(espresso, "Cappuccino", 4.5).shop
  }

  /** Where `main` has got to: the state, and whether an uncaught
      `ValueError` has ended the program. */
  datatype Run = Run(shop: Shop, ended: bool)

  /** `main` serving a run of "Place Order" requests (the other menu
      entries only read the state).  The first `ValueError` ends the
      program: the requests after it are never served. */
  function Session(s: Shop, reqs: seq<Request>): (r: Run)
    ensures |r.shop.coffees| == |s.coffees|
    ensures |s.orders| <= |r.shop.orders| <= |s.orders| + |reqs|
    ensures r.shop.orders[..|s.orders|] == s.orders
    ensures |s.customers| <= |r.shop.customers| <= |s.customers| + |reqs|
  {
    if reqs == [] then Run(s, false)
    else
      var prev := Session(s, reqs[..|reqs| - 1]);
      if prev.ended then prev
      else
        var step := PlaceOrder(prev.shop, reqs[|reqs| - 1]);
        assert step.shop.orders[..|prev.shop.orders|] == prev.shop.orders;
        assert step.shop.orders[..|s.orders|] == prev.shop.orders[..|s.orders|];
        Run(step.shop, step.result.Err?)
  }

  /** No two registered customers share a name. */
  predicate DistinctNames(customers: seq<Customer>) {
    forall i, j :: 0 <= i < j < |customers| ==> customers[i].name != customers[j].name
  }

  /** What holds of every state the program can reach. */
  predicate Invariant(s: Shop) {
    Linked(s) && DistinctNames(s.customers)
  }

  /** `view_sales`' total on the shop's own catalog: the price of every
      order in the shop. */
  method ViewSales(s: Shop) returns (total: real)
    requires WellFormed(s)
    ensures total == OrderTotal(s.orders)
  {
    WellFormedIsBalanced(s);
    total := ViewSalesTotal(s.orders, s.coffees);
  }

  // ---------------------------------------------------------------------
  // Lemmas
  // ---------------------------------------------------------------------

  lemma OpenShopInvariant()
    ensures Invariant(OpenShop())
  {
  }

  /** Placing an order keeps the two-sided link and the uniqueness of
      customer names. */
  lemma PlaceOrderKeepsInvariant(s: Shop, req: Request)
    requires Invariant(s)
    ensures Invariant(PlaceOrder(s, req).shop)
  {
    var k := req.selection - 1;
    if 0 <= k < |s.coffees| {
      var price := s.coffees[k].price;
      match FindCustomer(s.customers, req.name)
      case Some(u) =>
        CreateOrderKeepsLinked(s, u, k, price);
      case None =>
        var added := AddCustomer(s, req.name);
        if added.result.Ok? {
          var a := added.shop;
          AddCustomerKeepsLinked(s, req.name);
          assert DistinctNames(a.customers);
          CreateOrderKeepsLinked(a, added.result.value, k, price);
          var t := CreateOrder(a, added.result.value, k, price).shop;
          assert forall j :: 0 <= j < |t.customers| ==> t.customers[j].name == a.customers[j].name;
        }
    }
  }

  /** Every state `main` reaches keeps the invariant. */
  lemma {:induction false} SessionKeepsInvariant(s: Shop, reqs: seq<Request>)
    requires Invariant(s)
    ensures Invariant(Session(s, reqs).shop)
  {
    if reqs != [] {
      SessionKeepsInvariant(s, reqs[..|reqs| - 1]);
      PlaceOrderKeepsInvariant(Session(s, reqs[..|reqs| - 1]).shop, reqs[|reqs| - 1]);
    }
  }

  /** Once the program has ended, further input changes nothing. */
  lemma {:induction false} EndedIsFinal(s: Shop, reqs: seq<Request>, more: seq<Request>)
    requires Session(s, reqs).ended
    ensures Session(s, reqs + more) == Session(s, reqs)
  {
    if more != [] {
      var init := more[..|more| - 1];
      assert (reqs + more)[..|reqs + more| - 1] == reqs + init;
      EndedIsFinal(s, reqs, init);
    } else {
      assert reqs + more == reqs;
    }
  }

  /** An empty name for an unknown customer raises, which ends the program
      before the next request: Bob's order is never placed. */
  lemma EmptyNameEndsSession()
    ensures Session(OpenShop(), [Request(1, ""), Request(1, "Bob")]) == Run(OpenShop(), true)
  {
  }

  /** From start-up on, the sales total `view_sales` reports is the price of
      every order placed, however far the run got. */
  method SalesAfterSession(reqs: seq<Request>) returns (total: real)
    ensures total == OrderTotal(Session(OpenShop(), reqs).shop.orders)
  {
    OpenShopInvariant();
    SessionKeepsInvariant(OpenShop(), reqs);
    total := ViewSales(Session(OpenShop(), reqs).shop);
  }

  /** Scenario: Alice orders a Latte (menu number 1) at its catalog
      price 5.0; the Latte then has one order averaging 5.0. */
  lemma AliceOrdersLatte()
    ensures var t := Session(OpenShop(), [Request(1, "Alice")]).shop;
      && |t.coffees| == 3
      && InRange(t.coffees[0].orders, |t.orders|)
      && NumOrders(t.coffees[0]) == 1
      && AveragePrice(t.orders, t.coffees[0]) == 5.0
  {
    var s := OpenShop();
    var reqs := [Request(1, "Alice")];
    assert reqs[..0] == [];
    assert FindCustomer(s.customers, "Alice") == None;
    var t := Session(s, reqs).shop;
    assert t.coffees[0].orders == [0];
    assert [0][..0] == [];
    assert PriceSum(t.orders, t.coffees[0].orders) == 5.0;
  }
}
