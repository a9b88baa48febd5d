/** The three records of the coffee shop and the checks their construction
    and mutation perform.  References between records are indices: a coffee
    and a customer each keep the ids of their orders, and an order names its
    customer and its coffee by their positions in the shop (see module Shop).
    The program's `isinstance` checks are the static types of these fields. */
module Entities {
  import opened Wrappers

  type CoffeeId = nat
  type CustomerId = nat
  type OrderId = nat

  /** The one error kind of the entity layer; the message is the program's. */
  datatype Error = ValueError(message: string)

  const CoffeeNameError := ValueError("Name must be a string of at least 3 characters")
  const CoffeePriceError := ValueError("Price must be a positive number")
  const CustomerNameError := ValueError("Name must be a string between 1 and 15 characters inclusive")
  const OrderPriceError := ValueError("Price must be between 1.0 and 10.0 inclusive")

  const MinCoffeeNameLength: nat := 3
  const MinCustomerNameLength: nat := 1
  const MaxCustomerNameLength: nat := 15
  const MinOrderPrice: real := 1.0
  const MaxOrderPrice: real := 10.0

  /** A catalog product; `orders` lists, in insertion order, the orders
      placed against it. */
  datatype Coffee = Coffee(name: string, price: real, orders: seq<OrderId>)

  /** A buyer; `orders` lists, in insertion order, the orders it created. */
  datatype Customer = Customer(name: string, orders: seq<OrderId>)

  /** One purchase of one coffee by one customer at an agreed price, which
      may differ from the coffee's catalog price. */
  datatype Order = Order(customer: CustomerId, coffee: CoffeeId, price: real)

  predicate ValidCoffeeName(name: string) {
    |name| >= MinCoffeeNameLength
  }

  predicate ValidCoffeePrice(price: real) {
    price > 0.0
  }

  predicate ValidCustomerName(name: string) {
    MinCustomerNameLength <= |name| <= MaxCustomerNameLength
  }

  predicate ValidOrderPrice(price: real) {
    MinOrderPrice <= price <= MaxOrderPrice
  }

  /** `Coffee(name, price)`: the name is checked before the price, and a new
      coffee has no orders. */
  function NewCoffee(name: string, price: real): (r: Result<Coffee, Error>)
    ensures r.Ok? <==> |name| >= 3 && price > 0.0
    ensures r.Ok? ==> r.value.name == name && r.value.price == price && r.value.orders == []
    ensures |name| < 3 ==> r == Err(CoffeeNameError)
    ensures |name| >= 3 && price <= 0.0 ==> r == Err(CoffeePriceError)
  {
    if !ValidCoffeeName(name) then Err(CoffeeNameError)
    else if !ValidCoffeePrice(price) then Err(CoffeePriceError)
    else Ok(Coffee(name, price, []))
  }

  /** `Coffee.add_order`: appends, with no deduplication. */
  function AddOrder(c: Coffee, id: OrderId): (r: Coffee)
    ensures r.name == c.name && r.price == c.price
    ensures |r.orders| == |c.orders| + 1 && r.orders[|c.orders|] == id
    ensures r.orders[..|c.orders|] == c.orders
  {
    c.(orders := c.orders + [id])
  }

  /** `Customer(name)`: a new customer has no orders. */
  function NewCustomer(name: string): (r: Result<Customer, Error>)
    ensures r.Ok? <==> 1 <= |name| <= 15
    ensures r.Ok? ==> r.value == Customer(name, [])
    ensures r.Err? ==> r.error == CustomerNameError
  {
    if ValidCustomerName(name) then Ok(Customer(name, [])) else Err(CustomerNameError)
  }

  /** The `name` setter: it re-runs the constructor's check and touches
      nothing but the name. */
  function SetName(c: Customer, name: string): (r: Result<Customer, Error>)
    ensures r.Ok? <==> 1 <= |name| <= 15
    ensures r.Ok? ==> r.value.name == name && r.value.orders == c.orders
    ensures r.Err? ==> r.error == CustomerNameError
  {
    if ValidCustomerName(name) then Ok(c.(name := name)) else Err(CustomerNameError)
  }

  /** The setter accepts exactly the names the constructor accepts. */
  lemma SetterAgreesWithConstructor(c: Customer, name: string)
    ensures SetName(c, name).Ok? <==> NewCustomer(name).Ok?
    ensures SetName(c, name).Err? ==> SetName(c, name).error == NewCustomer(name).error
  {
  }
}
