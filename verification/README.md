# Coffee shop ordering — a Dafny model

This project models the entity layer of a small coffee-shop program. A
**coffee** is a catalog product with a name and a price. A **customer** has a
name. An **order** links one customer to one coffee at an agreed price.
Each coffee and each customer keeps the list of its orders. The model covers:

- the checks these records run when they are built or changed;
- `create_order`, which registers a new order on both sides;
- the queries over the order lists: `num_orders`, `average_price`, the
  distinct `customers()` and `coffees()`, and the `view_sales` total.

The model is functional. A `Shop` value holds three sequences: coffees,
customers and orders. Orders are stored centrally and referenced by their
index. Each coffee and each customer keeps a `seq<nat>` of order ids. Every
mutating operation returns a `Step`: the new shop and a `Result`. When a
record operation would raise `ValueError`, the returned shop is the one
passed in. The one exception is `place_order`, described below. Prices are
`real`.

Files (one module each):

- `wrappers.dfy` — `Option` and `Result`.
- `entities.dfy` — the records, the validation constants and the
  constructors and setter (`Coffee(...)`, `add_order`, `Customer(...)`,
  the `name` setter).
- `collections.dfy` — deduplication, standing in for `list(set(...))`.
- `shop.dfy` — the shop state, its well-formedness and link invariants, and
  the operations `AddCoffee`, `AddCustomer`, `RenameCustomer`, `NewOrder`
  (a bare `Order(...)`) and `CreateOrder`.
- `queries.dfy` — `num_orders`, `average_price`, `customers()`, `coffees()`.
- `sales.dfy` — the `view_sales` loop, proved equal to the sum of raw order
  prices.
- `menu.dfy` — the start-up catalog, the find-or-create step of
  `place_order`, and the runs of "Place Order" requests that `main` serves.

Three behaviours of the code worth knowing:

- **A bare `Order(...)` is one-sided.** It registers the order with its
  coffee only (models/main.py:80-83). `create_order` is what adds the order
  to the customer's list. `Shop.NewOrderIsOneSided` proves this.
- **`place_order` can fail after a change.** It registers a new customer
  before it calls `create_order` (models/main.py:113-120). So when the
  catalog price fails the order price check, the new customer stays
  registered. `Menu.PlaceOrder` states this. With the three catalog coffees
  of `main`, every price is in range, so this does not happen there.
- **An uncaught `ValueError` ends the program.** `main` has no `try`
  (models/main.py:159-160). An unknown name that is empty or longer than 15
  characters therefore ends the run, and later input is never served.
  `Menu.Session` stops at that point.

## Model

| member | source | states |
|---|---|---|
| Entities.NewCoffee | models/main.py:2-9 | A coffee is built iff its name has at least 3 characters and its price is positive. The name is checked first. A new coffee has no orders. |
| Entities.AddOrder | models/main.py:19-22 | `add_order` appends exactly one id at the end. The earlier list, the name and the price are unchanged. |
| Entities.NewCustomer | models/main.py:40-44 | A customer is built iff its name has 1 to 15 characters, and it starts with no orders. |
| Entities.SetName | models/main.py:50-54 | The setter accepts a name iff it has 1 to 15 characters. It changes only the name. |
| Entities.SetterAgreesWithConstructor | models/main.py:40-54 | The setter and the constructor accept exactly the same names, with the same error. |
| Collections.Dedup | models/main.py:28 | The deduplicated list has no repeats and holds exactly the elements of its input. |
| Shop.AddCoffee | models/main.py:144-148 | Adding a catalog coffee succeeds iff the coffee checks pass. On success it appends a fresh coffee at the next index. On failure the shop is unchanged. |
| Shop.AddCustomer | models/main.py:114-116 | Registering a customer succeeds iff the name check passes. On success it appends one customer with no orders. On failure the shop is unchanged. |
| Shop.RenameCustomer | models/main.py:50-54 | A rejected rename leaves the whole shop, and so the old name, unchanged. An accepted rename changes only that customer's name. |
| Shop.NewOrder | models/main.py:72-83 | `Order(...)` succeeds iff the price is in [1.0, 10.0]. It stores the order with exactly the given fields and appends its id to that coffee's list only. Nothing else changes, and on failure nothing changes. |
| Shop.CreateOrder | models/main.py:56-63 | `create_order` succeeds iff the price is in [1.0, 10.0]. On success it appends the one new id to both the coffee's and the customer's lists, and touches no other coffee or customer. On failure neither list changes. |
| Shop.EmptyLinked | models/main.py:143-148 | The empty shop satisfies the two-sided link invariant. |
| Shop.AddCoffeeKeepsLinked | models/main.py:2-9 | Adding a catalog coffee keeps the link invariant. |
| Shop.AddCustomerKeepsLinked | models/main.py:40-44 | Registering a customer keeps the link invariant. |
| Shop.RenameKeepsLinked | models/main.py:50-54 | Renaming a customer keeps the link invariant. |
| Shop.NewOrderKeepsWellFormed | models/main.py:80-83 | A bare `Order(...)` keeps every coffee-side fact. Each coffee lists only its own orders, each only once, and every order is listed by its coffee. |
| Shop.NewOrderIsOneSided | models/main.py:80-83 | After a successful bare `Order(...)`, the customer does not list the new order. |
| Shop.CreateOrderKeepsLinked | models/main.py:61-63 | `create_order` keeps the invariant. Every order in a coffee's (or customer's) list names that coffee (or customer), and every order is listed on both sides. |
| Shop.CreateOrderRegistersOnce | models/main.py:61-63 | After `create_order`, the new order occurs exactly once in its coffee's list and once in its customer's list. It names exactly the customer, coffee and price that were passed in. |
| Queries.NumOrders | models/main.py:30-31 | `num_orders` is zero exactly when the coffee has no orders. `Queries.CreateOrderUpdatesCoffee` shows that each successful `create_order` raises it by exactly one. |
| Queries.AveragePrice | models/main.py:33-36 | `average_price` is exactly 0 with no orders. Otherwise it is the mean: multiplied by the order count, it gives the sum of the order prices. |
| Queries.Customers | models/main.py:27-28 | `customers()` has no duplicates. It holds exactly the customers of the coffee's orders. |
| Queries.Coffees | models/main.py:68-69 | `coffees()` has no duplicates. It holds exactly the coffees of the customer's orders. |
| Queries.PriceSumBounds | models/main.py:78-79 | n orders that passed the price check sum to between n and 10n. |
| Queries.AveragePriceInRange | models/main.py:33-36 | With at least one valid order, the average lies in [1.0, 10.0]. |
| Queries.ShopAveragePriceInRange | models/main.py:33-36 | In a well-formed shop, every coffee with orders averages within [1.0, 10.0]. |
| Queries.CreateOrderUpdatesCoffee | models/main.py:30-31 | A successful `create_order` raises that coffee's `num_orders` by exactly 1 and its price total by the new price. Every other coffee is unchanged. |
| Queries.AverageOfFourAndSix | models/main.py:33-36 | Worked example: orders at 4.0 and 6.0 give 2 orders and an average of 5.0. |
| Queries.CustomersCoffeesAgree | models/main.py:27-28 | In a linked shop, customer u is in coffee k's `customers()` iff coffee k is in customer u's `coffees()`. |
| Sales.ViewSalesTotal | models/main.py:124-130 | The `view_sales` total sums `num_orders * average_price` over the coffees. It equals the sum of the raw prices of every order those coffees list. |
| Sales.NewOrderAddsPrice | models/main.py:80-83 | A bare `Order(...)` raises both the sales total and the sum of all order prices by exactly its price. |
| Sales.ListedArePlaced | models/main.py:80-83 | In a well-formed shop, a coffee's order list holds exactly the orders placed against that coffee. |
| Sales.WellFormedIsBalanced | models/main.py:124-130 | In every well-formed shop, the coffee-by-coffee sales total equals the sum of the prices of all orders. Each order is counted exactly once. |
| Sales.CreateOrderAddsPrice | models/main.py:61-63 | A successful `create_order` raises the sales total by exactly the new price. A rejected one leaves it unchanged. |
| Menu.FindCustomer | models/main.py:112 | The lookup returns the first customer with the given name. It returns None iff no registered customer has that name. |
| Menu.PlaceOrder | models/main.py:104-121 | An out-of-range menu number changes nothing and raises nothing. Otherwise the order succeeds iff the name is already registered or valid, and the catalog price is in [1.0, 10.0]. On success the new order has that coffee and its catalog price. It goes to the first customer with that name, or to a customer appended at the end when the name is new. Its id is appended to that coffee's list and that customer's list, and no other coffee or customer changes. On failure the error is the name error for an invalid new name, else the price error. Only a rejected price for a new valid name leaves a change: exactly that customer is added. |
| Menu.OpenShop | models/main.py:144-148 | The start-up catalog has three coffees, no orders, and every price within the order price range. |
| Menu.ViewSales | models/main.py:124-132 | On every well-formed shop, the reported sales total is the sum of the prices of every order. |
| Menu.OpenShopInvariant | models/main.py:143-148 | The start-up state is linked and its customer names are distinct. |
| Menu.PlaceOrderKeepsInvariant | models/main.py:104-121 | Placing an order keeps the two-sided link and the uniqueness of customer names. |
| Menu.Session | models/main.py:150-169 | Serving requests never changes the number of catalog coffees. It only appends orders, at most one per request, and adds at most one customer per request. The first uncaught `ValueError` ends the run. |
| Menu.EndedIsFinal | models/main.py:157-160 | Once a run has ended, further input changes neither the state nor the outcome. |
| Menu.EmptyNameEndsSession | models/main.py:111-116 | An empty new name raises and ends the run. The next request, Bob's order, is never placed. |
| Menu.SessionKeepsInvariant | models/main.py:150-169 | Every run of "Place Order" requests, up to where it ends, keeps that invariant. |
| Menu.SalesAfterSession | models/main.py:141-169 | From start-up, for any input, `view_sales` reports the price of every order placed before the run ended. |
| Menu.AliceOrdersLatte | models/main.py:104-121 | Scenario: Alice orders menu item 1 (Latte, 5.0). Latte then has one order and an average of 5.0. |

## Left out

- Console I/O: `print_menu`, `view_inventory` and the printing in
  `place_order` and `view_sales` are not modelled. They only read fields and
  queries the model already has.
- The main loop's menu choices are not modelled beyond "Place Order".
  "View Sales" and "View Inventory" do not change state, and "Exit" ends the
  run. `Menu.Session` is the sequence of "Place Order" requests.
- The traceback printed when `ValueError` ends the program is not modelled.
  `Menu.Session` only records that the run has ended.
- Parsing of the typed number (`int(input(...))`) is not modelled. A
  non-numeric entry raises an unhandled exception there; here the selection
  arrives already parsed.
- Two-decimal formatting and IEEE float rounding are not modelled. Prices
  are exact reals.
- `isinstance` checks are not modelled. The static types of the fields and
  parameters make them impossible to violate. Python's acceptance of `bool`
  as a number is not modelled either.
- Object identity and hashing behind `set(...)` are not modelled. Identity
  is an index into the shop's sequences. The order of the
  `customers()`/`coffees()` lists is unspecified in the program; here it is
  order of first appearance.
- The `orders()` accessors and the `name`/`price` getters are field reads.
  The program returns its live lists, and a caller could mutate them through
  that alias. The model does not allow this.
- A direct outside call to `Coffee.add_order` is not a shop operation. Such
  a call could list an order twice or on the wrong coffee. The model calls
  `add_order` only from `Order(...)`.
