/**
 * The synthetic datasets of the seeding script. Every random choice is arbitrary within its
 * range. Money is exact: prices and totals in hundredths, factors in ten-thousandths, and so
 * transaction amounts in millionths.
 */
module SeedData {
  import opened Wrappers
  import opened Sequences

  datatype Customer = Customer(id: int, email: Option<int>, city: string, signupDay: int, active: bool)

  datatype Product = Product(id: int, category: string, unitPrice: int, inStock: int)

  datatype Order = Order(id: int, customer: int, product: int, quantity: int, total: int, status: string, day: int)

  datatype Employee = Employee(id: int, department: string, manager: Option<int>, hireDay: int, level: int)

  datatype Transaction = Transaction(id: int, order: int, currency: string, amount: int, processor: string, minute: int)

  /** `RNG.choice` of an empty sequence. */
  datatype SeedError = IndexError

  const CITIES := ["Paris", "Berlin", "Madrid", "Rome", "Amsterdam", "Lisbon", "Vienna"]
  const CATEGORIES := ["books", "electronics", "apparel", "home", "outdoor"]
  const STATUSES := ["pending", "paid", "shipped", "cancelled"]
  const DEPARTMENTS := ["engineering", "sales", "support", "operations", "finance"]
  const CURRENCIES := ["EUR", "USD", "GBP", "CHF"]
  const PROCESSORS := ["stripe", "adyen", "paypal"]

  const MIN_PRICE := 500
  const MAX_PRICE := 49999
  const MIN_FACTOR := 9500
  const MAX_FACTOR := 10500

  // ---------------------------------------------------------------------------------------
  // The random source
  // ---------------------------------------------------------------------------------------

  method RandInt(lo: int, hi: int) returns (r: int)
    requires lo <= hi
    ensures lo <= r <= hi
  {
    r :| lo <= r <= hi;
  }

  method Choice<T>(xs: seq<T>) returns (x: T)
    requires xs != []
    ensures x in xs
  {
    var i :| 0 <= i < |xs|;
    x := xs[i];
  }

  method Coin() returns (b: bool) {
    b := *;
  }

  // ---------------------------------------------------------------------------------------
  // The builders
  // ---------------------------------------------------------------------------------------

  /** How many rows `range(1, n + 1)` gives. */
  function RowCount(n: int): nat {
    if n < 0 then 0 else n
  }

  ghost predicate GoodCustomers(rows: seq<Customer>) {
    forall i :: 0 <= i < |rows| ==>
      && rows[i].id == i + 1
      && rows[i].email == (if (i + 1) % 11 == 0 then None else Some(i + 1))
      && (rows[i].active <==> (i + 1) % 7 != 0)
      && rows[i].city in CITIES && 0 <= rows[i].signupDay <= 700
  }

  method BuildCustomers(n: int) returns (rows: seq<Customer>)
    ensures |rows| == RowCount(n) && GoodCustomers(rows)
  {
    rows := [];
    var i := 1;
    while i < n + 1
      invariant |rows| == i - 1 <= RowCount(n)
      invariant GoodCustomers(rows)
    {
      var city := Choice(CITIES);
      var day := RandInt(0, 700);
      rows := rows + [Customer(i, if i % 11 != 0 then Some(i) else None, city, day, i % 7 != 0)];
      i := i + 1;
    }
  }

  ghost predicate GoodProducts(rows: seq<Product>) {
    forall i :: 0 <= i < |rows| ==>
      && rows[i].id == i + 1 && rows[i].category in CATEGORIES
      && 500 <= rows[i].unitPrice <= 49999 && 0 <= rows[i].inStock <= 250
  }

  method BuildProducts(n: int) returns (rows: seq<Product>)
    ensures |rows| == RowCount(n) && GoodProducts(rows)
  {
    rows := [];
    var i := 1;
    while i < n + 1
      invariant |rows| == i - 1 <= RowCount(n)
      invariant GoodProducts(rows)
    {
      var category := Choice(CATEGORIES);
      var price := RandInt(MIN_PRICE, MAX_PRICE);
      var stock := RandInt(0, 250);
      rows := rows + [Product(i, category, price, stock)];
      i := i + 1;
    }
  }

  /** The order names a customer and a product of the datasets, at that product's price. */
  ghost predicate GoodOrder(o: Order, customers: seq<Customer>, products: seq<Product>) {
    && 1 <= o.quantity <= 6 && o.status in STATUSES && 0 <= o.day <= 450
    && (exists c :: c in customers && c.id == o.customer)
    && (exists p :: p in products && p.id == o.product && o.total == p.unitPrice * o.quantity)
  }

  ghost predicate GoodOrders(rows: seq<Order>, customers: seq<Customer>, products: seq<Product>) {
    forall i :: 0 <= i < |rows| ==> rows[i].id == i + 1 && GoodOrder(rows[i], customers, products)
  }

  method BuildOrders(customers: seq<Customer>, products: seq<Product>, n: int)
    returns (r: Result<seq<Order>, SeedError>)
    ensures r.Err? <==> n >= 1 && (customers == [] || products == [])
    ensures r.Ok? ==> |r.value| == RowCount(n) && GoodOrders(r.value, customers, products)
  {
    var rows := [];
    var i := 1;
    while i < n + 1
      invariant |rows| == i - 1 <= RowCount(n)
      invariant i > 1 ==> customers != [] && products != []
      invariant GoodOrders(rows, customers, products)
    {
      if customers == [] || products == [] {
        return Err(IndexError);
      }
      var cust := Choice(customers);
      var prod := Choice(products);
      var qty := RandInt(1, 6);
      var status := Choice(STATUSES);
      var day := RandInt(0, 450);
      rows := rows + [Order(i, cust.id, prod.id, qty, prod.unitPrice * qty, status, day)];
      i := i + 1;
    }
    return Ok(rows);
  }

  /** Managers have smaller ids; the first five employees have none. */
  ghost predicate GoodEmployees(rows: seq<Employee>) {
    forall i :: 0 <= i < |rows| ==>
      && rows[i].id == i + 1
      && (rows[i].manager.Some? ==> rows[i].id > 5 && 1 <= rows[i].manager.value < rows[i].id)
      && rows[i].department in DEPARTMENTS && 0 <= rows[i].hireDay <= 2500 && 1 <= rows[i].level <= 7
  }

  method BuildEmployees(n: int) returns (rows: seq<Employee>)
    ensures |rows| == RowCount(n) && GoodEmployees(rows)
  {
    rows := [];
    var i := 1;
    while i < n + 1
      invariant |rows| == i - 1 <= RowCount(n)
      invariant GoodEmployees(rows)
    {
      var manager: Option<int> := None;
      if i > 5 {
        var reports := Coin();
        if reports {
          var m := RandInt(1, i - 1);
          manager := Some(m);
        }
      }
      var department := Choice(DEPARTMENTS);
      var day := RandInt(0, 2500);
      var level := RandInt(1, 7);
      rows := rows + [Employee(i, department, manager, day, level)];
      i := i + 1;
    }
  }

  /** The transaction settles the order at a factor within five percent of one. */
  ghost predicate Settles(t: Transaction, o: Order, factor: int) {
    o.id == t.order && 9500 <= factor <= 10500 && t.amount == o.total * factor
  }

  ghost predicate GoodTransaction(t: Transaction, orders: seq<Order>) {
    && t.currency in CURRENCIES && t.processor in PROCESSORS && 0 <= t.minute <= 525600
    && exists o, factor :: o in orders && Settles(t, o, factor)
  }

  ghost predicate GoodTransactions(rows: seq<Transaction>, orders: seq<Order>) {
    forall i :: 0 <= i < |rows| ==> rows[i].id == i + 1 && GoodTransaction(rows[i], orders)
  }

  method BuildTransactions(orders: seq<Order>, n: int) returns (r: Result<seq<Transaction>, SeedError>)
    ensures r.Err? <==> n >= 1 && orders == []
    ensures r.Ok? ==> |r.value| == RowCount(n) && GoodTransactions(r.value, orders)
  {
    var rows := [];
    var i := 1;
    while i < n + 1
      invariant |rows| == i - 1 <= RowCount(n)
      invariant i > 1 ==> orders != []
      invariant GoodTransactions(rows, orders)
    {
      if orders == [] {
        return Err(IndexError);
      }
      var order := Choice(orders);
      var currency := Choice(CURRENCIES);
      var factor := RandInt(MIN_FACTOR, MAX_FACTOR);
      var processor := Choice(PROCESSORS);
      var minute := RandInt(0, 60 * 24 * 365);
      var row := Transaction(i, order.id, currency, order.total * factor, processor, minute);
      assert Settles(row, order, factor);
      rows := rows + [row];
      i := i + 1;
    }
    return Ok(rows);
  }

  datatype Datasets = Datasets(customers: seq<Customer>, products: seq<Product>, orders: seq<Order>,
                               employees: seq<Employee>, transactions: seq<Transaction>)

  ghost predicate GoodDatasets(d: Datasets) {
    && GoodCustomers(d.customers) && GoodProducts(d.products) && GoodEmployees(d.employees)
    && GoodOrders(d.orders, d.customers, d.products)
    && GoodTransactions(d.transactions, d.orders)
  }

  method BuildAll() returns (d: Datasets)
    ensures GoodDatasets(d)
    ensures |d.customers| == 50 && |d.products| == 30 && |d.orders| == 200
    ensures |d.employees| == 25 && |d.transactions| == 300
  {
    var customers := BuildCustomers(50);
    var products := BuildProducts(30);
    var orders := BuildOrders(customers, products, 200);
    var employees := BuildEmployees(25);
    var transactions := BuildTransactions(orders.value, 300);
    d := Datasets(customers, products, orders.value, employees, transactions.value);
  }

  // ---------------------------------------------------------------------------------------
  // References and amounts across the datasets
  // ---------------------------------------------------------------------------------------

  /** Every transaction reaches one order, one customer and one product. */
  lemma TransactionReachesAll(d: Datasets, t: Transaction)
    requires GoodDatasets(d) && t in d.transactions
    ensures 1 <= t.order <= |d.orders|
    ensures var o := d.orders[t.order - 1];
      && o.id == t.order
      && 1 <= o.customer <= |d.customers| && d.customers[o.customer - 1].id == o.customer
      && 1 <= o.product <= |d.products| && d.products[o.product - 1].id == o.product
      && o.total == d.products[o.product - 1].unitPrice * o.quantity
  {
    var i :| 0 <= i < |d.transactions| && d.transactions[i] == t;
    assert GoodTransaction(t, d.orders);
    var o, factor :| o in d.orders && Settles(t, o, factor);
    var j :| 0 <= j < |d.orders| && d.orders[j] == o;
    var c :| c in d.customers && c.id == o.customer;
    var k :| 0 <= k < |d.customers| && d.customers[k] == c;
    var p :| p in d.products && p.id == o.product && o.total == p.unitPrice * o.quantity;
    var l :| 0 <= l < |d.products| && d.products[l] == p;
  }

  lemma ScaledBetween(total: int, lo: int, factor: int, hi: int)
    requires total >= 0 && lo <= factor <= hi
    ensures total * lo <= total * factor <= total * hi
  {
  }

  lemma PositiveProduct(a: int, b: int)
    requires a > 0 && b > 0
    ensures a * b > 0
  {
  }

  /**
   * The amount lies between 0.95 and 1.05 times unit price times quantity, for the product and
   * the order that the transaction reaches.
   */
  lemma TransactionAmountBounds(d: Datasets, t: Transaction)
    requires GoodDatasets(d) && t in d.transactions
    ensures 1 <= t.order <= |d.orders| && 1 <= d.orders[t.order - 1].product <= |d.products|
    ensures var o := d.orders[t.order - 1];
      var full := d.products[o.product - 1].unitPrice * o.quantity;
      0 < full && full * 9500 <= t.amount <= full * 10500
  {
    TransactionReachesAll(d, t);
    var i :| 0 <= i < |d.transactions| && d.transactions[i] == t;
    assert GoodTransaction(t, d.orders);
    var o, factor :| o in d.orders && Settles(t, o, factor);
    assert o == d.orders[t.order - 1] && GoodOrder(o, d.customers, d.products);
    PositiveProduct(d.products[o.product - 1].unitPrice, o.quantity);
    ScaledBetween(o.total, MIN_FACTOR, factor, MAX_FACTOR);
  }

  // ---------------------------------------------------------------------------------------
  // Counting the marked customers
  // ---------------------------------------------------------------------------------------

  ghost function NullEmails(rows: seq<Customer>): nat {
    if rows == [] then 0
    else NullEmails(rows[..|rows| - 1]) + if rows[|rows| - 1].email.None? then 1 else 0
  }

  ghost function Inactive(rows: seq<Customer>): nat {
    if rows == [] then 0
    else Inactive(rows[..|rows| - 1]) + if rows[|rows| - 1].active then 0 else 1
  }

  /** Of `n` customers, one in eleven has no email and one in seven is inactive, rounded down. */
  lemma {:induction false} MarkedCustomers(rows: seq<Customer>)
    requires GoodCustomers(rows)
    ensures NullEmails(rows) == |rows| / 11 && Inactive(rows) == |rows| / 7
  {
    if rows != [] {
      MarkedCustomers(rows[..|rows| - 1]);
    }
  }

  // ---------------------------------------------------------------------------------------
  // Management
  // ---------------------------------------------------------------------------------------

  /** Each employee of the chain reports to the next. */
  ghost predicate IsManagementChain(rows: seq<Employee>, chain: seq<int>) {
    && chain != []
    && (forall i :: 0 <= i < |chain| ==> 1 <= chain[i] <= |rows|)
    && (forall i :: 0 <= i < |chain| - 1 ==> rows[chain[i] - 1].manager == Some(chain[i + 1]))
  }

  lemma {:induction false} ChainDescends(rows: seq<Employee>, chain: seq<int>)
    requires GoodEmployees(rows) && IsManagementChain(rows, chain)
    ensures chain[0] >= chain[|chain| - 1] + |chain| - 1
    ensures forall i :: 0 < i < |chain| ==> chain[i] < chain[0]
  {
    if |chain| > 1 {
      assert rows[chain[0] - 1].manager == Some(chain[1]);
      var rest := chain[1..];
      assert forall i :: 0 <= i < |rest| ==> rest[i] == chain[i + 1];
      ChainDescends(rows, rest);
    }
  }

  lemma ChainSuffix(rows: seq<Employee>, chain: seq<int>, i: nat)
    requires IsManagementChain(rows, chain) && i < |chain|
    ensures IsManagementChain(rows, chain[i..])
  {
    var tail := chain[i..];
    forall k | 0 <= k < |tail| - 1 ensures rows[tail[k] - 1].manager == Some(tail[k + 1]) {
      assert rows[chain[i + k] - 1].manager == Some(chain[i + k + 1]);
    }
  }

  /** No chain is longer than its first id, and none comes back to an employee it passed. */
  lemma ManagementIsAcyclic(rows: seq<Employee>, chain: seq<int>)
    requires GoodEmployees(rows) && IsManagementChain(rows, chain)
    ensures |chain| <= chain[0]
    ensures NoDuplicates(chain)
  {
    ChainDescends(rows, chain);
    forall i, j | 0 <= i < j < |chain| ensures chain[i] != chain[j] {
      var tail := chain[i..];
      ChainSuffix(rows, chain, i);
      ChainDescends(rows, tail);
      assert tail[j - i] == chain[j];
    }
  }

  lemma ChainFromFront(rows: seq<Employee>, id: int, rest: seq<int>)
    requires IsManagementChain(rows, rest) && 1 <= id <= |rows|
    requires rows[id - 1].manager == Some(rest[0])
    ensures IsManagementChain(rows, [id] + rest)
  {
    var chain := [id] + rest;
    assert forall i :: 0 < i < |chain| ==> chain[i] == rest[i - 1];
  }

  /** Following managers from any employee ends at one who has none. */
  lemma {:induction false} ChainReachesTop(rows: seq<Employee>, id: int) returns (chain: seq<int>)
    requires GoodEmployees(rows) && 1 <= id <= |rows|
    ensures IsManagementChain(rows, chain) && chain[0] == id
    ensures rows[chain[|chain| - 1] - 1].manager.None?
    decreases id
  {
    var manager := rows[id - 1].manager;
    if manager.None? {
      chain := [id];
    } else {
      assert rows[id - 1].id == id;
      var rest := ChainReachesTop(rows, manager.value);
      ChainFromFront(rows, id, rest);
      chain := [id] + rest;
    }
  }

  // ---------------------------------------------------------------------------------------
  // Column types
  // ---------------------------------------------------------------------------------------

  /** The type of a sampled value. */
  datatype Kind = NullKind | IntKind | FloatKind | BoolKind | StrKind | DictKind | OtherKind

  datatype PgType = BigInt | DoublePrecision | Boolean | PgText | Jsonb

  ghost predicate AllAmong(values: seq<Kind>, kinds: set<Kind>) {
    forall v :: v in values ==> v == NullKind || v in kinds
  }

  /** The answer depends only on which kinds occur: on no order, repetition or null. */
  method InferPgType(values: seq<Kind>) returns (t: PgType)
    ensures t == Jsonb <==> DictKind in values
    ensures t == BigInt <==> IntKind in values && AllAmong(values, {IntKind})
    ensures t == DoublePrecision <==> FloatKind in values && AllAmong(values, {IntKind, FloatKind})
    ensures t == Boolean <==> BoolKind in values && AllAmong(values, {BoolKind})
  {
    var seen: set<Kind> := {};
    for i := 0 to |values|
      invariant forall k :: k in seen <==> k in values[..i] && k != NullKind
      invariant DictKind !in seen
    {
      var v := values[i];
      assert values[..i + 1] == values[..i] + [v];
      if v == NullKind {
        continue;
      }
      if v == DictKind {
        return Jsonb;
      }
      seen := seen + {v};
    }
    assert values[..|values|] == values;
    if seen == {} {
      return PgText;
    }
    if seen == {IntKind} {
      return BigInt;
    }
    if seen <= {IntKind, FloatKind} {
      assert seen != {IntKind} && FloatKind in seen;
      return DoublePrecision;
    }
    if seen == {BoolKind} {
      return Boolean;
    }
    return PgText;
  }
}
