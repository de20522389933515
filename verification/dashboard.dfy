/**
 The admin dashboard: store-wide counts and revenue, the five newest
 orders, and the five products lowest in stock among those at or below the
 low-stock threshold.
 */
module Dashboard {
  import opened Common
  import opened Sequences
  import opened Store
  import Checkout

  /** A product with this much stock or less is low on stock. */
  const LowStockThreshold: int := 10

  datatype Stats = Stats(
    totalProducts: nat,
    activeProducts: nat,
    lowStockProducts: nat,
    totalOrders: nat,
    pendingOrders: nat,
    totalRevenue: real,
    totalCustomers: nat)

  predicate IsActive(p: Product) { p.isActive }

  predicate IsLowStock(p: Product) { p.stock <= LowStockThreshold }

  predicate IsPending(o: Order) { StatusName(o.status) == "pending" }

  predicate NotCancelled(o: Order) { StatusName(o.status) != "cancelled" }

  predicate IsCustomer(u: UserRecord) { u.role == "customer" }

  /** Σ total over the orders. */
  function TotalOf(orders: seq<Order>): real
    decreases |orders|
  {
    if orders == [] then 0.0 else orders[0].total + TotalOf(orders[1..])
  }

  lemma {:induction false} TotalOfAppend(s: seq<Order>, t: seq<Order>)
    ensures TotalOf(s + t) == TotalOf(s) + TotalOf(t)
    decreases |s|
  {
    if s == [] {
      assert s + t == t;
    } else {
      assert (s + t)[1..] == s[1..] + t;
      TotalOfAppend(s[1..], t);
    }
  }

  /** Orders whose figures add up have non-negative totals, and so does
      their sum. */
  lemma {:induction false} TotalOfNonNegative(orders: seq<Order>)
    requires forall i :: 0 <= i < |orders| ==> Checkout.TotalsAddUp(orders[i])
    ensures TotalOf(orders) >= 0.0
    decreases |orders|
  {
    if orders != [] {
      assert Checkout.TotalsAddUp(orders[0]);
      TotalOfNonNegative(orders[1..]);
    }
  }

  /** `sum('total')` over the orders that are not cancelled. */
  function Revenue(orders: seq<Order>): real
  {
    TotalOf(Filter(orders, NotCancelled))
  }

  /** `where('is_active', true)->count()`. */
  function ActiveCount(products: seq<Product>): (n: nat)
    ensures n <= |products|
    ensures (forall i :: 0 <= i < |products| ==> products[i].isActive) <==> n == |products|
  {
    FilterKeepsAllIff(products, IsActive);
    Count(products, IsActive)
  }

  /** `where('stock', '<=', 10)->count()`. */
  function LowStockCount(products: seq<Product>): (n: nat)
    ensures n <= |products|
    ensures (forall i :: 0 <= i < |products| ==> products[i].stock > LowStockThreshold) <==> n == 0
  {
    FilterKeepsNoneIff(products, IsLowStock);
    Count(products, IsLowStock)
  }

  /** `where('status', 'pending')->count()`. */
  function PendingCount(orders: seq<Order>): (n: nat)
    ensures n <= |orders|
    ensures (forall i :: 0 <= i < |orders| ==> orders[i].status != Pending) <==> n == 0
  {
    FilterKeepsNoneIff(orders, IsPending);
    assert forall o: Order :: IsPending(o) <==> o.status == Pending;
    Count(orders, IsPending)
  }

  /** `where('role', 'customer')->count()`. */
  function CustomerCount(users: seq<UserRecord>): (n: nat)
    ensures n <= |users|
    ensures (forall i :: 0 <= i < |users| ==> users[i].role != "customer") <==> n == 0
  {
    FilterKeepsNoneIff(users, IsCustomer);
    Count(users, IsCustomer)
  }

  /** The `stats` block. */
  function ComputeStats(products: seq<Product>, orders: seq<Order>, users: seq<UserRecord>): (s: Stats)
    ensures s.totalProducts == |products| && s.totalOrders == |orders|
    ensures s.activeProducts <= s.totalProducts
    ensures s.lowStockProducts <= s.totalProducts
    ensures s.pendingOrders <= s.totalOrders
    ensures s.totalCustomers <= |users|
    ensures (forall i :: 0 <= i < |products| ==> products[i].isActive) <==> s.activeProducts == s.totalProducts
    ensures (forall i :: 0 <= i < |orders| ==> orders[i].status != Pending) <==> s.pendingOrders == 0
    ensures (forall i :: 0 <= i < |products| ==> products[i].stock > LowStockThreshold) <==> s.lowStockProducts == 0
    ensures (forall i :: 0 <= i < |users| ==> users[i].role != "customer") <==> s.totalCustomers == 0
    ensures s.totalRevenue == Revenue(orders)
  {
    Stats(
      |products|,
      ActiveCount(products),
      LowStockCount(products),
      |orders|,
      PendingCount(orders),
      Revenue(orders),
      CustomerCount(users))
  }

  /** The revenue of a sequence of orders split around one order. */
  lemma RevenueSplit(before: seq<Order>, o: Order, after: seq<Order>)
    ensures Revenue(before + [o] + after)
      == Revenue(before) + (if o.status != Cancelled then o.total else 0.0) + Revenue(after)
  {
    var fb, fo, fa := Filter(before, NotCancelled), Filter([o], NotCancelled), Filter(after, NotCancelled);
    FilterAppend(before + [o], after, NotCancelled);
    FilterAppend(before, [o], NotCancelled);
    TotalOfAppend(fb + fo, fa);
    TotalOfAppend(fb, fo);
    RevenueSingle(o);
  }

  lemma RevenueSingle(o: Order)
    ensures Revenue([o]) == if o.status != Cancelled then o.total else 0.0
  {
    assert [o][1..] == [];
    var fo := Filter([o], NotCancelled);
    if o.status != Cancelled {
      assert fo == [o];
      assert fo[1..] == [];
      assert TotalOf(fo) == o.total + TotalOf([]);
    } else {
      assert fo == [];
    }
  }

  /** An empty store's figures are all zero. */
  lemma EmptyStats()
    ensures ComputeStats([], [], []) == Stats(0, 0, 0, 0, 0, 0.0, 0)
  {
    CountEmpty(IsActive);
    CountEmpty(IsLowStock);
    CountEmpty(IsPending);
    CountEmpty(IsCustomer);
    assert Filter([], NotCancelled) == [];
  }

  /** One more product adds one product, one active product when it is
      active and one low-stock product when it has 10 or fewer in stock; the
      order and customer figures stay. Together with EmptyStats this fixes
      the product counts of every table. */
  lemma AddingAProduct(products: seq<Product>, orders: seq<Order>, users: seq<UserRecord>, p: Product)
    ensures var before := ComputeStats(products, orders, users);
      var after := ComputeStats(products + [p], orders, users);
      && after.totalProducts == before.totalProducts + 1
      && after.activeProducts == before.activeProducts + (if p.isActive then 1 else 0)
      && after.lowStockProducts == before.lowStockProducts + (if p.stock <= LowStockThreshold then 1 else 0)
      && after == before.(totalProducts := after.totalProducts, activeProducts := after.activeProducts,
                          lowStockProducts := after.lowStockProducts)
  {
    CountAppend(products, p, IsActive);
    CountAppend(products, p, IsLowStock);
  }

  /** One more order adds one order, one pending order when it is pending, and
      its total to the revenue unless it is cancelled. */
  lemma AddingAnOrder(products: seq<Product>, orders: seq<Order>, users: seq<UserRecord>, o: Order)
    ensures var before := ComputeStats(products, orders, users);
      var after := ComputeStats(products, orders + [o], users);
      && after.totalOrders == before.totalOrders + 1
      && after.pendingOrders == before.pendingOrders + (if o.status == Pending then 1 else 0)
      && after.totalRevenue == before.totalRevenue + (if o.status != Cancelled then o.total else 0.0)
      && after == before.(totalOrders := after.totalOrders, pendingOrders := after.pendingOrders,
                          totalRevenue := after.totalRevenue)
  {
    CountAppend(orders, o, IsPending);
    RevenueSplit(orders, o, []);
    assert orders + [o] + [] == orders + [o];
  }

  /** One more user adds one customer exactly when the user's role is
      customer. */
  lemma AddingAUser(products: seq<Product>, orders: seq<Order>, users: seq<UserRecord>, u: UserRecord)
    ensures var before := ComputeStats(products, orders, users);
      var after := ComputeStats(products, orders, users + [u]);
      && after.totalCustomers == before.totalCustomers + (if u.role == "customer" then 1 else 0)
      && after == before.(totalCustomers := after.totalCustomers)
  {
    CountAppend(users, u, IsCustomer);
  }

  /** Placing an order adds one order, one pending order and its total to
      the revenue. */
  lemma PlacingAnOrder(products: seq<Product>, orders: seq<Order>, users: seq<UserRecord>, o: Order)
    requires o.status == Pending
    ensures var before := ComputeStats(products, orders, users);
      var after := ComputeStats(products, orders + [o], users);
      && after.totalOrders == before.totalOrders + 1
      && after.pendingOrders == before.pendingOrders + 1
      && after.totalRevenue == before.totalRevenue + o.total
      && after == before.(totalOrders := after.totalOrders, pendingOrders := after.pendingOrders,
                          totalRevenue := after.totalRevenue)
  {
    FilterAppend(orders, [o], IsPending);
    assert [o][1..] == [];
    RevenueSplit(orders, o, []);
    assert orders + [o] + [] == orders + [o];
  }

  /** Cancelling an order takes exactly its total out of the revenue. */
  lemma CancellingAnOrder(before: seq<Order>, o: Order, after: seq<Order>)
    requires o.status != Cancelled
    ensures Revenue(before + [o] + after) == Revenue(before + [o.(status := Cancelled)] + after) + o.total
  {
    RevenueSplit(before, o, after);
    RevenueSplit(before, o.(status := Cancelled), after);
  }

  /** When every order's figures add up, the revenue is not negative. */
  lemma RevenueNonNegative(orders: seq<Order>)
    requires forall i :: 0 <= i < |orders| ==> Checkout.TotalsAddUp(orders[i])
    ensures Revenue(orders) >= 0.0
  {
    var kept := Filter(orders, NotCancelled);
    forall i | 0 <= i < |kept| ensures Checkout.TotalsAddUp(kept[i]) {
      var k :| 0 <= k < |orders| && orders[k] == kept[i];
    }
    TotalOfNonNegative(kept);
  }

  // ---------------------------------------------------------------------
  // The two lists

  /** The five newest orders. */
  function RecentOrders(orders: seq<Order>): (r: seq<Order>)
    ensures |r| <= 5
    ensures |orders| >= 5 ==> |r| == 5
    ensures |orders| < 5 ==> multiset(r) == multiset(orders)
    ensures forall o :: o in r ==> o in orders
    ensures forall i, j :: 0 <= i < j < |r| ==> r[i].createdAt >= r[j].createdAt
    ensures forall o :: o in orders && o !in r ==> forall i :: 0 <= i < |r| ==> r[i].createdAt >= o.createdAt
  {
    assert TotalPreorder(NewestFirst);
    TopBy(orders, 5, NewestFirst)
  }

  function StockAscending(a: Product, b: Product): bool
  {
    a.stock <= b.stock
  }

  /** The five lowest-stock products among those at or below the threshold. */
  function LowStock(products: seq<Product>): (r: seq<Product>)
    ensures |r| <= 5
    ensures |r| == 5 || multiset(r) == multiset(Filter(products, IsLowStock))
    ensures forall p :: p in r ==> p in products && p.stock <= LowStockThreshold
    ensures forall i, j :: 0 <= i < j < |r| ==> r[i].stock <= r[j].stock
    ensures forall p :: p in products && p.stock <= LowStockThreshold && p !in r ==>
      |r| == 5 && forall i :: 0 <= i < |r| ==> r[i].stock <= p.stock
  {
    assert TotalPreorder(StockAscending);
    TopBy(Filter(products, IsLowStock), 5, StockAscending)
  }
}
