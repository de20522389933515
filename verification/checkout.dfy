/**
 The checkout controller: the order summary page and order placement. Placing
 an order validates the request, refuses an empty cart or an unavailable line,
 prices the cart, and then in one all-or-nothing step creates the order with a
 price snapshot per line, decrements stock and clears the scope's cart.
 */
module Checkout {
  import opened Common
  import opened Sequences
  import opened Store
  import Cart

  /** 8% flat tax. */
  const TaxRate: real := 0.08
  /** Orders of 100.00 or more ship free... */
  const FreeShippingFrom: Cents := 10000
  /** ...the rest pay a flat 10.00. */
  const FlatShipping: Cents := 1000

  datatype Totals = Totals(subtotal: Cents, tax: real, shipping: Cents, total: real)

  /** The pricing rule applied to a subtotal. */
  function Price(subtotal: Cents): (t: Totals)
    ensures t.subtotal == subtotal
    ensures t.total == t.subtotal as real + t.tax + t.shipping as real
    ensures t.total >= t.subtotal as real
  {
    var tax := subtotal as real * TaxRate;
    var shipping := if subtotal >= FreeShippingFrom then 0 else FlatShipping;
    Totals(subtotal, tax, shipping, subtotal as real + tax + shipping as real)
  }

  /** What the checkout form submits. */
  datatype CheckoutRequest = CheckoutRequest(
    shippingAddress: AddressFields,
    billingAddress: AddressFields,
    paymentMethod: string,
    guestEmail: Option<string>,
    notes: Option<string>)

  function ParsePaymentMethod(s: string): (r: Option<PaymentMethod>)
    ensures r.Some? <==> s in {"credit_card", "paypal", "cash_on_delivery"}
    ensures r.Some? ==> PaymentMethodName(r.value) == s
  {
    if s == "credit_card" then Some(CreditCard)
    else if s == "paypal" then Some(Paypal)
    else if s == "cash_on_delivery" then Some(CashOnDelivery)
    else None
  }

  function PaymentMethodName(m: PaymentMethod): string
  {
    match m
    case CreditCard => "credit_card"
    case Paypal => "paypal"
    case CashOnDelivery => "cash_on_delivery"
  }

  /** Every payment method survives being stored and read back. */
  lemma PaymentMethodRoundTrip(m: PaymentMethod)
    ensures ParsePaymentMethod(PaymentMethodName(m)) == Some(m)
  {
    match m
    case CreditCard =>
    case Paypal =>
    case CashOnDelivery =>
  }

  /** The request rules: both addresses, a known payment method, a contact
      email for guests only, and notes of at most 1000 characters. */
  predicate ValidRequest(scope: Scope, req: CheckoutRequest)
  {
    && ValidAddressFields(req.shippingAddress)
    && ValidAddressFields(req.billingAddress)
    && ParsePaymentMethod(req.paymentMethod).Some?
    && (scope.Session? ==> req.guestEmail.Some? && req.guestEmail.value != "")
    && (req.notes.None? || |req.notes.value| <= 1000)
  }

  /** A line can be bought: its product exists, is active and has the units. */
  predicate LineAvailable(products: map<ProductId, Product>, line: CartLine)
  {
    line.productId in products
    && products[line.productId].isActive
    && products[line.productId].stock >= line.quantity
  }

  predicate AllAvailable(products: map<ProductId, Product>, lines: seq<CartLine>)
  {
    forall i | 0 <= i < |lines| :: LineAvailable(products, lines[i])
  }

  /** The order item for a line, priced and described at the current product. */
  function ItemFor(products: map<ProductId, Product>, line: CartLine): OrderItem
    requires line.productId in products
  {
    var p := products[line.productId];
    OrderItem(
      line.productId,
      line.quantity,
      p.price,
      p.price * line.quantity,
      ProductSnapshot(p.name, p.slug, p.description, p.price, p.imageUrl))
  }

  function ItemsFor(products: map<ProductId, Product>, lines: seq<CartLine>): (items: seq<OrderItem>)
    requires forall i :: 0 <= i < |lines| ==> lines[i].productId in products
    ensures |items| == |lines|
    ensures forall i :: 0 <= i < |lines| ==> items[i] == ItemFor(products, lines[i])
  {
    seq(|lines|, i requires 0 <= i < |lines| => ItemFor(products, lines[i]))
  }

  /** Takes one line's units off its product's stock. */
  function DecrementOne(products: map<ProductId, Product>, line: CartLine): map<ProductId, Product>
  {
    if line.productId in products then
      var p := products[line.productId];
      products[line.productId := p.(stock := p.stock - line.quantity)]
    else products
  }

  /** The `decrement('stock', quantity)` of every line, in order. */
  function DecrementAll(products: map<ProductId, Product>, lines: seq<CartLine>): map<ProductId, Product>
    decreases |lines|
  {
    if lines == [] then products else DecrementAll(DecrementOne(products, lines[0]), lines[1..])
  }

  function QtyFor(productId: ProductId): CartLine -> int
  {
    (l: CartLine) => if l.productId == productId then l.quantity else 0
  }

  /** Units of a product across `lines`. */
  function QtyOf(lines: seq<CartLine>, productId: ProductId): int
  {
    Sum(lines, QtyFor(productId))
  }

  function NotInScope(scope: Scope): CartLine -> bool
  {
    (l: CartLine) => !InScope(l, scope)
  }

  /** The scope's subtotal as the checkout computes it: over the loaded lines. */
  function LinesSubtotal(products: map<ProductId, Product>, lines: seq<CartLine>): (s: Cents)
  {
    SumNonNegative(lines, Cart.LineTotalIn(products));
    Sum(lines, Cart.LineTotalIn(products))
  }

  /** The checkout page: refused for an empty cart or an unavailable line,
      otherwise the totals the order would be placed at. */
  function Summary(st: State, scope: Scope): (r: Result<Totals>)
    ensures ScopeLines(st.cart, scope) == [] ==> r == Failure(EmptyCart)
    ensures ScopeLines(st.cart, scope) != [] && !AllAvailable(st.products, ScopeLines(st.cart, scope)) ==>
      r == Failure(ProductUnavailable)
    ensures r.Success? <==> ScopeLines(st.cart, scope) != [] && AllAvailable(st.products, ScopeLines(st.cart, scope))
    ensures r.Success? ==> r.value.subtotal as int == Cart.Subtotal(st.products, st.cart, scope)
  {
    var lines := ScopeLines(st.cart, scope);
    if lines == [] then Failure(EmptyCart)
    else if !AllAvailable(st.products, lines) then Failure(ProductUnavailable)
    else
      Cart.ScopeSubtotal(st.products, st.cart, scope);
      Success(Price(LinesSubtotal(st.products, lines)))
  }

  /** Place the order. `number` is the generated order number and `now` the
      creation time; a number already taken makes the insert fail, and the
      rolled-back transaction leaves everything as it was. */
  function PlaceOrder(st: State, scope: Scope, req: CheckoutRequest, number: OrderNumber, now: nat): (r: Result<State>)
    ensures !ValidRequest(scope, req) ==> r == Failure(ValidationFailed)
    ensures ValidRequest(scope, req) && ScopeLines(st.cart, scope) == [] ==> r == Failure(EmptyCart)
    ensures (ValidRequest(scope, req) && ScopeLines(st.cart, scope) != []
             && !AllAvailable(st.products, ScopeLines(st.cart, scope))) ==> r == Failure(ProductUnavailable)
    ensures number in st.orders ==> r.Failure?
    ensures r.Success? <==>
      && ValidRequest(scope, req)
      && ScopeLines(st.cart, scope) != []
      && AllAvailable(st.products, ScopeLines(st.cart, scope))
      && number !in st.orders
    ensures r.Success? ==> r.value.addresses == st.addresses
  {
    if !ValidRequest(scope, req) then Failure(ValidationFailed)
    else
      var lines := ScopeLines(st.cart, scope);
      if lines == [] then Failure(EmptyCart)
      else if !AllAvailable(st.products, lines) then Failure(ProductUnavailable)
      else if number in st.orders then Failure(OrderProcessingFailed)
      else
        var totals := Price(LinesSubtotal(st.products, lines));
        var order := Order(
          number,
          if scope.User? then Some(scope.uid) else None,
          Pending,
          totals.subtotal, totals.tax, totals.shipping, totals.total,
          req.shippingAddress, req.billingAddress,
          ParsePaymentMethod(req.paymentMethod).value,
          req.guestEmail, req.notes,
          ItemsFor(st.products, lines),
          now);
        Success(State(
          DecrementAll(st.products, lines),
          Filter(st.cart, NotInScope(scope)),
          st.orders[number := order],
          st.addresses))
  }

  // ---------------------------------------------------------------------
  // Properties of order placement

  /** The order the checkout would place, read back out of the new state. */
  function Placed(st: State, scope: Scope, req: CheckoutRequest, number: OrderNumber, now: nat): Order
    requires PlaceOrder(st, scope, req, number, now).Success?
  {
    PlaceOrder(st, scope, req, number, now).value.orders[number]
  }

  /** A placed order is pending, belongs to the caller, carries the submitted
      addresses and payment method, and is priced from the cart subtotal: 8%
      tax, free shipping from 100.00 and 10.00 below, and a total that is their
      sum. It is the only order that changes, and the summary page showed the
      same figures. */
  lemma PlaceOrderCreatesOrder(st: State, scope: Scope, req: CheckoutRequest, number: OrderNumber, now: nat)
    requires PlaceOrder(st, scope, req, number, now).Success?
    ensures PlaceOrder(st, scope, req, number, now).value.orders
            == st.orders[number := Placed(st, scope, req, number, now)]
    ensures var o := Placed(st, scope, req, number, now);
      && o.number == number
      && o.status == Pending
      && o.userId == (if scope.User? then Some(scope.uid) else None)
      && o.subtotal as int == Cart.Subtotal(st.products, st.cart, scope)
      && o.tax == o.subtotal as real * 8.0 / 100.0
      && o.shipping == (if o.subtotal >= 10000 then 0 else 1000)
      && o.total == o.subtotal as real + o.tax + o.shipping as real
      && o.shippingAddress == req.shippingAddress
      && o.billingAddress == req.billingAddress
      && PaymentMethodName(o.paymentMethod) == req.paymentMethod
      && o.guestEmail == req.guestEmail
      && o.notes == req.notes
      && o.createdAt == now
    ensures var o := Placed(st, scope, req, number, now);
      Summary(st, scope) == Success(Totals(o.subtotal, o.tax, o.shipping, o.total))
  {
    var lines := ScopeLines(st.cart, scope);
    var totals := Price(LinesSubtotal(st.products, lines));
    Cart.ScopeSubtotal(st.products, st.cart, scope);
    assert Placed(st, scope, req, number, now) == Order(
      number, if scope.User? then Some(scope.uid) else None, Pending,
      totals.subtotal, totals.tax, totals.shipping, totals.total,
      req.shippingAddress, req.billingAddress, ParsePaymentMethod(req.paymentMethod).value,
      req.guestEmail, req.notes, ItemsFor(st.products, lines), now);
    assert Summary(st, scope) == Success(totals);
  }

  /** One order item per cart line, in cart order, with the same product and
      quantity, the product's current price, price × quantity as its total and
      a snapshot of the product; the item totals add up to the subtotal. */
  lemma PlaceOrderItems(st: State, scope: Scope, req: CheckoutRequest, number: OrderNumber, now: nat)
    requires PlaceOrder(st, scope, req, number, now).Success?
    ensures var o := Placed(st, scope, req, number, now);
      var lines := ScopeLines(st.cart, scope);
      && |o.items| == |lines|
      && (forall i :: 0 <= i < |lines| ==>
            && lines[i].productId in st.products
            && o.items[i].productId == lines[i].productId
            && o.items[i].quantity == lines[i].quantity
            && o.items[i].price == st.products[lines[i].productId].price
            && o.items[i].total == o.items[i].price * o.items[i].quantity
            && o.items[i].snapshot == ProductSnapshot(
                 st.products[lines[i].productId].name,
                 st.products[lines[i].productId].slug,
                 st.products[lines[i].productId].description,
                 st.products[lines[i].productId].price,
                 st.products[lines[i].productId].imageUrl))
      && Sum(o.items, ItemTotal()) == o.subtotal as int
  {
    var lines := ScopeLines(st.cart, scope);
    ItemsTotal(st.products, lines);
  }

  function ItemTotal(): OrderItem -> int
  {
    (it: OrderItem) => it.total as int
  }

  lemma {:induction false} ItemsTotal(products: map<ProductId, Product>, lines: seq<CartLine>)
    requires forall i :: 0 <= i < |lines| ==> lines[i].productId in products
    ensures Sum(ItemsFor(products, lines), ItemTotal()) == Sum(lines, Cart.LineTotalIn(products))
    decreases |lines|
  {
    if lines != [] {
      assert ItemsFor(products, lines)[1..] == ItemsFor(products, lines[1..]);
      ItemsTotal(products, lines[1..]);
    }
  }

  /** Decrementing every line takes each product's units across the lines off
      its stock and changes nothing else about any product. */
  lemma {:induction false} DecrementAllStock(products: map<ProductId, Product>, lines: seq<CartLine>)
    ensures DecrementAll(products, lines).Keys == products.Keys
    ensures forall id :: id in products ==>
      DecrementAll(products, lines)[id] == products[id].(stock := products[id].stock - QtyOf(lines, id))
    decreases |lines|
  {
    if lines != [] {
      var once := DecrementOne(products, lines[0]);
      DecrementAllStock(once, lines[1..]);
      forall id | id in products
        ensures DecrementAll(products, lines)[id]
                == products[id].(stock := products[id].stock - QtyOf(lines, id))
      {
        assert QtyOf(lines, id) == QtyFor(id)(lines[0]) + QtyOf(lines[1..], id);
      }
    }
  }

  /** When every product appears on at most one line, a product's units across
      the lines are that line's quantity, or none. */
  lemma QtyOfDistinct(lines: seq<CartLine>, productId: ProductId)
    requires forall i, j :: 0 <= i < j < |lines| ==> lines[i].productId != lines[j].productId
    ensures forall i :: 0 <= i < |lines| && lines[i].productId == productId ==>
      QtyOf(lines, productId) == lines[i].quantity
    ensures (forall i :: 0 <= i < |lines| ==> lines[i].productId != productId) ==> QtyOf(lines, productId) == 0
  {
    forall i | 0 <= i < |lines| && lines[i].productId == productId
      ensures QtyOf(lines, productId) == lines[i].quantity
    {
      forall j | 0 <= j < |lines| && j != i ensures QtyFor(productId)(lines[j]) == 0 {
        assert j < i ==> lines[j].productId != lines[i].productId;
        assert i < j ==> lines[i].productId != lines[j].productId;
      }
      SumSingle(lines, i, QtyFor(productId));
    }
    if forall i :: 0 <= i < |lines| ==> lines[i].productId != productId {
      SumZero(lines, QtyFor(productId));
    }
  }

  /** Decrementing lines that each name a different, available product
      lowers each of those products' stock by its line's quantity, leaves the
      other products alone and keeps every stock non-negative. */
  lemma DecrementDistinct(products: map<ProductId, Product>, lines: seq<CartLine>)
    requires forall i, j :: 0 <= i < j < |lines| ==> lines[i].productId != lines[j].productId
    requires AllAvailable(products, lines)
    requires StockNonNegative(products)
    ensures DecrementAll(products, lines).Keys == products.Keys
    ensures forall i :: 0 <= i < |lines| ==>
      DecrementAll(products, lines)[lines[i].productId]
        == products[lines[i].productId].(stock := products[lines[i].productId].stock - lines[i].quantity)
    ensures forall id :: id in products && (forall i :: 0 <= i < |lines| ==> lines[i].productId != id) ==>
      DecrementAll(products, lines)[id] == products[id]
    ensures StockNonNegative(DecrementAll(products, lines))
  {
    var after := DecrementAll(products, lines);
    DecrementAllStock(products, lines);
    forall i | 0 <= i < |lines|
      ensures after[lines[i].productId]
              == products[lines[i].productId].(stock := products[lines[i].productId].stock - lines[i].quantity)
    {
      assert LineAvailable(products, lines[i]);
      QtyOfDistinct(lines, lines[i].productId);
    }
    forall id | id in products && (forall i :: 0 <= i < |lines| ==> lines[i].productId != id)
      ensures after[id] == products[id]
    {
      QtyOfDistinct(lines, id);
    }
    forall id | id in after ensures after[id].stock >= 0 {
      QtyOfDistinct(lines, id);
      if exists i :: 0 <= i < |lines| && lines[i].productId == id {
        var i :| 0 <= i < |lines| && lines[i].productId == id;
        assert LineAvailable(products, lines[i]);
      }
    }
  }

  /** Each product's stock drops by exactly its line's quantity (and products
      not in the cart keep theirs), so no stock goes negative. */
  lemma PlaceOrderStock(st: State, scope: Scope, req: CheckoutRequest, number: OrderNumber, now: nat)
    requires WellFormed(st)
    requires PlaceOrder(st, scope, req, number, now).Success?
    ensures var products' := PlaceOrder(st, scope, req, number, now).value.products;
      var lines := ScopeLines(st.cart, scope);
      && products'.Keys == st.products.Keys
      && (forall i :: 0 <= i < |lines| ==>
            products'[lines[i].productId]
              == st.products[lines[i].productId].(stock := st.products[lines[i].productId].stock - lines[i].quantity))
      && (forall id :: id in st.products && (forall i :: 0 <= i < |lines| ==> lines[i].productId != id) ==>
            products'[id] == st.products[id])
      && StockNonNegative(products')
  {
    var lines := ScopeLines(st.cart, scope);
    PlacedProducts(st, scope, req, number, now);
    ScopeLinesDistinctProducts(st.cart, scope);
    DecrementDistinct(st.products, lines);
  }

  /** A placed order found every line available and decremented them all. */
  lemma PlacedProducts(st: State, scope: Scope, req: CheckoutRequest, number: OrderNumber, now: nat)
    requires PlaceOrder(st, scope, req, number, now).Success?
    ensures AllAvailable(st.products, ScopeLines(st.cart, scope))
    ensures PlaceOrder(st, scope, req, number, now).value.products
            == DecrementAll(st.products, ScopeLines(st.cart, scope))
  {
  }

  /** After a placed order the scope's cart is empty and every other scope's
      lines are exactly as before. */
  lemma PlaceOrderClearsCart(st: State, scope: Scope, req: CheckoutRequest, number: OrderNumber, now: nat)
    requires PlaceOrder(st, scope, req, number, now).Success?
    ensures ScopeLines(PlaceOrder(st, scope, req, number, now).value.cart, scope) == []
    ensures forall l :: l in PlaceOrder(st, scope, req, number, now).value.cart <==> l in st.cart && !InScope(l, scope)
  {
    var cart' := PlaceOrder(st, scope, req, number, now).value.cart;
    FilterNone(cart', (l: CartLine) => InScope(l, scope));
  }

  /** Order placement keeps every store invariant. */
  lemma PlaceOrderPreservesWellFormed(st: State, scope: Scope, req: CheckoutRequest, number: OrderNumber, now: nat)
    requires WellFormed(st)
    requires PlaceOrder(st, scope, req, number, now).Success?
    ensures WellFormed(PlaceOrder(st, scope, req, number, now).value)
  {
    var st' := PlaceOrder(st, scope, req, number, now).value;
    PlaceOrderStock(st, scope, req, number, now);
    FilterKeepsCartInvariants(st.cart, NotInScope(scope));
    forall i | 0 <= i < |st'.cart| ensures st'.cart[i].productId in st'.products {
      assert st'.cart[i] in st.cart;
    }
  }

  /** Every placed order's figures add up. */
  ghost predicate TotalsAddUp(o: Order)
  {
    && o.tax == o.subtotal as real * TaxRate
    && o.shipping == (if o.subtotal >= FreeShippingFrom then 0 else FlatShipping)
    && o.total == o.subtotal as real + o.tax + o.shipping as real
  }

  ghost predicate AllTotalsAddUp(orders: map<OrderNumber, Order>)
  {
    forall n :: n in orders ==> TotalsAddUp(orders[n])
  }

  /** Placing an order keeps total = subtotal + tax + shipping for every order. */
  lemma PlaceOrderKeepsTotals(st: State, scope: Scope, req: CheckoutRequest, number: OrderNumber, now: nat)
    requires AllTotalsAddUp(st.orders)
    requires PlaceOrder(st, scope, req, number, now).Success?
    ensures AllTotalsAddUp(PlaceOrder(st, scope, req, number, now).value.orders)
  {
  }

  // ---------------------------------------------------------------------
  // Worked examples

  /** 2 × 50.00 is exactly 100.00: 8.00 tax, free shipping, 108.00 in all.
      1 × 30.00: 2.40 tax, 10.00 shipping, 42.40 in all. */
  lemma PricingExamples()
    ensures Price(10000) == Totals(10000, 800.0, 0, 10800.0)
    ensures Price(9999).shipping == 1000
    ensures Price(3000) == Totals(3000, 240.0, 1000, 4240.0)
  {
  }
}
