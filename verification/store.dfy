/**
 The store's persistent state: the rows of the products, cart_items, orders
 (with their order_items) and addresses tables, and the invariants the
 controllers are meant to keep. Money is held in integer cents; tax, and the
 totals that include it, are exact rationals.
 */
module Store {
  import opened Common
  import opened Sequences

  type ProductId = nat
  type CategoryId = nat
  type LineId = nat
  type AddressId = nat
  type UserId = nat
  type OrderNumber = string

  /** An amount of money in cents. */
  type Cents = nat

  datatype Category = Category(id: CategoryId, name: string, slug: string)

  /** A catalog product. `stock` is an `int` so that "stock stays non-negative"
      is something the checkout has to earn; the admin form enforces `stock >= 0`. */
  datatype Product = Product(
    id: ProductId,
    categoryId: CategoryId,
    name: string,
    slug: string,
    description: string,
    brand: Option<string>,
    price: Cents,
    stock: int,
    isActive: bool,
    imageUrl: Option<string>,
    createdAt: nat)

  /** A cart_items row: owned by a user, by an anonymous session, or (rows the
      controllers never create) by both. */
  datatype CartLine = CartLine(
    id: LineId,
    userId: Option<UserId>,
    sessionId: Option<string>,
    productId: ProductId,
    quantity: nat)

  /** The cart query's `where` clause: a user's lines, or a session's lines. */
  predicate InScope(line: CartLine, scope: Scope)
  {
    match scope
    case User(u) => line.userId == Some(u)
    case Session(s) => line.sessionId == Some(s)
  }

  /** The cart lines the scope sees, in table order. */
  function ScopeLines(cart: seq<CartLine>, scope: Scope): (r: seq<CartLine>)
    ensures forall i :: 0 <= i < |r| ==> InScope(r[i], scope)
    ensures forall l :: l in r <==> l in cart && InScope(l, scope)
  {
    Filter(cart, (l: CartLine) => InScope(l, scope))
  }

  /** The five order statuses. */
  datatype Status = Pending | Processing | Shipped | Delivered | Cancelled

  /** The value the status column stores. */
  function StatusName(s: Status): string
  {
    match s
    case Pending => "pending"
    case Processing => "processing"
    case Shipped => "shipped"
    case Delivered => "delivered"
    case Cancelled => "cancelled"
  }

  function ParseStatus(name: string): (r: Option<Status>)
    ensures r.Some? <==> name in {"pending", "processing", "shipped", "delivered", "cancelled"}
    ensures r.Some? ==> StatusName(r.value) == name
  {
    if name == "pending" then Some(Pending)
    else if name == "processing" then Some(Processing)
    else if name == "shipped" then Some(Shipped)
    else if name == "delivered" then Some(Delivered)
    else if name == "cancelled" then Some(Cancelled)
    else None
  }

  /** Every status survives being stored and read back, and no two statuses
      share a stored name. */
  lemma StatusNameRoundTrip(s: Status)
    ensures ParseStatus(StatusName(s)) == Some(s)
    ensures forall t :: StatusName(t) == StatusName(s) ==> t == s
  {
  }

  datatype PaymentMethod = CreditCard | Paypal | CashOnDelivery

  /** A postal address as the checkout and address forms submit it. */
  datatype AddressFields = AddressFields(
    firstName: string,
    lastName: string,
    line1: string,
    line2: Option<string>,
    city: string,
    state: string,
    zipCode: string,
    country: string,
    phone: string)

  /** `required|string|max:n`. */
  predicate Required(s: string, max: nat)
  {
    s != "" && |s| <= max
  }

  /** The field rules the checkout and the address book both apply to an address. */
  predicate ValidAddressFields(a: AddressFields)
  {
    && Required(a.firstName, 255)
    && Required(a.lastName, 255)
    && Required(a.line1, 255)
    && (a.line2.None? || |a.line2.value| <= 255)
    && Required(a.city, 255)
    && Required(a.state, 255)
    && Required(a.zipCode, 20)
    && Required(a.country, 255)
    && Required(a.phone, 20)
  }

  /** The product as it was when the order was placed. */
  datatype ProductSnapshot = ProductSnapshot(
    name: string,
    slug: string,
    description: string,
    price: Cents,
    imageUrl: Option<string>)

  datatype OrderItem = OrderItem(
    productId: ProductId,
    quantity: nat,
    price: Cents,
    total: Cents,
    snapshot: ProductSnapshot)

  datatype Order = Order(
    number: OrderNumber,
    userId: Option<UserId>,
    status: Status,
    subtotal: Cents,
    tax: real,
    shipping: Cents,
    total: real,
    shippingAddress: AddressFields,
    billingAddress: AddressFields,
    paymentMethod: PaymentMethod,
    guestEmail: Option<string>,
    notes: Option<string>,
    items: seq<OrderItem>,
    createdAt: nat)

  /** `latest()` on orders: newest first. */
  function NewestFirst(a: Order, b: Order): bool
  {
    a.createdAt >= b.createdAt
  }

  datatype AddressType = ShippingAddress | BillingAddress | BothAddress

  /** A saved address-book entry. */
  datatype Address = Address(
    id: AddressId,
    userId: UserId,
    kind: AddressType,
    fields: AddressFields,
    isDefault: bool,
    createdAt: nat)

  datatype UserRecord = UserRecord(id: UserId, name: string, email: string, role: string)

  datatype State = State(
    products: map<ProductId, Product>,
    cart: seq<CartLine>,
    orders: map<OrderNumber, Order>,
    addresses: map<AddressId, Address>)

  /** No scope holds two lines for the same product. */
  ghost predicate OneLinePerOwnerProduct(cart: seq<CartLine>)
  {
    forall i, j, sc :: 0 <= i < j < |cart| && InScope(cart[i], sc) && InScope(cart[j], sc) ==>
      cart[i].productId != cart[j].productId
  }

  ghost predicate DistinctLineIds(cart: seq<CartLine>)
  {
    forall i, j :: 0 <= i < j < |cart| ==> cart[i].id != cart[j].id
  }

  predicate FreshLineId(cart: seq<CartLine>, id: LineId)
  {
    forall i :: 0 <= i < |cart| ==> cart[i].id != id
  }

  /** Every line names an existing product (the cart_items foreign key). */
  ghost predicate LinesReferenceProducts(cart: seq<CartLine>, products: map<ProductId, Product>)
  {
    forall i :: 0 <= i < |cart| ==> cart[i].productId in products
  }

  ghost predicate StockNonNegative(products: map<ProductId, Product>)
  {
    forall id :: id in products ==> products[id].stock >= 0
  }

  /** Each user has at most one default address. */
  ghost predicate AtMostOneDefault(addresses: map<AddressId, Address>)
  {
    forall a, b ::
      (a in addresses && b in addresses
       && addresses[a].userId == addresses[b].userId
       && addresses[a].isDefault && addresses[b].isDefault) ==> a == b
  }

  ghost predicate WellFormed(st: State)
  {
    && OneLinePerOwnerProduct(st.cart)
    && DistinctLineIds(st.cart)
    && LinesReferenceProducts(st.cart, st.products)
    && StockNonNegative(st.products)
    && AtMostOneDefault(st.addresses)
  }

  /** Removing cart rows (as checkout does) keeps the cart invariants. */
  lemma FilterKeepsCartInvariants(cart: seq<CartLine>, p: CartLine -> bool)
    requires OneLinePerOwnerProduct(cart)
    requires DistinctLineIds(cart)
    ensures OneLinePerOwnerProduct(Filter(cart, p))
    ensures DistinctLineIds(Filter(cart, p))
  {
    var oneLine := (a: CartLine, b: CartLine) =>
      forall sc :: InScope(a, sc) && InScope(b, sc) ==> a.productId != b.productId;
    var distinct := (a: CartLine, b: CartLine) => a.id != b.id;
    FilterPairwise(cart, p, oneLine);
    FilterPairwise(cart, p, distinct);
    var r := Filter(cart, p);
    forall i, j, sc | 0 <= i < j < |r| && InScope(r[i], sc) && InScope(r[j], sc)
      ensures r[i].productId != r[j].productId
    {
      assert oneLine(r[i], r[j]);
    }
  }

  /** Within one scope's lines every product appears at most once. */
  lemma ScopeLinesDistinctProducts(cart: seq<CartLine>, scope: Scope)
    requires OneLinePerOwnerProduct(cart)
    requires DistinctLineIds(cart)
    ensures forall i, j :: 0 <= i < j < |ScopeLines(cart, scope)| ==>
      ScopeLines(cart, scope)[i].productId != ScopeLines(cart, scope)[j].productId
  {
    var lines := ScopeLines(cart, scope);
    FilterKeepsCartInvariants(cart, (l: CartLine) => InScope(l, scope));
    forall i, j | 0 <= i < j < |lines| ensures lines[i].productId != lines[j].productId {
      assert InScope(lines[i], scope) && InScope(lines[j], scope);
    }
  }
}
