/**
 The cart controller: list a scope's lines with their subtotal, add a product
 (merging into the scope's existing line for it), change a line's quantity and
 remove a line, the last two only for lines the scope owns.
 */
module Cart {
  import opened Common
  import opened Sequences
  import opened Store

  /** price × quantity at the product's current price. */
  function LineTotal(products: map<ProductId, Product>, line: CartLine): Cents
  {
    if line.productId in products then products[line.productId].price * line.quantity else 0
  }

  function LineTotalIn(products: map<ProductId, Product>): CartLine -> int
  {
    (l: CartLine) => LineTotal(products, l)
  }

  /** A line's share of the scope's subtotal: its total when the scope owns it. */
  function ScopeCharge(products: map<ProductId, Product>, scope: Scope): CartLine -> int
  {
    (l: CartLine) => if InScope(l, scope) then LineTotal(products, l) else 0
  }

  /** Σ price × quantity over the scope's lines, read off the whole table. */
  function Subtotal(products: map<ProductId, Product>, cart: seq<CartLine>, scope: Scope): int
  {
    Sum(cart, ScopeCharge(products, scope))
  }

  function HeldBy(scope: Scope, productId: ProductId): CartLine -> int
  {
    (l: CartLine) => if InScope(l, scope) && l.productId == productId then l.quantity else 0
  }

  /** Units of a product the scope has in its cart. */
  function Held(cart: seq<CartLine>, scope: Scope, productId: ProductId): int
  {
    Sum(cart, HeldBy(scope, productId))
  }

  /** The scope already has a line for the product. */
  predicate HasLine(cart: seq<CartLine>, scope: Scope, productId: ProductId)
  {
    exists i :: 0 <= i < |cart| && InScope(cart[i], scope) && cart[i].productId == productId
  }

  datatype CartView = CartView(lines: seq<CartLine>, subtotal: int)

  /** The cart page: the scope's lines and their subtotal. */
  function Index(st: State, scope: Scope): (v: CartView)
    ensures forall l :: l in v.lines <==> l in st.cart && InScope(l, scope)
    ensures v.subtotal == Subtotal(st.products, st.cart, scope)
    ensures v.subtotal >= 0
  {
    var lines := ScopeLines(st.cart, scope);
    ScopeSubtotal(st.products, st.cart, scope);
    CartView(lines, Sum(lines, LineTotalIn(st.products)))
  }

  /** Summing the scope's lines gives the subtotal read off the whole table,
      and it is never negative. */
  lemma ScopeSubtotal(products: map<ProductId, Product>, cart: seq<CartLine>, scope: Scope)
    ensures Sum(ScopeLines(cart, scope), LineTotalIn(products)) == Subtotal(products, cart, scope)
    ensures Subtotal(products, cart, scope) >= 0
  {
    var lines := ScopeLines(cart, scope);
    SumFilter(cart, (l: CartLine) => InScope(l, scope), LineTotalIn(products), ScopeCharge(products, scope));
    SumNonNegative(lines, LineTotalIn(products));
  }

  /** The first line at or after `k` the scope owns for the product. */
  function FindLineFrom(cart: seq<CartLine>, scope: Scope, productId: ProductId, k: nat): (r: Option<nat>)
    requires k <= |cart|
    ensures r.Some? ==> k <= r.value < |cart| && InScope(cart[r.value], scope) && cart[r.value].productId == productId
    ensures r.None? ==> forall i :: k <= i < |cart| ==> !(InScope(cart[i], scope) && cart[i].productId == productId)
    decreases |cart| - k
  {
    if k == |cart| then None
    else if InScope(cart[k], scope) && cart[k].productId == productId then Some(k)
    else FindLineFrom(cart, scope, productId, k + 1)
  }

  function FindLine(cart: seq<CartLine>, scope: Scope, productId: ProductId): (r: Option<nat>)
    ensures r.Some? ==> r.value < |cart| && InScope(cart[r.value], scope) && cart[r.value].productId == productId
    ensures r.None? <==> !HasLine(cart, scope, productId)
  {
    FindLineFrom(cart, scope, productId, 0)
  }

  /** A fresh cart_items row owned by the scope: `user_id` set and no session
      when authenticated, no `user_id` and the session id otherwise. */
  function NewLine(id: LineId, scope: Scope, productId: ProductId, quantity: nat): CartLine
  {
    CartLine(
      id,
      if scope.User? then Some(scope.uid) else None,
      if scope.Session? then Some(scope.sid) else None,
      productId,
      quantity)
  }

  /** Add to cart. `newId` is the id the table would give a new row. */
  function Add(st: State, scope: Scope, productId: ProductId, quantity: int, newId: LineId): (r: Result<State>)
    requires FreshLineId(st.cart, newId)
    ensures quantity < 1 || productId !in st.products ==> r == Failure(ValidationFailed)
    ensures quantity >= 1 && productId in st.products && !st.products[productId].isActive ==>
      r == Failure(Unavailable)
    ensures (quantity >= 1 && productId in st.products && st.products[productId].isActive
             && st.products[productId].stock < quantity) ==> r == Failure(InsufficientStock)
    ensures r.Failure? ==> r.error in {ValidationFailed, Unavailable, InsufficientStock}
    ensures r.Success? ==> r.value == st.(cart := r.value.cart)
  {
    if quantity < 1 || productId !in st.products then Failure(ValidationFailed)
    else
      var product := st.products[productId];
      if !product.isActive then Failure(Unavailable)
      else if product.stock < quantity then Failure(InsufficientStock)
      else
        match FindLine(st.cart, scope, productId)
        case Some(i) =>
          var merged := st.cart[i].quantity + quantity;
          if product.stock < merged then Failure(InsufficientStock)
          else Success(st.(cart := st.cart[i := st.cart[i].(quantity := merged)]))
        case None =>
          Success(st.(cart := st.cart + [NewLine(newId, scope, productId, quantity)]))
  }

  /** The first row with the given id. */
  function LineIndex(cart: seq<CartLine>, id: LineId): (r: Option<nat>)
    ensures r.Some? ==> r.value < |cart| && cart[r.value].id == id
    ensures r.Some? ==> forall k :: 0 <= k < r.value ==> cart[k].id != id
    ensures r.None? ==> FreshLineId(cart, id)
  {
    if cart == [] then None
    else if cart[0].id == id then Some(0)
    else match LineIndex(cart[1..], id)
      case Some(i) => Some(i + 1)
      case None => None
  }

  /** The ownership check: a user's own lines, or the session's own lines. */
  function Authorize(line: CartLine, scope: Scope): (r: Option<Error>)
    ensures r.None? <==> InScope(line, scope)
    ensures r.Some? ==> r.value == Forbidden
  {
    match scope
    case User(u) => if line.userId != Some(u) then Some(Forbidden) else None
    case Session(s) => if line.sessionId != Some(s) then Some(Forbidden) else None
  }

  /** Set a line's quantity. */
  function Update(st: State, scope: Scope, lineId: LineId, quantity: int): (r: Result<State>)
    ensures r.Success? ==> r.value == st.(cart := r.value.cart)
    ensures r.Success? ==> |r.value.cart| == |st.cart|
    ensures r.Success? ==> forall k :: 0 <= k < |st.cart| ==>
      r.value.cart[k] == (if st.cart[k].id == lineId && InScope(st.cart[k], scope)
                          then st.cart[k].(quantity := r.value.cart[k].quantity) else st.cart[k])
  {
    match LineIndex(st.cart, lineId)
    case None => Failure(NotFound)
    case Some(i) =>
      var line := st.cart[i];
      match Authorize(line, scope)
      case Some(e) => Failure(e)
      case None =>
        if quantity < 1 then Failure(ValidationFailed)
        else if line.productId !in st.products then Failure(NotFound)
        else if st.products[line.productId].stock < quantity then Failure(InsufficientStock)
        else Success(st.(cart := st.cart[i := line.(quantity := quantity)]))
  }

  /** Remove a line. */
  function Destroy(st: State, scope: Scope, lineId: LineId): (r: Result<State>)
    ensures r.Success? ==> r.value == st.(cart := r.value.cart)
    ensures r.Success? ==> |r.value.cart| == |st.cart| - 1
  {
    match LineIndex(st.cart, lineId)
    case None => Failure(NotFound)
    case Some(i) =>
      match Authorize(st.cart[i], scope)
      case Some(e) => Failure(e)
      case None => Success(st.(cart := st.cart[..i] + st.cart[i + 1..]))
  }

  // ---------------------------------------------------------------------
  // Properties of add

  /** The cart a successful add leaves: the scope's line for the product with
      the quantity raised, or a new line appended. */
  lemma AddedCart(st: State, scope: Scope, productId: ProductId, quantity: int, newId: LineId)
    requires FreshLineId(st.cart, newId)
    requires Add(st, scope, productId, quantity, newId).Success?
    ensures quantity >= 1 && productId in st.products
    ensures var cart' := Add(st, scope, productId, quantity, newId).value.cart;
      match FindLine(st.cart, scope, productId)
      case Some(i) => cart' == st.cart[i := st.cart[i].(quantity := st.cart[i].quantity + quantity)]
      case None => cart' == st.cart + [NewLine(newId, scope, productId, quantity)]
  {
  }

  /** With one line per (owner, product), the scope's units of the product are
      the quantity on the line `FindLine` finds, or none. */
  lemma HeldIsFoundLine(cart: seq<CartLine>, scope: Scope, productId: ProductId)
    requires OneLinePerOwnerProduct(cart)
    ensures FindLine(cart, scope, productId).None? ==> Held(cart, scope, productId) == 0
    ensures FindLine(cart, scope, productId).Some? ==>
      Held(cart, scope, productId) == cart[FindLine(cart, scope, productId).value].quantity
  {
    var f := HeldBy(scope, productId);
    match FindLine(cart, scope, productId)
    case None =>
      SumZero(cart, f);
    case Some(i) =>
      forall j | 0 <= j < |cart| && j != i ensures f(cart[j]) == 0 {
        if j < i {
          assert InScope(cart[j], scope) && InScope(cart[i], scope) ==> cart[j].productId != cart[i].productId;
        } else {
          assert InScope(cart[i], scope) && InScope(cart[j], scope) ==> cart[i].productId != cart[j].productId;
        }
      }
      SumSingle(cart, i, f);
  }

  /** Add succeeds exactly when the request is valid, the product is active and
      the units already held plus the units requested do not exceed the stock;
      one unit more than the stock is refused as insufficient stock. */
  lemma AddSucceedsIff(st: State, scope: Scope, productId: ProductId, quantity: int, newId: LineId)
    requires FreshLineId(st.cart, newId)
    requires OneLinePerOwnerProduct(st.cart)
    ensures Add(st, scope, productId, quantity, newId).Success? <==>
      (quantity >= 1 && productId in st.products && st.products[productId].isActive
       && Held(st.cart, scope, productId) + quantity <= st.products[productId].stock)
    ensures (quantity >= 1 && productId in st.products && st.products[productId].isActive
             && Held(st.cart, scope, productId) + quantity > st.products[productId].stock) ==>
      Add(st, scope, productId, quantity, newId) == Failure(InsufficientStock)
  {
    HeldIsFoundLine(st.cart, scope, productId);
  }

  /** A successful add raises the scope's units of the product by exactly the
      requested quantity and leaves every other product's units, in every
      scope, as they were. */
  lemma AddHeld(st: State, scope: Scope, productId: ProductId, quantity: int, newId: LineId)
    requires FreshLineId(st.cart, newId)
    requires Add(st, scope, productId, quantity, newId).Success?
    ensures Held(Add(st, scope, productId, quantity, newId).value.cart, scope, productId)
            == Held(st.cart, scope, productId) + quantity
    ensures forall sc, p :: p != productId ==>
      Held(Add(st, scope, productId, quantity, newId).value.cart, sc, p) == Held(st.cart, sc, p)
  {
    var cart' := Add(st, scope, productId, quantity, newId).value.cart;
    match FindLine(st.cart, scope, productId)
    case Some(i) =>
      var merged := st.cart[i].quantity + quantity;
      assert cart' == st.cart[i := st.cart[i].(quantity := merged)];
      SumUpdate(st.cart, i, st.cart[i].(quantity := merged), HeldBy(scope, productId));
      forall sc, p | p != productId ensures Held(cart', sc, p) == Held(st.cart, sc, p) {
        SumUpdate(st.cart, i, st.cart[i].(quantity := merged), HeldBy(sc, p));
      }
    case None =>
      var line := NewLine(newId, scope, productId, quantity);
      assert cart' == st.cart + [line];
      SumAppend(st.cart, [line], HeldBy(scope, productId));
      forall sc, p | p != productId ensures Held(cart', sc, p) == Held(st.cart, sc, p) {
        SumAppend(st.cart, [line], HeldBy(sc, p));
      }
  }

  /** The row has exactly one owner: a user id or a session id, not both.
      The add action creates every row so. */
  predicate OneOwner(line: CartLine)
  {
    line.userId.Some? != line.sessionId.Some?
  }

  predicate AllOneOwner(cart: seq<CartLine>)
  {
    forall i :: 0 <= i < |cart| ==> OneOwner(cart[i])
  }

  /** A one-owner row in one scope is in no other scope. */
  lemma OneOwnerOneScope(line: CartLine, scope: Scope, sc: Scope)
    requires OneOwner(line) && InScope(line, scope) && sc != scope
    ensures !InScope(line, sc)
  {
  }

  /** When every row has one owner, a successful add leaves the product's
      units in every other scope as they were, and every row still has one
      owner. */
  lemma AddHeldOtherScopes(st: State, scope: Scope, productId: ProductId, quantity: int, newId: LineId)
    requires FreshLineId(st.cart, newId)
    requires AllOneOwner(st.cart)
    requires Add(st, scope, productId, quantity, newId).Success?
    ensures forall sc :: sc != scope ==>
      Held(Add(st, scope, productId, quantity, newId).value.cart, sc, productId) == Held(st.cart, sc, productId)
    ensures AllOneOwner(Add(st, scope, productId, quantity, newId).value.cart)
  {
    var cart' := Add(st, scope, productId, quantity, newId).value.cart;
    match FindLine(st.cart, scope, productId)
    case Some(i) =>
      var raised := st.cart[i].(quantity := st.cart[i].quantity + quantity);
      assert cart' == st.cart[i := raised];
      forall sc | sc != scope ensures Held(cart', sc, productId) == Held(st.cart, sc, productId) {
        OneOwnerOneScope(st.cart[i], scope, sc);
        SumUpdate(st.cart, i, raised, HeldBy(sc, productId));
      }
      assert forall k :: 0 <= k < |cart'| ==> cart'[k] == (if k == i then raised else st.cart[k]);
    case None =>
      var line := NewLine(newId, scope, productId, quantity);
      assert cart' == st.cart + [line];
      forall sc | sc != scope ensures Held(cart', sc, productId) == Held(st.cart, sc, productId) {
        OneOwnerOneScope(line, scope, sc);
        SumAppend(st.cart, [line], HeldBy(sc, productId));
        assert [line][1..] == [];
      }
      assert forall k :: 0 <= k < |cart'| ==> cart'[k] == (if k < |st.cart| then st.cart[k] else line);
  }

  /** Merge-on-insert: when the scope already has a line for the product the
      table keeps its size; otherwise exactly one line owned by the scope is
      appended. */
  lemma AddMergesOrAppends(st: State, scope: Scope, productId: ProductId, quantity: int, newId: LineId)
    requires FreshLineId(st.cart, newId)
    requires Add(st, scope, productId, quantity, newId).Success?
    ensures HasLine(st.cart, scope, productId) ==>
      |Add(st, scope, productId, quantity, newId).value.cart| == |st.cart|
    ensures !HasLine(st.cart, scope, productId) ==>
      Add(st, scope, productId, quantity, newId).value.cart
        == st.cart + [CartLine(newId,
                               if scope.User? then Some(scope.uid) else None,
                               if scope.Session? then Some(scope.sid) else None,
                               productId, quantity as nat)]
  {
  }

  /** A successful add raises the scope's subtotal by price × quantity. */
  lemma AddSubtotal(st: State, scope: Scope, productId: ProductId, quantity: int, newId: LineId)
    requires FreshLineId(st.cart, newId)
    requires Add(st, scope, productId, quantity, newId).Success?
    ensures Subtotal(st.products, Add(st, scope, productId, quantity, newId).value.cart, scope)
            == Subtotal(st.products, st.cart, scope) + st.products[productId].price * quantity
  {
    var f := ScopeCharge(st.products, scope);
    var cart' := Add(st, scope, productId, quantity, newId).value.cart;
    AddedCart(st, scope, productId, quantity, newId);
    match FindLine(st.cart, scope, productId)
    case Some(i) =>
      var line := st.cart[i];
      var raised := line.(quantity := line.quantity + quantity);
      SumUpdate(st.cart, i, raised, f);
      ChargeGrows(st.products, scope, line, quantity);
    case None =>
      var line := NewLine(newId, scope, productId, quantity);
      assert Sum([line], f) == f(line) by {
        assert [line][1..] == [];
      }
      SumAppend(st.cart, [line], f);
  }

  /** Raising a line's quantity raises its charge by price × the increase. */
  lemma ChargeGrows(products: map<ProductId, Product>, scope: Scope, line: CartLine, extra: nat)
    requires line.productId in products && InScope(line, scope)
    ensures ScopeCharge(products, scope)(line.(quantity := line.quantity + extra))
            == ScopeCharge(products, scope)(line) + products[line.productId].price * extra
  {
    var price := products[line.productId].price;
    assert price * (line.quantity + extra) == price * line.quantity + price * extra;
  }

  /** Add keeps every store invariant. */
  lemma AddPreservesWellFormed(st: State, scope: Scope, productId: ProductId, quantity: int, newId: LineId)
    requires FreshLineId(st.cart, newId)
    requires WellFormed(st)
    requires Add(st, scope, productId, quantity, newId).Success?
    ensures WellFormed(Add(st, scope, productId, quantity, newId).value)
  {
    AddedCart(st, scope, productId, quantity, newId);
    match FindLine(st.cart, scope, productId)
    case Some(i) =>
      RaiseKeepsInvariants(st.cart, st.products, i, st.cart[i].quantity + quantity);
    case None =>
      AppendKeepsInvariants(st.cart, st.products, scope, NewLine(newId, scope, productId, quantity));
  }

  /** Changing one line's quantity keeps the cart invariants. */
  lemma RaiseKeepsInvariants(cart: seq<CartLine>, products: map<ProductId, Product>, i: nat, q: nat)
    requires i < |cart|
    requires OneLinePerOwnerProduct(cart) && DistinctLineIds(cart) && LinesReferenceProducts(cart, products)
    ensures var cart' := cart[i := cart[i].(quantity := q)];
      OneLinePerOwnerProduct(cart') && DistinctLineIds(cart') && LinesReferenceProducts(cart', products)
  {
    var cart' := cart[i := cart[i].(quantity := q)];
    assert forall k :: 0 <= k < |cart'| ==> cart'[k] == cart[k].(quantity := cart'[k].quantity);
    forall a, b, sc | 0 <= a < b < |cart'| && InScope(cart'[a], sc) && InScope(cart'[b], sc)
      ensures cart'[a].productId != cart'[b].productId
    {
      assert InScope(cart[a], sc) && InScope(cart[b], sc);
    }
  }

  /** Appending a fresh line of a product the scope holds no line for keeps
      the cart invariants. */
  lemma AppendKeepsInvariants(cart: seq<CartLine>, products: map<ProductId, Product>, scope: Scope, line: CartLine)
    requires OneLinePerOwnerProduct(cart) && DistinctLineIds(cart) && LinesReferenceProducts(cart, products)
    requires FreshLineId(cart, line.id) && line.productId in products
    requires forall sc :: InScope(line, sc) ==> sc == scope
    requires !HasLine(cart, scope, line.productId)
    ensures var cart' := cart + [line];
      OneLinePerOwnerProduct(cart') && DistinctLineIds(cart') && LinesReferenceProducts(cart', products)
  {
    var cart' := cart + [line];
    forall a, b, sc | 0 <= a < b < |cart'| && InScope(cart'[a], sc) && InScope(cart'[b], sc)
      ensures cart'[a].productId != cart'[b].productId
    {
      if b < |cart| {
        assert InScope(cart[a], sc) && InScope(cart[b], sc);
      } else {
        assert cart'[b] == line && sc == scope;
        assert !(InScope(cart[a], scope) && cart[a].productId == line.productId);
      }
    }
  }

  // ---------------------------------------------------------------------
  // Properties of update

  /** An existing line outside the caller's scope cannot be updated. */
  lemma UpdateForbidden(st: State, scope: Scope, lineId: LineId, quantity: int, i: nat)
    requires DistinctLineIds(st.cart)
    requires i < |st.cart| && st.cart[i].id == lineId
    requires !InScope(st.cart[i], scope)
    ensures Update(st, scope, lineId, quantity) == Failure(Forbidden)
  {
    LineIndexFinds(st.cart, lineId, i);
  }

  /** On the caller's own line, update sets exactly the requested quantity when
      it is at least 1 and within stock, and otherwise refuses. */
  lemma UpdateSetsQuantity(st: State, scope: Scope, lineId: LineId, quantity: int, i: nat)
    requires DistinctLineIds(st.cart)
    requires LinesReferenceProducts(st.cart, st.products)
    requires i < |st.cart| && st.cart[i].id == lineId
    requires InScope(st.cart[i], scope)
    ensures quantity < 1 ==> Update(st, scope, lineId, quantity) == Failure(ValidationFailed)
    ensures quantity >= 1 && st.products[st.cart[i].productId].stock < quantity ==>
      Update(st, scope, lineId, quantity) == Failure(InsufficientStock)
    ensures 1 <= quantity <= st.products[st.cart[i].productId].stock ==>
      Update(st, scope, lineId, quantity) == Success(st.(cart := st.cart[i := st.cart[i].(quantity := quantity)]))
  {
    LineIndexFinds(st.cart, lineId, i);
  }

  /** A missing line is not found. */
  lemma UpdateMissing(st: State, scope: Scope, lineId: LineId, quantity: int)
    requires FreshLineId(st.cart, lineId)
    ensures Update(st, scope, lineId, quantity) == Failure(NotFound)
    ensures Destroy(st, scope, lineId) == Failure(NotFound)
  {
    LineIndexMissing(st.cart, lineId);
  }

  /** Update keeps every store invariant. */
  lemma UpdatePreservesWellFormed(st: State, scope: Scope, lineId: LineId, quantity: int)
    requires WellFormed(st)
    requires Update(st, scope, lineId, quantity).Success?
    ensures WellFormed(Update(st, scope, lineId, quantity).value)
  {
    var i := LineIndex(st.cart, lineId).value;
    assert Update(st, scope, lineId, quantity).value.cart == st.cart[i := st.cart[i].(quantity := quantity)];
    RaiseKeepsInvariants(st.cart, st.products, i, quantity);
  }

  /** Update moves the scope's subtotal by the change in that line's total. */
  lemma UpdateSubtotal(st: State, scope: Scope, lineId: LineId, quantity: int, i: nat)
    requires DistinctLineIds(st.cart)
    requires i < |st.cart| && st.cart[i].id == lineId
    requires Update(st, scope, lineId, quantity).Success?
    ensures Subtotal(st.products, Update(st, scope, lineId, quantity).value.cart, scope)
            == Subtotal(st.products, st.cart, scope) - LineTotal(st.products, st.cart[i])
               + st.products[st.cart[i].productId].price * quantity
  {
    LineIndexFinds(st.cart, lineId, i);
    SumUpdate(st.cart, i, st.cart[i].(quantity := quantity), ScopeCharge(st.products, scope));
  }

  // ---------------------------------------------------------------------
  // Properties of destroy

  function OtherThan(lineId: LineId): CartLine -> bool
  {
    (l: CartLine) => l.id != lineId
  }

  /** Destroy by the owner removes the targeted line and nothing else; by
      anyone else it is forbidden. */
  lemma DestroyRemovesOnlyTarget(st: State, scope: Scope, lineId: LineId, i: nat)
    requires DistinctLineIds(st.cart)
    requires i < |st.cart| && st.cart[i].id == lineId
    ensures !InScope(st.cart[i], scope) ==> Destroy(st, scope, lineId) == Failure(Forbidden)
    ensures InScope(st.cart[i], scope) ==>
      Destroy(st, scope, lineId) == Success(st.(cart := Filter(st.cart, OtherThan(lineId))))
  {
    LineIndexFinds(st.cart, lineId, i);
    FilterOutUnique(st.cart, lineId, i);
  }

  /** With distinct ids, filtering out an id drops exactly the row that has it. */
  lemma FilterOutUnique(cart: seq<CartLine>, lineId: LineId, i: nat)
    requires DistinctLineIds(cart)
    requires i < |cart| && cart[i].id == lineId
    ensures Filter(cart, OtherThan(lineId)) == cart[..i] + cart[i + 1..]
  {
    var p := OtherThan(lineId);
    var before, after := cart[..i], cart[i + 1..];
    forall k | 0 <= k < |before| ensures p(before[k]) {
      assert before[k] == cart[k];
      assert cart[k].id != cart[i].id;
    }
    forall k | 0 <= k < |after| ensures p(after[k]) {
      assert after[k] == cart[i + 1 + k];
      assert cart[i].id != cart[i + 1 + k].id;
    }
    assert cart == before + [cart[i]] + after;
    FilterDropsOne(before, cart[i], after, p);
  }

  /** Destroy lowers the scope's subtotal by the removed line's total. */
  lemma DestroySubtotal(st: State, scope: Scope, lineId: LineId, i: nat)
    requires DistinctLineIds(st.cart)
    requires i < |st.cart| && st.cart[i].id == lineId
    requires Destroy(st, scope, lineId).Success?
    ensures Subtotal(st.products, Destroy(st, scope, lineId).value.cart, scope)
            == Subtotal(st.products, st.cart, scope) - LineTotal(st.products, st.cart[i])
  {
    LineIndexFinds(st.cart, lineId, i);
    SumRemove(st.cart, i, ScopeCharge(st.products, scope));
  }

  /** Destroy keeps every store invariant. */
  lemma DestroyPreservesWellFormed(st: State, scope: Scope, lineId: LineId)
    requires WellFormed(st)
    requires Destroy(st, scope, lineId).Success?
    ensures WellFormed(Destroy(st, scope, lineId).value)
  {
    var i := LineIndex(st.cart, lineId).value;
    assert Destroy(st, scope, lineId).value.cart == st.cart[..i] + st.cart[i + 1..];
    RemoveKeepsInvariants(st.cart, st.products, i);
  }

  /** Removing one line keeps the cart invariants. */
  lemma RemoveKeepsInvariants(cart: seq<CartLine>, products: map<ProductId, Product>, i: nat)
    requires i < |cart|
    requires OneLinePerOwnerProduct(cart) && DistinctLineIds(cart) && LinesReferenceProducts(cart, products)
    ensures var cart' := cart[..i] + cart[i + 1..];
      OneLinePerOwnerProduct(cart') && DistinctLineIds(cart') && LinesReferenceProducts(cart', products)
  {
    var cart' := cart[..i] + cart[i + 1..];
    assert forall k :: 0 <= k < |cart'| ==> cart'[k] == (if k < i then cart[k] else cart[k + 1]);
    forall a, b, sc | 0 <= a < b < |cart'| && InScope(cart'[a], sc) && InScope(cart'[b], sc)
      ensures cart'[a].productId != cart'[b].productId
    {
      var a0 := if a < i then a else a + 1;
      var b0 := if b < i then b else b + 1;
      assert InScope(cart[a0], sc) && InScope(cart[b0], sc);
    }
    forall a, b | 0 <= a < b < |cart'| ensures cart'[a].id != cart'[b].id {
      var a0 := if a < i then a else a + 1;
      var b0 := if b < i then b else b + 1;
      assert cart[a0].id != cart[b0].id;
    }
  }

  // ---------------------------------------------------------------------
  // Lookup helpers

  lemma LineIndexFinds(cart: seq<CartLine>, id: LineId, i: nat)
    requires DistinctLineIds(cart)
    requires i < |cart| && cart[i].id == id
    ensures LineIndex(cart, id) == Some(i)
  {
    var r := LineIndex(cart, id);
    assert r.Some?;
    assert cart[r.value].id == cart[i].id;
  }

  lemma LineIndexMissing(cart: seq<CartLine>, id: LineId)
    requires FreshLineId(cart, id)
    ensures LineIndex(cart, id) == None
  {
  }
}
