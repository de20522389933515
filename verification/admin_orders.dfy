/**
 The admin side of orders: the filtered, paginated order list, the status
 update (any status may follow any other) and deletion, which only a
 cancelled order allows.
 */
module AdminOrders {
  import opened Common
  import opened Sequences
  import opened Store
  import Checkout

  /** The `statuses` labels the order pages show, keyed by stored name. */
  const StatusLabels: map<string, string> := map[
    "pending" := "Pending",
    "processing" := "Processing",
    "shipped" := "Shipped",
    "delivered" := "Delivered",
    "cancelled" := "Cancelled"]

  /** The label map lists exactly the five statuses. */
  lemma StatusLabelsAreTheStatuses()
    ensures forall name :: name in StatusLabels <==> ParseStatus(name).Some?
    ensures forall s: Status :: StatusName(s) in StatusLabels
  {
    forall s: Status ensures StatusName(s) in StatusLabels {
      StatusNameRoundTrip(s);
    }
  }

  /** `updateStatus`: overwrite the status and, when notes are given, the
      notes; an order with no such number is a 404. */
  function UpdateStatus(st: State, number: OrderNumber, status: Status, notes: Option<string>): (r: Result<State>)
    ensures number !in st.orders <==> r == Failure(NotFound)
    ensures r.Success? ==> r.value == st.(orders := r.value.orders)
    ensures r.Success? ==> r.value.orders.Keys == st.orders.Keys
    ensures r.Success? ==> forall n :: n in st.orders && n != number ==> r.value.orders[n] == st.orders[n]
    ensures r.Success? ==> r.value.orders[number] == st.orders[number].(status := status, notes := r.value.orders[number].notes)
    ensures r.Success? ==> r.value.orders[number].status == status
    ensures r.Success? ==> r.value.orders[number].notes == (if notes.Some? then notes else st.orders[number].notes)
  {
    if number !in st.orders then Failure(NotFound)
    else
      var o := st.orders[number];
      Success(st.(orders := st.orders[number := o.(status := status, notes := Coalesce(notes, o.notes))]))
  }

  /** `destroy`: only a cancelled order may be deleted. */
  function Destroy(st: State, number: OrderNumber): (r: Result<State>)
    ensures number !in st.orders ==> r == Failure(NotFound)
    ensures number in st.orders && st.orders[number].status != Cancelled ==> r == Failure(NotCancellable)
    ensures r.Success? <==> number in st.orders && st.orders[number].status == Cancelled
    ensures r.Success? ==> r.value == st.(orders := st.orders - {number})
  {
    if number !in st.orders then Failure(NotFound)
    else if StatusName(st.orders[number].status) != "cancelled" then Failure(NotCancellable)
    else Success(st.(orders := st.orders - {number}))
  }

  // ---------------------------------------------------------------------
  // The order list

  /** A like-`%q%` match on the order number, the customer's name or email,
      or the guest email. */
  predicate MatchesSearch(o: Order, users: map<UserId, UserRecord>, q: string)
  {
    || Contains(o.number, q)
    || (o.userId.Some? && o.userId.value in users
        && (Contains(users[o.userId.value].name, q) || Contains(users[o.userId.value].email, q)))
    || (o.guestEmail.Some? && Contains(o.guestEmail.value, q))
  }

  predicate HasStatus(o: Order, status: string)
  {
    StatusName(o.status) == status
  }

  /** The `where` clause as the query builder emits it. The search closure
      adds its three conditions to the outer query ungrouped, so with both
      filters the SQL reads `number OR user OR (guest_email AND status)`. */
  predicate ListedAsWritten(o: Order, users: map<UserId, UserRecord>, search: Option<string>, status: Option<string>)
  {
    if Filled(search) && Filled(status) then
      || Contains(o.number, search.value)
      || (o.userId.Some? && o.userId.value in users
          && (Contains(users[o.userId.value].name, search.value) || Contains(users[o.userId.value].email, search.value)))
      || (o.guestEmail.Some? && Contains(o.guestEmail.value, search.value) && HasStatus(o, status.value))
    else if Filled(search) then MatchesSearch(o, users, search.value)
    else if Filled(status) then HasStatus(o, status.value)
    else true
  }

  /** The intended clause: the search as one group, and the status filter
      applying to every row. */
  predicate Listed(o: Order, users: map<UserId, UserRecord>, search: Option<string>, status: Option<string>)
  {
    && (Filled(search) ==> MatchesSearch(o, users, search.value))
    && (Filled(status) ==> HasStatus(o, status.value))
  }

  function ListedBy(users: map<UserId, UserRecord>, search: Option<string>, status: Option<string>): Order -> bool
  {
    (o: Order) => Listed(o, users, search, status)
  }

  /** The rows `index` lists before paging, newest first. */
  function Matching(rows: seq<Order>, users: map<UserId, UserRecord>, search: Option<string>, status: Option<string>): (r: seq<Order>)
    ensures multiset(r) == multiset(Filter(rows, ListedBy(users, search, status)))
    ensures forall o :: o in r <==> o in rows && Listed(o, users, search, status)
    ensures forall i, j :: 0 <= i < j < |r| ==> r[i].createdAt >= r[j].createdAt
  {
    var kept := Filter(rows, ListedBy(users, search, status));
    assert TotalPreorder(NewestFirst);
    var r := SortBy(kept, NewestFirst);
    SameElements(r, kept);
    r
  }

  /** One page of 20 orders. */
  function Index(rows: seq<Order>, users: map<UserId, UserRecord>, search: Option<string>, status: Option<string>, page: int): (r: seq<Order>)
    ensures |r| <= 20
    ensures forall o :: o in r ==> o in rows
    ensures Filled(status) ==> forall o :: o in r ==> StatusName(o.status) == status.value
    ensures Filled(search) ==> forall o :: o in r ==> MatchesSearch(o, users, search.value)
    ensures forall i, j :: 0 <= i < j < |r| ==> r[i].createdAt >= r[j].createdAt
  {
    var m := Matching(rows, users, search, status);
    PageOfSorted(m, 20, page, NewestFirst);
    Page(m, 20, page)
  }

  /** Every matching order is on some page. */
  lemma IndexComplete(rows: seq<Order>, users: map<UserId, UserRecord>, search: Option<string>, status: Option<string>, o: Order)
    requires o in rows && Listed(o, users, search, status)
    ensures exists page: nat :: o in Index(rows, users, search, status, page)
  {
    var m := Matching(rows, users, search, status);
    var page := PageOf(m, 20, o);
    assert Index(rows, users, search, status, page) == Page(m, 20, page);
  }

  /** With no filter at all the list is every order. */
  lemma UnfilteredListsAll(rows: seq<Order>, users: map<UserId, UserRecord>, search: Option<string>, status: Option<string>)
    requires !Filled(search) && !Filled(status)
    ensures multiset(Matching(rows, users, search, status)) == multiset(rows)
  {
    FilterKeepsAll(rows, ListedBy(users, search, status));
  }

  /** The two clauses agree whenever at most one filter is set; with both,
      the written one still lists a matching order of the wrong status. */
  lemma ListedAsWrittenDiffers()
    ensures forall o, users, search, status :: !(Filled(search) && Filled(status)) ==>
      (ListedAsWritten(o, users, search, status) <==> Listed(o, users, search, status))
    ensures var a := AddressFields("Ada", "Lovelace", "1 Main St", None, "Springfield", "IL", "62701", "US", "5550100");
      var o := Order("ORD-1", None, Shipped, 1000, 80.0, 1000, 2080.0, a, a, CreditCard, Some("ada@example.com"), None, [], 0);
      && ListedAsWritten(o, map[], Some("ORD"), Some("pending"))
      && !Listed(o, map[], Some("ORD"), Some("pending"))
  {
    assert OccursAt("ORD-1", "ORD", 0);
  }

  // ---------------------------------------------------------------------
  // Status updates and deletion

  /** The status can move from any status to any status. */
  lemma AnyTransition(st: State, number: OrderNumber, status: Status, notes: Option<string>)
    requires number in st.orders
    ensures UpdateStatus(st, number, status, notes).Success?
    ensures UpdateStatus(st, number, status, notes).value.orders[number]
      == st.orders[number].(status := status, notes := UpdateStatus(st, number, status, notes).value.orders[number].notes)
  {
  }

  /** Updating the status keeps every order's figures adding up. */
  lemma UpdateStatusKeepsTotals(st: State, number: OrderNumber, status: Status, notes: Option<string>)
    requires Checkout.AllTotalsAddUp(st.orders)
    requires UpdateStatus(st, number, status, notes).Success?
    ensures Checkout.AllTotalsAddUp(UpdateStatus(st, number, status, notes).value.orders)
  {
    var o := UpdateStatus(st, number, status, notes).value.orders;
    forall n | n in o ensures Checkout.TotalsAddUp(o[n]) {
      assert Checkout.TotalsAddUp(st.orders[n]);
    }
  }

  lemma UpdateStatusPreservesWellFormed(st: State, number: OrderNumber, status: Status, notes: Option<string>)
    requires WellFormed(st)
    requires UpdateStatus(st, number, status, notes).Success?
    ensures WellFormed(UpdateStatus(st, number, status, notes).value)
  {
  }

  lemma DestroyPreservesWellFormed(st: State, number: OrderNumber)
    requires WellFormed(st)
    requires Destroy(st, number).Success?
    ensures WellFormed(Destroy(st, number).value)
  {
  }
}
