/**
 The JSON shape of an order: the conditional `user` entry and the
 renaming of a stored address to the six keys the order pages read.
 */
module OrderView {
  import opened Common
  import opened Store
  import Checkout

  /** A decoded JSON object whose values are strings or null. */
  type JsonObject = map<string, Option<string>>

  /** `$address[key] ?? null`: a missing key and a null value read the same. */
  function Lookup(m: JsonObject, key: string): (r: Option<string>)
    ensures r.Some? <==> key in m && m[key].Some?
    ensures r.Some? ==> m[key] == r
  {
    if key in m then m[key] else None
  }

  /** The keys an order page reads from an address. */
  const ViewKeys: set<string> := {"line_1", "line_2", "city", "state", "postal_code", "country"}

  /** `transformAddress`: null for a null or empty address; otherwise the six
      view keys, each the first present of its source keys, else null. */
  function TransformAddress(address: Option<JsonObject>): (r: Option<JsonObject>)
    ensures r.None? <==> address.None? || address.value == map[]
    ensures r.Some? ==> r.value.Keys == ViewKeys
    ensures r.Some? ==> var m := address.value;
      && (Lookup(m, "address_line_1").Some? ==> r.value["line_1"] == Lookup(m, "address_line_1"))
      && (Lookup(m, "address_line_1").None? ==> r.value["line_1"] == Lookup(m, "line_1"))
      && (Lookup(m, "address_line_2").Some? ==> r.value["line_2"] == Lookup(m, "address_line_2"))
      && (Lookup(m, "address_line_2").None? ==> r.value["line_2"] == Lookup(m, "line_2"))
      && (Lookup(m, "zip_code").Some? ==> r.value["postal_code"] == Lookup(m, "zip_code"))
      && (Lookup(m, "zip_code").None? ==> r.value["postal_code"] == Lookup(m, "postal_code"))
      && r.value["city"] == Lookup(m, "city")
      && r.value["state"] == Lookup(m, "state")
      && r.value["country"] == Lookup(m, "country")
  {
    if address.None? || address.value == map[] then None
    else
      var m := address.value;
      Some(map[
        "line_1" := Coalesce(Lookup(m, "address_line_1"), Lookup(m, "line_1")),
        "line_2" := Coalesce(Lookup(m, "address_line_2"), Lookup(m, "line_2")),
        "city" := Lookup(m, "city"),
        "state" := Lookup(m, "state"),
        "postal_code" := Coalesce(Lookup(m, "zip_code"), Lookup(m, "postal_code")),
        "country" := Lookup(m, "country")])
  }

  /** The address object checkout stores: its validated fields, by request key. */
  function StoredAddress(a: AddressFields): (m: JsonObject)
    ensures m.Keys == {"first_name", "last_name", "address_line_1", "address_line_2",
                       "city", "state", "zip_code", "country", "phone"}
    ensures m["address_line_1"] == Some(a.line1) && m["address_line_2"] == a.line2
    ensures m["zip_code"] == Some(a.zipCode)
  {
    map[
      "first_name" := Some(a.firstName),
      "last_name" := Some(a.lastName),
      "address_line_1" := Some(a.line1),
      "address_line_2" := a.line2,
      "city" := Some(a.city),
      "state" := Some(a.state),
      "zip_code" := Some(a.zipCode),
      "country" := Some(a.country),
      "phone" := Some(a.phone)]
  }

  /** The six view keys an address's street, city, state, postal code and
      country belong under. */
  function ViewOf(a: AddressFields): JsonObject
  {
    map[
      "line_1" := Some(a.line1),
      "line_2" := a.line2,
      "city" := Some(a.city),
      "state" := Some(a.state),
      "postal_code" := Some(a.zipCode),
      "country" := Some(a.country)]
  }

  /** An address placed at checkout comes back on the order page with its
      street, city, state, postal code and country intact. */
  lemma CheckoutAddressRoundTrip(a: AddressFields)
    ensures TransformAddress(Some(StoredAddress(a))) == Some(ViewOf(a))
  {
    var m := StoredAddress(a);
    assert Lookup(m, "address_line_1") == Some(a.line1);
    assert Lookup(m, "address_line_2") == a.line2;
    assert Lookup(m, "zip_code") == Some(a.zipCode);
    assert Lookup(m, "line_2") == None;
  }

  /** An address stored under the other key names maps just the same. */
  lemma AlternateKeys(line1: string, postal: string)
    ensures TransformAddress(Some(map["line_1" := Some(line1), "postal_code" := Some(postal)])) == Some(map[
      "line_1" := Some(line1),
      "line_2" := None,
      "city" := None,
      "state" := None,
      "postal_code" := Some(postal),
      "country" := None])
  {
    var m := map["line_1" := Some(line1), "postal_code" := Some(postal)];
    assert Lookup(m, "address_line_1") == None && Lookup(m, "line_1") == Some(line1);
    assert Lookup(m, "address_line_2") == None && Lookup(m, "line_2") == None;
    assert Lookup(m, "zip_code") == None && Lookup(m, "postal_code") == Some(postal);
    assert Lookup(m, "city") == None && Lookup(m, "state") == None && Lookup(m, "country") == None;
  }

  datatype UserView = UserView(id: Option<UserId>, name: Option<string>, email: Option<string>)

  /** The order resource, without its timestamps and items. */
  datatype OrderJson = OrderJson(
    userId: Option<UserId>,
    user: Option<UserView>,
    orderNumber: OrderNumber,
    status: string,
    subtotal: Cents,
    tax: real,
    shipping: Cents,
    total: real,
    shippingAddress: Option<JsonObject>,
    billingAddress: Option<JsonObject>,
    paymentMethod: string,
    guestEmail: Option<string>,
    notes: Option<string>,
    itemsCount: nat)

  /** `toArray`. `itemsCount` is the `withCount` value when the query loaded one. */
  function ToArray(o: Order, users: map<UserId, UserRecord>, itemsCount: Option<nat>): (r: OrderJson)
    ensures r.user.Some? <==> o.userId.Some? && o.userId.value != 0
    ensures r.user.Some? && o.userId.value in users ==>
      var u := users[o.userId.value];
      r.user == Some(UserView(Some(u.id), Some(u.name), Some(u.email)))
    ensures r.user.Some? && o.userId.value !in users ==> r.user == Some(UserView(None, None, None))
    ensures r.userId == o.userId && r.orderNumber == o.number
    ensures (r.subtotal, r.tax, r.shipping, r.total) == (o.subtotal, o.tax, o.shipping, o.total)
    ensures r.guestEmail == o.guestEmail && r.notes == o.notes
    ensures itemsCount.None? ==> r.itemsCount == 0
    ensures itemsCount.Some? ==> r.itemsCount == itemsCount.value
  {
    var user :=
      if o.userId.None? || o.userId.value == 0 then None
      else if o.userId.value in users then
        var u := users[o.userId.value];
        Some(UserView(Some(u.id), Some(u.name), Some(u.email)))
      else Some(UserView(None, None, None));
    OrderJson(
      o.userId, user, o.number, StatusName(o.status),
      o.subtotal, o.tax, o.shipping, o.total,
      TransformAddress(Some(StoredAddress(o.shippingAddress))),
      TransformAddress(Some(StoredAddress(o.billingAddress))),
      Checkout.PaymentMethodName(o.paymentMethod),
      o.guestEmail, o.notes,
      if itemsCount.Some? then itemsCount.value else 0)
  }

  /** What the page reads back is what the order holds: its status and
      payment method parse to the stored values, and both addresses keep
      their street, city, state, postal code and country. */
  lemma ToArrayFaithful(o: Order, users: map<UserId, UserRecord>, itemsCount: Option<nat>)
    ensures var r := ToArray(o, users, itemsCount);
      && ParseStatus(r.status) == Some(o.status)
      && Checkout.ParsePaymentMethod(r.paymentMethod) == Some(o.paymentMethod)
      && r.shippingAddress == Some(ViewOf(o.shippingAddress))
      && r.billingAddress == Some(ViewOf(o.billingAddress))
  {
    var r := ToArray(o, users, itemsCount);
    assert r.status == StatusName(o.status);
    assert r.paymentMethod == Checkout.PaymentMethodName(o.paymentMethod);
    assert r.shippingAddress == TransformAddress(Some(StoredAddress(o.shippingAddress)));
    assert r.billingAddress == TransformAddress(Some(StoredAddress(o.billingAddress)));
    StatusNameRoundTrip(o.status);
    Checkout.PaymentMethodRoundTrip(o.paymentMethod);
    CheckoutAddressRoundTrip(o.shippingAddress);
    CheckoutAddressRoundTrip(o.billingAddress);
  }
}
