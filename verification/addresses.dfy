/**
 The address book controller: list, create, update and delete a signed-in
 user's saved addresses. Only the owner may change or delete an address, and
 making an address the default first clears the user's other defaults, so a
 user never has two.
 */
module AddressBook {
  import opened Common
  import opened Sequences
  import opened Store

  /** What the address form submits; `isDefault` is absent when not sent. */
  datatype AddressInput = AddressInput(kind: string, fields: AddressFields, isDefault: Option<bool>)

  function ParseAddressType(s: string): (r: Option<AddressType>)
    ensures r.Some? <==> s in {"shipping", "billing", "both"}
    ensures r.Some? ==> AddressTypeName(r.value) == s
  {
    if s == "shipping" then Some(ShippingAddress)
    else if s == "billing" then Some(BillingAddress)
    else if s == "both" then Some(BothAddress)
    else None
  }

  /** The stored `type` value. */
  function AddressTypeName(t: AddressType): string
  {
    match t
    case ShippingAddress => "shipping"
    case BillingAddress => "billing"
    case BothAddress => "both"
  }

  /** Every address type survives being stored and read back. */
  lemma AddressTypeRoundTrip(t: AddressType)
    ensures ParseAddressType(AddressTypeName(t)) == Some(t)
  {
    match t
    case ShippingAddress =>
    case BillingAddress =>
    case BothAddress =>
  }

  predicate ValidInput(input: AddressInput)
  {
    ParseAddressType(input.kind).Some? && ValidAddressFields(input.fields)
  }

  /** The request asks for the address to become the default. */
  predicate WantsDefault(input: AddressInput)
  {
    input.isDefault == Some(true)
  }

  /** `is_default = false` on every address of the user. */
  function ClearDefaults(addresses: map<AddressId, Address>, uid: UserId): (r: map<AddressId, Address>)
    ensures r.Keys == addresses.Keys
    ensures forall id :: id in r ==> !(r[id].userId == uid && r[id].isDefault)
    ensures forall id :: id in r && addresses[id].userId != uid ==> r[id] == addresses[id]
    ensures forall id :: id in r ==> r[id] == addresses[id].(isDefault := r[id].isDefault)
  {
    map id | id in addresses ::
      if addresses[id].userId == uid then addresses[id].(isDefault := false) else addresses[id]
  }

  /** Save a new address for the user. `newId` is the id the table would give
      the new row. */
  function Create(st: State, uid: UserId, input: AddressInput, newId: AddressId, now: nat): (r: Result<State>)
    requires newId !in st.addresses
    ensures !ValidInput(input) <==> r == Failure(ValidationFailed)
    ensures ValidInput(input) ==> r.Success?
    ensures r.Success? ==> r.value == st.(addresses := r.value.addresses)
    ensures r.Success? ==> r.value.addresses.Keys == st.addresses.Keys + {newId}
  {
    if !ValidInput(input) then Failure(ValidationFailed)
    else
      var base := if WantsDefault(input) then ClearDefaults(st.addresses, uid) else st.addresses;
      var created := Address(newId, uid, ParseAddressType(input.kind).value, input.fields, WantsDefault(input), now);
      Success(st.(addresses := base[newId := created]))
  }

  /** The new attributes of an updated address, given its row after any
      default-clearing: every submitted field, and `is_default` only when sent. */
  function Revised(current: Address, input: AddressInput): Address
    requires ValidInput(input)
  {
    current.(
      kind := ParseAddressType(input.kind).value,
      fields := input.fields,
      isDefault := if input.isDefault.Some? then input.isDefault.value else current.isDefault)
  }

  /** Update one of the user's addresses. */
  function Update(st: State, uid: UserId, id: AddressId, input: AddressInput): (r: Result<State>)
    ensures id !in st.addresses ==> r == Failure(NotFound)
    ensures id in st.addresses && st.addresses[id].userId != uid ==> r == Failure(Forbidden)
    ensures (id in st.addresses && st.addresses[id].userId == uid && !ValidInput(input)) ==>
      r == Failure(ValidationFailed)
    ensures id in st.addresses && st.addresses[id].userId == uid && ValidInput(input) ==> r.Success?
    ensures r.Success? ==> r.value == st.(addresses := r.value.addresses)
    ensures r.Success? ==> r.value.addresses.Keys == st.addresses.Keys
  {
    if id !in st.addresses then Failure(NotFound)
    else if st.addresses[id].userId != uid then Failure(Forbidden)
    else if !ValidInput(input) then Failure(ValidationFailed)
    else
      var base := if WantsDefault(input) then ClearDefaults(st.addresses, uid) else st.addresses;
      Success(st.(addresses := base[id := Revised(base[id], input)]))
  }

  /** Delete one of the user's addresses. */
  function Destroy(st: State, uid: UserId, id: AddressId): (r: Result<State>)
    ensures id !in st.addresses ==> r == Failure(NotFound)
    ensures id in st.addresses && st.addresses[id].userId != uid ==> r == Failure(Forbidden)
    ensures id in st.addresses && st.addresses[id].userId == uid ==>
      r == Success(st.(addresses := st.addresses - {id}))
  {
    if id !in st.addresses then Failure(NotFound)
    else if st.addresses[id].userId != uid then Failure(Forbidden)
    else Success(st.(addresses := st.addresses - {id}))
  }

  /** Defaults first, then newest first. */
  function DefaultsFirstNewest(a: Address, b: Address): bool
  {
    (a.isDefault && !b.isDefault) || (a.isDefault == b.isDefault && a.createdAt >= b.createdAt)
  }

  lemma DefaultsFirstNewestIsTotalPreorder()
    ensures TotalPreorder(DefaultsFirstNewest)
  {
  }

  function OwnedBy(uid: UserId): Address -> bool
  {
    (a: Address) => a.userId == uid
  }

  /** The address list page: the user's addresses, defaults first, then
      newest first. */
  function Index(rows: seq<Address>, uid: UserId): (r: seq<Address>)
    ensures multiset(r) == multiset(Filter(rows, OwnedBy(uid)))
    ensures forall a :: a in r <==> a in rows && a.userId == uid
    ensures forall i, j :: 0 <= i < j < |r| ==> (r[i].isDefault || !r[j].isDefault)
    ensures forall i, j :: 0 <= i < j < |r| && r[i].isDefault == r[j].isDefault ==> r[i].createdAt >= r[j].createdAt
  {
    DefaultsFirstNewestIsTotalPreorder();
    var r := SortBy(Filter(rows, OwnedBy(uid)), DefaultsFirstNewest);
    SameElements(r, Filter(rows, OwnedBy(uid)));
    assert forall i, j :: 0 <= i < j < |r| ==> DefaultsFirstNewest(r[i], r[j]);
    r
  }

  // ---------------------------------------------------------------------
  // Properties

  /** The user's default addresses. */
  ghost function DefaultsOf(addresses: map<AddressId, Address>, uid: UserId): set<AddressId>
  {
    set id | id in addresses && addresses[id].userId == uid && addresses[id].isDefault
  }

  /** The new address has the submitted type and fields. Creating a default
      address leaves it the user's only default and changes nothing but the
      flag on the existing ones; creating any other address leaves every
      existing entry as it was. */
  lemma CreateDefault(st: State, uid: UserId, input: AddressInput, newId: AddressId, now: nat)
    requires newId !in st.addresses
    requires Create(st, uid, input, newId, now).Success?
    ensures var a' := Create(st, uid, input, newId, now).value.addresses;
      && a'[newId].userId == uid && a'[newId].fields == input.fields && a'[newId].createdAt == now
      && Some(a'[newId].kind) == ParseAddressType(input.kind)
      && a'[newId].isDefault == WantsDefault(input)
      && (forall k :: k in st.addresses ==> a'[k] == st.addresses[k].(isDefault := a'[k].isDefault))
      && (WantsDefault(input) ==> DefaultsOf(a', uid) == {newId})
      && (!WantsDefault(input) ==> a' == st.addresses[newId := a'[newId]] && !a'[newId].isDefault)
  {
  }

  /** Default-clearing touches only the acting user's addresses. */
  lemma CreateLeavesOthers(st: State, uid: UserId, input: AddressInput, newId: AddressId, now: nat)
    requires newId !in st.addresses
    requires Create(st, uid, input, newId, now).Success?
    ensures var a' := Create(st, uid, input, newId, now).value.addresses;
      forall id :: id in st.addresses && st.addresses[id].userId != uid ==> a'[id] == st.addresses[id]
  {
  }

  lemma CreatePreservesWellFormed(st: State, uid: UserId, input: AddressInput, newId: AddressId, now: nat)
    requires WellFormed(st)
    requires newId !in st.addresses
    requires Create(st, uid, input, newId, now).Success?
    ensures WellFormed(Create(st, uid, input, newId, now).value)
  {
    var a' := Create(st, uid, input, newId, now).value.addresses;
    forall x, y | x in a' && y in a' && a'[x].userId == a'[y].userId && a'[x].isDefault && a'[y].isDefault
      ensures x == y
    {
      if x != newId && y != newId {
        assert st.addresses[x].isDefault && st.addresses[y].isDefault;
      }
    }
  }

  /** Updating with `is_default` sent as true makes the updated address the
      user's only default; the user's other addresses lose at most the flag,
      other users' addresses never change, and the updated address carries
      exactly the submitted fields. */
  lemma UpdateDefault(st: State, uid: UserId, id: AddressId, input: AddressInput)
    requires Update(st, uid, id, input).Success?
    ensures var a' := Update(st, uid, id, input).value.addresses;
      && a'[id].fields == input.fields
      && Some(a'[id].kind) == ParseAddressType(input.kind)
      && a'[id].userId == uid && a'[id].createdAt == st.addresses[id].createdAt
      && (WantsDefault(input) ==> DefaultsOf(a', uid) == {id})
      && (input.isDefault.None? ==> a'[id].isDefault == st.addresses[id].isDefault)
      && (forall k :: k in st.addresses && st.addresses[k].userId != uid ==> a'[k] == st.addresses[k])
      && (forall k :: k in st.addresses && k != id ==> a'[k] == st.addresses[k].(isDefault := a'[k].isDefault))
      && (!WantsDefault(input) ==> forall k :: k in st.addresses && k != id ==> a'[k] == st.addresses[k])
  {
  }

  lemma UpdatePreservesWellFormed(st: State, uid: UserId, id: AddressId, input: AddressInput)
    requires WellFormed(st)
    requires Update(st, uid, id, input).Success?
    ensures WellFormed(Update(st, uid, id, input).value)
  {
    var a' := Update(st, uid, id, input).value.addresses;
    forall x, y | x in a' && y in a' && a'[x].userId == a'[y].userId && a'[x].isDefault && a'[y].isDefault
      ensures x == y
    {
      if x != id && y != id {
        assert st.addresses[x].isDefault && st.addresses[y].isDefault;
      } else if !WantsDefault(input) {
        assert st.addresses[x].isDefault && st.addresses[y].isDefault;
      }
    }
  }

  lemma DestroyPreservesWellFormed(st: State, uid: UserId, id: AddressId)
    requires WellFormed(st)
    requires Destroy(st, uid, id).Success?
    ensures WellFormed(Destroy(st, uid, id).value)
  {
  }

  // ---------------------------------------------------------------------
  // The update as written: `$address` is loaded before the default-clearing
  // mass update and saved afterwards with only its dirty attributes. With
  // `is_default` cast to boolean, sending `is_default = true` for an address
  // that was already the default leaves the attribute clean, so the cleared
  // `false` stays in the row.

  /** The row `$address->update($validated)` writes over `row`, where
      `loaded` is the model as it was read before the mass update. */
  function SaveDirty(row: Address, loaded: Address, input: AddressInput): (r: Address)
    requires ValidInput(input)
    ensures r.fields == input.fields && r.id == row.id && r.userId == row.userId
    ensures input.isDefault.Some? && input.isDefault.value != loaded.isDefault ==> r.isDefault == input.isDefault.value
    ensures !(input.isDefault.Some? && input.isDefault.value != loaded.isDefault) ==> r.isDefault == row.isDefault
  {
    row.(
      kind := ParseAddressType(input.kind).value,
      fields := input.fields,
      isDefault := if input.isDefault.Some? && input.isDefault.value != loaded.isDefault
                   then input.isDefault.value else row.isDefault)
  }

  function UpdateAsWritten(st: State, uid: UserId, id: AddressId, input: AddressInput): (r: Result<State>)
    ensures r.Success? <==> Update(st, uid, id, input).Success?
    ensures r.Failure? ==> r == Update(st, uid, id, input)
    ensures r.Success? && !WantsDefault(input) ==> r == Update(st, uid, id, input)
  {
    if id !in st.addresses then Failure(NotFound)
    else if st.addresses[id].userId != uid then Failure(Forbidden)
    else if !ValidInput(input) then Failure(ValidationFailed)
    else
      var loaded := st.addresses[id];
      var base := if WantsDefault(input) then ClearDefaults(st.addresses, uid) else st.addresses;
      Success(st.(addresses := base[id := SaveDirty(base[id], loaded, input)]))
  }

  /** Re-saving the current default with `is_default = true` leaves the user
      with no default address at all. */
  lemma UpdateAsWrittenDropsDefault()
    ensures var f := AddressFields("Ada", "Lovelace", "1 Main St", None, "Springfield", "IL", "62701", "US", "5550100");
      var st := State(map[], [], map[], map[1 := Address(1, 7, ShippingAddress, f, true, 0)]);
      var input := AddressInput("shipping", f, Some(true));
      && Update(st, 7, 1, input).Success?
      && DefaultsOf(Update(st, 7, 1, input).value.addresses, 7) == {1}
      && UpdateAsWritten(st, 7, 1, input).Success?
      && DefaultsOf(UpdateAsWritten(st, 7, 1, input).value.addresses, 7) == {}
  {
    var f := AddressFields("Ada", "Lovelace", "1 Main St", None, "Springfield", "IL", "62701", "US", "5550100");
    var st := State(map[], [], map[], map[1 := Address(1, 7, ShippingAddress, f, true, 0)]);
    var input := AddressInput("shipping", f, Some(true));
    UpdateDefault(st, 7, 1, input);
    var a' := UpdateAsWritten(st, 7, 1, input).value.addresses;
    assert a'.Keys == {1};
    assert !a'[1].isDefault;
  }
}
