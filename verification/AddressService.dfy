/** The address statements of address_service.go. */
module AddressService {
  import opened Base
  import opened Tables
  import opened Catalog
  import opened Store

  /** The buyer's address row, locked by order creation. */
  method LockForOrder(tx: Database, user: Id, id: Id) returns (r: Result<Address, Error>)
    ensures r == if user != ZERO_ID && id != ZERO_ID && id in tx.addresses && tx.addresses[id].user == user
                 then Ok(tx.addresses[id]) else Err(AddressNotFound)
  {
    if user == ZERO_ID || id == ZERO_ID {
      return Err(AddressNotFound);
    }
    if id !in tx.addresses || tx.addresses[id].user != user {
      return Err(AddressNotFound);
    }
    return Ok(tx.addresses[id]);
  }

  /** One UPDATE over the buyer's other default rows; versions stay. */
  method ClearDefaultAddress(tx: Database, user: Id, except: Id)
    modifies tx`addresses
    ensures tx.addresses == ClearDefault(old(tx.addresses), user, except)
    ensures tx.addresses.Keys == old(tx.addresses).Keys
    ensures forall a :: a in tx.addresses ==>
              tx.addresses[a] == if old(tx.addresses)[a].user == user && (except == ZERO_ID || a != except)
                                 then old(tx.addresses)[a].(isDefault := false) else old(tx.addresses)[a]
  {
    tx.addresses := ClearDefault(tx.addresses, user, except);
  }

  /** No other row of the buyer is a default. */
  predicate OnlyDefault(addresses: map<Id, Address>, user: Id, id: Id) {
    forall a :: a in addresses && a != id && addresses[a].user == user ==> !addresses[a].isDefault
  }

  /** INSERT of an address under the key and the partial unique index. */
  method Insert(tx: Database, id: Id, row: Address) returns (r: Result<(), Error>)
    modifies tx`addresses
    ensures r == if id in old(tx.addresses) then Err(DefaultAddressConflict)
                 else if row.user !in tx.users then Err(ForeignKeyViolation)
                 else if row.isDefault && !OnlyDefault(old(tx.addresses), row.user, id) then Err(DefaultAddressConflict)
                 else Ok(())
    ensures tx.addresses == if r.Ok? then old(tx.addresses)[id := row] else old(tx.addresses)
  {
    if id in tx.addresses {
      return Err(DefaultAddressConflict);
    }
    if row.user !in tx.users {
      return Err(ForeignKeyViolation);
    }
    if row.isDefault && DefaultTaken(tx.addresses, row.user, id) {
      return Err(DefaultAddressConflict);
    }
    tx.addresses := tx.addresses[id := row];
    return Ok(());
  }

  method Create(tx: Database, user: Id, snap: Snapshot, isDefault: bool, newId: Id) returns (r: Result<Address, Error>)
    modifies tx
    ensures (tx.View(), r) == CreateAddress(old(tx.View()), user, snap, isDefault, newId)
  {
    if !ValidSnapshot(snap) {
      return Err(InvalidAddress);
    }
    if user == ZERO_ID {
      return Err(InvalidAddress);
    }
    var begun := tx.View();
    if isDefault {
      ClearDefaultAddress(tx, user, ZERO_ID);
    }
    var row := Address(user, Trimmed(snap), isDefault, 1);
    var inserted := Insert(tx, newId, row);
    if inserted.Err? {
      tx.Rollback(begun);
      return Err(inserted.error);
    }
    return Ok(row);
  }

  method Update(tx: Database, user: Id, id: Id, u: AddressUpdate) returns (r: Result<Address, Error>)
    modifies tx
    ensures (tx.View(), r) == UpdateAddress(old(tx.View()), user, id, u)
  {
    if !ValidUpdate(u) {
      return Err(InvalidAddress);
    }
    if user == ZERO_ID || id == ZERO_ID {
      return Err(AddressNotFound);
    }
    if id !in tx.addresses || tx.addresses[id].user != user {
      return Err(AddressNotFound);
    }
    var begun := tx.View();
    var current := tx.addresses[id];
    var changes := 0;
    var row := current;
    if u.receiver.Some? {
      row := row.(snap := row.snap.(receiver := Trim(u.receiver.value)));
      changes := changes + 1;
    }
    if u.phone.Some? {
      row := row.(snap := row.snap.(phone := Trim(u.phone.value)));
      changes := changes + 1;
    }
    if u.region.Some? {
      row := row.(snap := row.snap.(region := Trim(u.region.value)));
      changes := changes + 1;
    }
    if u.detail.Some? {
      row := row.(snap := row.snap.(detail := Trim(u.detail.value)));
      changes := changes + 1;
    }
    assert row.snap == UpdatedSnapshot(current.snap, u);
    if u.isDefault.Some? && u.isDefault.value != current.isDefault {
      if u.isDefault.value {
        ClearDefaultAddress(tx, user, id);
      }
      row := row.(isDefault := u.isDefault.value);
      changes := changes + 1;
    }
    if changes == 0 {
      return Err(EmptyUpdate);
    }
    if current.version == MAX64 {
      tx.Rollback(begun);
      return Err(NumericOutOfRange);
    }
    row := row.(version := current.version + 1);
    if row.isDefault && DefaultTaken(tx.addresses, user, id) {
      tx.Rollback(begun);
      return Err(DefaultAddressConflict);
    }
    tx.addresses := tx.addresses[id := row];
    return Ok(row);
  }

  method Delete(tx: Database, user: Id, id: Id) returns (r: Result<(), Error>)
    modifies tx
    ensures (tx.View(), r) == DeleteAddress(old(tx.View()), user, id)
  {
    if user == ZERO_ID || id == ZERO_ID {
      return Err(AddressNotFound);
    }
    if id !in tx.addresses || tx.addresses[id].user != user {
      return Err(AddressNotFound);
    }
    tx.addresses := tx.addresses - {id};
    return Ok(());
  }
}
