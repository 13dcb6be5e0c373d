/** The edits around checkout: addresses (address_service.go), cart rows
    (cart/service.go) and products (product/service.go). */
module Catalog {
  import opened Base
  import opened Tables

  // ---------- addresses ----------

  predicate ValidField(s: string, max: nat) {
    Trim(s) != "" && |Trim(s)| <= max
  }

  predicate ValidPhone(s: string) {
    6 <= |Trim(s)| <= 20
  }

  /** The detail's upper bound is measured before trimming, the others' after. */
  predicate ValidDetail(s: string) {
    Trim(s) != "" && |s| <= 255
  }

  predicate ValidSnapshot(s: Snapshot) {
    ValidField(s.receiver, 32) && ValidPhone(s.phone) && ValidField(s.region, 64) && ValidDetail(s.detail)
  }

  function Trimmed(s: Snapshot): Snapshot {
    Snapshot(Trim(s.receiver), Trim(s.phone), Trim(s.region), Trim(s.detail))
  }

  /** Unsets the buyer's default addresses but the excepted one. The version of
      a cleared address is not touched. */
  function ClearDefault(addresses: map<Id, Address>, user: Id, except: Id): map<Id, Address> {
    map id | id in addresses ::
      if addresses[id].user == user && addresses[id].isDefault && (except == ZERO_ID || id != except)
      then addresses[id].(isDefault := false) else addresses[id]
  }

  /** The partial unique index uq_default_address: another default row of the buyer. */
  predicate DefaultTaken(addresses: map<Id, Address>, user: Id, id: Id) {
    exists other :: other in addresses && other != id && addresses[other].user == user && addresses[other].isDefault
  }

  function CreateAddress(db: Db, user: Id, snap: Snapshot, isDefault: bool, newId: Id): (Db, Result<Address, Error>) {
    if !ValidSnapshot(snap) || user == ZERO_ID then (db, Err(InvalidAddress))
    else
      var cleared := if isDefault then ClearDefault(db.addresses, user, ZERO_ID) else db.addresses;
      var row := Address(user, Trimmed(snap), isDefault, 1);
      if newId in cleared then (db, Err(DefaultAddressConflict))
      else if user !in db.users then (db, Err(ForeignKeyViolation))
      else if isDefault && DefaultTaken(cleared, user, newId) then (db, Err(DefaultAddressConflict))
      else (db.(addresses := cleared[newId := row]), Ok(row))
  }

  datatype AddressUpdate = AddressUpdate(
    receiver: Option<string>, phone: Option<string>, region: Option<string>, detail: Option<string>,
    isDefault: Option<bool>)

  predicate ValidUpdate(u: AddressUpdate) {
    && (u.receiver.Some? ==> ValidField(u.receiver.value, 32))
    && (u.phone.Some? ==> ValidPhone(u.phone.value))
    && (u.region.Some? ==> ValidField(u.region.value, 64))
    && (u.detail.Some? ==> ValidDetail(u.detail.value))
  }

  function Replaced(current: string, field: Option<string>): string {
    if field.Some? then Trim(field.value) else current
  }

  function UpdatedSnapshot(s: Snapshot, u: AddressUpdate): Snapshot {
    Snapshot(Replaced(s.receiver, u.receiver), Replaced(s.phone, u.phone),
             Replaced(s.region, u.region), Replaced(s.detail, u.detail))
  }

  /** Every accepted update bumps the version, whatever it changes. */
  function UpdateAddress(db: Db, user: Id, id: Id, u: AddressUpdate): (Db, Result<Address, Error>) {
    if !ValidUpdate(u) then (db, Err(InvalidAddress))
    else if user == ZERO_ID || id == ZERO_ID || id !in db.addresses || db.addresses[id].user != user then
      (db, Err(AddressNotFound))
    else
      var current := db.addresses[id];
      var flips := u.isDefault.Some? && u.isDefault.value != current.isDefault;
      if u.receiver.None? && u.phone.None? && u.region.None? && u.detail.None? && !flips then (db, Err(EmptyUpdate))
      else if current.version == MAX64 then (db, Err(NumericOutOfRange))
      else
        var cleared := if flips && u.isDefault.value then ClearDefault(db.addresses, user, id) else db.addresses;
        var row := Address(user, UpdatedSnapshot(current.snap, u),
                           if flips then u.isDefault.value else current.isDefault, current.version + 1);
        if row.isDefault && DefaultTaken(cleared, user, id) then (db, Err(DefaultAddressConflict))
        else (db.(addresses := cleared[id := row]), Ok(row))
  }

  function DeleteAddress(db: Db, user: Id, id: Id): (Db, Result<(), Error>) {
    if user == ZERO_ID || id == ZERO_ID || id !in db.addresses || db.addresses[id].user != user then
      (db, Err(AddressNotFound))
    else (db.(addresses := db.addresses - {id}), Ok(()))
  }

  // ---------- cart ----------

  /** The row the unique (user_id, product_id) pair selects, if any. */
  predicate IsCartRow(db: Db, user: Id, product: Id, id: Id) {
    id in db.carts && db.carts[id].user == user && db.carts[id].product == product
  }

  /** CartService.Add: INSERT ... ON CONFLICT (user_id, product_id) DO UPDATE
      SET quantity = quantity + EXCLUDED.quantity. */
  function AddToCart(db: Db, user: Id, product: Id, quantity: Int32, newId: Id): (Db, Result<(), Error>) {
    if user == ZERO_ID || product == ZERO_ID || quantity < 1 then (db, Err(InvalidCartItem))
    else if product !in db.products then (db, Err(CartProductNotFound))
    else if exists id :: id in db.carts && IsCartRow(db, user, product, id) then
      if exists id :: id in db.carts && IsCartRow(db, user, product, id) && db.carts[id].quantity + quantity > MAX32
      then (db, Err(QuantityOverflow))
      else
        (db.(carts := map id | id in db.carts ::
                        if IsCartRow(db, user, product, id)
                        then db.carts[id].(quantity := db.carts[id].quantity + quantity) else db.carts[id]), Ok(()))
    else if newId in db.carts then (db, Err(UniqueViolation))
    else if user !in db.users then (db, Err(ForeignKeyViolation))
    else (db.(carts := db.carts[newId := CartItem(user, product, quantity)]), Ok(()))
  }

  function UpdateCart(db: Db, user: Id, id: Id, quantity: Int32): (Db, Result<CartItem, Error>) {
    if user == ZERO_ID || id == ZERO_ID then (db, Err(CartItemNotFound))
    else if quantity < 1 then (db, Err(InvalidCartItem))
    else if id !in db.carts || db.carts[id].user != user then (db, Err(CartItemNotFound))
    else
      var item := db.carts[id].(quantity := quantity);
      (db.(carts := db.carts[id := item]), Ok(item))
  }

  function DeleteFromCart(db: Db, user: Id, id: Id): (Db, Result<(), Error>) {
    if user == ZERO_ID || id == ZERO_ID || id !in db.carts || db.carts[id].user != user then (db, Err(CartItemNotFound))
    else (db.(carts := db.carts - {id}), Ok(()))
  }

  // ---------- products ----------

  function CreateProduct(db: Db, price: Int64, stock: Int32, onSale: bool, newId: Id): (Db, Result<Product, Error>) {
    if price <= 0 || stock < 0 then (db, Err(InvalidProduct))
    else if newId in db.products then (db, Err(UniqueViolation))
    else
      var row := Product(price, stock, onSale);
      (db.(products := db.products[newId := row]), Ok(row))
  }

  /** A stock edit sets the stock; checkout and refunds move it relatively. */
  function UpdateProduct(db: Db, id: Id, price: Option<Int64>, stock: Option<Int32>, onSale: Option<bool>)
    : (Db, Result<Product, Error>)
  {
    if id == ZERO_ID then (db, Err(ProductNotFound))
    else if stock.Some? && stock.value < 0 then (db, Err(InvalidProduct))
    else if id !in db.products then (db, Err(ProductNotFound))
    else if price.Some? && price.value <= 0 then (db, Err(InvalidProduct))
    else if price.None? && stock.None? && onSale.None? then (db, Err(EmptyUpdate))
    else
      var current := db.products[id];
      var row := Product(if price.Some? then price.value else current.price,
                         if stock.Some? then stock.value else current.stock,
                         if onSale.Some? then onSale.value else current.onSale);
      (db.(products := db.products[id := row]), Ok(row))
  }
}
