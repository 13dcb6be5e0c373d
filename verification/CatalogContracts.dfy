/** The edits around checkout written out in full, as steps of a run: when each is
    accepted, the rows it leaves behind, and the error of every refusal. */
module CatalogContracts {
  import opened Base
  import opened Tables
  import opened Catalog
  import opened Runs
  import opened Invariants

  // ---------- addresses ----------

  /** The lengths an address may have: the detail's upper bound is measured before
      trimming, the others after it. */
  predicate GoodSnapshot(s: Snapshot) {
    && 1 <= |Trim(s.receiver)| <= 32 && 6 <= |Trim(s.phone)| <= 20 && 1 <= |Trim(s.region)| <= 64
    && Trim(s.detail) != "" && |s.detail| <= 255
  }

  /** `after` has every other row as it was, except that the buyer's other defaults
      are no longer default when `cleared`. */
  ghost predicate OthersKept(before: map<Id, Address>, after: map<Id, Address>, user: Id, id: Id, cleared: bool) {
    && after.Keys == before.Keys + {id}
    && forall a :: a in before && a != id ==>
         after[a] == if cleared && before[a].user == user then before[a].(isDefault := false) else before[a]
  }

  lemma CreateAddressExactly(db: Db, user: Id, snap: Snapshot, isDefault: bool, newId: Id)
    ensures var (after, r) := CreateAddress(db, user, snap, isDefault, newId);
            && Exec(db, DoCreateAddress(user, snap, isDefault, newId)) == after
            && (r.Ok? <==> GoodSnapshot(snap) && user != ZERO_ID && user in db.users && newId !in db.addresses)
            && (r.Ok? ==>
                  && after == db.(addresses := after.addresses)
                  && OthersKept(db.addresses, after.addresses, user, newId, isDefault)
                  && after.addresses[newId] == r.value
                  && r.value == Address(user, Snapshot(Trim(snap.receiver), Trim(snap.phone), Trim(snap.region),
                                                       Trim(snap.detail)), isDefault, 1))
            && (r.Err? ==>
                  && after == db
                  && r.error == if !GoodSnapshot(snap) || user == ZERO_ID then InvalidAddress
                                else if newId in db.addresses then DefaultAddressConflict else ForeignKeyViolation)
  {
  }

  /** The fields that are there are good ones. */
  predicate GoodUpdate(u: AddressUpdate) {
    && (u.receiver.Some? ==> 1 <= |Trim(u.receiver.value)| <= 32)
    && (u.phone.Some? ==> 6 <= |Trim(u.phone.value)| <= 20)
    && (u.region.Some? ==> 1 <= |Trim(u.region.value)| <= 64)
    && (u.detail.Some? ==> Trim(u.detail.value) != "" && |u.detail.value| <= 255)
  }

  /** The update names a field, or turns the default flag. */
  predicate Changes(u: AddressUpdate, current: Address) {
    u.receiver.Some? || u.phone.Some? || u.region.Some? || u.detail.Some?
    || (u.isDefault.Some? && u.isDefault.value != current.isDefault)
  }

  lemma GoodUpdateExactly(u: AddressUpdate)
    ensures ValidUpdate(u) <==> GoodUpdate(u)
  {
  }

  lemma UpdateAddressAccepted(db: Db, user: Id, id: Id, u: AddressUpdate)
    requires AddressesOk(db.addresses)
    ensures UpdateAddress(db, user, id, u).1.Ok? <==>
            && GoodUpdate(u) && user != ZERO_ID && id != ZERO_ID
            && id in db.addresses && db.addresses[id].user == user
            && Changes(u, db.addresses[id]) && db.addresses[id].version < MAX64
    ensures UpdateAddress(db, user, id, u).1.Err? ==>
              && UpdateAddress(db, user, id, u).0 == db
              && UpdateAddress(db, user, id, u).1.error ==
                 if !GoodUpdate(u) then InvalidAddress
                 else if user == ZERO_ID || id == ZERO_ID || id !in db.addresses || db.addresses[id].user != user then
                   AddressNotFound
                 else if !Changes(u, db.addresses[id]) then EmptyUpdate
                 else NumericOutOfRange
  {
    GoodUpdateExactly(u);
  }

  /** Every accepted update bumps the version by one and takes each field from the
      update where it is given and from the row where it is not. */
  lemma UpdateAddressEffect(db: Db, user: Id, id: Id, u: AddressUpdate)
    requires AddressesOk(db.addresses) && UpdateAddress(db, user, id, u).1.Ok?
    ensures id in db.addresses
    ensures var (after, r) := UpdateAddress(db, user, id, u);
            var current := db.addresses[id];
            && Exec(db, DoUpdateAddress(user, id, u)) == after
            && after == db.(addresses := after.addresses)
            && OthersKept(db.addresses, after.addresses, user, id,
                          !current.isDefault && u.isDefault == Some(true))
            && after.addresses[id] == r.value
            && r.value.user == user && r.value.version == current.version + 1
            && r.value.isDefault == (if u.isDefault.Some? then u.isDefault.value else current.isDefault)
            && r.value.snap.receiver == (if u.receiver.Some? then Trim(u.receiver.value) else current.snap.receiver)
            && r.value.snap.phone == (if u.phone.Some? then Trim(u.phone.value) else current.snap.phone)
            && r.value.snap.region == (if u.region.Some? then Trim(u.region.value) else current.snap.region)
            && r.value.snap.detail == (if u.detail.Some? then Trim(u.detail.value) else current.snap.detail)
  {
  }

  lemma DeleteAddressExactly(db: Db, user: Id, id: Id)
    ensures Exec(db, DoDeleteAddress(user, id)) == DeleteAddress(db, user, id).0
    ensures DeleteAddress(db, user, id) ==
            if user != ZERO_ID && id != ZERO_ID && id in db.addresses && db.addresses[id].user == user
            then (db.(addresses := map a | a in db.addresses && a != id :: db.addresses[a]), Ok(()))
            else (db, Err(AddressNotFound))
  {
    assert db.addresses - {id} == map a | a in db.addresses && a != id :: db.addresses[a];
  }

  // ---------- cart ----------

  /** The buyer's row of the product, which the unique pair makes the only one. */
  ghost predicate HasRowOf(db: Db, user: Id, product: Id, c: Id) {
    c in db.carts && db.carts[c].user == user && db.carts[c].product == product
  }

  /** Adding to a product that is already in the cart. */
  lemma AddMoreExactly(db: Db, user: Id, product: Id, quantity: Int32, newId: Id, c: Id)
    requires CartsOk(db) && HasRowOf(db, user, product, c)
    ensures Exec(db, DoAddToCart(user, product, quantity, newId)) == AddToCart(db, user, product, quantity, newId).0
    ensures AddToCart(db, user, product, quantity, newId) ==
            if user == ZERO_ID || product == ZERO_ID || quantity < 1 then (db, Err(InvalidCartItem))
            else if db.carts[c].quantity + quantity > MAX32 then (db, Err(QuantityOverflow))
            else (db.(carts := db.carts[c := CartItem(user, product, db.carts[c].quantity + quantity)]), Ok(()))
  {
    assert IsCartRow(db, user, product, c);
    assert forall d :: d in db.carts && IsCartRow(db, user, product, d) ==> d == c;
    if 1 <= quantity && db.carts[c].quantity + quantity <= MAX32 {
      var row := CartItem(user, product, db.carts[c].quantity + quantity);
      assert (map d | d in db.carts :: if IsCartRow(db, user, product, d)
              then db.carts[d].(quantity := db.carts[d].quantity + quantity) else db.carts[d]) == db.carts[c := row];
    }
  }

  /** Adding a product that is not in the cart yet. */
  lemma AddNewExactly(db: Db, user: Id, product: Id, quantity: Int32, newId: Id)
    requires forall c :: !HasRowOf(db, user, product, c)
    ensures Exec(db, DoAddToCart(user, product, quantity, newId)) == AddToCart(db, user, product, quantity, newId).0
    ensures AddToCart(db, user, product, quantity, newId) ==
            if user == ZERO_ID || product == ZERO_ID || quantity < 1 then (db, Err(InvalidCartItem))
            else if product !in db.products then (db, Err(CartProductNotFound))
            else if newId in db.carts then (db, Err(UniqueViolation))
            else if user !in db.users then (db, Err(ForeignKeyViolation))
            else (db.(carts := db.carts[newId := CartItem(user, product, quantity)]), Ok(()))
  {
    assert forall c :: c in db.carts ==> (IsCartRow(db, user, product, c) <==> HasRowOf(db, user, product, c));
  }

  lemma UpdateCartExactly(db: Db, user: Id, id: Id, quantity: Int32)
    ensures Exec(db, DoUpdateCart(user, id, quantity)) == UpdateCart(db, user, id, quantity).0
    ensures UpdateCart(db, user, id, quantity) ==
            if user == ZERO_ID || id == ZERO_ID then (db, Err(CartItemNotFound))
            else if quantity < 1 then (db, Err(InvalidCartItem))
            else if id in db.carts && db.carts[id].user == user then
              (db.(carts := db.carts[id := CartItem(user, db.carts[id].product, quantity)]),
               Ok(CartItem(user, db.carts[id].product, quantity)))
            else (db, Err(CartItemNotFound))
  {
  }

  lemma DeleteFromCartExactly(db: Db, user: Id, id: Id)
    ensures Exec(db, DoDeleteFromCart(user, id)) == DeleteFromCart(db, user, id).0
    ensures DeleteFromCart(db, user, id) ==
            if user != ZERO_ID && id != ZERO_ID && id in db.carts && db.carts[id].user == user
            then (db.(carts := map c | c in db.carts && c != id :: db.carts[c]), Ok(()))
            else (db, Err(CartItemNotFound))
  {
    assert db.carts - {id} == map c | c in db.carts && c != id :: db.carts[c];
  }

  // ---------- products ----------

  lemma CreateProductExactly(db: Db, price: Int64, stock: Int32, onSale: bool, newId: Id)
    ensures Exec(db, DoCreateProduct(price, stock, onSale, newId)) == CreateProduct(db, price, stock, onSale, newId).0
    ensures CreateProduct(db, price, stock, onSale, newId) ==
            if price < 1 || stock < 0 then (db, Err(InvalidProduct))
            else if newId in db.products then (db, Err(UniqueViolation))
            else (db.(products := db.products[newId := Product(price, stock, onSale)]),
                  Ok(Product(price, stock, onSale)))
  {
  }

  lemma UpdateProductExactly(db: Db, id: Id, price: Option<Int64>, stock: Option<Int32>, onSale: Option<bool>)
    ensures var (after, r) := UpdateProduct(db, id, price, stock, onSale);
            && Exec(db, DoUpdateProduct(id, price, stock, onSale)) == after
            && (r.Ok? <==> id != ZERO_ID && id in db.products && (price.Some? || stock.Some? || onSale.Some?)
                           && (price.Some? ==> price.value >= 1) && (stock.Some? ==> stock.value >= 0))
            && (r.Ok? ==>
                  && after == db.(products := db.products[id := r.value])
                  && r.value.price == (if price.Some? then price.value else db.products[id].price)
                  && r.value.stock == (if stock.Some? then stock.value else db.products[id].stock)
                  && r.value.onSale == (if onSale.Some? then onSale.value else db.products[id].onSale))
            && (r.Err? ==>
                  && after == db
                  && r.error == if id == ZERO_ID then ProductNotFound
                                else if stock.Some? && stock.value < 0 then InvalidProduct
                                else if id !in db.products then ProductNotFound
                                else if price.Some? && price.value < 1 then InvalidProduct
                                else EmptyUpdate)
  {
  }
}
