/** One step of the system is one committed call; a run is any sequence of them. */
module Runs {
  import opened Base
  import opened Tables
  import opened Checkout
  import opened Lifecycle
  import opened Accounts
  import opened Catalog

  datatype Step =
    | DoCreate(user: Id, token: string, req: OrderRequest, newId: Id)
    | DoMove(call: OrderCall)
    | DoApprove(admin: Id, order: Id)
    | DoAdjust(admin: Id, key: string, adjustment: Adjustment)
    | DoLogin(openid: string, bonus: Int64, newId: Id)
    | DoCreateAddress(user: Id, snap: Snapshot, isDefault: bool, newId: Id)
    | DoUpdateAddress(user: Id, id: Id, update: AddressUpdate)
    | DoDeleteAddress(user: Id, id: Id)
    | DoAddToCart(user: Id, product: Id, quantity: Int32, newId: Id)
    | DoUpdateCart(user: Id, id: Id, quantity: Int32)
    | DoDeleteFromCart(user: Id, id: Id)
    | DoCreateProduct(price: Int64, stock: Int32, onSale: bool, newId: Id)
    | DoUpdateProduct(id: Id, newPrice: Option<Int64>, newStock: Option<Int32>, newOnSale: Option<bool>)

  function Exec(db: Db, s: Step): Db {
    match s
    case DoCreate(user, token, req, newId) => CreateOrder(db, user, token, req, newId).0
    case DoMove(call) => Move(db, call).0
    case DoApprove(admin, order) => Approve(db, admin, order).0
    case DoAdjust(admin, key, a) => Adjust(db, admin, key, a).0
    case DoLogin(openid, bonus, newId) => UpsertByOpenID(db, openid, bonus, newId).0
    case DoCreateAddress(user, snap, isDefault, newId) => CreateAddress(db, user, snap, isDefault, newId).0
    case DoUpdateAddress(user, id, u) => UpdateAddress(db, user, id, u).0
    case DoDeleteAddress(user, id) => DeleteAddress(db, user, id).0
    case DoAddToCart(user, product, quantity, newId) => AddToCart(db, user, product, quantity, newId).0
    case DoUpdateCart(user, id, quantity) => UpdateCart(db, user, id, quantity).0
    case DoDeleteFromCart(user, id) => DeleteFromCart(db, user, id).0
    case DoCreateProduct(price, stock, onSale, newId) => CreateProduct(db, price, stock, onSale, newId).0
    case DoUpdateProduct(id, price, stock, onSale) => UpdateProduct(db, id, price, stock, onSale).0
  }

  function Run(db: Db, steps: seq<Step>): Db {
    if steps == [] then db
    else Exec(Run(db, steps[..|steps| - 1]), steps[|steps| - 1])
  }

  const EMPTY_DB := Db(map[], map[], map[], map[], map[], [], [])

  lemma RunOne(db: Db, steps: seq<Step>, s: Step)
    ensures Run(db, steps + [s]) == Exec(Run(db, steps), s)
  {
    assert (steps + [s])[..|steps|] == steps;
  }

  lemma {:induction false} RunConcat(db: Db, a: seq<Step>, b: seq<Step>)
    ensures Run(db, a + b) == Run(Run(db, a), b)
  {
    if b == [] {
      assert a + b == a;
    } else {
      var n := |b| - 1;
      assert (a + b)[..|a + b| - 1] == a + b[..n];
      RunConcat(db, a, b[..n]);
    }
  }

  // ---------- which tables a step may touch ----------

  predicate IsAddressStep(s: Step) {
    s.DoCreateAddress? || s.DoUpdateAddress? || s.DoDeleteAddress?
  }

  predicate IsCartStep(s: Step) {
    s.DoAddToCart? || s.DoUpdateCart? || s.DoDeleteFromCart?
  }

  predicate IsProductStep(s: Step) {
    s.DoCreateProduct? || s.DoUpdateProduct?
  }

  predicate IsAccountStep(s: Step) {
    s.DoAdjust? || s.DoLogin?
  }

  predicate IsOrderStep(s: Step) {
    s.DoCreate? || s.DoMove? || s.DoApprove?
  }

  lemma AddressFrame(db: Db, s: Step)
    requires IsAddressStep(s)
    ensures Exec(db, s) == db.(addresses := Exec(db, s).addresses)
  {
  }

  lemma CartFrame(db: Db, s: Step)
    requires IsCartStep(s)
    ensures Exec(db, s) == db.(carts := Exec(db, s).carts)
  {
    match s
    case DoAddToCart(user, product, quantity, newId) => AddToCartFrame(db, user, product, quantity, newId);
    case DoUpdateCart(user, id, quantity) =>
    case DoDeleteFromCart(user, id) =>
  }

  lemma AddToCartFrame(db: Db, user: Id, product: Id, quantity: Int32, newId: Id)
    ensures var after := AddToCart(db, user, product, quantity, newId).0;
            && after == db.(carts := after.carts)
            && forall c :: c in after.carts && c !in db.carts ==> c == newId
  {
  }

  lemma ProductFrame(db: Db, s: Step)
    requires IsProductStep(s)
    ensures Exec(db, s) == db.(products := Exec(db, s).products)
  {
  }

  lemma AdjustFrame(db: Db, admin: Id, key: string, a: Adjustment)
    ensures var after := Adjust(db, admin, key, a).0;
            && after == db.(users := after.users, ledger := after.ledger)
            && db.ledger <= after.ledger
  {
  }

  lemma UpsertFrame(db: Db, openid: string, newId: Id)
    requires UpsertUser(db, openid, newId).Ok?
    ensures var after := UpsertUser(db, openid, newId).value.0;
            after == db.(users := after.users, openids := after.openids)
  {
  }

  lemma AwardFrame(db: Db, user: Id, bonus: Int64)
    ensures var after := AwardBonus(db, user, bonus);
            after == db.(users := after.users, ledger := after.ledger) && db.ledger <= after.ledger
  {
  }

  lemma LoginFrame(db: Db, openid: string, bonus: Int64, newId: Id)
    ensures var after := UpsertByOpenID(db, openid, bonus, newId).0;
            && after == db.(users := after.users, openids := after.openids, ledger := after.ledger)
            && db.ledger <= after.ledger
  {
    if UpsertByOpenID(db, openid, bonus, newId).0 != db {
      UpsertFrame(db, Trim(openid), newId);
      var (db1, user) := UpsertUser(db, Trim(openid), newId).value;
      AwardFrame(db1, user, bonus);
    }
  }

  lemma {:induction false} AccountFrame(db: Db, s: Step)
    requires IsAccountStep(s)
    ensures Exec(db, s) == db.(users := Exec(db, s).users, openids := Exec(db, s).openids, ledger := Exec(db, s).ledger)
    ensures db.ledger <= Exec(db, s).ledger
  {
    match s
    case DoAdjust(admin, key, a) => AdjustFrame(db, admin, key, a);
    case DoLogin(openid, bonus, newId) => LoginFrame(db, openid, bonus, newId);
  }

  /** Only checkout, transitions and approvals touch orders. */
  lemma OrdersFrame(db: Db, s: Step)
    requires !IsOrderStep(s)
    ensures Exec(db, s).orders == db.orders
  {
    if IsAddressStep(s) {
      AddressFrame(db, s);
    } else if IsCartStep(s) {
      CartFrame(db, s);
    } else if IsProductStep(s) {
      ProductFrame(db, s);
    } else {
      AccountFrame(db, s);
    }
  }
}
