/** Every step keeps the invariant, so every run from a good state ends in one. */
module Preservation {
  import opened Base
  import opened EventKeys
  import opened Tables
  import opened Checkout
  import opened Lifecycle
  import opened Accounts
  import opened Catalog
  import opened Runs
  import opened Invariants

  // ---------- checkout ----------

  lemma AppendOrderKeepsOrders(orders: seq<Order>, users: map<Id, int>, o: Order)
    requires EachOrderOk(orders, users) && OrdersUnique(orders)
    requires OrderOk(o) && o.user in users
    requires FindOrder(orders, o.id).None? && FindToken(orders, o.user, o.token).None?
    ensures EachOrderOk(orders + [o], users) && OrdersUnique(orders + [o])
  {
  }

  lemma NoRefundWithoutOrder(orders: seq<Order>, ledger: seq<LedgerRow>, id: Id)
    requires RowsHaveOrders(orders, ledger) && FindOrder(orders, id).None?
    ensures FindKey(ledger, OrderRefund(id)).None?
  {
    forall j | 0 <= j < |ledger| ensures ledger[j].key != OrderRefund(id) {
      assert RowHasOrder(orders, ledger[j]);
    }
  }

  lemma AppendOrderKeepsPosted(orders: seq<Order>, ledger: seq<LedgerRow>, o: Order, row: LedgerRow)
    requires OrdersPosted(orders, ledger) && RowsHaveOrders(orders, ledger)
    requires FindOrder(orders, o.id).None? && FindKey(ledger, OrderPay(o.id)).None? && o.status == Paid
    requires row.key == OrderPay(o.id) && row.user == o.user && row.delta == -o.total && row.order == Some(o.id)
    ensures OrdersPosted(orders + [o], ledger + [row]) && RowsHaveOrders(orders + [o], ledger + [row])
  {
    var orders', ledger' := orders + [o], ledger + [row];
    forall i | 0 <= i < |orders'| ensures OrderPosted(ledger', orders'[i]) {
      if i < |orders| {
        PostKeepsPosted(orders, ledger, row, orders[i]);
      } else {
        FindKeyAppend(ledger, row, OrderPay(o.id));
        FindKeyAppend(ledger, row, OrderRefund(o.id));
        NoRefundWithoutOrder(orders, ledger, o.id);
      }
    }
    forall j | 0 <= j < |ledger'| ensures RowHasOrder(orders', ledger'[j]) {
      if j < |ledger| {
        assert RowHasOrder(orders, ledger[j]);
        if ledger[j].key.OrderPay? || ledger[j].key.OrderRefund? {
          FindOrderAppend(orders, o, ledger[j].key.order);
        }
      } else {
        FindOrderAppend(orders, o, o.id);
      }
    }
  }

  lemma TakingKeepsShelves(db: Db, after: Db, user: Id, req: OrderRequest, w: Writes)
    requires CartsOk(db) && ProductsOk(db) && CheckoutTakes(db, user, req, w)
    requires after.carts == db.carts - w.cartIds && after.products == db.products + w.products
    ensures CartsOk(after) && ProductsOk(after)
  {
    assert after.products.Keys == db.products.Keys;
  }

  lemma {:induction false} CheckoutKeeps(db: Db, user: Id, token: string, req: OrderRequest, newId: Id, w: Writes)
    requires Inv(db) && user in db.users
    requires CheckoutPosts(db.users[user], user, token, req, newId, w)
    requires CheckoutTakes(db, user, req, w) && CheckoutFresh(db, user, token, newId)
    ensures Inv(ApplyWrites(db, w))
  {
    var after := ApplyWrites(db, w);
    PostKeepsLedger(db, after, w.row);
    AppendOrderKeepsOrders(db.orders, db.users, w.order);
    assert after.users.Keys == db.users.Keys;
    AppendOrderKeepsPosted(db.orders, db.ledger, w.order, w.row);
    TakingKeepsShelves(db, after, user, req, w);
  }

  lemma {:induction false} CreateKeeps(db: Db, user: Id, token: string, req: OrderRequest, newId: Id)
    requires Inv(db)
    ensures Inv(CreateOrder(db, user, token, req, newId).0)
  {
    if CreateOrder(db, user, token, req, newId).0 != db {
      CheckoutFacts(db, user, token, req, newId);
      CheckoutKeeps(db, user, token, req, newId, CreateFresh(db, user, token, req, newId).value);
    }
  }

  // ---------- changes to one order row ----------

  /** What a lifecycle step may not change about an order. */
  predicate SameOrder(o: Order, p: Order) {
    && p.id == o.id && p.user == o.user && p.token == o.token
    && p.hash == o.hash && p.total == o.total && p.items == o.items
  }

  lemma UpdateOrderKeepsOrders(orders: seq<Order>, users: map<Id, int>, i: nat, o: Order)
    requires EachOrderOk(orders, users) && OrdersUnique(orders) && i < |orders|
    requires SameOrder(orders[i], o) && StampsOk(o)
    ensures EachOrderOk(orders[i := o], users) && OrdersUnique(orders[i := o])
  {
    assert OrderOk(orders[i]);
  }

  lemma UpdateOrderKeepsRows(orders: seq<Order>, ledger: seq<LedgerRow>, i: nat, o: Order)
    requires i < |orders| && o.id == orders[i].id
    requires RowsHaveOrders(orders, ledger)
    ensures RowsHaveOrders(orders[i := o], ledger)
  {
    forall j | 0 <= j < |ledger| ensures RowHasOrder(orders[i := o], ledger[j]) {
      assert RowHasOrder(orders, ledger[j]);
      if ledger[j].key.OrderPay? || ledger[j].key.OrderRefund? {
        FindOrderUpdate(orders, i, o, ledger[j].key.order);
      }
    }
  }

  lemma TransitionFacts(o: Order, c: OrderCall)
    requires Transition(o, c).Ok? && StampsOk(o)
    ensures var p := Transition(o, c).value;
            SameOrder(o, p) && StampsOk(p) && p.status != Refunded && o.status != Refunded
  {
  }

  lemma {:induction false} MoveKeeps(db: Db, c: OrderCall)
    requires Inv(db)
    ensures Inv(Move(db, c).0)
  {
    if Move(db, c).0 != db {
      var i := LockOrder(db, Buyer(c), c.order).value;
      assert OrderOk(db.orders[i]) && OrderPosted(db.ledger, db.orders[i]);
      TransitionFacts(db.orders[i], c);
      var o := Transition(db.orders[i], c).value;
      UpdateOrderKeepsOrders(db.orders, db.users, i, o);
      UpdateOrderKeepsRows(db.orders, db.ledger, i, o);
    }
  }

  // ---------- refund approval ----------

  /** What a successful approval of `o` writes. */
  ghost predicate Refunds(db: Db, o: Order, admin: Id, r: Refund) {
    && o.user in db.users && o.status == RefundRequested
    && r.order == RefundedOrder(o, admin) && StampsOk(r.order)
    && r.balance == db.users[o.user] + o.total && r.balance <= MAX64
    && r.row == LedgerRow(o.user, Some(o.id), OrderRefund(o.id), None, o.total, r.balance, Some(admin), "")
    && FindKey(db.ledger, OrderRefund(o.id)).None?
    && r.products.Keys == db.products.Keys
    && forall p :: p in db.products ==>
         && r.products[p] == db.products[p].(stock := db.products[p].stock + Units(LinesOfItems(o.items), p))
         && 0 <= r.products[p].stock <= MAX32
  }

  lemma ApproveFacts(db: Db, o: Order, admin: Id)
    requires BalancesOk(db.users, db.ledger) && ProductsOk(db) && OrderOk(o)
    requires ApproveFresh(db, o, admin).Ok?
    ensures Refunds(db, o, admin, ApproveFresh(db, o, admin).value)
  {
    assert BalanceOk(db.users, db.ledger, o.user);
    AdjustedExactly(db.users[o.user], o.total);
    IncrementAllEffect(db.products, LinesOfItems(o.items));
    IncrementAllInRange(db.products, LinesOfItems(o.items));
  }

  lemma RefundKeepsPosted(orders: seq<Order>, ledger: seq<LedgerRow>, i: nat, o: Order, row: LedgerRow)
    requires OrdersUnique(orders) && i < |orders| && SameOrder(orders[i], o) && o.status == Refunded
    requires OrdersPosted(orders, ledger)
    requires row.key == OrderRefund(o.id) && row.user == o.user && row.delta == o.total
    requires FindKey(ledger, row.key).None?
    ensures OrdersPosted(orders[i := o], ledger + [row])
  {
    var orders', ledger' := orders[i := o], ledger + [row];
    forall k | 0 <= k < |orders'| ensures OrderPosted(ledger', orders'[k]) {
      assert OrderPosted(ledger, orders[k]);
      if k == i {
        FindKeyAppend(ledger, row, OrderPay(o.id));
        FindKeyAppend(ledger, row, OrderRefund(o.id));
      } else {
        assert orders[k].id != orders[i].id;
        PostKeepsPosted(orders, ledger, row, orders[k]);
      }
    }
  }

  lemma RefundKeepsRows(orders: seq<Order>, ledger: seq<LedgerRow>, i: nat, o: Order, row: LedgerRow)
    requires OrdersUnique(orders) && i < |orders| && SameOrder(orders[i], o)
    requires RowsHaveOrders(orders, ledger) && row.key == OrderRefund(o.id) && row.order == Some(o.id)
    ensures RowsHaveOrders(orders[i := o], ledger + [row])
  {
    UpdateOrderKeepsRows(orders, ledger, i, o);
    FoundAt(orders, i);
    FindOrderUpdate(orders, i, o, o.id);
    var orders', ledger' := orders[i := o], ledger + [row];
    forall j | 0 <= j < |ledger'| ensures RowHasOrder(orders', ledger'[j]) {
      if j < |ledger| {
        assert RowHasOrder(orders', ledger[j]);
      }
    }
  }

  lemma RefundKeepsLedger(db: Db, i: nat, admin: Id, r: Refund)
    requires LedgerOk(db) && i < |db.orders| && OrderOk(db.orders[i]) && Refunds(db, db.orders[i], admin, r)
    ensures LedgerOk(ApplyRefund(db, i, r))
  {
    assert BalanceOk(db.users, db.ledger, r.row.user);
    PostKeepsLedger(db, ApplyRefund(db, i, r), r.row);
  }

  lemma RefundKeepsOrders(db: Db, i: nat, admin: Id, r: Refund)
    requires OrdersOk(db) && i < |db.orders| && Refunds(db, db.orders[i], admin, r)
    ensures OrdersOk(ApplyRefund(db, i, r))
  {
    var after := ApplyRefund(db, i, r);
    UpdateOrderKeepsOrders(db.orders, db.users, i, r.order);
    assert after.users.Keys == db.users.Keys;
    assert EachOrderOk(after.orders, after.users);
  }

  lemma RefundKeepsShelves(db: Db, i: nat, admin: Id, r: Refund)
    requires CartsOk(db) && ProductsOk(db) && LoginsOk(db)
    requires i < |db.orders| && Refunds(db, db.orders[i], admin, r)
    ensures var after := ApplyRefund(db, i, r); CartsOk(after) && ProductsOk(after) && LoginsOk(after)
  {
    assert ApplyRefund(db, i, r).products == r.products;
  }

  lemma {:induction false} RefundKeeps(db: Db, i: nat, admin: Id, r: Refund)
    requires Inv(db) && i < |db.orders| && OrderOk(db.orders[i]) && Refunds(db, db.orders[i], admin, r)
    ensures Inv(ApplyRefund(db, i, r))
  {
    RefundKeepsLedger(db, i, admin, r);
    RefundKeepsOrders(db, i, admin, r);
    RefundKeepsPosted(db.orders, db.ledger, i, r.order, r.row);
    RefundKeepsRows(db.orders, db.ledger, i, r.order, r.row);
    RefundKeepsShelves(db, i, admin, r);
  }

  lemma {:induction false} ApproveKeeps(db: Db, admin: Id, id: Id)
    requires Inv(db)
    ensures Inv(Approve(db, admin, id).0)
  {
    if Approve(db, admin, id).0 != db {
      var i := LockOrder(db, None, id).value;
      assert OrderOk(db.orders[i]);
      ApproveFacts(db, db.orders[i], admin);
      RefundKeeps(db, i, admin, ApproveFresh(db, db.orders[i], admin).value);
    }
  }

  // ---------- adjustments and logins ----------

  lemma {:induction false} PostKeepsInv(db: Db, row: LedgerRow)
    requires Inv(db)
    requires row.user in db.users && LedgerRowChecks(row) && FindKey(db.ledger, row.key).None?
    requires row.balanceAfter == db.users[row.user] + row.delta && row.balanceAfter <= MAX64
    requires row.key.AdminAdjust? || row.key.Signup?
    ensures Inv(PostRow(db, row))
  {
    var after := PostRow(db, row);
    PostKeepsLedger(db, after, row);
    assert after.users.Keys == db.users.Keys;
    forall i | 0 <= i < |db.orders| ensures OrderPosted(after.ledger, db.orders[i]) {
      PostKeepsPosted(db.orders, db.ledger, row, db.orders[i]);
    }
  }

  lemma AdjustFacts(db: Db, admin: Id, key: string, a: Adjustment)
    requires BalancesOk(db.users, db.ledger) && AdjustFresh(db, admin, key, a).Ok?
    ensures var row := AdjustFresh(db, admin, key, a).value;
            && a.user in db.users
            && row == LedgerRow(a.user, None, AdminAdjust(admin, key), Some(ComputeAdjustHash(a)),
                                a.delta, db.users[a.user] + a.delta, Some(admin), Trim(a.remark))
            && 0 <= row.balanceAfter <= MAX64 && LedgerRowChecks(row)
            && FindKey(db.ledger, row.key).None?
  {
    assert BalanceOk(db.users, db.ledger, a.user);
    AdjustedExactly(db.users[a.user], a.delta);
  }

  lemma {:induction false} AdjustKeeps(db: Db, admin: Id, key: string, a: Adjustment)
    requires Inv(db)
    ensures Inv(Adjust(db, admin, key, a).0)
  {
    if Adjust(db, admin, key, a).0 != db {
      AdjustFacts(db, admin, key, a);
      PostKeepsInv(db, AdjustFresh(db, admin, key, a).value);
    }
  }

  lemma {:induction false} NoRowsNoSum(ledger: seq<LedgerRow>, u: Id)
    requires forall i :: 0 <= i < |ledger| ==> ledger[i].user != u
    ensures SumDeltas(ledger, u) == 0
  {
    if ledger != [] {
      NoRowsNoSum(ledger[..|ledger| - 1], u);
    }
  }

  lemma NewUserKeepsLedger(users: map<Id, int>, ledger: seq<LedgerRow>, u: Id)
    requires RowsOk(users, ledger) && BalancesOk(users, ledger) && u !in users
    ensures RowsOk(users[u := 0], ledger) && BalancesOk(users[u := 0], ledger)
  {
    forall i | 0 <= i < |ledger| ensures RowOk(users[u := 0], ledger, i) && ledger[i].user != u {
      assert RowOk(users, ledger, i);
    }
    NoRowsNoSum(ledger, u);
    var users' := users[u := 0];
    forall v | v in users' ensures BalanceOk(users', ledger, v) {
      if v in users {
        assert BalanceOk(users, ledger, v);
      }
    }
  }

  lemma UpsertKeeps(db: Db, openid: string, newId: Id)
    requires Inv(db) && UpsertUser(db, openid, newId).Ok?
    ensures Inv(UpsertUser(db, openid, newId).value.0)
    ensures UpsertUser(db, openid, newId).value.1 in UpsertUser(db, openid, newId).value.0.users
  {
    if openid !in db.openids {
      NewUserKeepsLedger(db.users, db.ledger, newId);
    }
  }

  lemma LoginKeeps(db: Db, openid: string, bonus: Int64, newId: Id)
    requires Inv(db)
    ensures Inv(UpsertByOpenID(db, openid, bonus, newId).0)
  {
    if UpsertByOpenID(db, openid, bonus, newId).0 != db {
      UpsertKeeps(db, Trim(openid), newId);
      var (db1, user) := UpsertUser(db, Trim(openid), newId).value;
      if db1.users[user] == 0 && bonus > 0 && user != ZERO_ID && FindKey(db1.ledger, Signup(user)).None? {
        PostKeepsInv(db1, BonusRow(user, bonus));
      }
    }
  }

  // ---------- catalogue steps ----------

  lemma ClearDefaultKeeps(addresses: map<Id, Address>, user: Id, except: Id)
    requires AddressesOk(addresses)
    ensures AddressesOk(ClearDefault(addresses, user, except))
    ensures ClearDefault(addresses, user, except).Keys == addresses.Keys
  {
  }

  lemma PutAddressKeeps(addresses: map<Id, Address>, id: Id, row: Address)
    requires AddressesOk(addresses) && 1 <= row.version <= MAX64
    requires row.isDefault ==> !DefaultTaken(addresses, row.user, id)
    ensures AddressesOk(addresses[id := row])
  {
  }

  lemma AddressStepKeeps(db: Db, addresses: map<Id, Address>)
    requires Inv(db) && AddressesOk(addresses)
    ensures Inv(db.(addresses := addresses))
  {
  }

  lemma CreateAddressKeeps(db: Db, user: Id, snap: Snapshot, isDefault: bool, newId: Id)
    requires Inv(db)
    ensures Inv(CreateAddress(db, user, snap, isDefault, newId).0)
  {
    var after := CreateAddress(db, user, snap, isDefault, newId).0;
    if after != db {
      ClearDefaultKeeps(db.addresses, user, ZERO_ID);
      var cleared := if isDefault then ClearDefault(db.addresses, user, ZERO_ID) else db.addresses;
      PutAddressKeeps(cleared, newId, Address(user, Trimmed(snap), isDefault, 1));
      AddressStepKeeps(db, after.addresses);
    }
  }

  lemma UpdateAddressKeeps(db: Db, user: Id, id: Id, u: AddressUpdate)
    requires Inv(db)
    ensures Inv(UpdateAddress(db, user, id, u).0)
  {
    var after := UpdateAddress(db, user, id, u).0;
    if after != db {
      var flips := u.isDefault.Some? && u.isDefault.value != db.addresses[id].isDefault;
      ClearDefaultKeeps(db.addresses, user, id);
      var cleared := if flips && u.isDefault.value then ClearDefault(db.addresses, user, id) else db.addresses;
      PutAddressKeeps(cleared, id, UpdateAddress(db, user, id, u).1.value);
      AddressStepKeeps(db, after.addresses);
    }
  }

  lemma DeleteAddressKeeps(db: Db, user: Id, id: Id)
    requires Inv(db)
    ensures Inv(DeleteAddress(db, user, id).0)
  {
    AddressStepKeeps(db, DeleteAddress(db, user, id).0.addresses);
  }

  lemma CartStepKeeps(db: Db, carts: map<Id, CartItem>)
    requires Inv(db) && CartsOk(db.(carts := carts))
    ensures Inv(db.(carts := carts))
  {
  }

  lemma NewCartRowKeeps(db: Db, id: Id, item: CartItem)
    requires CartsOk(db) && 0 < item.quantity <= MAX32 && item.product in db.products
    requires forall c :: c in db.carts ==> !IsCartRow(db, item.user, item.product, c)
    ensures CartsOk(db.(carts := db.carts[id := item]))
  {
    assert forall c :: c in db.carts ==> db.carts[c].user != item.user || db.carts[c].product != item.product by {
      forall c | c in db.carts ensures db.carts[c].user != item.user || db.carts[c].product != item.product {
        assert !IsCartRow(db, item.user, item.product, c);
      }
    }
  }

  lemma AddToCartKeeps(db: Db, user: Id, product: Id, quantity: Int32, newId: Id)
    requires Inv(db)
    ensures Inv(AddToCart(db, user, product, quantity, newId).0)
  {
    var after := AddToCart(db, user, product, quantity, newId).0;
    if after != db {
      if !exists id :: id in db.carts && IsCartRow(db, user, product, id) {
        NewCartRowKeeps(db, newId, CartItem(user, product, quantity));
      }
      CartStepKeeps(db, after.carts);
    }
  }

  lemma UpdateCartKeeps(db: Db, user: Id, id: Id, quantity: Int32)
    requires Inv(db)
    ensures Inv(UpdateCart(db, user, id, quantity).0)
  {
    if UpdateCart(db, user, id, quantity).0 != db {
      CartStepKeeps(db, UpdateCart(db, user, id, quantity).0.carts);
    }
  }

  lemma DeleteFromCartKeeps(db: Db, user: Id, id: Id)
    requires Inv(db)
    ensures Inv(DeleteFromCart(db, user, id).0)
  {
    CartStepKeeps(db, DeleteFromCart(db, user, id).0.carts);
  }

  lemma ProductStepKeeps(db: Db, products: map<Id, Product>)
    requires Inv(db) && ProductsOk(db.(products := products)) && db.products.Keys <= products.Keys
    ensures Inv(db.(products := products))
  {
    assert forall p :: p in db.products ==> p in products;
  }

  // ---------- every step, every run ----------

  lemma {:induction false} OrderStepKeeps(db: Db, s: Step)
    requires Inv(db) && IsOrderStep(s)
    ensures Inv(Exec(db, s))
  {
    match s
    case DoCreate(user, token, req, newId) => CreateKeeps(db, user, token, req, newId);
    case DoMove(call) => MoveKeeps(db, call);
    case DoApprove(admin, order) => ApproveKeeps(db, admin, order);
  }

  lemma AccountStepKeeps(db: Db, s: Step)
    requires Inv(db) && IsAccountStep(s)
    ensures Inv(Exec(db, s))
  {
    match s
    case DoAdjust(admin, key, a) => AdjustKeeps(db, admin, key, a);
    case DoLogin(openid, bonus, newId) => LoginKeeps(db, openid, bonus, newId);
  }

  lemma {:induction false} AddressStepsKeep(db: Db, s: Step)
    requires Inv(db) && IsAddressStep(s)
    ensures Inv(Exec(db, s))
  {
    match s
    case DoCreateAddress(user, snap, isDefault, newId) => CreateAddressKeeps(db, user, snap, isDefault, newId);
    case DoUpdateAddress(user, id, u) => UpdateAddressKeeps(db, user, id, u);
    case DoDeleteAddress(user, id) => DeleteAddressKeeps(db, user, id);
  }

  lemma {:induction false} CartStepsKeep(db: Db, s: Step)
    requires Inv(db) && IsCartStep(s)
    ensures Inv(Exec(db, s))
  {
    match s
    case DoAddToCart(user, product, quantity, newId) => AddToCartKeeps(db, user, product, quantity, newId);
    case DoUpdateCart(user, id, quantity) => UpdateCartKeeps(db, user, id, quantity);
    case DoDeleteFromCart(user, id) => DeleteFromCartKeeps(db, user, id);
  }

  lemma CreateProductKeeps(db: Db, price: Int64, stock: Int32, onSale: bool, newId: Id)
    requires Inv(db)
    ensures Inv(CreateProduct(db, price, stock, onSale, newId).0)
  {
    ProductStepKeeps(db, CreateProduct(db, price, stock, onSale, newId).0.products);
  }

  lemma UpdateProductKeeps(db: Db, id: Id, price: Option<Int64>, stock: Option<Int32>, onSale: Option<bool>)
    requires Inv(db)
    ensures Inv(UpdateProduct(db, id, price, stock, onSale).0)
  {
    ProductStepKeeps(db, UpdateProduct(db, id, price, stock, onSale).0.products);
  }

  lemma ProductStepsKeep(db: Db, s: Step)
    requires Inv(db) && IsProductStep(s)
    ensures Inv(Exec(db, s))
  {
    match s
    case DoCreateProduct(price, stock, onSale, newId) => CreateProductKeeps(db, price, stock, onSale, newId);
    case DoUpdateProduct(id, price, stock, onSale) => UpdateProductKeeps(db, id, price, stock, onSale);
  }

  lemma ExecKeeps(db: Db, s: Step)
    requires Inv(db)
    ensures Inv(Exec(db, s))
  {
    if IsOrderStep(s) {
      OrderStepKeeps(db, s);
    } else if IsAccountStep(s) {
      AccountStepKeeps(db, s);
    } else if IsAddressStep(s) {
      AddressStepsKeep(db, s);
    } else if IsCartStep(s) {
      CartStepsKeep(db, s);
    } else {
      ProductStepsKeep(db, s);
    }
  }

  lemma {:induction false} RunKeeps(db: Db, steps: seq<Step>)
    requires Inv(db)
    ensures Inv(Run(db, steps))
  {
    if steps != [] {
      RunKeeps(db, steps[..|steps| - 1]);
      ExecKeeps(Run(db, steps[..|steps| - 1]), steps[|steps| - 1]);
    }
  }

  lemma EmptyDbIsGood()
    ensures Inv(EMPTY_DB)
  {
  }
}
