/** What holds at every point between lock steps: a transaction's locals agree
    with the committed rows it has locked, no two transactions hold the same
    row, and a step of one never disturbs the locked rows of another. */
module LockInvariant {
  import opened Base
  import opened EventKeys
  import opened Tables
  import opened Checkout
  import opened Lifecycle
  import opened Accounts
  import opened Invariants
  import opened Preservation
  import opened LoginRace
  import opened LockModel

  // ---------- facts about one transaction ----------

  /** `o` is the committed row of its id. */
  predicate IsCommitted(db: Db, o: Order) {
    FindOrder(db.orders, o.id).Some? && db.orders[FindOrder(db.orders, o.id).value] == o
  }

  predicate OrderFor(db: Db, id: Id, user: Id, token: string) {
    var i := FindOrder(db.orders, id);
    i.Some? && db.orders[i.value].user == user && db.orders[i.value].token == token
  }

  predicate RowFor(db: Db, row: LedgerRow, admin: Id, key: string, a: Adjustment) {
    var i := FindKey(db.ledger, AdminAdjust(admin, key));
    i.Some? && db.ledger[i.value] == row && row.hash == Some(ComputeAdjustHash(a))
  }

  /** User and address row are locked; `addr` is the address. */
  ghost predicate BuyerLocked(db: Db, user: Id, req: OrderRequest, addr: Address) {
    user in db.users && OwnsAddress(db, user, req.address) && db.addresses[req.address] == addr
  }

  function BuyerRows(user: Id, req: OrderRequest): set<Row> {
    {UserRow(user), AddrRow(req.address)}
  }

  ghost predicate CartLocked(db: Db, user: Id, ids: seq<Id>, cart: map<Id, CartItem>, next: nat) {
    && next <= |ids|
    && (forall c :: c in cart ==> c in ids[..next] && OwnsCartRow(db, user, c) && db.carts[c] == cart[c])
  }

  ghost predicate ProductsLocked(db: Db, ids: seq<Id>, prods: map<Id, Product>, next: nat) {
    && next <= |ids|
    && (forall i :: 0 <= i < next ==> ids[i] in prods)
    && (forall p :: p in prods ==> p in ids[..next] && p in db.products && db.products[p] == prods[p])
  }

  ghost predicate CreateOk(db: Db, tx: Tx)
    requires tx.CreateTx?
  {
    var ids := SortIds(tx.req.cartIds);
    && (!tx.cpc.CStart? && !tx.cpc.CDone? ==> CreateCallOk(tx.user, tx.token, tx.req))
    && match tx.cpc
       case CReplaying(o) =>
         tx.held == {OrderRow(o.id)} && IsCommitted(db, o) && o.user == tx.user && o.token == tx.token
       case CWantAddr => tx.held == {UserRow(tx.user)} && tx.user in db.users
       case CWantCart(addr, cart, next) =>
         && tx.held == BuyerRows(tx.user, tx.req) + CartRows(cart.Keys)
         && BuyerLocked(db, tx.user, tx.req, addr) && CartLocked(db, tx.user, ids, cart, next)
       case CRecheck(addr, cart) =>
         && tx.held == BuyerRows(tx.user, tx.req) + CartRows(cart.Keys)
         && BuyerLocked(db, tx.user, tx.req, addr) && CartLocked(db, tx.user, ids, cart, |ids|)
       case CWantProduct(addr, rows, prods, next) =>
         && tx.held == BuyerRows(tx.user, tx.req) + CartRows(IdSet(tx.req.cartIds)) + ProductRows(prods.Keys)
         && BuyerLocked(db, tx.user, tx.req, addr) && LockCart(db, tx.user, tx.req.cartIds) == Ok(rows)
         && ProductsLocked(db, SortIds(ProductIds(rows)), prods, next)
       case CBuilding(addr, rows, prods) =>
         && tx.held == BuyerRows(tx.user, tx.req) + CartRows(IdSet(tx.req.cartIds)) + ProductRows(prods.Keys)
         && BuyerLocked(db, tx.user, tx.req, addr) && LockCart(db, tx.user, tx.req.cartIds) == Ok(rows)
         && LockProducts(db.products, ProductIds(rows)) == Ok(prods)
       case CInserted(addr, rows, prods, w) =>
         && tx.held == BuyerRows(tx.user, tx.req) + CartRows(IdSet(tx.req.cartIds)) + ProductRows(prods.Keys)
                       + {TokenSlot(tx.user, tx.token), OrderRow(w.order.id), KeySlot(OrderPay(w.order.id))}
         && BuyerLocked(db, tx.user, tx.req, addr) && LockCart(db, tx.user, tx.req.cartIds) == Ok(rows)
         && LockProducts(db.products, ProductIds(rows)) == Ok(prods)
         && Build(db.users[tx.user], addr, rows, prods, tx.user, tx.token, tx.req, w.order.id) == Ok(w)
         && InsertError(db, w).None?
       case CDone(Created(id)) => tx.held == {} && OrderFor(db, id, tx.user, tx.token)
       case CDone(Replayed(id)) => tx.held == {} && OrderFor(db, id, tx.user, tx.token)
       case _ => tx.held == {}
  }

  ghost predicate MoveOk(db: Db, tx: Tx)
    requires tx.MoveTx?
  {
    match tx.mpc
    case MLocked(o) =>
      && tx.held == {OrderRow(tx.move.order)} && o.id == tx.move.order && IsCommitted(db, o)
      && CallError(tx.move).None? && LockOrder(db, Buyer(tx.move), tx.move.order).Ok?
    case _ => tx.held == {}
  }

  ghost predicate ApproveOk(db: Db, tx: Tx)
    requires tx.ApproveTx?
  {
    && (!tx.apc.AStart? && !tx.apc.ADone? ==> tx.admin != ZERO_ID && tx.order != ZERO_ID)
    && match tx.apc
       case AWantUser(o) =>
         tx.held == {OrderRow(tx.order)} && o.id == tx.order && IsCommitted(db, o) && o.status == RefundRequested
       case AWantProduct(o, next) =>
         && var ids := SortIds(ItemIds(o));
         && next <= |ids| && (forall i :: 0 <= i < next ==> ids[i] in db.products)
         && tx.held == {OrderRow(tx.order), UserRow(o.user)} + ProductRows(IdSet(ids[..next]))
         && o.id == tx.order && IsCommitted(db, o) && o.status == RefundRequested && o.user in db.users
       case ABuilding(o) =>
         && tx.held == {OrderRow(tx.order), UserRow(o.user)} + ProductRows(IdSet(ItemIds(o)))
         && (forall i :: 0 <= i < |o.items| ==> o.items[i].product in db.products)
         && o.id == tx.order && IsCommitted(db, o) && o.status == RefundRequested && o.user in db.users
       case _ => tx.held == {}
  }

  ghost predicate AdjustOk(db: Db, tx: Tx)
    requires tx.AdjustTx?
  {
    && (!tx.jpc.JStart? && !tx.jpc.JDone? ==> AdjustCallError(tx.admin, tx.key, tx.adjustment).None?)
    && match tx.jpc
       case JBuilding => tx.held == {UserRow(tx.adjustment.user)} && tx.adjustment.user in db.users
       case JInserted(row) =>
         && tx.held == {UserRow(tx.adjustment.user), KeySlot(row.key)}
         && AdjustFresh(db, tx.admin, tx.key, tx.adjustment) == Ok(row)
       case JDone(Posted(row)) => tx.held == {} && RowFor(db, row, tx.admin, tx.key, tx.adjustment)
       case JDone(PostReplayed(row)) => tx.held == {} && RowFor(db, row, tx.admin, tx.key, tx.adjustment)
       case _ => tx.held == {}
  }

  /** The call was answered with, or is about to answer with, the openid's buyer. */
  predicate BuyerOf(db: Db, openid: string, user: Id) {
    Trim(openid) in db.openids && db.openids[Trim(openid)] == user
  }

  /** A login of an existing buyer has found the signup row before it could think
      of awarding a second bonus. */
  ghost predicate LoginOk(db: Db, tx: Tx)
    requires tx.LoginTx?
  {
    match tx.lpc
    case LRead(user, _) =>
      && tx.held == {} && LoginCallOk(tx.openid, tx.bonus) && BuyerOf(db, tx.openid, user) && user in db.users
      && (tx.bonus > 0 && user != ZERO_ID ==> FindKey(db.ledger, Signup(user)).Some?)
    case LNew(user) =>
      && tx.held == {OpenidSlot(Trim(tx.openid)), UserRow(user), KeySlot(Signup(user))}
      && LoginCallOk(tx.openid, tx.bonus) && |Trim(tx.openid)| <= 64
      && Trim(tx.openid) !in db.openids && user !in db.users
    case LSlot(_) => false
    case LDone(LoggedIn(user, _)) => tx.held == {} && BuyerOf(db, tx.openid, user)
    case _ => tx.held == {}
  }

  ghost predicate TxOk(db: Db, tx: Tx) {
    match tx
    case CreateTx(_, _, _, _, _) => CreateOk(db, tx)
    case MoveTx(_, _, _) => MoveOk(db, tx)
    case ApproveTx(_, _, _, _) => ApproveOk(db, tx)
    case AdjustTx(_, _, _, _, _) => AdjustOk(db, tx)
    case LoginTx(_, _, _, _) => LoginOk(db, tx)
  }

  // ---------- the whole system ----------

  ghost predicate Exclusive(txs: map<nat, Tx>) {
    forall t, u :: t in txs && u in txs && t != u ==> txs[t].held !! txs[u].held
  }

  ghost predicate PostersOk(ledger: seq<LedgerRow>, txs: map<nat, Tx>, poster: map<EventKey, nat>) {
    && (forall k :: k in poster ==>
          FindKey(ledger, k).Some? && poster[k] in txs && EventOf(txs[poster[k]]) == Some(k))
    && (forall t :: t in txs && EventOf(txs[t]).Some? ==>
          EventOf(txs[t]).value in poster && poster[EventOf(txs[t]).value] == t)
  }

  ghost predicate EachTxOk(db: Db, txs: map<nat, Tx>) {
    forall t :: t in txs ==> TxOk(db, txs[t])
  }

  /** Every login offers the configured bonus, and every buyer has had it. */
  ghost predicate BonusOk(sys: Sys) {
    && (sys.bonus > 0 ==> SignupPosted(sys.db.users, sys.db.ledger))
    && forall t :: t in sys.txs && sys.txs[t].LoginTx? ==> sys.txs[t].bonus == sys.bonus
  }

  ghost predicate SysOk(sys: Sys) {
    && BonusOk(sys) && Inv(sys.db) && EachTxOk(sys.db, sys.txs) && Exclusive(sys.txs)
    && PostersOk(sys.db.ledger, sys.txs, sys.poster)
  }

  // ---------- frames ----------

  /** Orders, buyers and openids are never lost and keep their identity; the ledger
      only grows. */
  ghost predicate Grows(db: Db, after: Db) {
    && db.ledger <= after.ledger
    && db.users.Keys <= after.users.Keys
    && (forall o :: o in db.openids ==> o in after.openids && after.openids[o] == db.openids[o])
    && |db.orders| <= |after.orders|
    && (forall i :: 0 <= i < |db.orders| ==> SameOrder(db.orders[i], after.orders[i]))
  }

  lemma {:induction false} FindOrderGrows(a: seq<Order>, b: seq<Order>, id: Id)
    requires |a| <= |b| && forall i :: 0 <= i < |a| ==> b[i].id == a[i].id
    requires FindOrder(a, id).Some?
    ensures FindOrder(b, id) == FindOrder(a, id)
  {
    if |b| > |a| {
      FindOrderGrows(a, b[..|b| - 1], id);
    } else {
      var n := |a| - 1;
      if FindOrder(a[..n], id).Some? {
        FindOrderGrows(a[..n], b[..n], id);
      } else {
        forall j | 0 <= j < n ensures b[..n][j].id != id {
          assert b[j].id == a[j].id && a[..n][j].id != id;
        }
      }
    }
  }

  lemma {:induction false} FindKeyGrows(a: seq<LedgerRow>, b: seq<LedgerRow>, key: EventKey)
    requires a <= b && FindKey(a, key).Some?
    ensures FindKey(b, key) == FindKey(a, key)
  {
    if |b| > |a| {
      FindKeyGrows(a, b[..|b| - 1], key);
    } else {
      assert a == b;
    }
  }

  lemma OrderForStays(db: Db, after: Db, id: Id, user: Id, token: string)
    requires Grows(db, after) && OrderFor(db, id, user, token)
    ensures OrderFor(after, id, user, token)
  {
    FindOrderGrows(db.orders, after.orders, id);
  }

  lemma RowForStays(db: Db, after: Db, row: LedgerRow, admin: Id, key: string, a: Adjustment)
    requires Grows(db, after) && RowFor(db, row, admin, key, a)
    ensures RowFor(after, row, admin, key, a)
  {
    FindKeyGrows(db.ledger, after.ledger, AdminAdjust(admin, key));
  }

  lemma {:induction false} SelectCartSame(db: Db, after: Db, user: Id, ids: seq<Id>)
    requires forall i :: 0 <= i < |ids| ==> RowSame(db, after, CartRow(ids[i]))
    ensures SelectCart(after, user, ids) == SelectCart(db, user, ids)
  {
    if ids != [] {
      assert RowSame(db, after, CartRow(ids[0]));
      SelectCartSame(db, after, user, ids[1..]);
    }
  }

  lemma LockCartSame(db: Db, after: Db, user: Id, ids: seq<Id>)
    requires forall i :: 0 <= i < |ids| ==> RowSame(db, after, CartRow(ids[i]))
    ensures LockCart(after, user, ids) == LockCart(db, user, ids)
  {
    SortIdsFacts(ids);
    forall i | 0 <= i < |SortIds(ids)| ensures RowSame(db, after, CartRow(SortIds(ids)[i])) {
      assert SortIds(ids)[i] in ids;
    }
    SelectCartSame(db, after, user, SortIds(ids));
    forall i | 0 <= i < |ids| ensures OwnsCartRow(after, user, ids[i]) <==> OwnsCartRow(db, user, ids[i]) {
      assert RowSame(db, after, CartRow(ids[i]));
    }
  }

  lemma LockProductsSame(db: Db, after: Db, ids: seq<Id>, prods: map<Id, Product>)
    requires LockProducts(db.products, ids) == Ok(prods)
    requires forall p :: p in prods ==> RowSame(db, after, ProductRow(p))
    ensures LockProducts(after.products, ids) == Ok(prods)
  {
    forall i | 0 <= i < |ids| ensures ids[i] in after.products && after.products[ids[i]] == db.products[ids[i]] {
      assert ids[i] in prods;
      assert RowSame(db, after, ProductRow(ids[i]));
    }
    var again := LockProducts(after.products, ids).value;
    assert again.Keys == prods.Keys by {
      forall p | p in again ensures p in prods {
        assert p in ids;
      }
    }
    forall p | p in prods ensures again[p] == prods[p] {
      assert RowSame(db, after, ProductRow(p));
    }
    assert again == prods;
  }

  // ---------- a step elsewhere leaves this transaction's facts alone ----------

  lemma InsertErrorSame(db: Db, after: Db, w: Writes)
    requires RowSame(db, after, TokenSlot(w.order.user, w.order.token))
    requires RowSame(db, after, OrderRow(w.order.id)) && RowSame(db, after, KeySlot(w.row.key))
    ensures InsertError(after, w) == InsertError(db, w)
  {
  }

  lemma BuyerStays(db: Db, after: Db, user: Id, req: OrderRequest, addr: Address)
    requires BuyerLocked(db, user, req, addr) && SameRows(db, after, BuyerRows(user, req))
    ensures BuyerLocked(after, user, req, addr) && after.users[user] == db.users[user]
  {
    assert RowSame(db, after, UserRow(user)) && RowSame(db, after, AddrRow(req.address));
  }

  lemma CartStays(db: Db, after: Db, user: Id, ids: seq<Id>, cart: map<Id, CartItem>, next: nat)
    requires CartLocked(db, user, ids, cart, next) && SameRows(db, after, CartRows(cart.Keys))
    ensures CartLocked(after, user, ids, cart, next)
  {
    forall c | c in cart ensures OwnsCartRow(after, user, c) && after.carts[c] == cart[c] {
      assert CartRow(c) in CartRows(cart.Keys);
      assert RowSame(db, after, CartRow(c));
    }
  }

  lemma ProductsStay(db: Db, after: Db, ids: seq<Id>, prods: map<Id, Product>, next: nat)
    requires ProductsLocked(db, ids, prods, next) && SameRows(db, after, ProductRows(prods.Keys))
    ensures ProductsLocked(after, ids, prods, next)
  {
    forall p | p in prods ensures p in after.products && after.products[p] == prods[p] {
      assert ProductRow(p) in ProductRows(prods.Keys);
      assert RowSame(db, after, ProductRow(p));
    }
  }

  lemma LockedCartStays(db: Db, after: Db, user: Id, ids: seq<Id>)
    requires SameRows(db, after, CartRows(IdSet(ids)))
    ensures LockCart(after, user, ids) == LockCart(db, user, ids)
  {
    forall i | 0 <= i < |ids| ensures RowSame(db, after, CartRow(ids[i])) {
      assert CartRow(ids[i]) in CartRows(IdSet(ids));
    }
    LockCartSame(db, after, user, ids);
  }

  lemma LockedProductsStay(db: Db, after: Db, ids: seq<Id>, prods: map<Id, Product>)
    requires LockProducts(db.products, ids) == Ok(prods) && SameRows(db, after, ProductRows(prods.Keys))
    ensures LockProducts(after.products, ids) == Ok(prods)
  {
    forall p | p in prods ensures RowSame(db, after, ProductRow(p)) {
      assert ProductRow(p) in ProductRows(prods.Keys);
    }
    LockProductsSame(db, after, ids, prods);
  }

  lemma SameRowsWithin(db: Db, after: Db, rows: set<Row>, part: set<Row>)
    requires SameRows(db, after, rows) && part <= rows
    ensures SameRows(db, after, part)
  {
  }

  lemma BuildingStays(db: Db, after: Db, tx: Tx, addr: Address, rows: seq<CartItem>, prods: map<Id, Product>)
    requires tx.CreateTx? && BuyerLocked(db, tx.user, tx.req, addr)
    requires LockCart(db, tx.user, tx.req.cartIds) == Ok(rows)
    requires LockProducts(db.products, ProductIds(rows)) == Ok(prods)
    requires BuyerRows(tx.user, tx.req) + CartRows(IdSet(tx.req.cartIds)) + ProductRows(prods.Keys) <= tx.held
    requires SameRows(db, after, tx.held)
    ensures BuyerLocked(after, tx.user, tx.req, addr) && after.users[tx.user] == db.users[tx.user]
    ensures LockCart(after, tx.user, tx.req.cartIds) == Ok(rows)
    ensures LockProducts(after.products, ProductIds(rows)) == Ok(prods)
  {
    SameRowsWithin(db, after, tx.held, BuyerRows(tx.user, tx.req));
    SameRowsWithin(db, after, tx.held, CartRows(IdSet(tx.req.cartIds)));
    SameRowsWithin(db, after, tx.held, ProductRows(prods.Keys));
    BuyerStays(db, after, tx.user, tx.req, addr);
    LockedCartStays(db, after, tx.user, tx.req.cartIds);
    LockedProductsStay(db, after, ProductIds(rows), prods);
  }

  lemma CartPhaseStays(db: Db, after: Db, tx: Tx, addr: Address, cart: map<Id, CartItem>, next: nat)
    requires tx.CreateTx? && BuyerLocked(db, tx.user, tx.req, addr)
    requires CartLocked(db, tx.user, SortIds(tx.req.cartIds), cart, next)
    requires BuyerRows(tx.user, tx.req) + CartRows(cart.Keys) <= tx.held
    requires SameRows(db, after, tx.held)
    ensures BuyerLocked(after, tx.user, tx.req, addr)
    ensures CartLocked(after, tx.user, SortIds(tx.req.cartIds), cart, next)
  {
    SameRowsWithin(db, after, tx.held, BuyerRows(tx.user, tx.req));
    SameRowsWithin(db, after, tx.held, CartRows(cart.Keys));
    BuyerStays(db, after, tx.user, tx.req, addr);
    CartStays(db, after, tx.user, SortIds(tx.req.cartIds), cart, next);
  }

  lemma ProductPhaseStays(db: Db, after: Db, tx: Tx, addr: Address, rows: seq<CartItem>, prods: map<Id, Product>,
      next: nat)
    requires tx.CreateTx? && BuyerLocked(db, tx.user, tx.req, addr)
    requires LockCart(db, tx.user, tx.req.cartIds) == Ok(rows)
    requires ProductsLocked(db, SortIds(ProductIds(rows)), prods, next)
    requires BuyerRows(tx.user, tx.req) + CartRows(IdSet(tx.req.cartIds)) + ProductRows(prods.Keys) <= tx.held
    requires SameRows(db, after, tx.held)
    ensures BuyerLocked(after, tx.user, tx.req, addr)
    ensures LockCart(after, tx.user, tx.req.cartIds) == Ok(rows)
    ensures ProductsLocked(after, SortIds(ProductIds(rows)), prods, next)
  {
    SameRowsWithin(db, after, tx.held, BuyerRows(tx.user, tx.req));
    SameRowsWithin(db, after, tx.held, CartRows(IdSet(tx.req.cartIds)));
    SameRowsWithin(db, after, tx.held, ProductRows(prods.Keys));
    BuyerStays(db, after, tx.user, tx.req, addr);
    LockedCartStays(db, after, tx.user, tx.req.cartIds);
    ProductsStay(db, after, SortIds(ProductIds(rows)), prods, next);
  }

  lemma CreateStays(db: Db, after: Db, tx: Tx)
    requires tx.CreateTx? && CreateOk(db, tx) && Grows(db, after) && SameRows(db, after, tx.held)
    ensures CreateOk(after, tx)
  {
    match tx.cpc
    case CReplaying(o) => assert RowSame(db, after, OrderRow(o.id));
    case CWantAddr => assert RowSame(db, after, UserRow(tx.user));
    case CWantCart(addr, cart, next) => CartPhaseStays(db, after, tx, addr, cart, next);
    case CRecheck(addr, cart) => CartPhaseStays(db, after, tx, addr, cart, |SortIds(tx.req.cartIds)|);
    case CWantProduct(addr, rows, prods, next) => ProductPhaseStays(db, after, tx, addr, rows, prods, next);
    case CBuilding(addr, rows, prods) => BuildingStays(db, after, tx, addr, rows, prods);
    case CInserted(addr, rows, prods, w) => InsertedStays(db, after, tx);
    case CDone(Created(id)) => OrderForStays(db, after, id, tx.user, tx.token);
    case CDone(Replayed(id)) => OrderForStays(db, after, id, tx.user, tx.token);
    case _ =>
  }

  lemma {:induction false} InsertedStays(db: Db, after: Db, tx: Tx)
    requires tx.CreateTx? && tx.cpc.CInserted? && CreateOk(db, tx) && SameRows(db, after, tx.held)
    ensures CreateOk(after, tx)
  {
    var w := tx.cpc.writes;
    BuildingStays(db, after, tx, tx.cpc.addr, tx.cpc.rows, tx.cpc.prods);
    BuiltNames(db.users[tx.user], tx.cpc.addr, tx.cpc.rows, tx.cpc.prods, tx.user, tx.token, tx.req, w.order.id);
    assert RowSame(db, after, TokenSlot(tx.user, tx.token));
    assert RowSame(db, after, OrderRow(w.order.id));
    assert RowSame(db, after, KeySlot(OrderPay(w.order.id)));
    InsertErrorSame(db, after, w);
  }

  lemma BuiltNames(balance: int, addr: Address, rows: seq<CartItem>, prods: map<Id, Product>,
                   user: Id, token: string, req: OrderRequest, newId: Id)
    requires Build(balance, addr, rows, prods, user, token, req, newId).Ok?
    ensures var w := Build(balance, addr, rows, prods, user, token, req, newId).value;
            && w.user == user && w.order.id == newId && w.order.user == user && w.order.token == token
            && w.row.key == OrderPay(newId) && w.cartIds == IdSet(req.cartIds)
  {
  }

  lemma MoveStays(db: Db, after: Db, tx: Tx)
    requires tx.MoveTx? && MoveOk(db, tx) && SameRows(db, after, tx.held)
    ensures MoveOk(after, tx)
  {
    if tx.mpc.MLocked? {
      assert RowSame(db, after, OrderRow(tx.move.order));
    }
  }

  lemma ProductKeysStay(db: Db, after: Db, ids: seq<Id>)
    requires SameRows(db, after, ProductRows(IdSet(ids)))
    ensures forall i :: 0 <= i < |ids| ==> (ids[i] in after.products <==> ids[i] in db.products)
  {
    forall i | 0 <= i < |ids| ensures ids[i] in after.products <==> ids[i] in db.products {
      assert ProductRow(ids[i]) in ProductRows(IdSet(ids));
      assert RowSame(db, after, ProductRow(ids[i]));
    }
  }

  lemma ApproveStays(db: Db, after: Db, tx: Tx)
    requires tx.ApproveTx? && ApproveOk(db, tx) && SameRows(db, after, tx.held)
    ensures ApproveOk(after, tx)
  {
    match tx.apc
    case AWantUser(o) => assert RowSame(db, after, OrderRow(tx.order));
    case AWantProduct(o, next) =>
      assert RowSame(db, after, OrderRow(tx.order)) && RowSame(db, after, UserRow(o.user));
      var done := SortIds(ItemIds(o))[..next];
      SameRowsWithin(db, after, tx.held, ProductRows(IdSet(done)));
      ProductKeysStay(db, after, done);
      assert forall i :: 0 <= i < next ==> done[i] == SortIds(ItemIds(o))[i];
    case ABuilding(o) =>
      assert RowSame(db, after, OrderRow(tx.order)) && RowSame(db, after, UserRow(o.user));
      SameRowsWithin(db, after, tx.held, ProductRows(IdSet(ItemIds(o))));
      ProductKeysStay(db, after, ItemIds(o));
      assert forall i :: 0 <= i < |o.items| ==> ItemIds(o)[i] == o.items[i].product;
    case _ =>
  }

  lemma AdjustStays(db: Db, after: Db, tx: Tx)
    requires tx.AdjustTx? && AdjustOk(db, tx) && Grows(db, after) && SameRows(db, after, tx.held)
    ensures AdjustOk(after, tx)
  {
    match tx.jpc
    case JBuilding => assert RowSame(db, after, UserRow(tx.adjustment.user));
    case JInserted(row) =>
      assert RowSame(db, after, UserRow(tx.adjustment.user)) && RowSame(db, after, KeySlot(row.key));
    case JDone(Posted(row)) => RowForStays(db, after, row, tx.admin, tx.key, tx.adjustment);
    case JDone(PostReplayed(row)) => RowForStays(db, after, row, tx.admin, tx.key, tx.adjustment);
    case _ =>
  }

  lemma LoginStays(db: Db, after: Db, tx: Tx)
    requires tx.LoginTx? && LoginOk(db, tx) && Grows(db, after) && SameRows(db, after, tx.held)
    ensures LoginOk(after, tx)
  {
    match tx.lpc
    case LRead(user, _) =>
      if FindKey(db.ledger, Signup(user)).Some? {
        FindKeyGrows(db.ledger, after.ledger, Signup(user));
      }
    case LNew(user) =>
      assert RowSame(db, after, OpenidSlot(Trim(tx.openid))) && RowSame(db, after, UserRow(user));
    case _ =>
  }

  lemma TxStays(db: Db, after: Db, tx: Tx)
    requires TxOk(db, tx) && Grows(db, after) && SameRows(db, after, tx.held)
    ensures TxOk(after, tx)
  {
    match tx
    case CreateTx(_, _, _, _, _) => CreateStays(db, after, tx);
    case MoveTx(_, _, _) => MoveStays(db, after, tx);
    case ApproveTx(_, _, _, _) => ApproveStays(db, after, tx);
    case AdjustTx(_, _, _, _, _) => AdjustStays(db, after, tx);
    case LoginTx(_, _, _, _) => LoginStays(db, after, tx);
  }
}
