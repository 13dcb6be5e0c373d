/** The lock discipline by itself: which rows a call can hold at each point, in what
    order it takes them, and which new id it keeps busy. Nothing here depends on what
    the database holds. */
module LockOrder {
  import opened Base
  import opened EventKeys
  import opened Tables
  import opened Checkout
  import opened Lifecycle
  import opened Runs
  import opened Invariants
  import opened LockModel
  import opened LockInvariant
  import opened LockSteps
  import LockRuns

  // ---------- the global order ----------

  /** Order or ledger row and the slots a login begins with, buyer, address, cart
      rows by id, products by id, and last the slots of uncommitted unique entries. */
  function Class(row: Row): nat {
    match row
    case OrderRow(_) => 0
    case EventRow(_) => 0
    case UserRow(_) => 1
    case AddrRow(_) => 2
    case CartRow(_) => 3
    case ProductRow(_) => 4
    case TokenSlot(_, _) => 5
    case KeySlot(k) => if k.Signup? then 0 else 6
    case OpenidSlot(_) => 0
  }

  function Rank(row: Row): nat {
    Class(row) * UUID_SPACE +
    match row
    case CartRow(c) => c as nat
    case ProductRow(p) => p as nat
    case _ => 0
  }

  /** Everything held comes before what is wanted. */
  ghost predicate Ordered(held: set<Row>, wanted: Row) {
    forall r :: r in held ==> r == wanted || Rank(r) < Rank(wanted)
  }

  // ---------- what a call holds at each point ----------

  /** Besides `own`, rows of the classes from buyer up to but not including `top`. */
  ghost predicate Below(held: set<Row>, own: set<Row>, top: nat) {
    forall r :: r in held ==> r in own || 1 <= Class(r) < top
  }

  ghost predicate CartRowsUpTo(held: set<Row>, ids: seq<Id>, next: nat) {
    next <= |ids| && forall r :: r in held ==> 1 <= Class(r) < 3 || (r.CartRow? && r.cart in ids[..next])
  }

  ghost predicate ProductRowsUpTo(held: set<Row>, own: set<Row>, ids: seq<Id>, next: nat) {
    && next <= |ids|
    && forall r :: r in held ==> r in own || 1 <= Class(r) < 4 || (r.ProductRow? && r.product in ids[..next])
  }

  ghost predicate CreateHeldOk(tx: Tx)
    requires tx.CreateTx?
  {
    match tx.cpc
    case CReplaying(o) => tx.held <= {OrderRow(o.id)}
    case CWantAddr => Below(tx.held, {}, 2)
    case CWantCart(_, _, next) => CartRowsUpTo(tx.held, SortIds(tx.req.cartIds), next)
    case CRecheck(_, _) => Below(tx.held, {}, 4)
    case CWantProduct(_, rows, _, next) => ProductRowsUpTo(tx.held, {}, SortIds(ProductIds(rows)), next)
    case CBuilding(_, _, _) => Below(tx.held, {}, 5)
    case CInserted(_, _, _, w) => Below(tx.held, {OrderRow(w.order.id), KeySlot(OrderPay(w.order.id))}, 6)
    case _ => tx.held == {}
  }

  ghost predicate ApproveHeldOk(tx: Tx)
    requires tx.ApproveTx?
  {
    match tx.apc
    case AWantUser(_) => tx.held <= {OrderRow(tx.order)}
    case AWantProduct(o, next) => ProductRowsUpTo(tx.held, {OrderRow(tx.order)}, SortIds(ItemIds(o)), next)
    case ABuilding(_) => Below(tx.held, {OrderRow(tx.order)}, 5)
    case _ => tx.held == {}
  }

  ghost predicate HeldOk(tx: Tx) {
    match tx
    case CreateTx(_, _, _, _, _) => CreateHeldOk(tx)
    case MoveTx(move, pc, held) => if pc.MLocked? then held <= {OrderRow(move.order)} else held == {}
    case ApproveTx(_, _, _, _) => ApproveHeldOk(tx)
    case AdjustTx(admin, key, _, pc, held) =>
      (match pc
       case JBuilding => Below(held, {}, 2)
       case JInserted(_) => Below(held, {KeySlot(AdminAdjust(admin, key))}, 2)
       case _ => held == {})
    case LoginTx(openid, _, pc, held) =>
      (match pc
       case LSlot(user) => held <= {KeySlot(Signup(user))}
       case LNew(user) => held <= {OpenidSlot(Trim(openid)), UserRow(user), KeySlot(Signup(user))}
       case _ => held == {})
  }

  /** A buyer's row that a call has locked exists, or is the call's own new one. */
  ghost predicate UsersExist(users: map<Id, int>, tx: Tx) {
    forall u :: UserRow(u) in tx.held ==> u in users || (tx.LoginTx? && tx.lpc == LNew(u))
  }

  ghost predicate LockOk(db: Db, tx: Tx) {
    HeldOk(tx) && UsersExist(db.users, tx)
  }

  /** The discipline of the whole system, on any database and with any bonus. */
  ghost predicate LocksOk(sys: Sys) {
    Exclusive(sys.txs) && forall t :: t in sys.txs ==> LockOk(sys.db, sys.txs[t])
  }

  // ---------- what is wanted ranks above what is held ----------

  lemma CartRowsOrdered(held: set<Row>, ids: seq<Id>, next: nat)
    requires CartRowsUpTo(held, SortIds(ids), next) && next < |SortIds(ids)|
    ensures Ordered(held, CartRow(SortIds(ids)[next]))
  {
    var sorted := SortIds(ids);
    SortIdsFacts(ids);
    forall r | r in held ensures r == CartRow(sorted[next]) || Rank(r) < Rank(CartRow(sorted[next])) {
      if r.CartRow? {
        var i :| 0 <= i < next && sorted[i] == r.cart;
        assert IdKey(sorted[i]) <= IdKey(sorted[next]);
      }
    }
  }

  lemma ProductRowsOrdered(held: set<Row>, own: set<Row>, ids: seq<Id>, next: nat)
    requires ProductRowsUpTo(held, own, SortIds(ids), next) && next < |SortIds(ids)|
    requires forall r :: r in own ==> Class(r) == 0
    ensures Ordered(held, ProductRow(SortIds(ids)[next]))
  {
    var sorted := SortIds(ids);
    SortIdsFacts(ids);
    forall r | r in held ensures r == ProductRow(sorted[next]) || Rank(r) < Rank(ProductRow(sorted[next])) {
      if r.ProductRow? {
        var i :| 0 <= i < next && sorted[i] == r.product;
        assert IdKey(sorted[i]) <= IdKey(sorted[next]);
      }
    }
  }

  lemma CreateOrdered(db: Db, tx: Tx)
    requires tx.CreateTx? && CreateHeldOk(tx) && CreateWants(db, tx).Some?
    ensures Ordered(tx.held, CreateWants(db, tx).value)
  {
    match tx.cpc
    case CWantCart(_, _, next) => CartRowsOrdered(tx.held, tx.req.cartIds, next);
    case CWantProduct(_, rows, _, next) => ProductRowsOrdered(tx.held, {}, ProductIds(rows), next);
    case _ =>
  }

  lemma ApproveOrdered(db: Db, tx: Tx)
    requires tx.ApproveTx? && ApproveHeldOk(tx) && ApproveWants(db, tx).Some?
    ensures Ordered(tx.held, ApproveWants(db, tx).value)
  {
    if tx.apc.AWantProduct? {
      ProductRowsOrdered(tx.held, {OrderRow(tx.order)}, ItemIds(tx.apc.current), tx.apc.next);
    }
  }

  /** The one rule behind deadlock freedom, for every call at every point. */
  lemma LockOrderKept(db: Db, tx: Tx)
    requires HeldOk(tx) && Wants(db, tx).Some?
    ensures Ordered(tx.held, Wants(db, tx).value)
  {
    match tx
    case CreateTx(_, _, _, _, _) => CreateOrdered(db, tx);
    case MoveTx(_, _, _) =>
    case ApproveTx(_, _, _, _) => ApproveOrdered(db, tx);
    case AdjustTx(_, _, _, _, _) =>
    case LoginTx(_, _, _, _) =>
  }

  lemma HolderUnfinished(tx: Tx)
    requires HeldOk(tx) && tx.held != {}
    ensures OutcomeOf(tx).None?
  {
  }

  // ---------- the discipline is kept ----------

  lemma CartStepHeld(db: Db, tx: Tx, addr: Address, cart: map<Id, CartItem>, next: nat)
    requires tx.CreateTx? && tx.cpc == CWantCart(addr, cart, next) && CreateHeldOk(tx)
    ensures var after := CartStep(db, tx, addr, cart, next);
            after.CreateTx? && CreateHeldOk(after)
  {
    var ids := SortIds(tx.req.cartIds);
    if next < |ids| {
      assert ids[..next + 1] == ids[..next] + [ids[next]];
    }
  }

  lemma ProductStepHeld(db: Db, tx: Tx, addr: Address, rows: seq<CartItem>, prods: map<Id, Product>, next: nat)
    requires tx.CreateTx? && tx.cpc == CWantProduct(addr, rows, prods, next) && CreateHeldOk(tx)
    ensures var after := ProductStep(db, tx, addr, rows, prods, next);
            after.CreateTx? && CreateHeldOk(after)
  {
    var ids := SortIds(ProductIds(rows));
    if next < |ids| {
      assert ids[..next + 1] == ids[..next] + [ids[next]];
    }
  }

  lemma InsertHeld(db: Db, tx: Tx, addr: Address, rows: seq<CartItem>, prods: map<Id, Product>, newId: Id)
    requires tx.CreateTx? && Below(tx.held, {}, 5)
    ensures var after := InsertStep(db, tx, addr, rows, prods, newId);
            after.CreateTx? && CreateHeldOk(after)
  {
    if tx.user in db.users && Build(db.users[tx.user], addr, rows, prods, tx.user, tx.token, tx.req, newId).Ok? {
      BuiltNames(db.users[tx.user], addr, rows, prods, tx.user, tx.token, tx.req, newId);
    }
  }

  lemma ReplayHeld(db: Db, tx: Tx, o: Order)
    requires tx.CreateTx?
    ensures DecideReplay(db, tx, o).CreateTx? && CreateHeldOk(DecideReplay(db, tx, o))
  {
  }

  lemma CreateStepHeldOk(db: Db, tx: Tx, newId: Id)
    requires tx.CreateTx? && CreateHeldOk(tx)
    ensures var after := CreateStep(db, tx, newId).0;
            after.CreateTx? && CreateHeldOk(after)
  {
    match tx.cpc
    case CReplaying(o) => ReplayHeld(db, tx, o);
    case CWantCart(addr, cart, next) => CartStepHeld(db, tx, addr, cart, next);
    case CRecheck(_, _) =>
      var found := FindToken(db.orders, tx.user, tx.token);
      if found.Some? {
        ReplayHeld(db, tx, db.orders[found.value]);
      }
    case CWantProduct(addr, rows, prods, next) => ProductStepHeld(db, tx, addr, rows, prods, next);
    case CBuilding(addr, rows, prods) => InsertHeld(db, tx, addr, rows, prods, newId);
    case _ =>
  }

  lemma ApproveStepHeldOk(db: Db, tx: Tx)
    requires tx.ApproveTx? && ApproveHeldOk(tx)
    ensures ApproveStep(db, tx).0.ApproveTx? && ApproveHeldOk(ApproveStep(db, tx).0)
  {
    if tx.apc.AWantProduct? {
      var ids, next := SortIds(ItemIds(tx.apc.current)), tx.apc.next;
      if next < |ids| {
        assert ids[..next + 1] == ids[..next] + [ids[next]];
      }
    }
  }

  lemma AdjustStepHeldOk(db: Db, tx: Tx)
    requires tx.AdjustTx? && HeldOk(tx)
    ensures HeldOk(AdjustStep(db, tx).0)
  {
  }

  lemma LoginStepHeldOk(db: Db, tx: Tx, newId: Id)
    requires tx.LoginTx? && HeldOk(tx)
    ensures HeldOk(LoginStep(db, tx, newId).0)
  {
  }

  lemma {:induction false} StepHeldOk(db: Db, tx: Tx, newId: Id)
    requires HeldOk(tx)
    ensures HeldOk(TxStep(db, tx, newId).0)
  {
    match tx
    case CreateTx(_, _, _, _, _) => CreateStepHeldOk(db, tx, newId);
    case MoveTx(_, _, _) =>
    case ApproveTx(_, _, _, _) => ApproveStepHeldOk(db, tx);
    case AdjustTx(_, _, _, _, _) => AdjustStepHeldOk(db, tx);
    case LoginTx(_, _, _, _) => LoginStepHeldOk(db, tx, newId);
  }

  lemma CreateUsersStay(db: Db, tx: Tx, newId: Id)
    requires tx.CreateTx?
    ensures db.users.Keys <= CreateStep(db, tx, newId).1.users.Keys
  {
  }

  lemma UsersStay(db: Db, tx: Tx, newId: Id)
    ensures db.users.Keys <= TxStep(db, tx, newId).1.users.Keys
  {
    match tx
    case CreateTx(_, _, _, _, _) => CreateUsersStay(db, tx, newId);
    case _ =>
  }

  lemma NewLoginEnds(db: Db, tx: Tx, newId: Id)
    requires tx.LoginTx? && tx.lpc.LNew?
    ensures TxStep(db, tx, newId).0.held == {}
  {
  }

  lemma NewLoginBegins(db: Db, tx: Tx, newId: Id)
    requires tx.LoginTx? && tx.lpc.LStart? && tx.held == {} && UserRow(newId) in TxStep(db, tx, newId).0.held
    ensures TxStep(db, tx, newId).0.LoginTx? && TxStep(db, tx, newId).0.lpc == LNew(newId)
  {
  }

  lemma WantedUserExists(db: Db, tx: Tx, u: Id)
    requires Wants(db, tx) == Some(UserRow(u))
    ensures u in db.users
  {
  }

  lemma {:induction false} StepUsersExist(db: Db, tx: Tx, newId: Id)
    requires LockOk(db, tx)
    ensures UsersExist(TxStep(db, tx, newId).1.users, TxStep(db, tx, newId).0)
  {
    var (after, db') := TxStep(db, tx, newId);
    StepHeld(db, tx, newId);
    UsersStay(db, tx, newId);
    forall u | UserRow(u) in after.held ensures u in db'.users || (after.LoginTx? && after.lpc == LNew(u)) {
      if UserRow(u) in tx.held {
        if u !in db.users {
          NewLoginEnds(db, tx, newId);
        }
      } else if UserRow(u) in WantedRows(db, tx) {
        WantedUserExists(db, tx, u);
      } else {
        assert UserRow(u) in InsertedRows(db, tx, newId);
        NewLoginBegins(db, tx, newId);
      }
    }
  }

  lemma AddressKeepsUsers(db: Db, s: Step)
    requires s.DoCreateAddress? || s.DoUpdateAddress? || s.DoDeleteAddress?
    ensures Exec(db, s).users == db.users
  {
  }

  lemma CatalogueKeepsUsers(db: Db, s: Step)
    requires s.DoAddToCart? || s.DoUpdateCart? || s.DoDeleteFromCart? || s.DoCreateProduct? || s.DoUpdateProduct?
    ensures Exec(db, s).users == db.users
  {
  }

  lemma EnvKeepsUsers(db: Db, s: Step)
    requires !IsOrderStep(s) && !s.DoAdjust?
    ensures db.users.Keys <= Exec(db, s).users.Keys
  {
    if s.DoLogin? {
      LoginKeepsUsers(db, s.openid, s.bonus, s.newId);
    } else if s.DoCreateAddress? || s.DoUpdateAddress? || s.DoDeleteAddress? {
      AddressKeepsUsers(db, s);
    } else {
      CatalogueKeepsUsers(db, s);
    }
  }

  lemma {:induction false} NextKeepsLocks(sys: Sys, tid: nat, newId: Id)
    requires LocksOk(sys) && CanStep(sys, tid) && IdleId(sys, newId)
    ensures LocksOk(After(sys, Next(tid, newId)))
  {
    var tx := sys.txs[tid];
    LockRuns.NextKeepsExclusive(sys, tid, newId);
    StepHeldOk(sys.db, tx, newId);
    StepUsersExist(sys.db, tx, newId);
    UsersStay(sys.db, tx, newId);
  }

  lemma QuietKeepsLocks(sys: Sys, tid: nat, tx: Tx)
    requires LocksOk(sys) && HeldOk(tx) && tx.held == {}
    ensures LocksOk(sys.(txs := sys.txs[tid := tx]))
  {
  }

  lemma {:induction false} LabelKeepsLocks(sys: Sys, l: Label)
    requires LocksOk(sys) && Enabled(sys, l)
    ensures LocksOk(After(sys, l))
  {
    match l
    case Begin(tid, tx) => QuietKeepsLocks(sys, tid, tx);
    case Next(tid, newId) => NextKeepsLocks(sys, tid, newId);
    case Abort(tid) => QuietKeepsLocks(sys, tid, Finish(sys.txs[tid], Failed(Aborted)));
    case Env(s) => EnvKeepsUsers(sys.db, s);
  }

  /** Every run keeps the discipline, whatever the database it starts from. */
  lemma {:induction false} RunKeepsLocks(sys: Sys, labels: seq<Label>)
    requires LocksOk(sys) && IsRun(sys, labels)
    ensures LocksOk(EndOf(sys, labels))
  {
    if labels != [] {
      var n := |labels| - 1;
      RunKeepsLocks(sys, labels[..n]);
      LabelKeepsLocks(EndOf(sys, labels[..n]), labels[n]);
    }
  }

  /** With nothing begun there is nothing to ask of the database or the bonus. */
  lemma IdleLocksOk(db: Db, bonus: Int64)
    ensures LocksOk(Idle(db, bonus))
  {
  }

  // ---------- a good system is a disciplined one ----------

  /** What the sets of a checkout are made of. */
  ghost predicate CheckoutRows(held: set<Row>, own: set<Row>, user: Id, carts: set<Id>, products: set<Id>) {
    forall r :: r in held ==>
      || r in own || r == UserRow(user) || r.AddrRow?
      || (r.CartRow? && r.cart in carts) || (r.ProductRow? && r.product in products)
  }

  lemma CartStageRows(db: Db, tx: Tx)
    requires tx.CreateTx? && CreateOk(db, tx) && (tx.cpc.CWantCart? || tx.cpc.CRecheck?)
    ensures CheckoutRows(tx.held, {}, tx.user, tx.cpc.cart.Keys, {}) && tx.user in db.users
    ensures tx.cpc.CWantCart? ==> CartLocked(db, tx.user, SortIds(tx.req.cartIds), tx.cpc.cart, tx.cpc.next)
  {
  }

  lemma ProductStageRows(db: Db, tx: Tx)
    requires tx.CreateTx? && CreateOk(db, tx) && (tx.cpc.CWantProduct? || tx.cpc.CBuilding?)
    ensures CheckoutRows(tx.held, {}, tx.user, IdSet(tx.req.cartIds), tx.cpc.prods.Keys) && tx.user in db.users
    ensures tx.cpc.CWantProduct? ==> ProductsLocked(db, SortIds(ProductIds(tx.cpc.rows)), tx.cpc.prods, tx.cpc.next)
  {
  }

  function InsertedHeld(tx: Tx): set<Row>
    requires tx.CreateTx? && tx.cpc.CInserted?
  {
    BuyerRows(tx.user, tx.req) + CartRows(IdSet(tx.req.cartIds)) + ProductRows(tx.cpc.prods.Keys)
    + {TokenSlot(tx.user, tx.token), OrderRow(tx.cpc.writes.order.id), KeySlot(OrderPay(tx.cpc.writes.order.id))}
  }

  lemma InsertedStageRows(tx: Tx)
    requires tx.CreateTx? && tx.cpc.CInserted? && tx.held == InsertedHeld(tx)
    ensures CreateHeldOk(tx) && forall u :: UserRow(u) in tx.held ==> u == tx.user
  {
  }

  lemma InsertedStageHolds(db: Db, tx: Tx)
    requires tx.CreateTx? && CreateOk(db, tx) && tx.cpc.CInserted?
    ensures tx.held == InsertedHeld(tx) && tx.user in db.users
  {
  }

  lemma CartStageIsDisciplined(db: Db, tx: Tx)
    requires tx.CreateTx? && CreateOk(db, tx) && (tx.cpc.CWantCart? || tx.cpc.CRecheck?)
    ensures LockOk(db, tx)
  {
    CartStageRows(db, tx);
  }

  lemma ProductStageIsDisciplined(db: Db, tx: Tx)
    requires tx.CreateTx? && CreateOk(db, tx) && (tx.cpc.CWantProduct? || tx.cpc.CBuilding?)
    ensures LockOk(db, tx)
  {
    ProductStageRows(db, tx);
  }

  lemma InsertedStageIsDisciplined(db: Db, tx: Tx)
    requires tx.CreateTx? && CreateOk(db, tx) && tx.cpc.CInserted?
    ensures LockOk(db, tx)
  {
    InsertedStageHolds(db, tx);
    InsertedStageRows(tx);
  }

  lemma EarlyStageIsDisciplined(db: Db, tx: Tx)
    requires tx.CreateTx? && CreateOk(db, tx) && !tx.cpc.CWantCart? && !tx.cpc.CRecheck?
    requires !tx.cpc.CWantProduct? && !tx.cpc.CBuilding? && !tx.cpc.CInserted?
    ensures LockOk(db, tx)
  {
  }

  lemma CreateIsDisciplined(db: Db, tx: Tx)
    requires tx.CreateTx? && CreateOk(db, tx)
    ensures LockOk(db, tx)
  {
    if tx.cpc.CWantCart? || tx.cpc.CRecheck? {
      CartStageIsDisciplined(db, tx);
    } else if tx.cpc.CWantProduct? || tx.cpc.CBuilding? {
      ProductStageIsDisciplined(db, tx);
    } else if tx.cpc.CInserted? {
      InsertedStageIsDisciplined(db, tx);
    } else {
      EarlyStageIsDisciplined(db, tx);
    }
  }

  lemma ApproveIsDisciplined(db: Db, tx: Tx)
    requires tx.ApproveTx? && ApproveOk(db, tx)
    ensures LockOk(db, tx)
  {
  }

  lemma AdjustIsDisciplined(db: Db, tx: Tx)
    requires tx.AdjustTx? && AdjustOk(db, tx)
    ensures LockOk(db, tx)
  {
  }

  lemma TxOkIsDisciplined(db: Db, tx: Tx)
    requires TxOk(db, tx)
    ensures LockOk(db, tx)
  {
    match tx
    case CreateTx(_, _, _, _, _) => CreateIsDisciplined(db, tx);
    case ApproveTx(_, _, _, _) => ApproveIsDisciplined(db, tx);
    case AdjustTx(_, _, _, _, _) => AdjustIsDisciplined(db, tx);
    case _ =>
  }

  /** The discipline asks for less than the facts of LockInvariant do: neither the
      schema and ledger invariants nor a bonus that every buyer has had. */
  lemma {:induction false} GoodIsDisciplined(sys: Sys)
    requires SysOk(sys)
    ensures LocksOk(sys)
  {
    forall t | t in sys.txs ensures LockOk(sys.db, sys.txs[t]) {
      assert TxOk(sys.db, sys.txs[t]);
      TxOkIsDisciplined(sys.db, sys.txs[t]);
    }
  }

  // ---------- a run outside those facts ----------

  const LATE := Db(map["o" := 1], map[1 := 0], map[], map[], map[], [], [])

  lemma LateBuyerReads()
    ensures TxStep(LATE, LoginTx("o", 10, LStart, {}), 9) == (LoginTx("o", 10, LRead(1, 0), {}), LATE)
  {
    OneCharacter("o");
  }

  lemma LateBuyerTakesSlot()
    ensures TxStep(LATE, LoginTx("o", 10, LRead(1, 0), {}), 9)
            == (LoginTx("o", 10, LSlot(1), {KeySlot(Signup(1))}), LATE)
  {
  }

  lemma LateBuyerBegins()
    ensures var begin := [Begin(0, LoginTx("o", 10, LStart, {}))];
            IsRun(Idle(LATE, 10), begin)
            && EndOf(Idle(LATE, 10), begin) == Idle(LATE, 10).(txs := map[0 := LoginTx("o", 10, LStart, {})])
  {
    var begin := [Begin(0, LoginTx("o", 10, LStart, {}))];
    assert begin[..0] == [];
  }

  lemma LoneAfter(sys: Sys, tx: Tx, after: Tx, newId: Id)
    requires sys.txs == map[0 := tx] && OutcomeOf(tx).None? && IdleFor(sys.db, tx.held, newId)
    requires TxStep(sys.db, tx, newId) == (after, sys.db) && EventOf(after).None?
    ensures Enabled(sys, Next(0, newId)) && After(sys, Next(0, newId)) == sys.(txs := map[0 := after])
  {
    assert map[0 := tx][0 := after] == map[0 := after];
  }

  /** One step of a call that is alone. */
  lemma LoneStep(sys: Sys, labels: seq<Label>, tx: Tx, after: Tx, newId: Id)
    requires IsRun(sys, labels) && EndOf(sys, labels) == sys.(txs := map[0 := tx])
    requires OutcomeOf(tx).None? && IdleFor(sys.db, tx.held, newId)
    requires TxStep(sys.db, tx, newId) == (after, sys.db) && EventOf(after).None?
    ensures IsRun(sys, labels + [Next(0, newId)])
    ensures EndOf(sys, labels + [Next(0, newId)]) == sys.(txs := map[0 := after])
  {
    LoneAfter(EndOf(sys, labels), tx, after, newId);
    RunSnoc(sys, labels, Next(0, newId));
  }

  /** The discipline is kept also where those facts are not: a buyer who never had the
      bonus, once there is one, logs in, and the call holds the signup slot while it
      waits for the buyer row. */
  lemma LateBonusHoldsSlot() returns (labels: seq<Label>)
    ensures !BonusOk(Idle(LATE, 10)) && IsRun(Idle(LATE, 10), labels)
    ensures EndOf(Idle(LATE, 10), labels).txs == map[0 := LoginTx("o", 10, LSlot(1), {KeySlot(Signup(1))})]
    ensures Wants(LATE, LoginTx("o", 10, LSlot(1), {KeySlot(Signup(1))})) == Some(UserRow(1))
  {
    LateBuyerBegins();
    labels := [Begin(0, LoginTx("o", 10, LStart, {}))];
    LateBuyerReads();
    LoneStep(Idle(LATE, 10), labels, LoginTx("o", 10, LStart, {}), LoginTx("o", 10, LRead(1, 0), {}), 9);
    labels := labels + [Next(0, 9)];
    LateBuyerTakesSlot();
    LoneStep(Idle(LATE, 10), labels, LoginTx("o", 10, LRead(1, 0), {}),
             LoginTx("o", 10, LSlot(1), {KeySlot(Signup(1))}), 9);
    labels := labels + [Next(0, 9)];
    assert 1 in LATE.users && FindKey(LATE.ledger, Signup(1)).None?;
  }
}
