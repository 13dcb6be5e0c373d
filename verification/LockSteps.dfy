/** What one step of one transaction does: it keeps the transaction's own facts,
    takes no lock but the one it waited for, changes nothing outside the rows it
    holds, and if it changes the database it does exactly what the call does
    when it runs alone. */
module LockSteps {
  import opened Base
  import opened EventKeys
  import opened Tables
  import opened Checkout
  import opened Lifecycle
  import opened Accounts
  import opened Runs
  import opened Invariants
  import opened Preservation
  import opened History
  import opened Replay
  import opened LoginRace
  import opened LockModel
  import opened LockInvariant

  /** The call, as one atomic step, that the next step of tx commits. */
  function CommitOf(tx: Tx): Option<Step> {
    match tx
    case CreateTx(user, token, req, CInserted(_, _, _, w), _) => Some(DoCreate(user, token, req, w.order.id))
    case MoveTx(move, MLocked(_), _) => Some(DoMove(move))
    case ApproveTx(admin, order, ABuilding(_), _) => Some(DoApprove(admin, order))
    case AdjustTx(admin, key, a, JInserted(_), _) => Some(DoAdjust(admin, key, a))
    case LoginTx(openid, bonus, LNew(user), _) => Some(DoLogin(openid, bonus, user))
    case _ => None
  }

  // ---------- refinement ----------

  lemma {:induction false} CreateCommits(db: Db, tx: Tx)
    requires tx.CreateTx? && tx.cpc.CInserted? && CreateOk(db, tx)
    ensures CreateOrder(db, tx.user, tx.token, tx.req, tx.cpc.writes.order.id)
            == (ApplyWrites(db, tx.cpc.writes), Ok(tx.cpc.writes.order))
  {
    var w := tx.cpc.writes;
    BuiltNames(db.users[tx.user], tx.cpc.addr, tx.cpc.rows, tx.cpc.prods, tx.user, tx.token, tx.req, w.order.id);
    assert CreateFresh(db, tx.user, tx.token, tx.req, w.order.id) == Ok(w);
    assert FindToken(db.orders, tx.user, tx.token).None?;
  }

  lemma CreateRefines(db: Db, tx: Tx, newId: Id)
    requires tx.CreateTx? && CreateOk(db, tx)
    ensures CreateStep(db, tx, newId).1 ==
            if tx.cpc.CInserted? then CreateOrder(db, tx.user, tx.token, tx.req, tx.cpc.writes.order.id).0 else db
  {
    if tx.cpc.CInserted? {
      CreateCommits(db, tx);
    }
  }

  lemma MoveRefines(db: Db, tx: Tx)
    requires tx.MoveTx? && MoveOk(db, tx)
    ensures MoveStep(db, tx).1 == if tx.mpc.MLocked? then Move(db, tx.move).0 else db
  {
  }

  lemma ApproveRefines(db: Db, tx: Tx)
    requires tx.ApproveTx? && ApproveOk(db, tx)
    ensures ApproveStep(db, tx).1 == if tx.apc.ABuilding? then Approve(db, tx.admin, tx.order).0 else db
  {
  }

  lemma AdjustRefines(db: Db, tx: Tx)
    requires tx.AdjustTx? && AdjustOk(db, tx)
    ensures AdjustStep(db, tx).1 == if tx.jpc.JInserted? then Adjust(db, tx.admin, tx.key, tx.adjustment).0 else db
  {
  }

  lemma LoginRefines(db: Db, tx: Tx, newId: Id)
    requires tx.LoginTx? && LoginOk(db, tx)
    ensures LoginStep(db, tx, newId).1 ==
            if tx.lpc.LNew? then UpsertByOpenID(db, tx.openid, tx.bonus, tx.lpc.user).0 else db
  {
  }

  lemma CreateTxRefines(db: Db, tx: Tx, newId: Id)
    requires tx.CreateTx? && TxOk(db, tx)
    ensures TxStep(db, tx, newId).1 == if CommitOf(tx).Some? then Exec(db, CommitOf(tx).value) else db
  {
    CreateRefines(db, tx, newId);
  }

  lemma OtherTxRefines(db: Db, tx: Tx, newId: Id)
    requires !tx.CreateTx? && TxOk(db, tx)
    ensures TxStep(db, tx, newId).1 == if CommitOf(tx).Some? then Exec(db, CommitOf(tx).value) else db
  {
    match tx
    case MoveTx(_, _, _) => MoveRefines(db, tx);
    case ApproveTx(_, _, _, _) => ApproveRefines(db, tx);
    case AdjustTx(_, _, _, _, _) => AdjustRefines(db, tx);
    case LoginTx(_, _, _, _) => LoginRefines(db, tx, newId);
  }

  /** The locals a transaction read under its locks give the same commit as the
      whole call run in one piece at that moment. */
  lemma StepRefines(db: Db, tx: Tx, newId: Id)
    requires TxOk(db, tx)
    ensures TxStep(db, tx, newId).1 == if CommitOf(tx).Some? then Exec(db, CommitOf(tx).value) else db
  {
    if tx.CreateTx? {
      CreateTxRefines(db, tx, newId);
    } else {
      OtherTxRefines(db, tx, newId);
    }
  }

  // ---------- what only grows ----------

  lemma UsersGrow(db: Db, s: Step)
    requires Inv(db)
    ensures db.users.Keys <= Exec(db, s).users.Keys
  {
    if s.DoLogin? {
      LoginKeepsUsers(db, s.openid, s.bonus, s.newId);
    } else {
      BuyersStay(db, s);
    }
  }

  lemma LoginKeepsUsers(db: Db, openid: string, bonus: Int64, newId: Id)
    ensures db.users.Keys <= UpsertByOpenID(db, openid, bonus, newId).0.users.Keys
  {
  }

  lemma OrdersGrow(db: Db, s: Step)
    ensures |db.orders| <= |Exec(db, s).orders|
    ensures forall i :: 0 <= i < |db.orders| ==> SameOrder(db.orders[i], Exec(db, s).orders[i])
  {
    if db.orders != [] {
      StepOnOrder(db, s, 0);
    }
    forall i | 0 <= i < |db.orders| ensures SameOrder(db.orders[i], Exec(db, s).orders[i]) {
      StepOnOrder(db, s, i);
    }
  }

  lemma OpenidsGrow(db: Db, s: Step)
    ensures forall o :: o in db.openids ==> o in Exec(db, s).openids && Exec(db, s).openids[o] == db.openids[o]
  {
    forall o | o in db.openids ensures o in Exec(db, s).openids && Exec(db, s).openids[o] == db.openids[o] {
      OpenidsStay(db, s, o);
    }
  }

  lemma {:induction false} ExecGrows(db: Db, s: Step)
    requires Inv(db)
    ensures Grows(db, Exec(db, s))
  {
    LedgerGrows(db, s);
    UsersGrow(db, s);
    OpenidsGrow(db, s);
    OrdersGrow(db, s);
  }

  lemma StepGrows(db: Db, tx: Tx, newId: Id)
    requires Inv(db) && TxOk(db, tx)
    ensures Grows(db, TxStep(db, tx, newId).1)
  {
    StepRefines(db, tx, newId);
    if CommitOf(tx).Some? {
      ExecGrows(db, CommitOf(tx).value);
    }
  }

  // ---------- footprint of a commit ----------

  lemma WritesFootprint(db: Db, w: Writes, row: Row)
    requires row != OrderRow(w.order.id) && row != TokenSlot(w.order.user, w.order.token) && row != KeySlot(w.row.key)
    requires row != UserRow(w.user)
    requires row.CartRow? ==> row.cart !in w.cartIds
    requires row.ProductRow? ==> row.product !in w.products
    ensures RowSame(db, ApplyWrites(db, w), row)
  {
    match row
    case OrderRow(id) => FindOrderAppend(db.orders, w.order, id);
    case EventRow(k) => FindKeyAppend(db.ledger, w.row, k);
    case TokenSlot(u, t) => FindTokenAppend(db.orders, w.order, u, t);
    case KeySlot(k) => FindKeyAppend(db.ledger, w.row, k);
    case _ =>
  }

  lemma RowsIn(ids: set<Id>, held: set<Row>)
    ensures CartRows(ids) <= held ==> forall c :: c in ids ==> CartRow(c) in held
    ensures ProductRows(ids) <= held ==> forall p :: p in ids ==> ProductRow(p) in held
  {
    forall c | c in ids && CartRows(ids) <= held ensures CartRow(c) in held {
      assert CartRow(c) in CartRows(ids);
    }
    forall p | p in ids && ProductRows(ids) <= held ensures ProductRow(p) in held {
      assert ProductRow(p) in ProductRows(ids);
    }
  }

  lemma BuiltProducts(balance: int, addr: Address, rows: seq<CartItem>, prods: map<Id, Product>,
                      user: Id, token: string, req: OrderRequest, newId: Id)
    requires Build(balance, addr, rows, prods, user, token, req, newId).Ok?
    ensures Build(balance, addr, rows, prods, user, token, req, newId).value.products.Keys == prods.Keys
  {
    DecrementAllEffect(prods, LinesOfCart(rows));
  }

  /** An inserted checkout holds everything it is about to write. */
  lemma {:induction false} InsertedHolds(db: Db, tx: Tx)
    requires tx.CreateTx? && tx.cpc.CInserted? && CreateOk(db, tx)
    ensures var w := tx.cpc.writes;
            && {UserRow(w.user), TokenSlot(w.order.user, w.order.token), OrderRow(w.order.id), KeySlot(w.row.key)}
               <= tx.held
            && CartRows(w.cartIds) <= tx.held && ProductRows(w.products.Keys) <= tx.held
  {
    var w := tx.cpc.writes;
    BuiltNames(db.users[tx.user], tx.cpc.addr, tx.cpc.rows, tx.cpc.prods, tx.user, tx.token, tx.req, w.order.id);
    BuiltProducts(db.users[tx.user], tx.cpc.addr, tx.cpc.rows, tx.cpc.prods, tx.user, tx.token, tx.req, w.order.id);
  }

  lemma {:induction false} CreateFootprint(db: Db, tx: Tx, row: Row)
    requires tx.CreateTx? && tx.cpc.CInserted? && CreateOk(db, tx) && row !in tx.held
    ensures RowSame(db, ApplyWrites(db, tx.cpc.writes), row)
  {
    var w := tx.cpc.writes;
    InsertedHolds(db, tx);
    RowsIn(w.cartIds, tx.held);
    RowsIn(w.products.Keys, tx.held);
    WritesFootprint(db, w, row);
  }

  lemma {:induction false} CreateStepFootprint(db: Db, tx: Tx, newId: Id, row: Row)
    requires tx.CreateTx? && CreateOk(db, tx) && row !in tx.held
    ensures RowSame(db, CreateStep(db, tx, newId).1, row)
  {
    if tx.cpc.CInserted? {
      CreateFootprint(db, tx, row);
    } else {
      CreateRefines(db, tx, newId);
      NothingChanged(db, row);
    }
  }

  lemma NothingChanged(db: Db, row: Row)
    ensures RowSame(db, db, row)
  {
  }

  lemma UpdateFootprint(orders: seq<Order>, i: nat, o: Order, row: Row)
    requires OrdersUnique(orders) && i < |orders| && SameOrder(orders[i], o) && row != OrderRow(o.id)
    ensures row.OrderRow? ==>
              && FindOrder(orders[i := o], row.order) == FindOrder(orders, row.order)
              && (FindOrder(orders, row.order).Some? ==>
                    orders[i := o][FindOrder(orders, row.order).value] == orders[FindOrder(orders, row.order).value])
    ensures row.TokenSlot? ==>
            FindToken(orders[i := o], row.owner, row.token) == FindToken(orders, row.owner, row.token)
  {
    match row
    case OrderRow(id) => FindOrderUpdate(orders, i, o, id);
    case TokenSlot(u, t) => FindTokenUpdate(orders, i, o, u, t);
    case _ =>
  }

  lemma MoveFootprint(db: Db, tx: Tx, row: Row)
    requires tx.MoveTx? && MoveOk(db, tx) && OrdersUnique(db.orders) && row !in tx.held
    requires OutcomeOf(tx).None?
    ensures RowSame(db, MoveStep(db, tx).1, row)
  {
    if MoveStep(db, tx).1 != db {
      var o := tx.mpc.current;
      var i := FindOrder(db.orders, o.id).value;
      UpdateFootprint(db.orders, i, Transition(o, tx.move).value, row);
    }
  }

  lemma RefundSparesProduct(db: Db, o: Order, admin: Id, p: Id)
    requires BalancesOk(db.users, db.ledger) && ProductsOk(db) && OrderOk(o) && ApproveFresh(db, o, admin).Ok?
    requires p !in IdSet(ItemIds(o)) && p in db.products
    ensures p in ApproveFresh(db, o, admin).value.products
    ensures ApproveFresh(db, o, admin).value.products[p] == db.products[p]
  {
    ApproveFacts(db, o, admin);
    var lines := LinesOfItems(o.items);
    forall j | 0 <= j < |lines| ensures lines[j].product != p {
      assert ItemIds(o)[j] in IdSet(ItemIds(o));
    }
    UnlistedProduct(lines, p);
  }

  lemma ApplyRefundFootprint(db: Db, i: nat, r: Refund, row: Row)
    requires OrdersUnique(db.orders) && i < |db.orders| && SameOrder(db.orders[i], r.order)
    requires row != OrderRow(r.order.id) && row != UserRow(r.order.user) && row != KeySlot(r.row.key)
    requires r.products.Keys == db.products.Keys
    requires row.ProductRow? && row.product in db.products ==> r.products[row.product] == db.products[row.product]
    ensures RowSame(db, ApplyRefund(db, i, r), row)
  {
    UpdateFootprint(db.orders, i, r.order, row);
    match row
    case EventRow(k) => FindKeyAppend(db.ledger, r.row, k);
    case KeySlot(k) => FindKeyAppend(db.ledger, r.row, k);
    case _ =>
  }

  lemma {:induction false} RefundFootprint(db: Db, o: Order, admin: Id, i: nat, row: Row)
    requires Inv(db) && i < |db.orders| && db.orders[i] == o && ApproveFresh(db, o, admin).Ok?
    requires row != OrderRow(o.id) && row != UserRow(o.user) && row != KeySlot(OrderRefund(o.id))
    requires row.ProductRow? ==> row.product !in IdSet(ItemIds(o))
    ensures RowSame(db, ApplyRefund(db, i, ApproveFresh(db, o, admin).value), row)
  {
    assert OrderOk(db.orders[i]);
    ApproveFacts(db, o, admin);
    if row.ProductRow? && row.product in db.products {
      RefundSparesProduct(db, o, admin, row.product);
    }
    ApplyRefundFootprint(db, i, ApproveFresh(db, o, admin).value, row);
  }

  lemma {:induction false} ApproveFootprint(db: Db, tx: Tx, row: Row)
    requires tx.ApproveTx? && ApproveOk(db, tx) && Inv(db) && row !in tx.held && ApproveWants(db, tx) != Some(row)
    ensures RowSame(db, ApproveStep(db, tx).1, row)
  {
    if ApproveStep(db, tx).1 != db {
      var o := tx.apc.current;
      RowsIn(IdSet(ItemIds(o)), tx.held);
      RefundFootprint(db, o, tx.admin, FindOrder(db.orders, o.id).value, row);
    }
  }

  lemma AdjustFootprint(db: Db, tx: Tx, row: Row)
    requires tx.AdjustTx? && AdjustOk(db, tx) && row !in tx.held
    ensures RowSame(db, AdjustStep(db, tx).1, row)
  {
    if tx.jpc.JInserted? {
      var posted := tx.jpc.row;
      match row
      case EventRow(k) => FindKeyAppend(db.ledger, posted, k);
      case KeySlot(k) => FindKeyAppend(db.ledger, posted, k);
      case _ =>
    }
  }

  lemma LoginFootprint(db: Db, tx: Tx, newId: Id, row: Row)
    requires tx.LoginTx? && LoginOk(db, tx) && row !in tx.held
    ensures RowSame(db, LoginStep(db, tx, newId).1, row)
  {
    LoginRefines(db, tx, newId);
    if tx.lpc.LNew? {
      NewBuyerFootprint(db, Trim(tx.openid), tx.lpc.user, tx.bonus, row);
    } else {
      NothingChanged(db, row);
    }
  }

  lemma NewBuyerFootprint(db: Db, openid: string, user: Id, bonus: Int64, row: Row)
    requires row != OpenidSlot(openid) && row != UserRow(user) && row != KeySlot(Signup(user))
    ensures RowSame(db, ApplyNewBuyer(db, openid, user, bonus), row)
  {
    match row
    case EventRow(k) => FindKeyAppend(db.ledger, BonusRow(user, bonus), k);
    case KeySlot(k) => FindKeyAppend(db.ledger, BonusRow(user, bonus), k);
    case _ =>
  }

  /** A step changes nothing but rows it holds or has just locked. */
  lemma {:induction false} StepFootprint(db: Db, tx: Tx, newId: Id, row: Row)
    requires Inv(db) && TxOk(db, tx) && OutcomeOf(tx).None?
    requires row !in tx.held && Wants(db, tx) != Some(row)
    ensures RowSame(db, TxStep(db, tx, newId).1, row)
  {
    match tx
    case CreateTx(_, _, _, _, _) => CreateStepFootprint(db, tx, newId, row);
    case MoveTx(_, _, _) => MoveFootprint(db, tx, row);
    case ApproveTx(_, _, _, _) => ApproveFootprint(db, tx, row);
    case AdjustTx(_, _, _, _, _) => AdjustFootprint(db, tx, row);
    case LoginTx(_, _, _, _) => LoginFootprint(db, tx, newId, row);
  }

  // ---------- locks taken ----------

  /** The rows of the order or buyer being inserted are new and nobody else's. */
  function InsertedRows(db: Db, tx: Tx, newId: Id): set<Row> {
    if tx.CreateTx? && tx.cpc.CBuilding? then {OrderRow(newId), KeySlot(OrderPay(newId))}
    else if tx.LoginTx? && tx.lpc.LStart? && newId !in db.users then {UserRow(newId), KeySlot(Signup(newId))}
    else {}
  }

  function WantedRows(db: Db, tx: Tx): set<Row> {
    if Wants(db, tx).Some? then {Wants(db, tx).value} else {}
  }

  lemma InsertStepHeld(db: Db, tx: Tx, addr: Address, rows: seq<CartItem>, prods: map<Id, Product>, newId: Id)
    requires tx.CreateTx?
    ensures InsertStep(db, tx, addr, rows, prods, newId).held
            <= tx.held + {TokenSlot(tx.user, tx.token), OrderRow(newId), KeySlot(OrderPay(newId))}
  {
  }

  lemma DecideReplayHeld(db: Db, tx: Tx, existing: Order)
    requires tx.CreateTx?
    ensures DecideReplay(db, tx, existing).held == {}
  {
  }

  lemma CreateHeld(db: Db, tx: Tx, newId: Id)
    requires tx.CreateTx?
    ensures CreateStep(db, tx, newId).0.held <= tx.held + WantedRows(db, tx) + InsertedRows(db, tx, newId)
  {
    match tx.cpc
    case CReplaying(o) => DecideReplayHeld(db, tx, o);
    case CRecheck(_, _) =>
      if FindToken(db.orders, tx.user, tx.token).Some? {
        DecideReplayHeld(db, tx, db.orders[FindToken(db.orders, tx.user, tx.token).value]);
      }
    case CBuilding(addr, rows, prods) => InsertStepHeld(db, tx, addr, rows, prods, newId);
    case _ =>
  }

  lemma MoveHeld(db: Db, tx: Tx)
    requires tx.MoveTx?
    ensures MoveStep(db, tx).0.held <= tx.held + WantedRows(db, tx)
  {
  }

  lemma ApproveHeld(db: Db, tx: Tx)
    requires tx.ApproveTx?
    ensures ApproveStep(db, tx).0.held <= tx.held + WantedRows(db, tx)
  {
  }

  lemma AdjustHeld(db: Db, tx: Tx)
    requires tx.AdjustTx?
    ensures AdjustStep(db, tx).0.held <= tx.held + WantedRows(db, tx)
  {
  }

  lemma LoginHeld(db: Db, tx: Tx, newId: Id)
    requires tx.LoginTx?
    ensures LoginStep(db, tx, newId).0.held <= tx.held + WantedRows(db, tx) + InsertedRows(db, tx, newId)
  {
  }

  lemma StepHeld(db: Db, tx: Tx, newId: Id)
    ensures TxStep(db, tx, newId).0.held <= tx.held + WantedRows(db, tx) + InsertedRows(db, tx, newId)
  {
    match tx
    case CreateTx(_, _, _, _, _) => CreateHeld(db, tx, newId);
    case MoveTx(_, _, _) => MoveHeld(db, tx);
    case ApproveTx(_, _, _, _) => ApproveHeld(db, tx);
    case AdjustTx(_, _, _, _, _) => AdjustHeld(db, tx);
    case LoginTx(_, _, _, _) => LoginHeld(db, tx, newId);
  }
}
