/** Which refusals are the ones the whole call would give: a call that is answered
    with an error, in any interleaving, against the same call run in one piece. */
module Refusals {
  import opened Base
  import opened EventKeys
  import opened Tables
  import opened Checkout
  import opened Lifecycle
  import opened Accounts
  import opened Invariants
  import opened LockModel
  import opened LockInvariant
  import opened LostInserts
  import LostInsertExample

  /** The same call, run in one piece on db, is refused with e. */
  predicate WholeCallRefuses(db: Db, tx: Tx, e: Error, newId: Id) {
    match tx
    case CreateTx(user, token, req, _, _) => CreateOrder(db, user, token, req, newId).1 == Err(e)
    case MoveTx(call, _, _) => Move(db, call).1 == Err(e)
    case ApproveTx(admin, order, _, _) => Approve(db, admin, order).1 == Err(e)
    case AdjustTx(admin, key, a, _, _) => Adjust(db, admin, key, a).1 == Err(e)
    case LoginTx(openid, bonus, _, _) => UpsertByOpenID(db, openid, bonus, newId).1 == Err(e)
  }

  /** Another call has got in between: it took the token or the key after this call's
      replay check, or put a cart row back that this call had missed. */
  predicate Overtaken(db: Db, tx: Tx) {
    match tx
    case CreateTx(user, token, req, pc, _) =>
      || pc.CConflict?
      || ((pc.CWantProduct? || pc.CBuilding?) && FindToken(db.orders, user, token).Some?)
      || (pc.CRecheck? && FindToken(db.orders, user, token).None? && LockCart(db, user, req.cartIds).Ok?)
    case AdjustTx(admin, key, _, pc, _) =>
      (pc.JWantUser? || pc.JBuilding?) && FindKey(db.ledger, AdminAdjust(admin, key)).Some?
    case _ => false
  }

  /** The step ends the call with the refusal e. */
  predicate Refuses(db: Db, tx: Tx, newId: Id, e: Error) {
    OutcomeOf(TxStep(db, tx, newId).0) == Some(Failed(e))
  }

  // ---------- errors that only one statement gives ----------

  /** Not an error of the replay decision and not one of the cart lookup. */
  predicate Plain(e: Error) {
    e != AddressNotFound && e != IdempotencyConflict && e != CartItemNotFound
  }

  lemma {:induction false} PriceErrors(rows: seq<CartItem>, prods: map<Id, Product>, total: Int64)
    ensures PriceLines(rows, prods, total).Err? ==> Plain(PriceLines(rows, prods, total).error)
    decreases |rows|
  {
    if rows != [] && rows[0].product in prods {
      var p := prods[rows[0].product];
      var lineTotal: int := Wrap64(p.price * rows[0].quantity);
      PriceErrors(rows[1..], prods, Wrap64(total + lineTotal));
    }
  }

  lemma {:induction false} DecrementErrors(products: map<Id, Product>, lines: seq<Line>)
    ensures DecrementAll(products, lines).Err? ==> Plain(DecrementAll(products, lines).error)
    decreases |lines|
  {
    if lines != [] && lines[0].product in products {
      var l := lines[0];
      var row := products[l.product];
      DecrementErrors(products[l.product := row.(stock := row.stock - l.quantity)], lines[1..]);
    }
  }

  lemma BuildErrors(balance: int, addr: Address, rows: seq<CartItem>, prods: map<Id, Product>,
                    user: Id, token: string, req: OrderRequest, newId: Id)
    ensures var b := Build(balance, addr, rows, prods, user, token, req, newId); b.Err? ==> Plain(b.error)
  {
    PriceErrors(rows, prods, 0);
    DecrementErrors(prods, LinesOfCart(rows));
  }

  lemma InsertErrors(db: Db, w: Writes)
    ensures InsertError(db, w).Some? ==> Plain(InsertError(db, w).value)
  {
  }

  // ---------- checkouts ----------

  /** What the transaction body answers once the cart rows are there. */
  lemma FreshErrors(db: Db, user: Id, token: string, req: OrderRequest, newId: Id)
    requires user in db.users && OwnsAddress(db, user, req.address) && LockCart(db, user, req.cartIds).Ok?
    ensures var r := CreateFresh(db, user, token, req, newId); r.Err? ==> Plain(r.error)
  {
    var rows := LockCart(db, user, req.cartIds).value;
    if LockProducts(db.products, ProductIds(rows)).Ok? {
      var prods := LockProducts(db.products, ProductIds(rows)).value;
      BuildErrors(db.users[user], db.addresses[req.address], rows, prods, user, token, req, newId);
      var b := Build(db.users[user], db.addresses[req.address], rows, prods, user, token, req, newId);
      if b.Ok? {
        InsertErrors(db, b.value);
      }
    }
  }

  lemma ReplayErrors(db: Db, user: Id, req: OrderRequest, o: Order, e: Error)
    requires OwnsAddress(db, user, req.address) && Plain(e)
    ensures ResolveReplay(db, user, req, o, o.items) != Err(e)
  {
  }

  lemma WholeReplays(db: Db, tx: Tx, e: Error, newId: Id)
    requires tx.CreateTx? && CreateCallOk(tx.user, tx.token, tx.req) && FindToken(db.orders, tx.user, tx.token).Some?
    ensures var o := db.orders[FindToken(db.orders, tx.user, tx.token).value];
            WholeCallRefuses(db, tx, e, newId) <==> ResolveReplay(db, tx.user, tx.req, o, o.items) == Err(e)
  {
  }

  lemma WholeIsFresh(db: Db, tx: Tx, e: Error, newId: Id)
    requires tx.CreateTx? && CreateCallOk(tx.user, tx.token, tx.req) && FindToken(db.orders, tx.user, tx.token).None?
    ensures WholeCallRefuses(db, tx, e, newId) <==> CreateFresh(db, tx.user, tx.token, tx.req, newId) == Err(e)
  {
  }

  lemma StartRefuses(db: Db, tx: Tx, newId: Id, e: Error)
    requires tx.CreateTx? && tx.cpc.CStart? && Refuses(db, tx, newId, e)
    ensures WholeCallRefuses(db, tx, e, newId)
  {
  }

  lemma ReplayingRefuses(db: Db, tx: Tx, newId: Id, e: Error)
    requires OrdersUnique(db.orders) && tx.CreateTx? && CreateOk(db, tx) && tx.cpc.CReplaying?
    requires Refuses(db, tx, newId, e)
    ensures WholeCallRefuses(db, tx, e, newId)
  {
    FoundAt(db.orders, FindOrder(db.orders, tx.cpc.existing.id).value);
    WholeReplays(db, tx, e, newId);
  }

  lemma WantUserRefuses(db: Db, tx: Tx, newId: Id, e: Error)
    requires EachOrderOk(db.orders, db.users) && tx.CreateTx? && CreateOk(db, tx) && tx.cpc.CWantUser?
    requires Refuses(db, tx, newId, e)
    ensures WholeCallRefuses(db, tx, e, newId)
  {
    var found := FindToken(db.orders, tx.user, tx.token);
    if found.None? {
      WholeIsFresh(db, tx, e, newId);
    }
  }

  lemma WantAddrRefuses(db: Db, tx: Tx, newId: Id, e: Error)
    requires tx.CreateTx? && CreateOk(db, tx) && tx.cpc.CWantAddr? && Refuses(db, tx, newId, e)
    ensures WholeCallRefuses(db, tx, e, newId)
  {
    if FindToken(db.orders, tx.user, tx.token).Some? {
      WholeReplays(db, tx, e, newId);
    } else {
      WholeIsFresh(db, tx, e, newId);
    }
  }

  lemma RecheckRefuses(db: Db, tx: Tx, newId: Id, e: Error)
    requires tx.CreateTx? && CreateOk(db, tx) && tx.cpc.CRecheck? && Refuses(db, tx, newId, e)
    ensures WholeCallRefuses(db, tx, e, newId) <==> !Overtaken(db, tx)
  {
    if FindToken(db.orders, tx.user, tx.token).Some? {
      WholeReplays(db, tx, e, newId);
    } else {
      WholeIsFresh(db, tx, e, newId);
      if LockCart(db, tx.user, tx.req.cartIds).Ok? {
        FreshErrors(db, tx.user, tx.token, tx.req, newId);
      }
    }
  }

  lemma TakenTokenRefuses(db: Db, tx: Tx, newId: Id, e: Error)
    requires tx.CreateTx? && CreateCallOk(tx.user, tx.token, tx.req) && OwnsAddress(db, tx.user, tx.req.address)
    requires FindToken(db.orders, tx.user, tx.token).Some? && Plain(e)
    ensures !WholeCallRefuses(db, tx, e, newId)
  {
    WholeReplays(db, tx, e, newId);
    ReplayErrors(db, tx.user, tx.req, db.orders[FindToken(db.orders, tx.user, tx.token).value], e);
  }

  lemma ProductRefuses(db: Db, tx: Tx, newId: Id, e: Error)
    requires tx.CreateTx? && CreateOk(db, tx) && tx.cpc.CWantProduct? && Refuses(db, tx, newId, e)
    ensures WholeCallRefuses(db, tx, e, newId) <==> !Overtaken(db, tx)
  {
    var ids, next := ProductIds(tx.cpc.rows), tx.cpc.next;
    SortIdsFacts(ids);
    assert e == ProductNotFound && SortIds(ids)[next] in ids;
    if FindToken(db.orders, tx.user, tx.token).Some? {
      TakenTokenRefuses(db, tx, newId, e);
    } else {
      WholeIsFresh(db, tx, e, newId);
    }
  }

  lemma BuildingError(db: Db, tx: Tx, newId: Id, e: Error)
    requires tx.CreateTx? && CreateOk(db, tx) && tx.cpc.CBuilding? && Refuses(db, tx, newId, e)
    ensures Plain(e)
    ensures FindToken(db.orders, tx.user, tx.token).None? ==>
              CreateFresh(db, tx.user, tx.token, tx.req, newId) == Err(e)
  {
    var addr, rows, prods := tx.cpc.addr, tx.cpc.rows, tx.cpc.prods;
    var b := Build(db.users[tx.user], addr, rows, prods, tx.user, tx.token, tx.req, newId);
    BuildErrors(db.users[tx.user], addr, rows, prods, tx.user, tx.token, tx.req, newId);
    if b.Ok? {
      InsertErrors(db, b.value);
    }
  }

  lemma BuildingRefuses(db: Db, tx: Tx, newId: Id, e: Error)
    requires tx.CreateTx? && CreateOk(db, tx) && tx.cpc.CBuilding? && Refuses(db, tx, newId, e)
    ensures WholeCallRefuses(db, tx, e, newId) <==> !Overtaken(db, tx)
  {
    BuildingError(db, tx, newId, e);
    if FindToken(db.orders, tx.user, tx.token).Some? {
      TakenTokenRefuses(db, tx, newId, e);
    } else {
      WholeIsFresh(db, tx, e, newId);
    }
  }

  lemma ConflictRefuses(db: Db, tx: Tx, newId: Id, e: Error)
    requires tx.CreateTx? && CreateOk(db, tx) && tx.cpc.CConflict? && LostToAnother(db, tx)
    requires Refuses(db, tx, newId, e)
    ensures !WholeCallRefuses(db, tx, e, newId)
  {
    WholeReplays(db, tx, e, newId);
  }

  lemma NeverRefuses(db: Db, tx: Tx, newId: Id, e: Error)
    requires tx.CreateTx? && (tx.cpc.CWantCart? || tx.cpc.CInserted?)
    ensures !Refuses(db, tx, newId, e)
  {
  }

  predicate Early(tx: Tx) {
    tx.CreateTx? && (tx.cpc.CStart? || tx.cpc.CReplaying? || tx.cpc.CWantUser? || tx.cpc.CWantAddr?)
  }

  lemma EarlyRefuses(db: Db, tx: Tx, newId: Id, e: Error)
    requires OrdersUnique(db.orders) && EachOrderOk(db.orders, db.users)
    requires Early(tx) && CreateOk(db, tx) && Refuses(db, tx, newId, e)
    ensures WholeCallRefuses(db, tx, e, newId)
  {
    if tx.cpc.CStart? {
      StartRefuses(db, tx, newId, e);
    } else if tx.cpc.CReplaying? {
      ReplayingRefuses(db, tx, newId, e);
    } else if tx.cpc.CWantUser? {
      WantUserRefuses(db, tx, newId, e);
    } else {
      WantAddrRefuses(db, tx, newId, e);
    }
  }

  lemma EarlyIsNotOvertaken(db: Db, tx: Tx)
    requires Early(tx)
    ensures !Overtaken(db, tx)
  {
  }

  lemma LateRefuses(db: Db, tx: Tx, newId: Id, e: Error)
    requires tx.CreateTx? && !Early(tx) && CreateOk(db, tx) && LossFacts(db, tx) && OutcomeOf(tx).None?
    requires Refuses(db, tx, newId, e)
    ensures WholeCallRefuses(db, tx, e, newId) <==> !Overtaken(db, tx)
  {
    if tx.cpc.CRecheck? {
      RecheckRefuses(db, tx, newId, e);
    } else if tx.cpc.CWantProduct? {
      ProductRefuses(db, tx, newId, e);
    } else if tx.cpc.CBuilding? {
      BuildingRefuses(db, tx, newId, e);
    } else if tx.cpc.CConflict? {
      ConflictRefuses(db, tx, newId, e);
    } else {
      NeverRefuses(db, tx, newId, e);
    }
  }

  lemma {:induction false} CreateRefuses(db: Db, tx: Tx, newId: Id, e: Error)
    requires OrdersUnique(db.orders) && EachOrderOk(db.orders, db.users)
    requires tx.CreateTx? && CreateOk(db, tx) && LossFacts(db, tx) && OutcomeOf(tx).None?
    requires Refuses(db, tx, newId, e)
    ensures WholeCallRefuses(db, tx, e, newId) <==> !Overtaken(db, tx)
  {
    if Early(tx) {
      EarlyRefuses(db, tx, newId, e);
      EarlyIsNotOvertaken(db, tx);
    } else {
      LateRefuses(db, tx, newId, e);
    }
  }

  // ---------- the other calls ----------

  lemma MoveRefuses(db: Db, tx: Tx, newId: Id, e: Error)
    requires tx.MoveTx? && MoveOk(db, tx) && OutcomeOf(tx).None? && Refuses(db, tx, newId, e)
    ensures WholeCallRefuses(db, tx, e, newId)
  {
  }

  lemma ApproveProductRefuses(db: Db, tx: Tx, newId: Id, e: Error)
    requires tx.ApproveTx? && ApproveOk(db, tx) && tx.apc.AWantProduct? && Refuses(db, tx, newId, e)
    ensures WholeCallRefuses(db, tx, e, newId)
  {
    var ids, next := ItemIds(tx.apc.current), tx.apc.next;
    SortIdsFacts(ids);
    assert SortIds(ids)[next] in ids;
    var j :| 0 <= j < |ids| && ids[j] == SortIds(ids)[next];
    assert tx.apc.current.items[j].product !in db.products;
  }

  lemma ApproveRefuses(db: Db, tx: Tx, newId: Id, e: Error)
    requires tx.ApproveTx? && ApproveOk(db, tx) && OutcomeOf(tx).None? && Refuses(db, tx, newId, e)
    ensures WholeCallRefuses(db, tx, e, newId)
  {
    if tx.apc.AWantProduct? {
      ApproveProductRefuses(db, tx, newId, e);
    }
  }

  lemma AdjustReplayRefuses(db: Db, tx: Tx, newId: Id, e: Error)
    requires tx.AdjustTx? && AdjustOk(db, tx) && LossFacts(db, tx) && (tx.jpc.JStart? || tx.jpc.JConflict?)
    requires Refuses(db, tx, newId, e)
    ensures WholeCallRefuses(db, tx, e, newId)
  {
  }

  lemma AdjustPostRefuses(db: Db, tx: Tx, newId: Id, e: Error)
    requires tx.AdjustTx? && AdjustOk(db, tx) && (tx.jpc.JWantUser? || tx.jpc.JBuilding?)
    requires Refuses(db, tx, newId, e)
    ensures WholeCallRefuses(db, tx, e, newId) <==> !Overtaken(db, tx)
  {
  }

  lemma AdjustRefuses(db: Db, tx: Tx, newId: Id, e: Error)
    requires tx.AdjustTx? && AdjustOk(db, tx) && LossFacts(db, tx) && OutcomeOf(tx).None?
    requires Refuses(db, tx, newId, e)
    ensures WholeCallRefuses(db, tx, e, newId) <==> !Overtaken(db, tx)
  {
    if tx.jpc.JStart? || tx.jpc.JConflict? {
      AdjustReplayRefuses(db, tx, newId, e);
    } else if tx.jpc.JWantUser? || tx.jpc.JBuilding? {
      AdjustPostRefuses(db, tx, newId, e);
    }
  }

  lemma LoginRefuses(db: Db, tx: Tx, newId: Id, e: Error)
    requires tx.LoginTx? && LoginOk(db, tx) && OutcomeOf(tx).None? && Refuses(db, tx, newId, e)
    ensures WholeCallRefuses(db, tx, e, newId)
  {
  }

  // ---------- every refusal ----------

  lemma {:induction false} StepRefuses(db: Db, tx: Tx, newId: Id, e: Error)
    requires Inv(db) && TxOk(db, tx) && LossFacts(db, tx) && OutcomeOf(tx).None? && Refuses(db, tx, newId, e)
    ensures WholeCallRefuses(db, tx, e, newId) <==> !Overtaken(db, tx)
  {
    match tx
    case CreateTx(_, _, _, _, _) => CreateRefuses(db, tx, newId, e);
    case MoveTx(_, _, _) => MoveRefuses(db, tx, newId, e);
    case ApproveTx(_, _, _, _) => ApproveRefuses(db, tx, newId, e);
    case AdjustTx(_, _, _, _, _) => AdjustRefuses(db, tx, newId, e);
    case LoginTx(_, _, _, _) => LoginRefuses(db, tx, newId, e);
  }

  /** Over every run with fresh ids: the error a call is refused with is the one the
      whole call gives at that moment if and only if nobody has overtaken it. */
  lemma {:induction false} RefusalsAreAtomicExactly(sys: Sys, labels: seq<Label>, tid: nat, newId: Id, e: Error)
    requires SysOk(sys) && LossesOk(sys) && IsRun(sys, labels) && FreshRun(sys, labels)
    requires CanStep(EndOf(sys, labels), tid)
    requires Refuses(EndOf(sys, labels).db, EndOf(sys, labels).txs[tid], newId, e)
    ensures var end := EndOf(sys, labels);
            WholeCallRefuses(end.db, end.txs[tid], e, newId) <==> !Overtaken(end.db, end.txs[tid])
  {
    RunKeepsLosses(sys, labels);
    var end := EndOf(sys, labels);
    assert TxOk(end.db, end.txs[tid]) && LossFacts(end.db, end.txs[tid]);
    StepRefuses(end.db, end.txs[tid], newId, e);
  }

  lemma ConflictCanStep(sys: Sys, tid: nat)
    requires tid in sys.txs && sys.txs[tid].CreateTx? && sys.txs[tid].cpc.CConflict?
    ensures CanStep(sys, tid) && Overtaken(sys.db, sys.txs[tid])
  {
  }

  /** Being overtaken happens: the loser of the example run is about to be refused with
      an error that the whole call would not give. */
  lemma OvertakenHappens() returns (labels: seq<Label>)
    ensures var start := Idle(LostInsertExample.SHOP, 0);
            && SysOk(start) && IsRun(start, labels) && FreshRun(start, labels)
            && var end := EndOf(start, labels);
               && CanStep(end, 1) && Refuses(end.db, end.txs[1], 10, UniqueViolation)
               && !WholeCallRefuses(end.db, end.txs[1], UniqueViolation, 10)
  {
    var whole := LostInsertExample.RawViolationHappens();
    labels := whole[..|whole| - 1];
    var start := Idle(LostInsertExample.SHOP, 0);
    assert EndOf(start, labels).txs[1] == LostInsertExample.Call(6, CConflict, {});
    ConflictCanStep(EndOf(start, labels), 1);
    LostInsertIsRaw(start, labels, 1, 10);
    RefusalsAreAtomicExactly(start, labels, 1, 10, UniqueViolation);
  }
}
