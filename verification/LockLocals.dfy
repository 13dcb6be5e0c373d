/** Each step re-establishes the stepping transaction's own facts. */
module LockLocals {
  import opened Base
  import opened Tables
  import opened Checkout
  import opened Lifecycle
  import opened Invariants
  import opened LoginRace
  import opened LockModel
  import opened LockInvariant

  // ---------- checkout ----------

  lemma SameIdSet(a: seq<Id>, b: seq<Id>)
    requires forall x :: x in a <==> x in b
    ensures IdSet(a) == IdSet(b)
  {
    forall x ensures x in IdSet(a) <==> x in IdSet(b) {
      assert x in IdSet(a) <==> x in a;
      assert x in IdSet(b) <==> x in b;
    }
  }

  lemma LockedCartKeys(db: Db, user: Id, ids: seq<Id>, cart: map<Id, CartItem>)
    requires CartLocked(db, user, SortIds(ids), cart, |SortIds(ids)|)
    requires forall i :: 0 <= i < |SortIds(ids)| ==> SortIds(ids)[i] in cart
    ensures cart.Keys == IdSet(ids)
  {
    var sorted := SortIds(ids);
    SortIdsFacts(ids);
    SameIdSet(ids, sorted);
    forall c ensures c in cart <==> c in IdSet(sorted) {
      assert c in cart ==> c in sorted;
    }
  }

  /** Once every requested row is locked, the locked rows are the SELECT's result. */
  lemma AllCartLocked(db: Db, user: Id, ids: seq<Id>, cart: map<Id, CartItem>)
    requires CartLocked(db, user, SortIds(ids), cart, |SortIds(ids)|)
    requires forall i :: 0 <= i < |SortIds(ids)| ==> SortIds(ids)[i] in cart
    ensures LockCart(db, user, ids) == Ok(RowsOf(cart, SortIds(ids)))
    ensures cart.Keys == IdSet(ids)
  {
    var sorted := SortIds(ids);
    SortIdsFacts(ids);
    forall i | 0 <= i < |sorted| ensures OwnsCartRow(db, user, sorted[i]) && db.carts[sorted[i]] == cart[sorted[i]] {
      assert sorted[i] in cart;
    }
    SelectCartAll(db, user, sorted);
    assert SelectCart(db, user, sorted) == RowsOf(cart, sorted);
    forall i | 0 <= i < |ids| ensures OwnsCartRow(db, user, ids[i]) {
      assert ids[i] in sorted;
    }
    LockedCartKeys(db, user, ids, cart);
  }

  /** Once every product row is locked, the locked rows are LockByIDs' result. */
  lemma AllProductsLocked(db: Db, ids: seq<Id>, prods: map<Id, Product>)
    requires ProductsLocked(db, SortIds(ids), prods, |SortIds(ids)|)
    ensures LockProducts(db.products, ids) == Ok(prods)
  {
    var sorted := SortIds(ids);
    SortIdsFacts(ids);
    assert sorted[..|sorted|] == sorted;
    forall i | 0 <= i < |ids| ensures ids[i] in prods {
      assert ids[i] in sorted;
    }
    var locked := LockProducts(db.products, ids).value;
    forall p ensures p in locked <==> p in prods {
      assert p in prods ==> p in sorted;
    }
    assert locked == prods;
  }

  lemma CartStepOk(db: Db, tx: Tx, addr: Address, cart: map<Id, CartItem>, next: nat)
    requires tx.CreateTx? && tx.cpc == CWantCart(addr, cart, next) && CreateOk(db, tx)
    ensures CreateOk(db, CartStep(db, tx, addr, cart, next))
  {
    var ids := SortIds(tx.req.cartIds);
    if next < |ids| {
      assert ids[..next + 1] == ids[..next] + [ids[next]];
      if OwnsCartRow(db, tx.user, ids[next]) {
        var more := cart[ids[next] := db.carts[ids[next]]];
        assert CartLocked(db, tx.user, ids, more, next + 1);
        assert CartRows(more.Keys) == CartRows(cart.Keys) + {CartRow(ids[next])};
      }
    } else if forall i :: 0 <= i < |ids| ==> ids[i] in cart {
      AllCartLocked(db, tx.user, tx.req.cartIds, cart);
      var none: map<Id, Product> := map[];
      assert ProductRows(none.Keys) == {};
      assert ProductsLocked(db, SortIds(ProductIds(RowsOf(cart, ids))), none, 0);
    }
  }

  lemma NextProductOk(db: Db, tx: Tx, addr: Address, rows: seq<CartItem>, prods: map<Id, Product>, next: nat)
    requires tx.CreateTx? && tx.cpc == CWantProduct(addr, rows, prods, next) && CreateOk(db, tx)
    requires next < |SortIds(ProductIds(rows))|
    ensures CreateOk(db, ProductStep(db, tx, addr, rows, prods, next))
  {
    var ids := SortIds(ProductIds(rows));
    assert ids[..next + 1] == ids[..next] + [ids[next]];
    if ids[next] in db.products {
      var more := prods[ids[next] := db.products[ids[next]]];
      assert ProductsLocked(db, ids, more, next + 1);
      assert ProductRows(more.Keys) == ProductRows(prods.Keys) + {ProductRow(ids[next])};
    }
  }

  lemma ProductStepOk(db: Db, tx: Tx, addr: Address, rows: seq<CartItem>, prods: map<Id, Product>, next: nat)
    requires tx.CreateTx? && tx.cpc == CWantProduct(addr, rows, prods, next) && CreateOk(db, tx)
    ensures CreateOk(db, ProductStep(db, tx, addr, rows, prods, next))
  {
    if next < |SortIds(ProductIds(rows))| {
      NextProductOk(db, tx, addr, rows, prods, next);
    } else {
      AllProductsLocked(db, ProductIds(rows), prods);
    }
  }

  lemma InsertStepOk(db: Db, tx: Tx, addr: Address, rows: seq<CartItem>, prods: map<Id, Product>, newId: Id)
    requires tx.CreateTx? && tx.cpc == CBuilding(addr, rows, prods) && CreateOk(db, tx)
    ensures CreateOk(db, InsertStep(db, tx, addr, rows, prods, newId))
  {
    if Build(db.users[tx.user], addr, rows, prods, tx.user, tx.token, tx.req, newId).Ok? {
      BuiltNames(db.users[tx.user], addr, rows, prods, tx.user, tx.token, tx.req, newId);
    }
  }

  lemma DecideReplayOk(db: Db, tx: Tx, i: nat)
    requires tx.CreateTx? && i < |db.orders| && OrdersUnique(db.orders)
    requires db.orders[i].user == tx.user && db.orders[i].token == tx.token
    ensures CreateOk(db, DecideReplay(db, tx, db.orders[i]))
  {
    FoundAt(db.orders, i);
  }

  lemma CommitOk(db: Db, tx: Tx)
    requires tx.CreateTx? && tx.cpc.CInserted? && CreateOk(db, tx)
    ensures CreateOk(ApplyWrites(db, tx.cpc.writes), Finish(tx, Created(tx.cpc.writes.order.id)))
  {
    var w := tx.cpc.writes;
    BuiltNames(db.users[tx.user], tx.cpc.addr, tx.cpc.rows, tx.cpc.prods, tx.user, tx.token, tx.req, w.order.id);
    FindOrderAppend(db.orders, w.order, w.order.id);
  }

  lemma {:induction false} CreateStepOk(db: Db, tx: Tx, newId: Id)
    requires tx.CreateTx? && CreateOk(db, tx) && OrdersUnique(db.orders) && OutcomeOf(tx).None?
    ensures CreateStep(db, tx, newId).0.CreateTx?
    ensures CreateOk(CreateStep(db, tx, newId).1, CreateStep(db, tx, newId).0)
  {
    match tx.cpc
    case CStart =>
      var found := FindToken(db.orders, tx.user, tx.token);
      if found.Some? {
        FoundAt(db.orders, found.value);
      }
    case CReplaying(o) => DecideReplayOk(db, tx, FindOrder(db.orders, o.id).value);
    case CWantAddr =>
      var none: map<Id, CartItem> := map[];
      assert CartRows(none.Keys) == {};
    case CWantCart(addr, cart, next) => CartStepOk(db, tx, addr, cart, next);
    case CRecheck(_, _) =>
      var found := FindToken(db.orders, tx.user, tx.token);
      if found.Some? {
        DecideReplayOk(db, tx, found.value);
      }
    case CWantProduct(addr, rows, prods, next) => ProductStepOk(db, tx, addr, rows, prods, next);
    case CBuilding(addr, rows, prods) => InsertStepOk(db, tx, addr, rows, prods, newId);
    case CInserted(_, _, _, _) => CommitOk(db, tx);
    case CConflict =>
      var found := FindToken(db.orders, tx.user, tx.token);
      if found.Some? {
        FoundAt(db.orders, found.value);
      }
    case CWantUser =>
  }

  // ---------- the other calls ----------

  lemma MoveStepOk(db: Db, tx: Tx)
    requires tx.MoveTx? && MoveOk(db, tx)
    ensures MoveOk(MoveStep(db, tx).1, MoveStep(db, tx).0)
  {
  }

  lemma ItemsOfSorted(o: Order, db: Db)
    requires var ids := SortIds(ItemIds(o)); forall i :: 0 <= i < |ids| ==> ids[i] in db.products
    ensures forall i :: 0 <= i < |o.items| ==> o.items[i].product in db.products
    ensures IdSet(SortIds(ItemIds(o))) == IdSet(ItemIds(o))
  {
    SortIdsFacts(ItemIds(o));
    forall i | 0 <= i < |o.items| ensures o.items[i].product in db.products {
      assert ItemIds(o)[i] in SortIds(ItemIds(o));
    }
    SameIdSet(SortIds(ItemIds(o)), ItemIds(o));
  }

  lemma ApproveUserOk(db: Db, tx: Tx)
    requires tx.ApproveTx? && ApproveOk(db, tx) && tx.apc.AWantUser?
    ensures ApproveOk(ApproveStep(db, tx).1, ApproveStep(db, tx).0)
  {
    assert ProductRows(IdSet(SortIds(ItemIds(tx.apc.current))[..0])) == {};
  }

  lemma NextProductRow(ids: seq<Id>, next: nat)
    requires next < |ids|
    ensures ProductRows(IdSet(ids[..next + 1])) == ProductRows(IdSet(ids[..next])) + {ProductRow(ids[next])}
  {
    assert ids[..next + 1] == ids[..next] + [ids[next]];
    assert IdSet(ids[..next + 1]) == IdSet(ids[..next]) + {ids[next]};
  }

  lemma ApproveProductOk(db: Db, tx: Tx)
    requires tx.ApproveTx? && ApproveOk(db, tx) && tx.apc.AWantProduct?
    ensures ApproveOk(ApproveStep(db, tx).1, ApproveStep(db, tx).0)
  {
    var ids, next := SortIds(ItemIds(tx.apc.current)), tx.apc.next;
    if next < |ids| {
      NextProductRow(ids, next);
    } else {
      assert ids[..next] == ids;
      ItemsOfSorted(tx.apc.current, db);
    }
  }

  lemma ApproveStepOk(db: Db, tx: Tx)
    requires tx.ApproveTx? && ApproveOk(db, tx)
    ensures ApproveOk(ApproveStep(db, tx).1, ApproveStep(db, tx).0)
  {
    match tx.apc
    case AWantUser(_) => ApproveUserOk(db, tx);
    case AWantProduct(_, _) => ApproveProductOk(db, tx);
    case _ =>
  }

  lemma AdjustCommitOk(db: Db, tx: Tx)
    requires tx.AdjustTx? && AdjustOk(db, tx) && tx.jpc.JInserted?
    ensures AdjustOk(AdjustStep(db, tx).1, AdjustStep(db, tx).0)
  {
    FindKeyAppend(db.ledger, tx.jpc.row, tx.jpc.row.key);
  }

  lemma AdjustReplayOk(db: Db, tx: Tx)
    requires tx.AdjustTx? && AdjustOk(db, tx) && (tx.jpc.JStart? || tx.jpc.JConflict?)
    ensures AdjustOk(AdjustStep(db, tx).1, AdjustStep(db, tx).0)
  {
  }

  lemma AdjustPostOk(db: Db, tx: Tx)
    requires tx.AdjustTx? && AdjustOk(db, tx) && (tx.jpc.JWantUser? || tx.jpc.JBuilding?)
    ensures AdjustOk(AdjustStep(db, tx).1, AdjustStep(db, tx).0)
  {
  }

  lemma AdjustStepOk(db: Db, tx: Tx)
    requires tx.AdjustTx? && AdjustOk(db, tx) && OutcomeOf(tx).None?
    ensures AdjustOk(AdjustStep(db, tx).1, AdjustStep(db, tx).0)
  {
    match tx.jpc
    case JInserted(_) => AdjustCommitOk(db, tx);
    case JWantUser => AdjustPostOk(db, tx);
    case JBuilding => AdjustPostOk(db, tx);
    case JStart => AdjustReplayOk(db, tx);
    case JConflict => AdjustReplayOk(db, tx);
  }

  lemma LoginStepOk(db: Db, tx: Tx, newId: Id)
    requires tx.LoginTx? && LoginOk(db, tx) && OutcomeOf(tx).None?
    requires tx.bonus > 0 ==> SignupPosted(db.users, db.ledger)
    ensures LoginOk(LoginStep(db, tx, newId).1, LoginStep(db, tx, newId).0)
  {
  }

  lemma CreateTxOk(db: Db, tx: Tx, newId: Id)
    requires tx.CreateTx? && OrdersUnique(db.orders) && TxOk(db, tx) && OutcomeOf(tx).None?
    ensures TxOk(TxStep(db, tx, newId).1, TxStep(db, tx, newId).0)
  {
    CreateStepOk(db, tx, newId);
  }

  lemma MoveTxOk(db: Db, tx: Tx, newId: Id)
    requires tx.MoveTx? && TxOk(db, tx)
    ensures TxOk(TxStep(db, tx, newId).1, TxStep(db, tx, newId).0)
  {
    MoveStepOk(db, tx);
  }

  lemma ApproveTxOk(db: Db, tx: Tx, newId: Id)
    requires tx.ApproveTx? && TxOk(db, tx)
    ensures TxOk(TxStep(db, tx, newId).1, TxStep(db, tx, newId).0)
  {
    ApproveStepOk(db, tx);
  }

  lemma AdjustTxOk(db: Db, tx: Tx, newId: Id)
    requires tx.AdjustTx? && TxOk(db, tx) && OutcomeOf(tx).None?
    ensures TxOk(TxStep(db, tx, newId).1, TxStep(db, tx, newId).0)
  {
    AdjustStepOk(db, tx);
  }

  lemma LoginTxOk(db: Db, tx: Tx, newId: Id)
    requires tx.LoginTx? && TxOk(db, tx) && OutcomeOf(tx).None?
    requires tx.bonus > 0 ==> SignupPosted(db.users, db.ledger)
    ensures TxOk(TxStep(db, tx, newId).1, TxStep(db, tx, newId).0)
  {
    LoginStepOk(db, tx, newId);
  }

  lemma {:induction false} StepOk(db: Db, tx: Tx, newId: Id)
    requires Inv(db) && TxOk(db, tx) && OutcomeOf(tx).None?
    requires tx.LoginTx? && tx.bonus > 0 ==> SignupPosted(db.users, db.ledger)
    ensures TxOk(TxStep(db, tx, newId).1, TxStep(db, tx, newId).0)
  {
    match tx
    case CreateTx(_, _, _, _, _) => CreateTxOk(db, tx, newId);
    case MoveTx(_, _, _) => MoveTxOk(db, tx, newId);
    case ApproveTx(_, _, _, _) => ApproveTxOk(db, tx, newId);
    case AdjustTx(_, _, _, _, _) => AdjustTxOk(db, tx, newId);
    case LoginTx(_, _, _, _) => LoginTxOk(db, tx, newId);
  }
}
