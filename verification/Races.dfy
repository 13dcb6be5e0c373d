/** Exactly-once under races: what two calls with the same token, key or order
    can do to each other, in every interleaving of their lock steps. */
module Races {
  import opened Base
  import opened EventKeys
  import opened Tables
  import opened Checkout
  import opened Lifecycle
  import opened Accounts
  import opened Invariants
  import opened History
  import opened Replay
  import opened Stock
  import opened LockModel
  import opened LockInvariant
  import opened LockSteps
  import opened LockRuns

  // ---------- one effect per call ----------

  /** The outcomes that come with a commit. */
  predicate Wrote(tx: Tx) {
    var o := OutcomeOf(tx);
    o.Some? && (o.value.Created? || o.value.Moved? || o.value.Approved? || o.value.Posted? || o.value.LoggedIn?)
  }

  lemma CreateWriterWins(db: Db, tx: Tx, newId: Id)
    requires tx.CreateTx? && CreateStep(db, tx, newId).1 != db
    ensures Wrote(CreateStep(db, tx, newId).0)
  {
  }

  lemma WriterWins(db: Db, tx: Tx, newId: Id)
    requires TxStep(db, tx, newId).1 != db
    ensures Wrote(TxStep(db, tx, newId).0)
  {
    match tx
    case CreateTx(_, _, _, _, _) => CreateWriterWins(db, tx, newId);
    case _ =>
  }

  lemma {:induction false} PrefixRuns(sys: Sys, labels: seq<Label>, k: nat)
    requires IsRun(sys, labels) && k <= |labels|
    ensures IsRun(sys, labels[..k])
  {
    if k < |labels| {
      assert labels[..|labels| - 1][..k] == labels[..k];
      PrefixRuns(sys, labels[..|labels| - 1], k);
    } else {
      assert labels[..k] == labels;
    }
  }

  ghost function StateAt(sys: Sys, labels: seq<Label>, k: nat): Sys
    requires IsRun(sys, labels) && k <= |labels|
  {
    PrefixRuns(sys, labels, k);
    EndOf(sys, labels[..k])
  }

  lemma StateAtNext(sys: Sys, labels: seq<Label>, k: nat)
    requires IsRun(sys, labels) && k < |labels|
    ensures Enabled(StateAt(sys, labels, k), labels[k])
    ensures StateAt(sys, labels, k + 1) == After(StateAt(sys, labels, k), labels[k])
  {
    PrefixRuns(sys, labels, k + 1);
    assert labels[..k + 1][..k] == labels[..k];
  }

  lemma FinishedStays(sys: Sys, l: Label, tid: nat)
    requires Enabled(sys, l) && tid in sys.txs && OutcomeOf(sys.txs[tid]).Some?
    ensures tid in After(sys, l).txs && After(sys, l).txs[tid] == sys.txs[tid]
  {
  }

  /** A finished call stays as it finished. */
  lemma {:induction false} FinishedForever(sys: Sys, labels: seq<Label>, k: nat, tid: nat)
    requires IsRun(sys, labels) && k <= |labels|
    requires tid in StateAt(sys, labels, k).txs && OutcomeOf(StateAt(sys, labels, k).txs[tid]).Some?
    ensures tid in EndOf(sys, labels).txs && EndOf(sys, labels).txs[tid] == StateAt(sys, labels, k).txs[tid]
  {
    if k == |labels| {
      assert labels[..k] == labels;
    } else {
      var n := |labels| - 1;
      assert labels[..n][..k] == labels[..k];
      FinishedForever(sys, labels[..n], k, tid);
      FinishedStays(EndOf(sys, labels[..n]), labels[n], tid);
    }
  }

  /** Step k of the run is a step of call tid and changes the database. */
  ghost predicate Writes(sys: Sys, labels: seq<Label>, k: nat, tid: nat)
    requires IsRun(sys, labels)
  {
    k < |labels| && labels[k].Next? && labels[k].tid == tid
      && StateAt(sys, labels, k + 1).db != StateAt(sys, labels, k).db
  }

  lemma {:induction false} WriterFinished(sys: Sys, labels: seq<Label>, k: nat, tid: nat)
    requires IsRun(sys, labels) && Writes(sys, labels, k, tid)
    ensures tid in StateAt(sys, labels, k + 1).txs && Wrote(StateAt(sys, labels, k + 1).txs[tid])
  {
    StateAtNext(sys, labels, k);
    var before := StateAt(sys, labels, k);
    WriterWins(before.db, before.txs[tid], labels[k].newId);
  }

  /** Only a call that ends as a winner ever changes the database. A replay, a
      refusal, a lost race or an abort at any lock point leaves balances, stock,
      cart, orders and ledger as they were. */
  lemma {:induction false} LosersHaveNoEffect(sys: Sys, labels: seq<Label>, k: nat, tid: nat)
    requires IsRun(sys, labels) && Writes(sys, labels, k, tid)
    ensures tid in EndOf(sys, labels).txs && Wrote(EndOf(sys, labels).txs[tid])
  {
    WriterFinished(sys, labels, k, tid);
    FinishedForever(sys, labels, k + 1, tid);
  }

  /** And it does so in one step: no interleaving sees half of a call. */
  lemma {:induction false} OneEffectPerCall(sys: Sys, labels: seq<Label>, j: nat, k: nat, tid: nat)
    requires IsRun(sys, labels) && Writes(sys, labels, j, tid) && Writes(sys, labels, k, tid)
    ensures j == k
  {
    var first, second := if j < k then j else k, if j < k then k else j;
    if first < second {
      WriterFinished(sys, labels, first, tid);
      PrefixRuns(sys, labels, second);
      assert labels[..second][..first + 1] == labels[..first + 1];
      FinishedForever(sys, labels[..second], first + 1, tid);
      StateAtNext(sys, labels, second);
      assert false;
    }
  }

  // ---------- exactly-once creation ----------

  /** The call asked for (user, token) and was answered with order id. */
  predicate Answered(tx: Tx, user: Id, token: string, id: Id) {
    && tx.CreateTx? && tx.user == user && tx.token == token
    && (OutcomeOf(tx) == Some(Created(id)) || OutcomeOf(tx) == Some(Replayed(id)))
  }

  /** Call t created the order it was answered with. */
  predicate CreatedBy(sys: Sys, t: nat, user: Id, token: string, id: Id) {
    t in sys.txs && Answered(sys.txs[t], user, token, id) && OutcomeOf(sys.txs[t]) == Some(Created(id))
  }

  predicate Asked(o: Order, user: Id, token: string) {
    o.user == user && o.token == token
  }

  lemma {:induction false} AnsweredOrder(sys: Sys, t: nat, user: Id, token: string, id: Id)
    requires SysOk(sys) && t in sys.txs && Answered(sys.txs[t], user, token, id)
    ensures FindToken(sys.db.orders, user, token).Some?
    ensures sys.db.orders[FindToken(sys.db.orders, user, token).value].id == id
  {
    assert TxOk(sys.db, sys.txs[t]);
    FoundAt(sys.db.orders, FindOrder(sys.db.orders, id).value);
  }

  lemma SamePoster(sys: Sys, t: nat, u: nat)
    requires SysOk(sys) && t in sys.txs && u in sys.txs
    requires EventOf(sys.txs[t]).Some? && EventOf(sys.txs[u]) == EventOf(sys.txs[t])
    ensures t == u
  {
  }

  /** For any number of concurrent creates with one (user, token): at most one
      order exists, every successful call was answered with it, and at most one
      call created it. */
  lemma {:induction false} ExactlyOnceCreation(sys: Sys, labels: seq<Label>, user: Id, token: string)
    requires SysOk(sys) && IsRun(sys, labels)
    ensures var end := EndOf(sys, labels);
            var found := FindToken(end.db.orders, user, token);
            && (forall i :: 0 <= i < |end.db.orders| && Asked(end.db.orders[i], user, token) ==>
                  found == Some(i))
            && (forall t, id :: t in end.txs && Answered(end.txs[t], user, token, id) ==>
                  found.Some? && end.db.orders[found.value].id == id)
            && (forall t, u, id, jd ::
                  CreatedBy(end, t, user, token, id) && CreatedBy(end, u, user, token, jd) ==> t == u)
  {
    LockRunKeeps(sys, labels);
    var end := EndOf(sys, labels);
    forall i | 0 <= i < |end.db.orders| && Asked(end.db.orders[i], user, token)
      ensures FindToken(end.db.orders, user, token) == Some(i)
    {
      FoundAt(end.db.orders, i);
    }
    forall t, id | t in end.txs && Answered(end.txs[t], user, token, id)
      ensures FindToken(end.db.orders, user, token).Some?
      ensures end.db.orders[FindToken(end.db.orders, user, token).value].id == id
    {
      AnsweredOrder(end, t, user, token, id);
    }
    forall t, u, id, jd | CreatedBy(end, t, user, token, id) && CreatedBy(end, u, user, token, jd)
      ensures t == u
    {
      AnsweredOrder(end, t, user, token, id);
      AnsweredOrder(end, u, user, token, jd);
      SamePoster(end, t, u);
    }
  }

  /** Racing approvers of one order, or racing adjustments of one (administrator,
      key) even for different buyers: at most one of them commits. */
  lemma {:induction false} OneWinnerPerEvent(sys: Sys, labels: seq<Label>, t: nat, u: nat)
    requires SysOk(sys) && IsRun(sys, labels)
    requires t in EndOf(sys, labels).txs && u in EndOf(sys, labels).txs
    requires EventOf(EndOf(sys, labels).txs[t]).Some?
             && EventOf(EndOf(sys, labels).txs[u]) == EventOf(EndOf(sys, labels).txs[t])
    ensures t == u
  {
    LockRunKeeps(sys, labels);
    SamePoster(EndOf(sys, labels), t, u);
  }

  /** The call asked for (admin, key) and was answered with the ledger row. */
  predicate AdjustAnswered(tx: Tx, admin: Id, key: string, row: LedgerRow) {
    && tx.AdjustTx? && tx.admin == admin && tx.key == key
    && (OutcomeOf(tx) == Some(Posted(row)) || OutcomeOf(tx) == Some(PostReplayed(row)))
  }

  /** Every successful adjustment of one (administrator, key) was asked for the
      same thing and answered with the one row of that key. */
  lemma {:induction false} AdjustmentOnce(sys: Sys, labels: seq<Label>, admin: Id, key: string, t: nat, row: LedgerRow)
    requires SysOk(sys) && IsRun(sys, labels)
    requires t in EndOf(sys, labels).txs && AdjustAnswered(EndOf(sys, labels).txs[t], admin, key, row)
    ensures var end := EndOf(sys, labels);
            && FindKey(end.db.ledger, AdminAdjust(admin, key)).Some?
            && end.db.ledger[FindKey(end.db.ledger, AdminAdjust(admin, key)).value] == row
            && row.hash == Some(ComputeAdjustHash(end.txs[t].adjustment))
            && RowsWithKey(end.db.ledger, AdminAdjust(admin, key))
               == {FindKey(end.db.ledger, AdminAdjust(admin, key)).value}
  {
    LockRunKeeps(sys, labels);
    var end := EndOf(sys, labels);
    assert TxOk(end.db, end.txs[t]);
    OneRowPerKey(end.db.ledger, AdminAdjust(admin, key));
  }

  /** All logins of one openid, first ones racing included, are answered with the
      same buyer, and that buyer has exactly one signup row when there is a bonus. */
  lemma OneBuyerPerOpenid(sys: Sys, labels: seq<Label>, t: nat, u: nat)
    requires SysOk(sys) && IsRun(sys, labels)
    requires var end := EndOf(sys, labels);
             && t in end.txs && end.txs[t].LoginTx? && u in end.txs && end.txs[u].LoginTx?
             && Trim(end.txs[t].openid) == Trim(end.txs[u].openid)
             && OutcomeOf(end.txs[t]).Some? && OutcomeOf(end.txs[t]).value.LoggedIn?
             && OutcomeOf(end.txs[u]).Some? && OutcomeOf(end.txs[u]).value.LoggedIn?
    ensures var end := EndOf(sys, labels);
            var user := OutcomeOf(end.txs[t]).value.user;
            && OutcomeOf(end.txs[u]).value.user == user
            && user in end.db.users
            && (sys.bonus > 0 && user != ZERO_ID ==>
                  FindKey(end.db.ledger, Signup(user)).Some?
                  && RowsWithKey(end.db.ledger, Signup(user)) == {FindKey(end.db.ledger, Signup(user)).value})
  {
    LockRunKeeps(sys, labels);
    BonusForever(sys, labels);
    var end := EndOf(sys, labels);
    assert TxOk(end.db, end.txs[t]) && TxOk(end.db, end.txs[u]);
    OneRowPerKey(end.db.ledger, Signup(OutcomeOf(end.txs[t]).value.user));
  }

  lemma {:induction false} BonusForever(sys: Sys, labels: seq<Label>)
    requires IsRun(sys, labels)
    ensures EndOf(sys, labels).bonus == sys.bonus
  {
    if labels != [] {
      BonusForever(sys, labels[..|labels| - 1]);
    }
  }

  // ---------- the unlocked re-check ----------

  /** A create that has inserted its order and not yet committed. */
  predicate Uncommitted(tx: Tx, user: Id) {
    tx.CreateTx? && tx.user == user && tx.cpc.CInserted?
  }

  lemma UncommittedHoldsUser(db: Db, tx: Tx, user: Id)
    requires TxOk(db, tx)
    ensures Uncommitted(tx, user) ==> UserRow(user) in tx.held
  {
  }

  /** While one call holds a buyer's row, no other create of that buyer has an
      uncommitted order. */
  lemma {:induction false} UserLockExcludesInserts(sys: Sys, labels: seq<Label>, t: nat, u: nat, user: Id)
    requires SysOk(sys) && IsRun(sys, labels)
    requires t in EndOf(sys, labels).txs && u in EndOf(sys, labels).txs && t != u
    requires UserRow(user) in EndOf(sys, labels).txs[t].held
    ensures !Uncommitted(EndOf(sys, labels).txs[u], user)
  {
    LockRunKeeps(sys, labels);
    var end := EndOf(sys, labels);
    assert TxOk(end.db, end.txs[u]);
    UncommittedHoldsUser(end.db, end.txs[u], user);
  }

  lemma LockedRowsAreNoSlot(user: Id, req: OrderRequest, cartIds: set<Id>, products: set<Id>, slot: Row)
    requires slot.TokenSlot?
    ensures slot !in BuyerRows(user, req) + CartRows(cartIds) + ProductRows(products)
  {
  }

  lemma {:induction false} CreateSlotHolder(db: Db, tx: Tx, slot: Row)
    requires tx.CreateTx? && CreateOk(db, tx) && slot.TokenSlot? && !tx.cpc.CInserted?
    ensures slot !in tx.held
  {
    match tx.cpc
    case CWantCart(_, cart, _) => LockedRowsAreNoSlot(tx.user, tx.req, cart.Keys, {}, slot);
    case CRecheck(_, cart) => LockedRowsAreNoSlot(tx.user, tx.req, cart.Keys, {}, slot);
    case CWantProduct(_, _, prods, _) => LockedRowsAreNoSlot(tx.user, tx.req, IdSet(tx.req.cartIds), prods.Keys, slot);
    case CBuilding(_, _, prods) => LockedRowsAreNoSlot(tx.user, tx.req, IdSet(tx.req.cartIds), prods.Keys, slot);
    case _ =>
  }

  lemma OtherSlot(base: set<Row>, mine: Row, id: Id, slot: Row)
    requires slot.TokenSlot? && slot !in base && slot in base + {mine, OrderRow(id), KeySlot(OrderPay(id))}
    ensures slot == mine
  {
  }

  lemma {:induction false} InsertedSlotHolder(db: Db, tx: Tx, slot: Row)
    requires tx.CreateTx? && CreateOk(db, tx) && tx.cpc.CInserted? && slot.TokenSlot? && slot in tx.held
    ensures slot == TokenSlot(tx.user, tx.token)
  {
    LockedRowsAreNoSlot(tx.user, tx.req, IdSet(tx.req.cartIds), tx.cpc.prods.Keys, slot);
    OtherSlot(BuyerRows(tx.user, tx.req) + CartRows(IdSet(tx.req.cartIds)) + ProductRows(tx.cpc.prods.Keys),
              TokenSlot(tx.user, tx.token), tx.cpc.writes.order.id, slot);
  }

  /** Only a create that has inserted holds its token's slot. */
  lemma {:induction false} SlotHolder(db: Db, tx: Tx, user: Id, token: string)
    requires TxOk(db, tx) && TokenSlot(user, token) in tx.held
    ensures Uncommitted(tx, user)
  {
    match tx
    case CreateTx(_, _, _, pc, _) =>
      if pc.CInserted? {
        InsertedSlotHolder(db, tx, TokenSlot(user, token));
      } else {
        CreateSlotHolder(db, tx, TokenSlot(user, token));
      }
    case _ =>
  }

  /** The buyer's row lock also orders the INSERTs: a create that is about to
      insert never finds another session's uncommitted order of its token. */
  lemma {:induction false} InsertNeverWaits(sys: Sys, labels: seq<Label>, t: nat)
    requires SysOk(sys) && IsRun(sys, labels)
    requires t in EndOf(sys, labels).txs && EndOf(sys, labels).txs[t].CreateTx?
             && EndOf(sys, labels).txs[t].cpc.CBuilding?
    ensures CanStep(EndOf(sys, labels), t)
  {
    LockRunKeeps(sys, labels);
    var end := EndOf(sys, labels);
    var tx := end.txs[t];
    assert TxOk(end.db, tx);
    forall u | u in end.txs && u != t ensures TokenSlot(tx.user, tx.token) !in end.txs[u].held {
      assert TxOk(end.db, end.txs[u]);
      UserLockExcludesInserts(sys, labels, t, u, tx.user);
      if TokenSlot(tx.user, tx.token) in end.txs[u].held {
        SlotHolder(end.db, end.txs[u], tx.user, tx.token);
      }
    }
  }

  /** So the re-check read, which takes no lock, cannot miss a winner: when it
      finds nothing, no call with the token has created an order and none is
      about to commit one. */
  lemma {:induction false} RecheckMissesNothing(sys: Sys, labels: seq<Label>, t: nat, u: nat)
    requires SysOk(sys) && IsRun(sys, labels)
    requires t in EndOf(sys, labels).txs && EndOf(sys, labels).txs[t].CreateTx?
             && EndOf(sys, labels).txs[t].cpc.CRecheck?
    requires FindToken(EndOf(sys, labels).db.orders, EndOf(sys, labels).txs[t].user,
             EndOf(sys, labels).txs[t].token).None?
    requires u in EndOf(sys, labels).txs && u != t
    ensures var end := EndOf(sys, labels);
            && !Uncommitted(end.txs[u], end.txs[t].user)
            && forall id :: !Answered(end.txs[u], end.txs[t].user, end.txs[t].token, id)
  {
    LockRunKeeps(sys, labels);
    var end := EndOf(sys, labels);
    assert TxOk(end.db, end.txs[t]);
    UserLockExcludesInserts(sys, labels, t, u, end.txs[t].user);
    forall id ensures !Answered(end.txs[u], end.txs[t].user, end.txs[t].token, id) {
      if Answered(end.txs[u], end.txs[t].user, end.txs[t].token, id) {
        AnsweredOrder(end, u, end.txs[t].user, end.txs[t].token, id);
      }
    }
  }

  // ---------- answers ----------

  /** The same call, run in one piece on db, answers o and leaves `after`. */
  predicate AtomicAnswer(db: Db, tx: Tx, o: Outcome, newId: Id, after: Db) {
    match o
    case Created(id) =>
      tx.CreateTx? && (var r := CreateOrder(db, tx.user, tx.token, tx.req, id);
                       r.0 == after && r.1.Ok? && r.1.value.id == id)
    case Replayed(id) =>
      tx.CreateTx? && (var r := CreateOrder(db, tx.user, tx.token, tx.req, newId);
                       r.0 == after && r.1.Ok? && r.1.value.id == id)
    case Moved => tx.MoveTx? && Move(db, tx.move).0 == after && Move(db, tx.move).1.Ok?
    case Approved => tx.ApproveTx? && Approve(db, tx.admin, tx.order).0 == after
      && Approve(db, tx.admin, tx.order).1.Ok?
    case Posted(row) => tx.AdjustTx? && Adjust(db, tx.admin, tx.key, tx.adjustment) == (after, Ok(row))
    case PostReplayed(row) => tx.AdjustTx? && Adjust(db, tx.admin, tx.key, tx.adjustment) == (after, Ok(row))
    case LoggedIn(user, balance) =>
      tx.LoginTx? && UpsertByOpenID(db, tx.openid, tx.bonus, user) == (after, Ok(Login(user, balance)))
    case Failed(_) => after == db
  }

  lemma DecidedReplay(db: Db, tx: Tx, i: nat, newId: Id)
    requires tx.CreateTx? && CreateCallOk(tx.user, tx.token, tx.req)
             && FindToken(db.orders, tx.user, tx.token) == Some(i)
    ensures AtomicAnswer(db, tx, OutcomeOf(DecideReplay(db, tx, db.orders[i])).value, newId, db)
  {
  }

  lemma {:induction false} CommitAnswers(db: Db, tx: Tx, newId: Id)
    requires tx.CreateTx? && tx.cpc.CInserted? && CreateOk(db, tx)
    ensures var (tx', after) := CreateStep(db, tx, newId);
            AtomicAnswer(db, tx, OutcomeOf(tx').value, newId, after)
  {
    CreateCommits(db, tx);
  }

  lemma ReplayAnswers(db: Db, tx: Tx, newId: Id)
    requires tx.CreateTx? && CreateOk(db, tx) && OrdersUnique(db.orders)
    requires tx.cpc.CReplaying? || tx.cpc.CRecheck? || tx.cpc.CConflict?
    ensures var (tx', after) := CreateStep(db, tx, newId);
            AtomicAnswer(db, tx, OutcomeOf(tx').value, newId, after)
  {
    var found := FindToken(db.orders, tx.user, tx.token);
    if tx.cpc.CReplaying? {
      FoundAt(db.orders, FindOrder(db.orders, tx.cpc.existing.id).value);
    }
    if found.Some? {
      DecidedReplay(db, tx, found.value, newId);
    }
  }

  /** The remaining steps of a checkout answer with a refusal or not at all. */
  lemma OtherCreateSteps(db: Db, tx: Tx, newId: Id)
    requires tx.CreateTx? && OutcomeOf(tx).None?
    requires !tx.cpc.CInserted? && !tx.cpc.CReplaying? && !tx.cpc.CRecheck? && !tx.cpc.CConflict?
    ensures var (tx', after) := CreateStep(db, tx, newId);
            after == db && (OutcomeOf(tx').Some? ==> OutcomeOf(tx').value.Failed?)
  {
  }

  lemma {:induction false} CreateAnswers(db: Db, tx: Tx, newId: Id)
    requires tx.CreateTx? && CreateOk(db, tx) && OrdersUnique(db.orders) && OutcomeOf(tx).None?
    ensures var (tx', after) := CreateStep(db, tx, newId);
            OutcomeOf(tx').Some? ==> AtomicAnswer(db, tx, OutcomeOf(tx').value, newId, after)
  {
    if tx.cpc.CInserted? {
      CommitAnswers(db, tx, newId);
    } else if tx.cpc.CReplaying? || tx.cpc.CRecheck? || tx.cpc.CConflict? {
      ReplayAnswers(db, tx, newId);
    } else {
      OtherCreateSteps(db, tx, newId);
    }
  }

  lemma MoveAnswers(db: Db, tx: Tx, newId: Id)
    requires tx.MoveTx? && MoveOk(db, tx) && OutcomeOf(tx).None?
    ensures var (tx', after) := MoveStep(db, tx);
            OutcomeOf(tx').Some? ==> AtomicAnswer(db, tx, OutcomeOf(tx').value, newId, after)
  {
  }

  lemma ApproveAnswers(db: Db, tx: Tx, newId: Id)
    requires tx.ApproveTx? && ApproveOk(db, tx) && OutcomeOf(tx).None?
    ensures var (tx', after) := ApproveStep(db, tx);
            OutcomeOf(tx').Some? ==> AtomicAnswer(db, tx, OutcomeOf(tx').value, newId, after)
  {
  }

  lemma PostAnswers(db: Db, tx: Tx, newId: Id)
    requires tx.AdjustTx? && AdjustOk(db, tx) && tx.jpc.JInserted?
    ensures var (tx', after) := AdjustStep(db, tx);
            OutcomeOf(tx').Some? ==> AtomicAnswer(db, tx, OutcomeOf(tx').value, newId, after)
  {
  }

  lemma OtherPostSteps(db: Db, tx: Tx, newId: Id)
    requires tx.AdjustTx? && AdjustOk(db, tx) && OutcomeOf(tx).None? && !tx.jpc.JInserted?
    ensures var (tx', after) := AdjustStep(db, tx);
            OutcomeOf(tx').Some? ==> AtomicAnswer(db, tx, OutcomeOf(tx').value, newId, after)
  {
  }

  lemma AdjustAnswers(db: Db, tx: Tx, newId: Id)
    requires tx.AdjustTx? && AdjustOk(db, tx) && OutcomeOf(tx).None?
    ensures var (tx', after) := AdjustStep(db, tx);
            OutcomeOf(tx').Some? ==> AtomicAnswer(db, tx, OutcomeOf(tx').value, newId, after)
  {
    if tx.jpc.JInserted? {
      PostAnswers(db, tx, newId);
    } else {
      OtherPostSteps(db, tx, newId);
    }
  }

  lemma LoginAnswers(db: Db, tx: Tx, newId: Id)
    requires tx.LoginTx? && LoginOk(db, tx) && OutcomeOf(tx).None?
    ensures var (tx', after) := LoginStep(db, tx, newId);
            OutcomeOf(tx').Some? ==> AtomicAnswer(db, tx, OutcomeOf(tx').value, newId, after)
  {
  }

  /** Every answer is the one the call gives when it runs in one piece at the
      moment of the answer; a refusal changes nothing. */
  lemma {:induction false} AnswersAreAtomic(sys: Sys, tid: nat, newId: Id)
    requires SysOk(sys) && CanStep(sys, tid) && IdleId(sys, newId)
    ensures var end := After(sys, Next(tid, newId));
            OutcomeOf(end.txs[tid]).Some? ==>
              AtomicAnswer(sys.db, sys.txs[tid], OutcomeOf(end.txs[tid]).value, newId, end.db)
  {
    assert TxOk(sys.db, sys.txs[tid]);
    match sys.txs[tid]
    case CreateTx(_, _, _, _, _) => CreateAnswers(sys.db, sys.txs[tid], newId);
    case MoveTx(_, _, _) => MoveAnswers(sys.db, sys.txs[tid], newId);
    case ApproveTx(_, _, _, _) => ApproveAnswers(sys.db, sys.txs[tid], newId);
    case AdjustTx(_, _, _, _, _) => AdjustAnswers(sys.db, sys.txs[tid], newId);
    case LoginTx(_, _, _, _) => LoginAnswers(sys.db, sys.txs[tid], newId);
  }

  // ---------- losers of the insert race ----------

  lemma ConflictStep(db: Db, tx: Tx, newId: Id)
    requires tx.CreateTx? && tx.cpc.CConflict?
    ensures var found := FindToken(db.orders, tx.user, tx.token);
            OutcomeOf(CreateStep(db, tx, newId).0) ==
            if found.Some? && ResolveReplay(db, tx.user, tx.req, db.orders[found.value],
              db.orders[found.value].items).Ok?
            then Some(Replayed(db.orders[found.value].id)) else Some(Failed(UniqueViolation))
  {
  }

  /** The decision after a lost insert, for any database: the winner's order exactly
      when it was made from the same rows and the same, unedited address. Which of
      the two happens in a run is settled in LostInserts. */
  lemma ConflictAnswer(db: Db, tx: Tx, newId: Id)
    requires EachOrderOk(db.orders, db.users)
    requires tx.CreateTx? && tx.cpc.CConflict? && ValidRequest(tx.req)
    ensures var found := FindToken(db.orders, tx.user, tx.token);
            OutcomeOf(CreateStep(db, tx, newId).0) ==
            if found.Some? && OwnsAddress(db, tx.user, tx.req.address)
               && (var o := db.orders[found.value]; var addr := db.addresses[tx.req.address];
                   (forall x :: x in tx.req.cartIds <==> x in o.hash.cartIds)
                   && tx.req.address == o.hash.address && addr.version == o.hash.version && addr.snap == o.hash.snap)
            then Some(Replayed(db.orders[found.value].id))
            else Some(Failed(UniqueViolation))
  {
    var found := FindToken(db.orders, tx.user, tx.token);
    ConflictStep(db, tx, newId);
    if found.Some? {
      var o := db.orders[found.value];
      assert OrderOk(o);
      ReplayAcceptedExactly(db, tx.user, tx.req, o, o.items);
    }
  }

  // ---------- what carries over from whole calls ----------

  /** The conservation laws hold in every state any interleaving reaches. */
  lemma RacesConserve(sys: Sys, labels: seq<Label>, u: Id, p: Id)
    requires SysOk(sys) && IsRun(sys, labels)
    ensures var end := EndOf(sys, labels).db;
            && (u in end.users ==> end.users[u] == SumDeltas(end.ledger, u) >= 0)
            && OnShelf(end, p) + Reserved(end.orders, p)
               == OnShelf(sys.db, p) + Reserved(sys.db.orders, p) + NetEdits(sys.db, CommitOrder(sys, labels), p)
            && OnShelf(end, p) >= 0
  {
    LockRunsRefineRuns(sys, labels);
    LedgerConservation(sys.db, CommitOrder(sys, labels));
    StockConservation(sys.db, CommitOrder(sys, labels), p);
  }
}
