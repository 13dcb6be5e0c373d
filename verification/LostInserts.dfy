/** What becomes of a call that loses the race to its INSERT: the facts a lost
    insert leaves behind, over whole runs. */
module LostInserts {
  import opened Base
  import opened EventKeys
  import opened Tables
  import opened Checkout
  import opened Accounts
  import opened Runs
  import opened Invariants
  import opened History
  import opened Backstops
  import opened LockModel
  import opened LockInvariant
  import opened LockSteps
  import opened LockRuns
  import opened Races

  // ---------- what a lost insert knows ----------

  /** The token belongs to an order that has not consumed the first row this call
      had chosen: when it reached its INSERT, that row was still in the cart. */
  ghost predicate LostToAnother(db: Db, tx: Tx)
    requires tx.CreateTx?
  {
    var found := FindToken(db.orders, tx.user, tx.token);
    found.Some? && tx.req.cartIds != [] && tx.req.cartIds[0] !in db.orders[found.value].hash.cartIds
  }

  ghost predicate LossFacts(db: Db, tx: Tx) {
    && (tx.CreateTx? && tx.cpc.CConflict? ==> LostToAnother(db, tx))
    && (tx.AdjustTx? && tx.jpc.JConflict? ==> FindKey(db.ledger, AdminAdjust(tx.admin, tx.key)).Some?)
  }

  ghost predicate LossesOk(sys: Sys) {
    CartHistory(sys.db) && forall t :: t in sys.txs ==> LossFacts(sys.db, sys.txs[t])
  }

  /** uid.New never hands out the id of an order that exists or of a cart row that
      an order has consumed. */
  ghost predicate FreshLabel(sys: Sys, l: Label) {
    match l
    case Next(_, newId) => FindOrder(sys.db.orders, newId).None?
    case Env(s) => FreshCartId(sys.db, s)
    case _ => true
  }

  ghost predicate FreshRun(sys: Sys, labels: seq<Label>)
    requires IsRun(sys, labels)
  {
    labels == []
    || (FreshRun(sys, labels[..|labels| - 1])
        && FreshLabel(EndOf(sys, labels[..|labels| - 1]), labels[|labels| - 1]))
  }

  // ---------- the facts are kept ----------

  lemma {:induction false} FindTokenGrows(a: seq<Order>, b: seq<Order>, user: Id, token: string)
    requires |a| <= |b| && forall i :: 0 <= i < |a| ==> b[i].user == a[i].user && b[i].token == a[i].token
    requires FindToken(a, user, token).Some?
    ensures FindToken(b, user, token) == FindToken(a, user, token)
  {
    if |b| > |a| {
      FindTokenGrows(a, b[..|b| - 1], user, token);
    } else {
      var n := |a| - 1;
      if FindToken(a[..n], user, token).Some? {
        FindTokenGrows(a[..n], b[..n], user, token);
      } else {
        forall j | 0 <= j < n ensures b[..n][j].user != user || b[..n][j].token != token {
          assert b[j].user == a[j].user && b[j].token == a[j].token;
          assert a[..n][j] == a[j];
        }
      }
    }
  }

  lemma LossFactsStay(db: Db, after: Db, tx: Tx)
    requires LossFacts(db, tx) && Grows(db, after)
    ensures LossFacts(after, tx)
  {
    if tx.CreateTx? && tx.cpc.CConflict? {
      FindTokenGrows(db.orders, after.orders, tx.user, tx.token);
    }
    if tx.AdjustTx? && tx.jpc.JConflict? {
      FindKeyGrows(db.ledger, after.ledger, AdminAdjust(tx.admin, tx.key));
    }
  }

  /** With a fresh order id, the one thing an INSERT can collide with is the token. */
  lemma OnlyTokenCollides(db: Db, tx: Tx, newId: Id, w: Writes)
    requires Inv(db) && tx.CreateTx? && tx.cpc.CBuilding? && CreateOk(db, tx)
    requires Build(db.users[tx.user], tx.cpc.addr, tx.cpc.rows, tx.cpc.prods, tx.user, tx.token, tx.req, newId) == Ok(w)
    requires FindOrder(db.orders, newId).None? && InsertError(db, w) == Some(UniqueViolation)
    ensures FindToken(db.orders, tx.user, tx.token).Some?
  {
    if w.order.total <= 0 {
      ZeroTotalRefused(db, w);
    } else if FindToken(db.orders, tx.user, tx.token).None? {
      assert BalanceOk(db.users, db.ledger, tx.user);
      CheckoutFactsAt(db, tx.user, tx.token, tx.req, newId, tx.cpc.rows, tx.cpc.prods, w);
      InsertsGoThrough(db, tx.user, tx.token, tx.req, newId, w);
    }
  }

  /** At its INSERT a checkout still has its rows in the cart, so whoever holds the
      token has consumed other ones. */
  lemma InsertLosesToAnother(db: Db, tx: Tx, newId: Id)
    requires Inv(db) && CartHistory(db) && FindOrder(db.orders, newId).None?
    requires tx.CreateTx? && tx.cpc.CBuilding? && CreateOk(db, tx)
    requires InsertStep(db, tx, tx.cpc.addr, tx.cpc.rows, tx.cpc.prods, newId).cpc.CConflict?
    ensures LostToAnother(db, InsertStep(db, tx, tx.cpc.addr, tx.cpc.rows, tx.cpc.prods, newId))
  {
    var w := Build(db.users[tx.user], tx.cpc.addr, tx.cpc.rows, tx.cpc.prods, tx.user, tx.token, tx.req, newId).value;
    OnlyTokenCollides(db, tx, newId, w);
    assert OwnsCartRow(db, tx.user, tx.req.cartIds[0]);
  }

  lemma OtherStepsDoNotLose(db: Db, tx: Tx, newId: Id)
    requires tx.CreateTx? && !tx.cpc.CBuilding? && OutcomeOf(tx).None?
    ensures CreateStep(db, tx, newId).0.CreateTx? && !CreateStep(db, tx, newId).0.cpc.CConflict?
  {
  }

  lemma PostLosesToKey(db: Db, tx: Tx)
    requires tx.AdjustTx? && AdjustOk(db, tx) && OutcomeOf(tx).None?
    ensures LossFacts(AdjustStep(db, tx).1, AdjustStep(db, tx).0)
  {
  }

  lemma CreateBuildLosses(db: Db, tx: Tx, newId: Id)
    requires Inv(db) && CartHistory(db) && FindOrder(db.orders, newId).None?
    requires tx.CreateTx? && tx.cpc.CBuilding? && CreateOk(db, tx)
    ensures LossFacts(CreateStep(db, tx, newId).1, CreateStep(db, tx, newId).0)
  {
    var after := InsertStep(db, tx, tx.cpc.addr, tx.cpc.rows, tx.cpc.prods, newId);
    assert CreateStep(db, tx, newId) == (after, db);
    if after.cpc.CConflict? {
      InsertLosesToAnother(db, tx, newId);
    }
  }

  lemma CreateLosses(db: Db, tx: Tx, newId: Id)
    requires Inv(db) && CartHistory(db) && FindOrder(db.orders, newId).None?
    requires tx.CreateTx? && CreateOk(db, tx) && OutcomeOf(tx).None?
    ensures LossFacts(CreateStep(db, tx, newId).1, CreateStep(db, tx, newId).0)
  {
    if tx.cpc.CBuilding? {
      CreateBuildLosses(db, tx, newId);
    } else {
      OtherStepsDoNotLose(db, tx, newId);
    }
  }

  lemma OtherCallsDoNotLose(db: Db, tx: Tx, newId: Id)
    requires !tx.CreateTx? && !tx.AdjustTx?
    ensures !TxStep(db, tx, newId).0.CreateTx? && !TxStep(db, tx, newId).0.AdjustTx?
  {
  }

  lemma StepLosses(db: Db, tx: Tx, newId: Id)
    requires Inv(db) && CartHistory(db) && FindOrder(db.orders, newId).None?
    requires TxOk(db, tx) && OutcomeOf(tx).None?
    ensures LossFacts(TxStep(db, tx, newId).1, TxStep(db, tx, newId).0)
  {
    match tx
    case CreateTx(_, _, _, _, _) => CreateLosses(db, tx, newId);
    case AdjustTx(_, _, _, _, _) => PostLosesToKey(db, tx);
    case _ => OtherCallsDoNotLose(db, tx, newId);
  }

  lemma CommitKeepsCartHistory(db: Db, tx: Tx, newId: Id)
    requires Inv(db) && CartHistory(db) && TxOk(db, tx)
    ensures CartHistory(TxStep(db, tx, newId).1)
  {
    StepRefines(db, tx, newId);
    if CommitOf(tx).Some? {
      StepKeepsCartHistory(db, CommitOf(tx).value);
    }
  }

  lemma NextKeepsLosses(sys: Sys, tid: nat, newId: Id)
    requires SysOk(sys) && LossesOk(sys) && CanStep(sys, tid) && IdleId(sys, newId)
    requires FindOrder(sys.db.orders, newId).None?
    ensures LossesOk(After(sys, Next(tid, newId)))
  {
    var tx, next := sys.txs[tid], After(sys, Next(tid, newId));
    assert TxOk(sys.db, tx);
    CommitKeepsCartHistory(sys.db, tx, newId);
    StepGrows(sys.db, tx, newId);
    StepLosses(sys.db, tx, newId);
    forall t | t in next.txs ensures LossFacts(next.db, next.txs[t]) {
      if t != tid {
        LossFactsStay(sys.db, next.db, sys.txs[t]);
      }
    }
  }

  lemma EnvKeepsLosses(sys: Sys, s: Step)
    requires SysOk(sys) && LossesOk(sys) && EnvAllowed(sys, s) && FreshCartId(sys.db, s)
    ensures LossesOk(After(sys, Env(s)))
  {
    StepKeepsCartHistory(sys.db, s);
    ExecGrows(sys.db, s);
    forall t | t in sys.txs ensures LossFacts(Exec(sys.db, s), sys.txs[t]) {
      LossFactsStay(sys.db, Exec(sys.db, s), sys.txs[t]);
    }
  }

  lemma LabelKeepsLosses(sys: Sys, l: Label)
    requires SysOk(sys) && LossesOk(sys) && Enabled(sys, l) && FreshLabel(sys, l)
    ensures LossesOk(After(sys, l))
  {
    match l
    case Begin(tid, tx) =>
    case Next(tid, newId) => NextKeepsLosses(sys, tid, newId);
    case Abort(tid) =>
    case Env(s) => EnvKeepsLosses(sys, s);
  }

  lemma {:induction false} RunKeepsLosses(sys: Sys, labels: seq<Label>)
    requires SysOk(sys) && LossesOk(sys) && IsRun(sys, labels) && FreshRun(sys, labels)
    ensures SysOk(EndOf(sys, labels)) && LossesOk(EndOf(sys, labels))
  {
    if labels != [] {
      var n := |labels| - 1;
      RunKeepsLosses(sys, labels[..n]);
      StepKeeps(EndOf(sys, labels[..n]), labels[n]);
      LabelKeepsLosses(EndOf(sys, labels[..n]), labels[n]);
    }
  }

  // ---------- the answers ----------

  lemma LoserIsRefused(db: Db, tx: Tx, newId: Id)
    requires EachOrderOk(db.orders, db.users)
    requires tx.CreateTx? && tx.cpc.CConflict? && ValidRequest(tx.req) && LostToAnother(db, tx)
    ensures OutcomeOf(CreateStep(db, tx, newId).0) == Some(Failed(UniqueViolation))
  {
    ConflictAnswer(db, tx, newId);
    assert tx.req.cartIds[0] in tx.req.cartIds;
  }

  /** Over every run with fresh ids, a checkout that has lost its insert is answered
      with the raw unique violation: the order that holds its token never consumed
      the same cart rows, so the replay after a conflict is never taken. */
  lemma LostInsertIsRaw(sys: Sys, labels: seq<Label>, tid: nat, newId: Id)
    requires SysOk(sys) && LossesOk(sys) && IsRun(sys, labels) && FreshRun(sys, labels)
    requires tid in EndOf(sys, labels).txs
    requires EndOf(sys, labels).txs[tid].CreateTx? && EndOf(sys, labels).txs[tid].cpc.CConflict?
    ensures var end := EndOf(sys, labels);
            && FindToken(end.db.orders, end.txs[tid].user, end.txs[tid].token).Some?
            && OutcomeOf(TxStep(end.db, end.txs[tid], newId).0) == Some(Failed(UniqueViolation))
  {
    RunKeepsLosses(sys, labels);
    var end := EndOf(sys, labels);
    assert TxOk(end.db, end.txs[tid]) && LossFacts(end.db, end.txs[tid]);
    LoserIsRefused(end.db, end.txs[tid], newId);
  }

  /** Where a checkout that has lost its insert can still be. */
  predicate LostOrRefused(tx: Tx) {
    tx.CreateTx? && (tx.cpc.CConflict? || OutcomeOf(tx) in {Some(Failed(UniqueViolation)), Some(Failed(Aborted))})
  }

  lemma LostStays(sys: Sys, l: Label, tid: nat)
    requires SysOk(sys) && LossesOk(sys) && Enabled(sys, l)
    requires tid in sys.txs && LostOrRefused(sys.txs[tid])
    ensures tid in After(sys, l).txs && LostOrRefused(After(sys, l).txs[tid])
  {
    assert TxOk(sys.db, sys.txs[tid]) && LossFacts(sys.db, sys.txs[tid]);
    if l.Next? && l.tid == tid {
      LoserIsRefused(sys.db, sys.txs[tid], l.newId);
      OnlyFinishes(sys.db, sys.txs[tid], l.newId);
    }
  }

  lemma OnlyFinishes(db: Db, tx: Tx, newId: Id)
    requires tx.CreateTx? && tx.cpc.CConflict?
    ensures TxStep(db, tx, newId).0.CreateTx?
  {
  }

  /** So whatever the run, a call that was ever in that position is still there or
      has ended with the unique violation, or was aborted: never with an order,
      never with an idempotency conflict. */
  lemma {:induction false} LostInsertEndsRaw(sys: Sys, labels: seq<Label>, k: nat, tid: nat)
    requires SysOk(sys) && LossesOk(sys) && IsRun(sys, labels) && FreshRun(sys, labels) && k <= |labels|
    requires tid in StateAt(sys, labels, k).txs && LostOrRefused(StateAt(sys, labels, k).txs[tid])
    ensures tid in EndOf(sys, labels).txs && LostOrRefused(EndOf(sys, labels).txs[tid])
  {
    if k == |labels| {
      assert labels[..k] == labels;
    } else {
      var n := |labels| - 1;
      assert labels[..n][..k] == labels[..k];
      LostInsertEndsRaw(sys, labels[..n], k, tid);
      RunKeepsLosses(sys, labels[..n]);
      LostStays(EndOf(sys, labels[..n]), labels[n], tid);
    }
  }

  lemma ConflictPost(db: Db, tx: Tx)
    requires tx.AdjustTx? && tx.jpc.JConflict? && FindKey(db.ledger, AdminAdjust(tx.admin, tx.key)).Some?
    ensures var row := db.ledger[FindKey(db.ledger, AdminAdjust(tx.admin, tx.key)).value];
            OutcomeOf(AdjustStep(db, tx).0) ==
            if row.hash == Some(AdjustHash(tx.adjustment.user, tx.adjustment.delta, Trim(tx.adjustment.remark)))
            then Some(PostReplayed(row)) else Some(Failed(IdempotencyConflict))
  {
  }

  /** An adjustment that has lost its insert always finds the winner's row, and is
      answered with it exactly when the hashes agree, otherwise with the conflict. */
  lemma LostPostAnswer(sys: Sys, labels: seq<Label>, tid: nat, newId: Id)
    requires SysOk(sys) && LossesOk(sys) && IsRun(sys, labels) && FreshRun(sys, labels)
    requires tid in EndOf(sys, labels).txs
    requires EndOf(sys, labels).txs[tid].AdjustTx? && EndOf(sys, labels).txs[tid].jpc.JConflict?
    ensures var end := EndOf(sys, labels);
            var tx := end.txs[tid];
            var found := FindKey(end.db.ledger, AdminAdjust(tx.admin, tx.key));
            found.Some?
            && OutcomeOf(TxStep(end.db, tx, newId).0) ==
               if end.db.ledger[found.value].hash == Some(ComputeAdjustHash(tx.adjustment))
               then Some(PostReplayed(end.db.ledger[found.value])) else Some(Failed(IdempotencyConflict))
  {
    RunKeepsLosses(sys, labels);
    var end := EndOf(sys, labels);
    assert LossFacts(end.db, end.txs[tid]);
    ConflictPost(end.db, end.txs[tid]);
  }
}
