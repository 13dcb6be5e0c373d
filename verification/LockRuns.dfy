/** Every interleaving of lock steps keeps the system's facts, and its committed
    states are those of a run of whole calls. */
module LockRuns {
  import opened Base
  import opened EventKeys
  import opened Tables
  import opened Accounts
  import opened Lifecycle
  import opened Runs
  import opened Invariants
  import opened Preservation
  import opened LoginRace
  import opened LockModel
  import opened LockInvariant
  import opened LockSteps
  import opened LockLocals

  // ---------- one step of one call ----------

  /** The rows another call holds are out of reach of this step. */
  lemma {:induction false} OthersRowsSame(sys: Sys, tid: nat, newId: Id, other: nat)
    requires SysOk(sys) && CanStep(sys, tid) && other in sys.txs && other != tid
    ensures SameRows(sys.db, TxStep(sys.db, sys.txs[tid], newId).1, sys.txs[other].held)
  {
    forall r | r in sys.txs[other].held
      ensures RowSame(sys.db, TxStep(sys.db, sys.txs[tid], newId).1, r)
    {
      assert TxOk(sys.db, sys.txs[tid]);
      StepFootprint(sys.db, sys.txs[tid], newId, r);
    }
  }

  lemma {:induction false} NextKeepsTxs(sys: Sys, tid: nat, newId: Id)
    requires SysOk(sys) && CanStep(sys, tid)
    ensures var (tx, db) := TxStep(sys.db, sys.txs[tid], newId);
            EachTxOk(db, sys.txs[tid := tx])
  {
    var (tx, db) := TxStep(sys.db, sys.txs[tid], newId);
    assert TxOk(sys.db, sys.txs[tid]);
    StepOk(sys.db, sys.txs[tid], newId);
    StepGrows(sys.db, sys.txs[tid], newId);
    var txs' := sys.txs[tid := tx];
    forall t | t in txs' ensures TxOk(db, txs'[t]) {
      if t != tid {
        assert TxOk(sys.db, sys.txs[t]);
        OthersRowsSame(sys, tid, newId, t);
        TxStays(sys.db, db, sys.txs[t]);
      }
    }
  }

  lemma NextKeepsExclusive(sys: Sys, tid: nat, newId: Id)
    requires Exclusive(sys.txs) && CanStep(sys, tid) && IdleId(sys, newId)
    ensures Exclusive(sys.txs[tid := TxStep(sys.db, sys.txs[tid], newId).0])
  {
    var tx := TxStep(sys.db, sys.txs[tid], newId).0;
    StepHeld(sys.db, sys.txs[tid], newId);
    forall t | t in sys.txs && t != tid ensures tx.held !! sys.txs[t].held {
      assert WantedRows(sys.db, sys.txs[tid]) !! sys.txs[t].held;
      assert InsertedRows(sys.db, sys.txs[tid], newId) !! sys.txs[t].held;
    }
  }

  lemma {:induction false} NextKeepsInv(db: Db, tx: Tx, newId: Id)
    requires Inv(db) && TxOk(db, tx)
    ensures Inv(TxStep(db, tx, newId).1)
  {
    StepRefines(db, tx, newId);
    if CommitOf(tx).Some? {
      ExecKeeps(db, CommitOf(tx).value);
    }
  }

  /** A call that commits an event is the first to do so. */
  lemma {:induction false} EventIsNew(db: Db, tx: Tx, newId: Id)
    requires TxOk(db, tx) && OutcomeOf(tx).None?
    requires EventOf(TxStep(db, tx, newId).0).Some?
    ensures var (tx', db') := TxStep(db, tx, newId);
            FindKey(db.ledger, EventOf(tx').value).None? && FindKey(db'.ledger, EventOf(tx').value).Some?
  {
    match tx
    case CreateTx(_, _, _, _, _) => CreatedEventIsNew(db, tx, newId);
    case MoveTx(_, _, _) =>
    case ApproveTx(_, _, _, _) => ApprovedEventIsNew(db, tx);
    case AdjustTx(_, _, _, _, _) => PostedEventIsNew(db, tx);
    case LoginTx(_, _, _, _) =>
  }

  lemma {:induction false} CreatedEventIsNew(db: Db, tx: Tx, newId: Id)
    requires tx.CreateTx? && CreateOk(db, tx) && OutcomeOf(tx).None?
    requires EventOf(CreateStep(db, tx, newId).0).Some?
    ensures var (tx', db') := CreateStep(db, tx, newId);
            FindKey(db.ledger, EventOf(tx').value).None? && FindKey(db'.ledger, EventOf(tx').value).Some?
  {
    assert tx.cpc.CInserted?;
    var w := tx.cpc.writes;
    BuiltNames(db.users[tx.user], tx.cpc.addr, tx.cpc.rows, tx.cpc.prods, tx.user, tx.token, tx.req, w.order.id);
    FindKeyAppend(db.ledger, w.row, w.row.key);
  }

  lemma {:induction false} ApprovedEventIsNew(db: Db, tx: Tx)
    requires tx.ApproveTx? && ApproveOk(db, tx) && OutcomeOf(tx).None?
    requires EventOf(ApproveStep(db, tx).0).Some?
    ensures var (tx', db') := ApproveStep(db, tx);
            FindKey(db.ledger, EventOf(tx').value).None? && FindKey(db'.ledger, EventOf(tx').value).Some?
  {
    assert tx.apc.ABuilding?;
    var r := ApproveFresh(db, tx.apc.current, tx.admin).value;
    FindKeyAppend(db.ledger, r.row, r.row.key);
  }

  lemma PostedEventIsNew(db: Db, tx: Tx)
    requires tx.AdjustTx? && AdjustOk(db, tx) && OutcomeOf(tx).None?
    requires EventOf(AdjustStep(db, tx).0).Some?
    ensures var (tx', db') := AdjustStep(db, tx);
            FindKey(db.ledger, EventOf(tx').value).None? && FindKey(db'.ledger, EventOf(tx').value).Some?
  {
    assert tx.jpc.JInserted?;
    FindKeyAppend(db.ledger, tx.jpc.row, tx.jpc.row.key);
  }

  lemma PostersGrow(a: seq<LedgerRow>, b: seq<LedgerRow>, txs: map<nat, Tx>, poster: map<EventKey, nat>)
    requires PostersOk(a, txs, poster) && a <= b
    ensures PostersOk(b, txs, poster)
  {
    forall k | k in poster ensures FindKey(b, k).Some? {
      FindKeyGrows(a, b, k);
    }
  }

  lemma RecordPoster(ledger: seq<LedgerRow>, txs: map<nat, Tx>, poster: map<EventKey, nat>, tid: nat, tx: Tx)
    requires PostersOk(ledger, txs, poster) && tid in txs && EventOf(txs[tid]).None?
    requires EventOf(tx).Some? ==> EventOf(tx).value !in poster && FindKey(ledger, EventOf(tx).value).Some?
    ensures PostersOk(ledger, txs[tid := tx], if EventOf(tx).Some? then poster[EventOf(tx).value := tid] else poster)
  {
  }

  lemma NoEventYet(tx: Tx)
    requires OutcomeOf(tx).None?
    ensures EventOf(tx).None?
  {
  }

  lemma {:induction false} NextKeepsPosters(sys: Sys, tid: nat, newId: Id)
    requires SysOk(sys) && CanStep(sys, tid) && IdleId(sys, newId)
    ensures var next := After(sys, Next(tid, newId));
            PostersOk(next.db.ledger, next.txs, next.poster)
  {
    var (tx, db) := TxStep(sys.db, sys.txs[tid], newId);
    assert TxOk(sys.db, sys.txs[tid]);
    NoEventYet(sys.txs[tid]);
    StepGrows(sys.db, sys.txs[tid], newId);
    PostersGrow(sys.db.ledger, db.ledger, sys.txs, sys.poster);
    if EventOf(tx).Some? {
      EventIsNew(sys.db, sys.txs[tid], newId);
    }
    RecordPoster(db.ledger, sys.txs, sys.poster, tid, tx);
  }

  lemma BonusStays(db: Db, s: Step, bonus: Int64)
    requires Inv(db) && (bonus > 0 ==> SignupPosted(db.users, db.ledger))
    requires s.DoLogin? && bonus > 0 ==> s.bonus > 0
    ensures bonus > 0 ==> SignupPosted(Exec(db, s).users, Exec(db, s).ledger)
  {
    if bonus > 0 {
      StepPosts(db, s, if s.DoLogin? then s.bonus else bonus);
    }
  }

  /** A step does not change what kind of call it belongs to. */
  lemma StaysLogin(db: Db, tx: Tx, newId: Id)
    ensures var after := TxStep(db, tx, newId).0;
            after.LoginTx? == tx.LoginTx? && (tx.LoginTx? ==> after.bonus == tx.bonus)
  {
    match tx
    case CreateTx(_, _, _, _, _) => StaysCreate(db, tx, newId);
    case _ =>
  }

  lemma StaysCreate(db: Db, tx: Tx, newId: Id)
    requires tx.CreateTx?
    ensures CreateStep(db, tx, newId).0.CreateTx?
  {
  }

  lemma NextKeepsBonus(sys: Sys, tid: nat, newId: Id)
    requires SysOk(sys) && CanStep(sys, tid) && IdleId(sys, newId)
    ensures BonusOk(After(sys, Next(tid, newId)))
  {
    var tx := sys.txs[tid];
    assert TxOk(sys.db, tx);
    StaysLogin(sys.db, tx, newId);
    StepRefines(sys.db, tx, newId);
    if CommitOf(tx).Some? {
      BonusStays(sys.db, CommitOf(tx).value, sys.bonus);
    }
  }

  // ---------- every step of the system ----------

  lemma {:induction false} EnvKeeps(sys: Sys, s: Step)
    requires SysOk(sys) && EnvAllowed(sys, s)
    ensures SysOk(After(sys, Env(s)))
  {
    var db := Exec(sys.db, s);
    ExecKeeps(sys.db, s);
    ExecGrows(sys.db, s);
    BonusStays(sys.db, s, sys.bonus);
    PostersGrow(sys.db.ledger, db.ledger, sys.txs, sys.poster);
    forall t | t in sys.txs ensures TxOk(db, sys.txs[t]) {
      TxStays(sys.db, db, sys.txs[t]);
    }
  }

  lemma IdleTxOk(db: Db, tx: Tx)
    ensures IsStart(tx) ==> TxOk(db, tx)
    ensures TxOk(db, Finish(tx, Failed(Aborted)))
  {
  }

  lemma {:induction false} NextKeeps(sys: Sys, tid: nat, newId: Id)
    requires SysOk(sys) && CanStep(sys, tid) && IdleId(sys, newId)
    ensures SysOk(After(sys, Next(tid, newId)))
  {
    assert TxOk(sys.db, sys.txs[tid]);
    NextKeepsInv(sys.db, sys.txs[tid], newId);
    NextKeepsTxs(sys, tid, newId);
    NextKeepsExclusive(sys, tid, newId);
    NextKeepsPosters(sys, tid, newId);
    NextKeepsBonus(sys, tid, newId);
  }

  lemma QuietTxs(db: Db, txs: map<nat, Tx>, tid: nat, tx: Tx)
    requires EachTxOk(db, txs) && Exclusive(txs) && TxOk(db, tx) && tx.held == {}
    ensures EachTxOk(db, txs[tid := tx]) && Exclusive(txs[tid := tx])
  {
  }

  lemma QuietPosters(ledger: seq<LedgerRow>, txs: map<nat, Tx>, poster: map<EventKey, nat>, tid: nat, tx: Tx)
    requires PostersOk(ledger, txs, poster) && EventOf(tx).None? && (tid in txs ==> EventOf(txs[tid]).None?)
    ensures PostersOk(ledger, txs[tid := tx], poster)
  {
  }

  /** A call that holds nothing and has committed nothing may come or go. */
  lemma QuietTxKeeps(sys: Sys, tid: nat, tx: Tx)
    requires SysOk(sys) && TxOk(sys.db, tx) && tx.held == {} && EventOf(tx).None?
    requires tid in sys.txs ==> EventOf(sys.txs[tid]).None?
    requires tx.LoginTx? ==> tx.bonus == sys.bonus
    ensures SysOk(sys.(txs := sys.txs[tid := tx]))
  {
    QuietTxs(sys.db, sys.txs, tid, tx);
    QuietPosters(sys.db.ledger, sys.txs, sys.poster, tid, tx);
  }

  lemma BeginKeeps(sys: Sys, tid: nat, tx: Tx)
    requires SysOk(sys) && Enabled(sys, Begin(tid, tx))
    ensures SysOk(After(sys, Begin(tid, tx)))
  {
    IdleTxOk(sys.db, tx);
    QuietTxKeeps(sys, tid, tx);
  }

  lemma AbortKeeps(sys: Sys, tid: nat)
    requires SysOk(sys) && Enabled(sys, Abort(tid))
    ensures SysOk(After(sys, Abort(tid)))
  {
    IdleTxOk(sys.db, sys.txs[tid]);
    QuietTxKeeps(sys, tid, Finish(sys.txs[tid], Failed(Aborted)));
  }

  lemma StepKeeps(sys: Sys, l: Label)
    requires SysOk(sys) && Enabled(sys, l)
    ensures SysOk(After(sys, l))
  {
    match l
    case Begin(tid, tx) => BeginKeeps(sys, tid, tx);
    case Next(tid, newId) => NextKeeps(sys, tid, newId);
    case Abort(tid) => AbortKeeps(sys, tid);
    case Env(s) => EnvKeeps(sys, s);
  }

  /** Any call may begin under a new number, and any unfinished one may be aborted. */
  lemma CallsBegin(sys: Sys, tid: nat, user: Id, token: string, req: OrderRequest, move: OrderCall, admin: Id,
      order: Id, key: string, a: Adjustment, openid: string)
    requires tid !in sys.txs
    ensures Enabled(sys, Begin(tid, CreateTx(user, token, req, CStart, {})))
    ensures Enabled(sys, Begin(tid, MoveTx(move, MStart, {})))
    ensures Enabled(sys, Begin(tid, ApproveTx(admin, order, AStart, {})))
    ensures Enabled(sys, Begin(tid, AdjustTx(admin, key, a, JStart, {})))
    ensures Enabled(sys, Begin(tid, LoginTx(openid, sys.bonus, LStart, {})))
    ensures forall t :: t in sys.txs && OutcomeOf(sys.txs[t]).None? ==> Enabled(sys, Abort(t))
  {
  }

  /** Where no call holds a row, every catalogue edit may come in between, as the
      whole call. */
  lemma EditsComeBetween(sys: Sys, s: Step)
    requires IsAddressStep(s) || IsCartStep(s) || IsProductStep(s)
    requires forall t :: t in sys.txs ==> sys.txs[t].held == {}
    ensures Enabled(sys, Env(s)) && After(sys, Env(s)) == sys.(db := Exec(sys.db, s))
  {
  }

  /** Where nothing has begun, a good database is all it takes: one in which every
      buyer has had the bonus, if there is one. */
  lemma IdleIsGood(db: Db, bonus: Int64)
    requires Inv(db) && (bonus > 0 ==> SignupPosted(db.users, db.ledger))
    ensures SysOk(Idle(db, bonus))
  {
  }

  /** Any number of calls, interleaved in any way: the facts hold throughout. */
  lemma {:induction false} LockRunKeeps(sys: Sys, labels: seq<Label>)
    requires SysOk(sys) && IsRun(sys, labels)
    ensures SysOk(EndOf(sys, labels))
  {
    if labels != [] {
      var n := |labels| - 1;
      LockRunKeeps(sys, labels[..n]);
      StepKeeps(EndOf(sys, labels[..n]), labels[n]);
    }
  }

  // ---------- refinement ----------

  /** What a step of the system commits, as whole calls. */
  function CommitsOf(sys: Sys, l: Label): seq<Step>
    requires Enabled(sys, l)
  {
    match l
    case Next(tid, _) => if CommitOf(sys.txs[tid]).Some? then [CommitOf(sys.txs[tid]).value] else []
    case Env(s) => [s]
    case _ => []
  }

  ghost function CommitOrder(sys: Sys, labels: seq<Label>): seq<Step>
    requires IsRun(sys, labels)
  {
    if labels == [] then []
    else
      var n := |labels| - 1;
      CommitOrder(sys, labels[..n]) + CommitsOf(EndOf(sys, labels[..n]), labels[n])
  }

  lemma {:induction false} LabelRefines(sys: Sys, l: Label)
    requires SysOk(sys) && Enabled(sys, l)
    ensures After(sys, l).db == Run(sys.db, CommitsOf(sys, l))
  {
    match l
    case Next(tid, newId) =>
      assert TxOk(sys.db, sys.txs[tid]);
      StepRefines(sys.db, sys.txs[tid], newId);
      if CommitOf(sys.txs[tid]).Some? {
        RunOne(sys.db, [], CommitOf(sys.txs[tid]).value);
      }
    case Env(s) => RunOne(sys.db, [], s);
    case _ =>
  }

  /** Every interleaving commits what the same calls, run one at a time in the
      order of their commits, would have committed. */
  lemma {:induction false} LockRunsRefineRuns(sys: Sys, labels: seq<Label>)
    requires SysOk(sys) && IsRun(sys, labels)
    ensures EndOf(sys, labels).db == Run(sys.db, CommitOrder(sys, labels))
  {
    if labels != [] {
      var n := |labels| - 1;
      LockRunKeeps(sys, labels[..n]);
      LockRunsRefineRuns(sys, labels[..n]);
      var before := EndOf(sys, labels[..n]);
      LabelRefines(before, labels[n]);
      RunConcat(sys.db, CommitOrder(sys, labels[..n]), CommitsOf(before, labels[n]));
    }
  }
}
