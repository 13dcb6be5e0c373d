/** No deadlock: every call takes its locks in one global order, so some call
    can always go on. */
module Deadlock {
  import opened Base
  import opened Tables
  import opened Checkout
  import opened Lifecycle
  import opened Invariants
  import opened LockModel
  import opened LockOrder

  // ---------- someone can always step ----------

  function Unfinished(sys: Sys): set<nat> {
    set t | t in sys.txs && OutcomeOf(sys.txs[t]).None?
  }

  /** Blocked: waits for a row that another call holds. */
  predicate Blocked(sys: Sys, t: nat) {
    t in sys.txs && OutcomeOf(sys.txs[t]).None? && !CanStep(sys, t)
  }

  function WantedRank(sys: Sys, t: nat): nat
    requires Blocked(sys, t)
  {
    Rank(Wants(sys.db, sys.txs[t]).value)
  }

  lemma {:induction false} HighestWanted(sys: Sys, ts: set<nat>) returns (top: nat)
    requires ts != {} && forall t :: t in ts ==> Blocked(sys, t)
    ensures top in ts && forall t :: t in ts ==> WantedRank(sys, t) <= WantedRank(sys, top)
    decreases |ts|
  {
    top :| top in ts;
    if ts != {top} {
      var other := HighestWanted(sys, ts - {top});
      if WantedRank(sys, other) > WantedRank(sys, top) {
        top := other;
      }
    }
  }

  lemma {:induction false} HolderWantsHigher(sys: Sys, t: nat) returns (holder: nat)
    requires LocksOk(sys) && Blocked(sys, t)
    ensures holder in Unfinished(sys)
    ensures Blocked(sys, holder) ==> WantedRank(sys, holder) > WantedRank(sys, t)
  {
    var row := Wants(sys.db, sys.txs[t]).value;
    holder :| holder in sys.txs && holder != t && row in sys.txs[holder].held;
    assert LockOk(sys.db, sys.txs[holder]);
    HolderUnfinished(sys.txs[holder]);
    if Blocked(sys, holder) {
      HolderRank(sys, t, holder, row);
    }
  }

  lemma {:induction false} HolderRank(sys: Sys, t: nat, holder: nat, row: Row)
    requires LocksOk(sys) && Blocked(sys, t) && Blocked(sys, holder) && holder != t
    requires Wants(sys.db, sys.txs[t]) == Some(row) && row in sys.txs[holder].held
    ensures WantedRank(sys, holder) > Rank(row)
  {
    var wanted := Wants(sys.db, sys.txs[holder]).value;
    assert LockOk(sys.db, sys.txs[holder]);
    LockOrderKept(sys.db, sys.txs[holder]);
    var other :| other in sys.txs && other != holder && wanted in sys.txs[other].held;
    assert sys.txs[other].held !! sys.txs[holder].held;
    assert wanted !in sys.txs[holder].held;
  }

  lemma {:induction false} SomeoneSteps(sys: Sys)
    requires LocksOk(sys) && Unfinished(sys) != {}
    ensures exists t :: t in Unfinished(sys) && CanStep(sys, t)
  {
    if forall t :: t in Unfinished(sys) ==> Blocked(sys, t) {
      var top := HighestWanted(sys, Unfinished(sys));
      var holder := HolderWantsHigher(sys, top);
      assert false;
    } else {
      var t :| t in Unfinished(sys) && !Blocked(sys, t);
      assert CanStep(sys, t);
    }
  }

  /** In every reachable state with an unfinished call, some call can step: from any
      database and with any bonus, whatever the calls have read. */
  lemma DeadlockFree(sys: Sys, labels: seq<Label>)
    requires LocksOk(sys) && IsRun(sys, labels) && Unfinished(EndOf(sys, labels)) != {}
    ensures exists t :: t in Unfinished(EndOf(sys, labels)) && CanStep(EndOf(sys, labels), t)
  {
    RunKeepsLocks(sys, labels);
    SomeoneSteps(EndOf(sys, labels));
  }

  // ---------- every call can be driven to its end ----------

  /** Steps a call may still need. An approval does not know its items before it
      has read the order. */
  function Work(tx: Tx): nat {
    match tx
    case CreateTx(_, _, req, pc, _) => CreateWork(|SortIds(req.cartIds)|, pc)
    case MoveTx(_, pc, _) => (match pc case MStart => 2 case MLocked(_) => 1 case MDone(_) => 0)
    case ApproveTx(_, _, pc, _) =>
      (match pc
       case AStart => 0
       case AWantUser(o) => |SortIds(ItemIds(o))| + 3
       case AWantProduct(o, next) => if next <= |SortIds(ItemIds(o))| then |SortIds(ItemIds(o))| - next + 2 else 2
       case ABuilding(_) => 1
       case ADone(_) => 0)
    case AdjustTx(_, _, _, pc, _) =>
      (match pc case JStart => 4 case JWantUser => 3 case JBuilding => 2 case JInserted(_) => 1 case JConflict => 1
        case JDone(_) => 0)
    case LoginTx(_, _, pc, _) =>
      (match pc case LStart => 3 case LRead(_, _) => 2 case LSlot(_) => 1 case LNew(_) => 1 case LDone(_) => 0)
  }

  function CreateWork(n: nat, pc: CreatePc): nat {
    match pc
    case CStart => 2 * n + 7
    case CReplaying(_) => 1
    case CWantUser => 2 * n + 6
    case CWantAddr => 2 * n + 5
    case CWantCart(_, _, next) => if next <= n then 2 * n - next + 4 else n + 4
    case CRecheck(_, _) => 1
    case CWantProduct(_, rows, _, next) =>
      var k := |SortIds(ProductIds(rows))|;
      if next <= k then k - next + 3 else 3
    case CBuilding(_, _, _) => 2
    case CInserted(_, _, _, _) => 1
    case CConflict => 1
    case CDone(_) => 0
  }

  predicate Unread(tx: Tx) {
    tx.ApproveTx? && tx.apc.AStart?
  }

  lemma NextCartRow(db: Db, tx: Tx, addr: Address, cart: map<Id, CartItem>, next: nat)
    requires tx.CreateTx? && tx.cpc == CWantCart(addr, cart, next) && next < |SortIds(tx.req.cartIds)|
    ensures var after := CartStep(db, tx, addr, cart, next);
            after.CreateTx? && Work(after) < Work(tx)
  {
  }

  lemma CartIsLocked(db: Db, tx: Tx, addr: Address, cart: map<Id, CartItem>, n: nat)
    requires tx.CreateTx? && tx.cpc == CWantCart(addr, cart, n) && n == |SortIds(tx.req.cartIds)|
    ensures var after := CartStep(db, tx, addr, cart, n);
            after.CreateTx? && Work(after) <= n + 3
  {
    var ids := SortIds(tx.req.cartIds);
    if forall i :: 0 <= i < |ids| ==> ids[i] in cart {
      SortIdsFacts(ProductIds(RowsOf(cart, ids)));
    }
  }

  lemma CartWorkDrops(db: Db, tx: Tx, addr: Address, cart: map<Id, CartItem>, next: nat)
    requires tx.CreateTx? && tx.cpc == CWantCart(addr, cart, next) && next <= |SortIds(tx.req.cartIds)|
    ensures var after := CartStep(db, tx, addr, cart, next);
            after.CreateTx? && Work(after) < Work(tx)
  {
    if next < |SortIds(tx.req.cartIds)| {
      NextCartRow(db, tx, addr, cart, next);
    } else {
      CartIsLocked(db, tx, addr, cart, next);
    }
  }

  lemma ProductWorkDrops(db: Db, tx: Tx, addr: Address, rows: seq<CartItem>, prods: map<Id, Product>, next: nat)
    requires tx.CreateTx? && tx.cpc == CWantProduct(addr, rows, prods, next) && next <= |SortIds(ProductIds(rows))|
    ensures var after := ProductStep(db, tx, addr, rows, prods, next);
            after.CreateTx? && Work(after) < Work(tx)
  {
  }

  lemma InsertWorkDrops(db: Db, tx: Tx, addr: Address, rows: seq<CartItem>, prods: map<Id, Product>, newId: Id)
    requires tx.CreateTx?
    ensures var after := InsertStep(db, tx, addr, rows, prods, newId);
            after.CreateTx? && Work(after) <= 1
  {
  }

  lemma ReplayWorkDrops(db: Db, tx: Tx, o: Order)
    requires tx.CreateTx?
    ensures DecideReplay(db, tx, o).CreateTx? && Work(DecideReplay(db, tx, o)) == 0
  {
  }

  lemma CreateWorkDrops(db: Db, tx: Tx, newId: Id)
    requires tx.CreateTx? && OutcomeOf(tx).None?
    requires tx.cpc.CWantCart? ==> tx.cpc.next <= |SortIds(tx.req.cartIds)|
    requires tx.cpc.CWantProduct? ==> tx.cpc.next <= |SortIds(ProductIds(tx.cpc.rows))|
    ensures var after := CreateStep(db, tx, newId).0;
            after.CreateTx? && Work(after) < Work(tx)
  {
    match tx.cpc
    case CReplaying(o) => ReplayWorkDrops(db, tx, o);
    case CWantCart(addr, cart, next) => CartWorkDrops(db, tx, addr, cart, next);
    case CRecheck(_, _) =>
      var found := FindToken(db.orders, tx.user, tx.token);
      if found.Some? {
        ReplayWorkDrops(db, tx, db.orders[found.value]);
      }
    case CWantProduct(addr, rows, prods, next) => ProductWorkDrops(db, tx, addr, rows, prods, next);
    case CBuilding(addr, rows, prods) => InsertWorkDrops(db, tx, addr, rows, prods, newId);
    case _ =>
  }

  lemma ApproveWorkDrops(db: Db, tx: Tx)
    requires tx.ApproveTx? && ApproveHeldOk(tx) && OutcomeOf(tx).None?
    ensures var after := ApproveStep(db, tx).0;
            after.ApproveTx? && !after.apc.AStart? && (tx.apc.AStart? || Work(after) < Work(tx))
  {
  }

  lemma AdjustWorkDrops(db: Db, tx: Tx)
    requires tx.AdjustTx? && OutcomeOf(tx).None?
    ensures AdjustStep(db, tx).0.AdjustTx? && Work(AdjustStep(db, tx).0) < Work(tx)
  {
  }

  lemma MoveWorkDrops(db: Db, tx: Tx)
    requires tx.MoveTx? && OutcomeOf(tx).None?
    ensures MoveStep(db, tx).0.MoveTx? && Work(MoveStep(db, tx).0) < Work(tx)
  {
  }

  lemma LoginWorkDrops(db: Db, tx: Tx, newId: Id)
    requires tx.LoginTx? && OutcomeOf(tx).None?
    ensures LoginStep(db, tx, newId).0.LoginTx? && Work(LoginStep(db, tx, newId).0) < Work(tx)
  {
  }

  lemma {:induction false} WorkDrops(db: Db, tx: Tx, newId: Id)
    requires HeldOk(tx) && OutcomeOf(tx).None?
    ensures var after := TxStep(db, tx, newId).0;
            !Unread(after) && (Unread(tx) || Work(after) < Work(tx))
  {
    match tx
    case CreateTx(_, _, _, _, _) => CreateWorkDrops(db, tx, newId);
    case MoveTx(_, _, _) => MoveWorkDrops(db, tx);
    case ApproveTx(_, _, _, _) => ApproveWorkDrops(db, tx);
    case AdjustTx(_, _, _, _, _) => AdjustWorkDrops(db, tx);
    case LoginTx(_, _, _, _) => LoginWorkDrops(db, tx, newId);
  }

  function Load(txs: map<nat, Tx>, n: nat): nat {
    if n == 0 then 0 else Load(txs, n - 1) + if n - 1 in txs then Work(txs[n - 1]) else 0
  }

  function UnreadCount(txs: map<nat, Tx>, n: nat): nat {
    if n == 0 then 0 else UnreadCount(txs, n - 1) + if n - 1 in txs && Unread(txs[n - 1]) then 1 else 0
  }

  lemma {:induction false} LoadUpdate(txs: map<nat, Tx>, t: nat, tx: Tx, n: nat)
    requires t in txs
    ensures Load(txs[t := tx], n) == Load(txs, n) + if t < n then Work(tx) - Work(txs[t]) else 0
    ensures UnreadCount(txs[t := tx], n) ==
            UnreadCount(txs, n) + if t < n then (if Unread(tx) then 1 else 0) - (if Unread(txs[t]) then 1 else 0) else 0
  {
    if n > 0 {
      LoadUpdate(txs, t, tx, n - 1);
    }
  }

  // ---------- an id that is free ----------

  lemma {:induction false} FreeNumber(used: set<int>, n: nat)
    requires |used| < n
    ensures exists k :: 0 <= k < n && k !in used
    decreases n
  {
    if n - 1 in used {
      FreeNumber(used - {n - 1}, n - 1);
      var k :| 0 <= k < n - 1 && k !in used - {n - 1};
      assert k !in used;
    }
  }

  /** The id whose rows the call keeps from being inserted. */
  function BusyId(tx: Tx): int {
    match tx
    case CreateTx(_, _, _, CReplaying(o), _) => o.id as int
    case CreateTx(_, _, _, CInserted(_, _, _, w), _) => w.order.id as int
    case MoveTx(call, _, _) => call.order as int
    case ApproveTx(_, order, _, _) => order as int
    case LoginTx(_, _, LSlot(user), _) => user as int
    case LoginTx(_, _, LNew(user), _) => user as int
    case _ => 0
  }

  lemma CreateBusyIds(db: Db, tx: Tx, id: Id)
    requires tx.CreateTx? && LockOk(db, tx) && BusyId(tx) != id as int
    ensures IdleFor(db, tx.held, id)
  {
  }

  lemma BusyIds(db: Db, tx: Tx, id: Id)
    requires LockOk(db, tx) && BusyId(tx) != id as int
    ensures IdleFor(db, tx.held, id)
  {
    match tx
    case CreateTx(_, _, _, _, _) => CreateBusyIds(db, tx, id);
    case _ =>
  }

  lemma {:induction false} ImageSize(txs: map<nat, Tx>, ts: set<nat>)
    requires ts <= txs.Keys
    ensures |set t | t in ts :: BusyId(txs[t])| <= |ts|
    decreases |ts|
  {
    if ts != {} {
      var t :| t in ts;
      ImageSize(txs, ts - {t});
      var rest := set u | u in ts - {t} :: BusyId(txs[u]);
      assert (set u | u in ts :: BusyId(txs[u])) == rest + {BusyId(txs[t])};
    }
  }

  lemma {:induction false} SomeIdleId(sys: Sys) returns (id: Id)
    requires LocksOk(sys) && |sys.txs| < UUID_SPACE
    ensures IdleId(sys, id)
  {
    ImageSize(sys.txs, sys.txs.Keys);
    var busy := set t | t in sys.txs.Keys :: BusyId(sys.txs[t]);
    assert |sys.txs.Keys| == |sys.txs|;
    FreeNumber(busy, UUID_SPACE);
    var k :| 0 <= k < UUID_SPACE && k !in busy;
    id := k as Id;
    forall t | t in sys.txs ensures IdleFor(sys.db, sys.txs[t].held, id) {
      assert BusyId(sys.txs[t]) in busy && LockOk(sys.db, sys.txs[t]);
      BusyIds(sys.db, sys.txs[t], id);
    }
  }

  // ---------- completion ----------

  lemma {:induction false} RunCons(sys: Sys, l: Label, rest: seq<Label>)
    requires Enabled(sys, l) && IsRun(After(sys, l), rest)
    ensures IsRun(sys, [l] + rest) && EndOf(sys, [l] + rest) == EndOf(After(sys, l), rest)
    decreases |rest|
  {
    var whole := [l] + rest;
    var n := |rest| - 1;
    if rest == [] {
      assert whole[..0] == [] && whole[0] == l;
      assert EndOf(sys, []) == sys;
    } else {
      RunCons(sys, l, rest[..n]);
      assert whole[..n + 1] == [l] + rest[..n] && whole[n + 1] == rest[n];
      assert IsRun(sys, whole[..n + 1]) && EndOf(sys, whole[..n + 1]) == EndOf(After(sys, l), rest[..n]);
      assert Enabled(EndOf(After(sys, l), rest[..n]), rest[n]);
    }
  }

  /** A step of a call always shortens what is left to do, whichever call steps. */
  lemma StepMakesProgress(sys: Sys, t: nat, newId: Id, n: nat)
    requires LocksOk(sys) && CanStep(sys, t) && IdleId(sys, newId) && t < n
    ensures var next := After(sys, Next(t, newId));
            || UnreadCount(next.txs, n) < UnreadCount(sys.txs, n)
            || (UnreadCount(next.txs, n) == UnreadCount(sys.txs, n) && Load(next.txs, n) < Load(sys.txs, n))
  {
    var (tx, db) := TxStep(sys.db, sys.txs[t], newId);
    assert LockOk(sys.db, sys.txs[t]);
    WorkDrops(sys.db, sys.txs[t], newId);
    LoadUpdate(sys.txs, t, tx, n);
  }

  /** From every state all calls can be driven to an answer, whatever they are. */
  lemma {:induction false} AllCallsCanFinish(sys: Sys, n: nat) returns (labels: seq<Label>)
    requires LocksOk(sys) && |sys.txs| < UUID_SPACE && forall t :: t in sys.txs ==> t < n
    ensures IsRun(sys, labels) && Unfinished(EndOf(sys, labels)) == {}
    ensures EndOf(sys, labels).txs.Keys == sys.txs.Keys
    decreases UnreadCount(sys.txs, n), Load(sys.txs, n)
  {
    if Unfinished(sys) == {} {
      labels := [];
    } else {
      SomeoneSteps(sys);
      var t :| t in Unfinished(sys) && CanStep(sys, t);
      var newId := SomeIdleId(sys);
      var next := After(sys, Next(t, newId));
      NextKeepsLocks(sys, t, newId);
      StepMakesProgress(sys, t, newId, n);
      assert next.txs.Keys == sys.txs.Keys;
      var rest := AllCallsCanFinish(next, n);
      RunCons(sys, Next(t, newId), rest);
      labels := [Next(t, newId)] + rest;
    }
  }
}
