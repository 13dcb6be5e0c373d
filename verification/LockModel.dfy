/** The same calls at the level of row locks. Each transaction is split at its
    SELECT ... FOR UPDATE statements, at the INSERT that another session can
    collide with, and at COMMIT; any number of them run interleaved. What a
    transaction has written is private until it commits. */
module LockModel {
  import opened Base
  import opened EventKeys
  import opened Tables
  import opened Checkout
  import opened Lifecycle
  import opened Accounts
  import opened Runs

  /** What a transaction can hold. A slot is an uncommitted unique-index entry:
      a second INSERT of the same key waits for it. */
  datatype Row =
    | OrderRow(order: Id)
    | EventRow(event: EventKey)
    | UserRow(user: Id)
    | AddrRow(address: Id)
    | CartRow(cart: Id)
    | ProductRow(product: Id)
    | TokenSlot(owner: Id, token: string)
    | KeySlot(event: EventKey)
    | OpenidSlot(openid: string)

  datatype Outcome =
    | Created(order: Id)
    | Replayed(order: Id)
    | Moved
    | Approved
    | Posted(row: LedgerRow)
    | PostReplayed(row: LedgerRow)
    | LoggedIn(user: Id, balance: int)
    | Failed(error: Error)

  datatype CreatePc =
    | CStart
    | CReplaying(existing: Order)
    | CWantUser
    | CWantAddr
    | CWantCart(addr: Address, cart: map<Id, CartItem>, next: nat)
    | CRecheck(addr: Address, cart: map<Id, CartItem>)
    | CWantProduct(addr: Address, rows: seq<CartItem>, prods: map<Id, Product>, next: nat)
    | CBuilding(addr: Address, rows: seq<CartItem>, prods: map<Id, Product>)
    | CInserted(addr: Address, rows: seq<CartItem>, prods: map<Id, Product>, writes: Writes)
    | CConflict
    | CDone(outcome: Outcome)

  datatype MovePc = MStart | MLocked(current: Order) | MDone(outcome: Outcome)

  datatype ApprovePc =
    | AStart
    | AWantUser(current: Order)
    | AWantProduct(current: Order, next: nat)
    | ABuilding(current: Order)
    | ADone(outcome: Outcome)

  datatype AdjustPc =
    | JStart
    | JWantUser
    | JBuilding
    | JInserted(row: LedgerRow)
    | JConflict
    | JDone(outcome: Outcome)

  datatype LoginPc =
    | LStart
    | LRead(user: Id, seen: int)
    | LSlot(user: Id)
    | LNew(user: Id)
    | LDone(outcome: Outcome)

  datatype Tx =
    | CreateTx(user: Id, token: string, req: OrderRequest, cpc: CreatePc, held: set<Row>)
    | MoveTx(move: OrderCall, mpc: MovePc, held: set<Row>)
    | ApproveTx(admin: Id, order: Id, apc: ApprovePc, held: set<Row>)
    | AdjustTx(admin: Id, key: string, adjustment: Adjustment, jpc: AdjustPc, held: set<Row>)
    | LoginTx(openid: string, bonus: Int64, lpc: LoginPc, held: set<Row>)

  function OutcomeOf(tx: Tx): Option<Outcome> {
    match tx
    case CreateTx(_, _, _, CDone(o), _) => Some(o)
    case MoveTx(_, MDone(o), _) => Some(o)
    case ApproveTx(_, _, ADone(o), _) => Some(o)
    case AdjustTx(_, _, _, JDone(o), _) => Some(o)
    case LoginTx(_, _, LDone(o), _) => Some(o)
    case _ => None
  }

  /** Commit or rollback: every lock goes. */
  function Finish(tx: Tx, o: Outcome): Tx {
    match tx
    case CreateTx(_, _, _, _, _) => tx.(cpc := CDone(o), held := {})
    case MoveTx(_, _, _) => tx.(mpc := MDone(o), held := {})
    case ApproveTx(_, _, _, _) => tx.(apc := ADone(o), held := {})
    case AdjustTx(_, _, _, _, _) => tx.(jpc := JDone(o), held := {})
    case LoginTx(_, _, _, _) => tx.(lpc := LDone(o), held := {})
  }

  predicate IsStart(tx: Tx) {
    match tx
    case CreateTx(_, _, _, pc, held) => pc == CStart && held == {}
    case MoveTx(_, pc, held) => pc == MStart && held == {}
    case ApproveTx(_, _, pc, held) => pc == AStart && held == {}
    case AdjustTx(_, _, _, pc, held) => pc == JStart && held == {}
    case LoginTx(_, _, pc, held) => pc == LStart && held == {}
  }

  // ---------- checkout ----------

  predicate CreateCallOk(user: Id, token: string, req: OrderRequest) {
    ValidIdempotencyKey(token) && ValidRequest(req) && user != ZERO_ID
  }

  function CartRows(ids: set<Id>): set<Row> {
    set c | c in ids :: CartRow(c)
  }

  function ProductRows(ids: set<Id>): set<Row> {
    set p | p in ids :: ProductRow(p)
  }

  function RowsOf(cart: map<Id, CartItem>, ids: seq<Id>): seq<CartItem>
    requires forall i :: 0 <= i < |ids| ==> ids[i] in cart
  {
    seq(|ids|, i requires 0 <= i < |ids| => cart[ids[i]])
  }

  /** The row the next step locks, when there is one to lock. */
  function CreateWants(db: Db, tx: Tx): Option<Row>
    requires tx.CreateTx?
  {
    match tx.cpc
    case CStart =>
      var found := FindToken(db.orders, tx.user, tx.token);
      if CreateCallOk(tx.user, tx.token, tx.req) && found.Some? then Some(OrderRow(db.orders[found.value].id)) else None
    case CReplaying(_) => if OwnsAddress(db, tx.user, tx.req.address) then Some(AddrRow(tx.req.address)) else None
    case CWantUser => if tx.user in db.users then Some(UserRow(tx.user)) else None
    case CWantAddr => if OwnsAddress(db, tx.user, tx.req.address) then Some(AddrRow(tx.req.address)) else None
    case CWantCart(_, _, next) =>
      var ids := SortIds(tx.req.cartIds);
      if next < |ids| && OwnsCartRow(db, tx.user, ids[next]) then Some(CartRow(ids[next])) else None
    case CWantProduct(_, rows, _, next) =>
      var ids := SortIds(ProductIds(rows));
      if next < |ids| && ids[next] in db.products then Some(ProductRow(ids[next])) else None
    case CBuilding(_, _, _) => Some(TokenSlot(tx.user, tx.token))
    case _ => None
  }

  function DecideReplay(db: Db, tx: Tx, existing: Order): Tx
    requires tx.CreateTx?
  {
    match ResolveReplay(db, tx.user, tx.req, existing, existing.items)
    case Ok(o) => Finish(tx, Replayed(o.id))
    case Err(e) => Finish(tx, Failed(e))
  }

  /** The INSERTs of buildAndCommit: a unique violation rolls everything back
      and sends the call to resolveAfterConflict. */
  function InsertStep(db: Db, tx: Tx, addr: Address, rows: seq<CartItem>, prods: map<Id, Product>, newId: Id): Tx
    requires tx.CreateTx?
  {
    if tx.user !in db.users then Finish(tx, Failed(UserNotFound))
    else
      match Build(db.users[tx.user], addr, rows, prods, tx.user, tx.token, tx.req, newId)
      case Err(e) => Finish(tx, Failed(e))
      case Ok(w) =>
        var error := InsertError(db, w);
        if error == Some(UniqueViolation) then tx.(cpc := CConflict, held := {})
        else if error.Some? then Finish(tx, Failed(error.value))
        else
          tx.(cpc := CInserted(addr, rows, prods, w),
              held := tx.held + {TokenSlot(tx.user, tx.token), OrderRow(newId), KeySlot(OrderPay(newId))})
  }

  function CartStep(db: Db, tx: Tx, addr: Address, cart: map<Id, CartItem>, next: nat): Tx
    requires tx.CreateTx?
  {
    var ids := SortIds(tx.req.cartIds);
    if next < |ids| then
      if OwnsCartRow(db, tx.user, ids[next]) then
        tx.(cpc := CWantCart(addr, cart[ids[next] := db.carts[ids[next]]], next + 1),
            held := tx.held + {CartRow(ids[next])})
      else tx.(cpc := CWantCart(addr, cart, next + 1))
    else if forall i :: 0 <= i < |ids| ==> ids[i] in cart then
      tx.(cpc := CWantProduct(addr, RowsOf(cart, ids), map[], 0))
    else tx.(cpc := CRecheck(addr, cart))
  }

  function ProductStep(db: Db, tx: Tx, addr: Address, rows: seq<CartItem>, prods: map<Id, Product>, next: nat): Tx
    requires tx.CreateTx?
  {
    var ids := SortIds(ProductIds(rows));
    if next < |ids| then
      if ids[next] in db.products then
        tx.(cpc := CWantProduct(addr, rows, prods[ids[next] := db.products[ids[next]]], next + 1),
            held := tx.held + {ProductRow(ids[next])})
      else Finish(tx, Failed(ProductNotFound))
    else tx.(cpc := CBuilding(addr, rows, prods))
  }

  function CreateStep(db: Db, tx: Tx, newId: Id): (Tx, Db)
    requires tx.CreateTx?
  {
    match tx.cpc
    case CStart =>
      if !ValidIdempotencyKey(tx.token) then (Finish(tx, Failed(InvalidIdempotencyKey)), db)
      else if !CreateCallOk(tx.user, tx.token, tx.req) then (Finish(tx, Failed(InvalidOrderRequest)), db)
      else
        var found := FindToken(db.orders, tx.user, tx.token);
        if found.Some? then
          (tx.(cpc := CReplaying(db.orders[found.value]), held := {OrderRow(db.orders[found.value].id)}), db)
        else (tx.(cpc := CWantUser), db)
    case CReplaying(existing) => (DecideReplay(db, tx, existing), db)
    case CWantUser =>
      if tx.user in db.users then (tx.(cpc := CWantAddr, held := {UserRow(tx.user)}), db)
      else (Finish(tx, Failed(UserNotFound)), db)
    case CWantAddr =>
      if OwnsAddress(db, tx.user, tx.req.address) then
        (tx.(cpc := CWantCart(db.addresses[tx.req.address], map[], 0), held := tx.held + {AddrRow(tx.req.address)}), db)
      else (Finish(tx, Failed(AddressNotFound)), db)
    case CWantCart(addr, cart, next) => (CartStep(db, tx, addr, cart, next), db)
    case CRecheck(_, _) =>
      var found := FindToken(db.orders, tx.user, tx.token);
      if found.Some? then (DecideReplay(db, tx, db.orders[found.value]), db)
      else (Finish(tx, Failed(CartItemNotFound)), db)
    case CWantProduct(addr, rows, prods, next) => (ProductStep(db, tx, addr, rows, prods, next), db)
    case CBuilding(addr, rows, prods) => (InsertStep(db, tx, addr, rows, prods, newId), db)
    case CInserted(_, _, _, w) => (Finish(tx, Created(w.order.id)), ApplyWrites(db, w))
    case CConflict =>
      var found := FindToken(db.orders, tx.user, tx.token);
      if found.Some? && ResolveReplay(db, tx.user, tx.req, db.orders[found.value], db.orders[found.value].items).Ok?
      then (Finish(tx, Replayed(db.orders[found.value].id)), db)
      else (Finish(tx, Failed(UniqueViolation)), db)
    case CDone(_) => (tx, db)
  }

  // ---------- single-row transitions ----------

  function MoveWants(db: Db, tx: Tx): Option<Row>
    requires tx.MoveTx?
  {
    if tx.mpc.MStart? && CallError(tx.move).None? && LockOrder(db, Buyer(tx.move), tx.move.order).Ok?
    then Some(OrderRow(tx.move.order)) else None
  }

  function MoveStep(db: Db, tx: Tx): (Tx, Db)
    requires tx.MoveTx?
  {
    match tx.mpc
    case MStart =>
      if CallError(tx.move).Some? then (Finish(tx, Failed(CallError(tx.move).value)), db)
      else
        (match LockOrder(db, Buyer(tx.move), tx.move.order)
         case Err(e) => (Finish(tx, Failed(e)), db)
         case Ok(i) => (tx.(mpc := MLocked(db.orders[i]), held := {OrderRow(tx.move.order)}), db))
    case MLocked(current) =>
      var found := FindOrder(db.orders, current.id);
      (match Transition(current, tx.move)
       case Err(e) => (Finish(tx, Failed(e)), db)
       case Ok(o) =>
         if found.Some? then (Finish(tx, Moved), db.(orders := db.orders[found.value := o]))
         else (Finish(tx, Failed(OrderStateConflict)), db))
    case MDone(_) => (tx, db)
  }

  // ---------- refund approval ----------

  function ApproveWants(db: Db, tx: Tx): Option<Row>
    requires tx.ApproveTx?
  {
    match tx.apc
    case AStart =>
      if tx.admin != ZERO_ID && tx.order != ZERO_ID && LockOrder(db, None, tx.order).Ok?
      then Some(OrderRow(tx.order)) else None
    case AWantUser(o) => if o.user in db.users then Some(UserRow(o.user)) else None
    case AWantProduct(o, next) =>
      var ids := SortIds(ItemIds(o));
      if next < |ids| && ids[next] in db.products then Some(ProductRow(ids[next])) else None
    case ABuilding(o) => Some(KeySlot(OrderRefund(o.id)))
    case ADone(_) => None
  }

  function RefundStep(db: Db, tx: Tx, o: Order): (Tx, Db)
    requires tx.ApproveTx?
  {
    var found := FindOrder(db.orders, o.id);
    if found.None? then (Finish(tx, Failed(OrderStateConflict)), db)
    else
      match ApproveFresh(db, o, tx.admin)
      case Err(e) => (Finish(tx, Failed(e)), db)
      case Ok(r) => (Finish(tx, Approved), ApplyRefund(db, found.value, r))
  }

  function ApproveStep(db: Db, tx: Tx): (Tx, Db)
    requires tx.ApproveTx?
  {
    match tx.apc
    case AStart =>
      if tx.admin == ZERO_ID || tx.order == ZERO_ID then (Finish(tx, Failed(OrderNotFound)), db)
      else
        (match LockOrder(db, None, tx.order)
         case Err(e) => (Finish(tx, Failed(e)), db)
         case Ok(i) =>
           if db.orders[i].status != RefundRequested then (Finish(tx, Failed(OrderStateConflict)), db)
           else (tx.(apc := AWantUser(db.orders[i]), held := {OrderRow(tx.order)}), db))
    case AWantUser(o) =>
      if o.user in db.users then (tx.(apc := AWantProduct(o, 0), held := tx.held + {UserRow(o.user)}), db)
      else (Finish(tx, Failed(UserNotFound)), db)
    case AWantProduct(o, next) =>
      var ids := SortIds(ItemIds(o));
      if next < |ids| then
        if ids[next] in db.products then
          (tx.(apc := AWantProduct(o, next + 1), held := tx.held + {ProductRow(ids[next])}), db)
        else (Finish(tx, Failed(ProductNotFound)), db)
      else (tx.(apc := ABuilding(o)), db)
    case ABuilding(o) => RefundStep(db, tx, o)
    case ADone(_) => (tx, db)
  }

  // ---------- adjustments ----------

  function AdjustWants(db: Db, tx: Tx): Option<Row>
    requires tx.AdjustTx?
  {
    var event := AdminAdjust(tx.admin, tx.key);
    match tx.jpc
    case JStart =>
      if AdjustCallError(tx.admin, tx.key, tx.adjustment).None? && FindKey(db.ledger, event).Some?
      then Some(EventRow(event)) else None
    case JWantUser => if tx.adjustment.user in db.users then Some(UserRow(tx.adjustment.user)) else None
    case JBuilding => Some(KeySlot(event))
    case _ => None
  }

  function ReplayPost(tx: Tx, row: LedgerRow): Tx
    requires tx.AdjustTx?
  {
    match ReplayAdjustment(row, tx.adjustment)
    case Ok(r) => Finish(tx, PostReplayed(r))
    case Err(e) => Finish(tx, Failed(e))
  }

  function PostStep(db: Db, tx: Tx): Tx
    requires tx.AdjustTx?
  {
    if tx.adjustment.user !in db.users then Finish(tx, Failed(UserNotFound))
    else
      match BuildAdjustment(db.users[tx.adjustment.user], tx.admin, tx.key, tx.adjustment)
      case Err(e) => Finish(tx, Failed(e))
      case Ok(row) =>
        var error := LedgerInsertError(db.ledger, row);
        if error == Some(UniqueViolation) then tx.(jpc := JConflict, held := {})
        else if error.Some? then Finish(tx, Failed(error.value))
        else tx.(jpc := JInserted(row), held := tx.held + {KeySlot(row.key)})
  }

  function AdjustStep(db: Db, tx: Tx): (Tx, Db)
    requires tx.AdjustTx?
  {
    var event := AdminAdjust(tx.admin, tx.key);
    match tx.jpc
    case JStart =>
      var error := AdjustCallError(tx.admin, tx.key, tx.adjustment);
      var found := FindKey(db.ledger, event);
      if error.Some? then (Finish(tx, Failed(error.value)), db)
      else if found.Some? then (ReplayPost(tx, db.ledger[found.value]), db)
      else (tx.(jpc := JWantUser), db)
    case JWantUser =>
      if tx.adjustment.user in db.users then (tx.(jpc := JBuilding, held := {UserRow(tx.adjustment.user)}), db)
      else (Finish(tx, Failed(UserNotFound)), db)
    case JBuilding => (PostStep(db, tx), db)
    case JInserted(row) => (Finish(tx, Posted(row)), PostRow(db, row))
    case JConflict =>
      var found := FindKey(db.ledger, event);
      if found.Some? then (ReplayPost(tx, db.ledger[found.value]), db)
      else (Finish(tx, Failed(UniqueViolation)), db)
    case JDone(_) => (tx, db)
  }

  // ---------- logins ----------

  predicate LoginCallOk(openid: string, bonus: Int64) {
    Trim(openid) != "" && bonus >= 0
  }

  /** The test before awardSignupBonus, on the balance the login has read. */
  predicate Awards(user: Id, seen: int, bonus: Int64) {
    seen == 0 && bonus > 0 && user != ZERO_ID
  }

  /** Both INSERTs say ON CONFLICT DO NOTHING: they wait for another session's
      uncommitted entry and then leave a committed one alone. */
  function LoginWants(db: Db, tx: Tx): Option<Row>
    requires tx.LoginTx?
  {
    match tx.lpc
    case LStart => if LoginCallOk(tx.openid, tx.bonus) then Some(OpenidSlot(Trim(tx.openid))) else None
    case LRead(user, seen) => if Awards(user, seen, tx.bonus) then Some(KeySlot(Signup(user))) else None
    case LSlot(user) => if user in db.users then Some(UserRow(user)) else None
    case LNew(_) => None
    case LDone(_) => None
  }

  /** A new buyer with the bonus, as the transaction commits them. */
  function ApplyNewBuyer(db: Db, openid: string, user: Id, bonus: Int64): Db {
    var inserted := db.(openids := db.openids[openid := user], users := db.users[user := 0]);
    if Awards(user, 0, bonus) then AwardBonus(inserted, user, bonus) else inserted
  }

  /** The balance is read without a lock, the signup slot comes before the buyer
      row, and a new buyer's row and slot are nobody else's. */
  function LoginStep(db: Db, tx: Tx, newId: Id): (Tx, Db)
    requires tx.LoginTx?
  {
    match tx.lpc
    case LStart =>
      var openid := Trim(tx.openid);
      if !LoginCallOk(tx.openid, tx.bonus) then (Finish(tx, Failed(InvalidLogin)), db)
      else if openid in db.openids then
        if db.openids[openid] in db.users
        then (tx.(lpc := LRead(db.openids[openid], db.users[db.openids[openid]])), db)
        else (Finish(tx, Failed(RowNotFound)), db)
      else if |openid| > 64 then (Finish(tx, Failed(ValueTooLong)), db)
      else if newId in db.users then (Finish(tx, Failed(RowNotFound)), db)
      else (tx.(lpc := LNew(newId), held := {OpenidSlot(openid), UserRow(newId), KeySlot(Signup(newId))}), db)
    case LNew(user) =>
      var after := ApplyNewBuyer(db, Trim(tx.openid), user, tx.bonus);
      (Finish(tx, LoggedIn(user, if user in after.users then after.users[user] else 0)), after)
    case LRead(user, seen) =>
      if user !in db.users then (Finish(tx, Failed(RowNotFound)), db)
      else if Awards(user, seen, tx.bonus) && FindKey(db.ledger, Signup(user)).None?
      then (tx.(lpc := LSlot(user), held := {KeySlot(Signup(user))}), db)
      else (Finish(tx, LoggedIn(user, db.users[user])), db)
    case LSlot(user) =>
      if user !in db.users then (Finish(tx, Failed(RowNotFound)), db)
      else (Finish(tx, LoggedIn(user, tx.bonus)), AwardBonus(db, user, tx.bonus))
    case LDone(_) => (tx, db)
  }

  // ---------- the system ----------

  function Wants(db: Db, tx: Tx): Option<Row> {
    match tx
    case CreateTx(_, _, _, _, _) => CreateWants(db, tx)
    case MoveTx(_, _, _) => MoveWants(db, tx)
    case ApproveTx(_, _, _, _) => ApproveWants(db, tx)
    case AdjustTx(_, _, _, _, _) => AdjustWants(db, tx)
    case LoginTx(_, _, _, _) => LoginWants(db, tx)
  }

  function TxStep(db: Db, tx: Tx, newId: Id): (Tx, Db) {
    match tx
    case CreateTx(_, _, _, _, _) => CreateStep(db, tx, newId)
    case MoveTx(_, _, _) => MoveStep(db, tx)
    case ApproveTx(_, _, _, _) => ApproveStep(db, tx)
    case AdjustTx(_, _, _, _, _) => AdjustStep(db, tx)
    case LoginTx(_, _, _, _) => LoginStep(db, tx, newId)
  }

  /** The ledger event a finished call has committed, if it has committed one. */
  function EventOf(tx: Tx): Option<EventKey> {
    match tx
    case CreateTx(_, _, _, CDone(Created(id)), _) => Some(OrderPay(id))
    case ApproveTx(_, order, ADone(Approved), _) => Some(OrderRefund(order))
    case AdjustTx(admin, key, _, JDone(Posted(_)), _) => Some(AdminAdjust(admin, key))
    case _ => None
  }

  /** `poster` is history: which call committed each event. `bonus` is the signup
      bonus the service is configured with. */
  datatype Sys = Sys(db: Db, txs: map<nat, Tx>, poster: map<EventKey, nat>, bonus: Int64)

  predicate HeldByOther(sys: Sys, tid: nat, row: Row) {
    exists other :: other in sys.txs && other != tid && row in sys.txs[other].held
  }

  /** A step waits for exactly one thing: the row or slot it wants. */
  predicate CanStep(sys: Sys, tid: nat) {
    && tid in sys.txs
    && OutcomeOf(sys.txs[tid]).None?
    && (Wants(sys.db, sys.txs[tid]).Some? ==> !HeldByOther(sys, tid, Wants(sys.db, sys.txs[tid]).value))
  }

  /** uid.New hands out an id that no transaction in flight is inserting. */
  predicate IdleFor(db: Db, held: set<Row>, id: Id) {
    && OrderRow(id) !in held && KeySlot(OrderPay(id)) !in held && KeySlot(Signup(id)) !in held
    && (UserRow(id) in held ==> id in db.users)
  }

  predicate IdleId(sys: Sys, id: Id) {
    forall t :: t in sys.txs ==> IdleFor(sys.db, sys.txs[t].held, id)
  }

  /** A row is the same before and after: what its lock protects. */
  predicate RowSame(db: Db, after: Db, row: Row) {
    match row
    case OrderRow(id) =>
      var i := FindOrder(db.orders, id);
      FindOrder(after.orders, id) == i && (i.Some? ==> after.orders[i.value] == db.orders[i.value])
    case EventRow(k) =>
      var i := FindKey(db.ledger, k);
      i.Some? ==> FindKey(after.ledger, k) == i && after.ledger[i.value] == db.ledger[i.value]
    case UserRow(u) => (u in after.users <==> u in db.users) && (u in db.users ==> after.users[u] == db.users[u])
    case AddrRow(a) =>
      && (a in after.addresses <==> a in db.addresses)
      && (a in db.addresses ==> after.addresses[a] == db.addresses[a])
    case CartRow(c) => (c in after.carts <==> c in db.carts) && (c in db.carts ==> after.carts[c] == db.carts[c])
    case ProductRow(p) =>
      && (p in after.products <==> p in db.products)
      && (p in db.products ==> after.products[p] == db.products[p])
    case TokenSlot(u, t) => FindToken(after.orders, u, t) == FindToken(db.orders, u, t)
    case KeySlot(k) => FindKey(after.ledger, k) == FindKey(db.ledger, k)
    case OpenidSlot(o) => o in after.openids <==> o in db.openids
  }

  predicate SameRows(db: Db, after: Db, rows: set<Row>) {
    forall r :: r in rows ==> RowSame(db, after, r)
  }

  /** Catalogue edits, and logins that nothing interrupts, run as one step; a
      statement that would change a locked row waits. */
  predicate EnvAllowed(sys: Sys, s: Step) {
    && !IsOrderStep(s) && !s.DoAdjust? && (s.DoLogin? && sys.bonus > 0 ==> s.bonus > 0)
    && forall t :: t in sys.txs ==> SameRows(sys.db, Exec(sys.db, s), sys.txs[t].held)
  }

  datatype Label =
    | Begin(tid: nat, tx: Tx)
    | Next(tid: nat, newId: Id)
    | Abort(tid: nat)
    | Env(step: Step)

  predicate Enabled(sys: Sys, l: Label) {
    match l
    case Begin(tid, tx) => tid !in sys.txs && IsStart(tx) && (tx.LoginTx? ==> tx.bonus == sys.bonus)
    case Next(tid, newId) => CanStep(sys, tid) && IdleId(sys, newId)
    case Abort(tid) => tid in sys.txs && OutcomeOf(sys.txs[tid]).None?
    case Env(s) => EnvAllowed(sys, s)
  }

  function After(sys: Sys, l: Label): Sys
    requires Enabled(sys, l)
  {
    match l
    case Begin(tid, tx) => sys.(txs := sys.txs[tid := tx])
    case Next(tid, newId) =>
      var (tx, db) := TxStep(sys.db, sys.txs[tid], newId);
      Sys(db, sys.txs[tid := tx], if EventOf(tx).Some? then sys.poster[EventOf(tx).value := tid] else sys.poster,
          sys.bonus)
    case Abort(tid) => sys.(txs := sys.txs[tid := Finish(sys.txs[tid], Failed(Aborted))])
    case Env(s) => sys.(db := Exec(sys.db, s))
  }

  ghost predicate IsRun(sys: Sys, labels: seq<Label>)
    decreases |labels|, 0
  {
    || labels == []
    || (IsRun(sys, labels[..|labels| - 1])
        && Enabled(EndOf(sys, labels[..|labels| - 1]), labels[|labels| - 1]))
  }

  ghost function EndOf(sys: Sys, labels: seq<Label>): Sys
    requires IsRun(sys, labels)
    decreases |labels|, 1
  {
    if labels == [] then sys else After(EndOf(sys, labels[..|labels| - 1]), labels[|labels| - 1])
  }

  lemma RunSnoc(sys: Sys, labels: seq<Label>, l: Label)
    requires IsRun(sys, labels) && Enabled(EndOf(sys, labels), l)
    ensures IsRun(sys, labels + [l]) && EndOf(sys, labels + [l]) == After(EndOf(sys, labels), l)
  {
    assert (labels + [l])[..|labels + [l]| - 1] == labels;
  }

  /** A system in which nothing has begun. */
  function Idle(db: Db, bonus: Int64): Sys {
    Sys(db, map[], map[], bonus)
  }
}
