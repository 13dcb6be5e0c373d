/** A run that ends in the raw unique violation: two checkouts with one token, each
    of its own cart row, both past the replay check before either commits. */
module LostInsertExample {
  import opened Base
  import opened EventKeys
  import opened Tables
  import opened Checkout
  import opened Invariants
  import opened Replay
  import opened Backstops
  import opened LockModel
  import opened LockInvariant
  import opened LockRuns
  import LockSteps
  import opened LostInserts

  // ---------- a buyer, two products, two cart rows ----------

  const SHOP := Db(
    map["o" := 1], map[1 := 100], map[2 := Product(10, 5, true), 5 := Product(10, 5, true)],
    map[3 := Address(1, SAMPLE_SNAPSHOT, true, 1)], map[4 := CartItem(1, 2, 1), 6 := CartItem(1, 5, 1)],
    [], [LedgerRow(1, None, Signup(1), None, 100, 100, None, "")])

  function RequestOf(cart: Id): OrderRequest {
    OrderRequest([cart], 3)
  }

  function Call(cart: Id, pc: CreatePc, held: set<Row>): Tx {
    CreateTx(1, "t", RequestOf(cart), pc, held)
  }

  lemma ShopLedgerIsGood()
    ensures LedgerOk(SHOP)
  {
    var ledger := SHOP.ledger;
    assert ledger[..1] == ledger && ledger[..0] == [];
    assert SumDeltas([], 1) == 0;
    assert SumDeltas(ledger, 1) == 100;
    assert RowOk(SHOP.users, ledger, 0);
    assert BalanceOk(SHOP.users, ledger, 1);
  }

  lemma ShopShelvesAreGood()
    ensures CartsOk(SHOP) && ProductsOk(SHOP)
  {
  }

  lemma ShopBuyersAreGood()
    ensures AddressesOk(SHOP.addresses) && LoginsOk(SHOP)
  {
  }

  lemma ShopIsGood()
    ensures Inv(SHOP)
  {
    ShopLedgerIsGood();
    ShopShelvesAreGood();
    ShopBuyersAreGood();
    assert OrdersOk(SHOP) && PostedOk(SHOP);
  }

  lemma SingleSorted(id: Id)
    ensures SortIds([id]) == [id]
  {
    SortIdsFacts([id]);
    assert SortIds([id])[0] in [id];
  }

  lemma CallIsValid(cart: Id)
    requires cart != ZERO_ID
    ensures CreateCallOk(1, "t", RequestOf(cart))
  {
    OneCharacter("t");
  }

  // ---------- one call walking to its INSERT ----------

  /** The rows the walk of `cart` meets, in any state of the shop. */
  predicate Stocked(db: Db, cart: Id, product: Id) {
    && cart != ZERO_ID && 1 in db.users && 100 >= db.users[1] >= 10
    && OwnsAddress(db, 1, 3)
    && cart in db.carts && db.carts[cart] == CartItem(1, product, 1)
    && product in db.products && db.products[product] == Product(10, 5, true)
  }

  function WalkPc(db: Db, cart: Id, product: Id, k: nat): CreatePc
    requires Stocked(db, cart, product) && k <= 6
  {
    var addr, row := db.addresses[3], CartItem(1, product, 1);
    match k
    case 0 => CWantUser
    case 1 => CWantAddr
    case 2 => CWantCart(addr, map[], 0)
    case 3 => CWantCart(addr, map[cart := row], 1)
    case 4 => CWantProduct(addr, [row], map[], 0)
    case 5 => CWantProduct(addr, [row], map[product := db.products[product]], 1)
    case _ => CBuilding(addr, [row], map[product := db.products[product]])
  }

  function WalkHeld(cart: Id, product: Id, k: nat): set<Row> {
    (if k >= 1 then {UserRow(1)} else {}) + (if k >= 2 then {AddrRow(3)} else {})
    + (if k >= 3 then {CartRow(cart)} else {}) + (if k >= 5 then {ProductRow(product)} else {})
  }

  function Walker(db: Db, cart: Id, product: Id, k: nat): Tx
    requires Stocked(db, cart, product) && k <= 6
  {
    Call(cart, WalkPc(db, cart, product, k), WalkHeld(cart, product, k))
  }

  lemma WalkerStarts(db: Db, cart: Id, product: Id)
    requires Stocked(db, cart, product)
    ensures Walker(db, cart, product, 0) == Call(cart, CWantUser, {})
  {
    assert WalkHeld(cart, product, 0) == {};
  }

  lemma WalkerIsIdle(db: Db, cart: Id, product: Id, k: nat, newId: Id)
    requires Stocked(db, cart, product) && k <= 6
    ensures OutcomeOf(Walker(db, cart, product, k)).None? && IdleFor(db, Walker(db, cart, product, k).held, newId)
  {
  }

  lemma WalkToCart(db: Db, cart: Id, product: Id, k: nat, newId: Id)
    requires Stocked(db, cart, product) && k < 3
    ensures TxStep(db, Walker(db, cart, product, k), newId) == (Walker(db, cart, product, k + 1), db)
  {
    SingleSorted(cart);
    var none: map<Id, CartItem> := map[];
    assert none[cart := CartItem(1, product, 1)] == map[cart := CartItem(1, product, 1)];
    assert WalkHeld(cart, product, 1) == {UserRow(1)};
    assert WalkHeld(cart, product, 2) == WalkHeld(cart, product, 1) + {AddrRow(3)};
    assert WalkHeld(cart, product, 3) == WalkHeld(cart, product, 2) + {CartRow(cart)};
  }

  lemma WalkToInsert(db: Db, cart: Id, product: Id, k: nat, newId: Id)
    requires Stocked(db, cart, product) && 3 <= k < 6
    ensures TxStep(db, Walker(db, cart, product, k), newId) == (Walker(db, cart, product, k + 1), db)
  {
    SingleSorted(cart);
    SingleSorted(product);
    var rows := [CartItem(1, product, 1)];
    assert ProductIds(rows) == [product];
    var none: map<Id, Product> := map[];
    assert none[product := db.products[product]] == map[product := db.products[product]];
    assert RowsOf(map[cart := CartItem(1, product, 1)], [cart]) == rows;
    assert WalkHeld(cart, product, 4) == WalkHeld(cart, product, 3);
    assert WalkHeld(cart, product, 5) == WalkHeld(cart, product, 4) + {ProductRow(product)};
    assert WalkHeld(cart, product, 6) == WalkHeld(cart, product, 5);
  }

  // ---------- steps of a system where the others hold nothing ----------

  ghost predicate Alone(sys: Sys, tid: nat) {
    tid in sys.txs && forall t :: t in sys.txs && t != tid ==> sys.txs[t].held == {}
  }

  /** A run that hands out only ids nobody has used. */
  ghost predicate FreshlyRuns(sys: Sys, labels: seq<Label>) {
    IsRun(sys, labels) && FreshRun(sys, labels)
  }

  lemma FreshRunSnoc(sys: Sys, labels: seq<Label>, l: Label)
    requires FreshlyRuns(sys, labels) && Enabled(EndOf(sys, labels), l) && FreshLabel(EndOf(sys, labels), l)
    ensures FreshlyRuns(sys, labels + [l]) && EndOf(sys, labels + [l]) == After(EndOf(sys, labels), l)
  {
    assert (labels + [l])[..|labels + [l]| - 1] == labels;
  }

  lemma AloneSteps(sys: Sys, tid: nat, newId: Id, tx: Tx, db: Db)
    requires Alone(sys, tid) && OutcomeOf(sys.txs[tid]).None? && IdleFor(sys.db, sys.txs[tid].held, newId)
    requires TxStep(sys.db, sys.txs[tid], newId) == (tx, db)
    ensures Enabled(sys, Next(tid, newId))
    ensures After(sys, Next(tid, newId)).db == db && After(sys, Next(tid, newId)).txs == sys.txs[tid := tx]
  {
  }

  lemma WalkStep(db: Db, cart: Id, product: Id, k: nat, newId: Id)
    requires Stocked(db, cart, product) && k < 6
    ensures TxStep(db, Walker(db, cart, product, k), newId) == (Walker(db, cart, product, k + 1), db)
  {
    if k < 3 {
      WalkToCart(db, cart, product, k, newId);
    } else {
      WalkToInsert(db, cart, product, k, newId);
    }
  }

  /** One more step of the one call that holds anything. */
  lemma StepAlone(sys: Sys, labels: seq<Label>, tid: nat, newId: Id, tx: Tx, db: Db)
    requires FreshlyRuns(sys, labels) && Alone(EndOf(sys, labels), tid)
    requires var mid := EndOf(sys, labels);
             && OutcomeOf(mid.txs[tid]).None? && IdleFor(mid.db, mid.txs[tid].held, newId)
             && FindOrder(mid.db.orders, newId).None? && TxStep(mid.db, mid.txs[tid], newId) == (tx, db)
    ensures FreshlyRuns(sys, labels + [Next(tid, newId)])
    ensures var end := EndOf(sys, labels + [Next(tid, newId)]);
            end.db == db && end.txs == EndOf(sys, labels).txs[tid := tx]
  {
    AloneSteps(EndOf(sys, labels), tid, newId, tx, db);
    FreshRunSnoc(sys, labels, Next(tid, newId));
  }

  lemma WalkOnce(sys: Sys, labels: seq<Label>, tid: nat, cart: Id, product: Id, newId: Id, k: nat)
    requires FreshlyRuns(sys, labels) && Alone(EndOf(sys, labels), tid) && k < 6
    requires Stocked(EndOf(sys, labels).db, cart, product) && FindOrder(EndOf(sys, labels).db.orders, newId).None?
    requires EndOf(sys, labels).txs[tid] == Walker(EndOf(sys, labels).db, cart, product, k)
    ensures FreshlyRuns(sys, labels + [Next(tid, newId)])
    ensures var mid, end := EndOf(sys, labels), EndOf(sys, labels + [Next(tid, newId)]);
            end.db == mid.db && end.txs == mid.txs[tid := Walker(mid.db, cart, product, k + 1)]
  {
    var db := EndOf(sys, labels).db;
    WalkStep(db, cart, product, k, newId);
    WalkerIsIdle(db, cart, product, k, newId);
    StepAlone(sys, labels, tid, newId, Walker(db, cart, product, k + 1), db);
  }

  lemma {:induction false} Walk(sys: Sys, labels: seq<Label>, tid: nat, cart: Id, product: Id, newId: Id, k: nat)
    returns (more: seq<Label>)
    requires FreshlyRuns(sys, labels) && Alone(EndOf(sys, labels), tid) && k <= 6
    requires Stocked(EndOf(sys, labels).db, cart, product) && FindOrder(EndOf(sys, labels).db.orders, newId).None?
    requires EndOf(sys, labels).txs[tid] == Walker(EndOf(sys, labels).db, cart, product, k)
    ensures FreshlyRuns(sys, more)
    ensures var mid, end := EndOf(sys, labels), EndOf(sys, more);
            end.db == mid.db && end.txs == mid.txs[tid := Walker(mid.db, cart, product, 6)]
    decreases 6 - k
  {
    more := labels;
    if k < 6 {
      WalkOnce(sys, labels, tid, cart, product, newId, k);
      more := Walk(sys, labels + [Next(tid, newId)], tid, cart, product, newId, k + 1);
    }
  }

  // ---------- the INSERT ----------

  function ExampleBuild(db: Db, cart: Id, product: Id, newId: Id): Result<Writes, Error>
    requires Stocked(db, cart, product)
  {
    Build(db.users[1], db.addresses[3], [CartItem(1, product, 1)], map[product := db.products[product]],
          1, "t", RequestOf(cart), newId)
  }

  lemma ExampleBuilds(db: Db, cart: Id, product: Id, newId: Id)
    requires Stocked(db, cart, product)
    ensures ExampleBuild(db, cart, product, newId).Ok?
    ensures var w := ExampleBuild(db, cart, product, newId).value;
            && w.order.total == 10 && w.order.id == newId && w.order.user == 1 && w.order.token == "t"
            && w.order.hash.cartIds == [cart] && w.user == 1 && w.balance == db.users[1] - 10
            && w.products.Keys == {product} && w.cartIds == {cart}
  {
    var rows, prods := [CartItem(1, product, 1)], map[product := db.products[product]];
    assert rows[1..] == [];
    assert PriceLines(rows[1..], prods, 10) == Ok(10);
    assert PriceLines(rows, prods, 0) == Ok(10);
    BuildSucceedsExactly(db.users[1], db.addresses[3], rows, prods, 1, "t", RequestOf(cart), newId);
    BuiltNames(db.users[1], db.addresses[3], rows, prods, 1, "t", RequestOf(cart), newId);
    BuiltHash(db.users[1], db.addresses[3], rows, prods, 1, "t", RequestOf(cart), newId);
    LockSteps.BuiltProducts(db.users[1], db.addresses[3], rows, prods, 1, "t", RequestOf(cart), newId);
    AdjustedExactly(db.users[1], -10);
    SingleSorted(cart);
    assert IdSet([cart]) == {cart};
  }

  lemma FirstPosts(db: Db, cart: Id, product: Id, newId: Id)
    requires Stocked(db, cart, product) && ExampleBuild(db, cart, product, newId).Ok?
    ensures CheckoutPosts(db.users[1], 1, "t", RequestOf(cart), newId, ExampleBuild(db, cart, product, newId).value)
  {
    ExampleBuilds(db, cart, product, newId);
    BuiltPosts(db.users[1], db.addresses[3], [CartItem(1, product, 1)], map[product := db.products[product]],
               1, "t", RequestOf(cart), newId);
  }

  /** The first call's INSERTs go through: nothing is in the shop yet. */
  lemma FirstInserts()
    ensures Stocked(SHOP, 4, 2) && ExampleBuild(SHOP, 4, 2, 9).Ok?
    ensures InsertError(SHOP, ExampleBuild(SHOP, 4, 2, 9).value).None?
  {
    ExampleBuilds(SHOP, 4, 2, 9);
    FirstPosts(SHOP, 4, 2, 9);
    ShopIsGood();
    InsertsGoThrough(SHOP, 1, "t", RequestOf(4), 9, ExampleBuild(SHOP, 4, 2, 9).value);
  }

  /** The call with its order inserted and not yet committed. */
  function Inserted(db: Db, cart: Id, product: Id, newId: Id): Tx
    requires Stocked(db, cart, product) && ExampleBuild(db, cart, product, newId).Ok?
  {
    var tx := Walker(db, cart, product, 6);
    tx.(cpc := CInserted(tx.cpc.addr, tx.cpc.rows, tx.cpc.prods, ExampleBuild(db, cart, product, newId).value),
        held := tx.held + {TokenSlot(tx.user, tx.token), OrderRow(newId), KeySlot(OrderPay(newId))})
  }

  lemma InsertOf(db: Db, cart: Id, product: Id, newId: Id)
    requires Stocked(db, cart, product) && ExampleBuild(db, cart, product, newId).Ok?
    ensures var tx, w := Walker(db, cart, product, 6), ExampleBuild(db, cart, product, newId).value;
            && (InsertError(db, w).None? ==> TxStep(db, tx, newId) == (Inserted(db, cart, product, newId), db))
            && (InsertError(db, w) == Some(UniqueViolation) ==>
                  TxStep(db, tx, newId) == (Call(cart, CConflict, {}), db))
  {
  }

  lemma CommitOfInserted(db: Db, cart: Id, product: Id, newId: Id, otherId: Id)
    requires Stocked(db, cart, product) && ExampleBuild(db, cart, product, newId).Ok? && otherId != newId
    ensures TxStep(db, Inserted(db, cart, product, newId), otherId)
            == (Call(cart, CDone(Created(newId)), {}), ApplyWrites(db, ExampleBuild(db, cart, product, newId).value))
  {
    ExampleBuilds(db, cart, product, newId);
  }

  lemma OtherIdIsIdle(db: Db, cart: Id, product: Id, newId: Id, otherId: Id)
    requires Stocked(db, cart, product) && ExampleBuild(db, cart, product, newId).Ok? && otherId != newId
    ensures IdleFor(db, Inserted(db, cart, product, newId).held, otherId)
  {
  }

  lemma WalkAndInsert(sys: Sys, labels: seq<Label>, tid: nat, cart: Id, product: Id, newId: Id, tx: Tx)
    returns (more: seq<Label>)
    requires FreshlyRuns(sys, labels) && Alone(EndOf(sys, labels), tid)
    requires var mid := EndOf(sys, labels);
             && Stocked(mid.db, cart, product) && mid.txs[tid] == Call(cart, CWantUser, {})
             && FindOrder(mid.db.orders, newId).None?
             && TxStep(mid.db, Walker(mid.db, cart, product, 6), newId) == (tx, mid.db)
    ensures FreshlyRuns(sys, more)
    ensures var mid, end := EndOf(sys, labels), EndOf(sys, more);
            end.db == mid.db && end.txs == mid.txs[tid := tx]
  {
    WalkerStarts(EndOf(sys, labels).db, cart, product);
    more := Walk(sys, labels, tid, cart, product, newId, 0);
    var db := EndOf(sys, labels).db;
    WalkerIsIdle(db, cart, product, 6, newId);
    StepAlone(sys, more, tid, newId, tx, db);
    more := more + [Next(tid, newId)];
  }

  /** The calls as they stood one step before the end. */
  ghost predicate Before(sys: Sys, labels: seq<Label>, txs: map<nat, Tx>)
    requires FreshlyRuns(sys, labels)
  {
    labels != [] && EndOf(sys, labels[..|labels| - 1]).txs == txs
  }

  /** The walk, the INSERT, and the step after it. */
  lemma WalkInsertAndEnd(sys: Sys, labels: seq<Label>, tid: nat, cart: Id, product: Id, newId: Id, tx: Tx,
                         otherId: Id, done: Tx, db: Db)
    returns (more: seq<Label>)
    requires FreshlyRuns(sys, labels) && Alone(EndOf(sys, labels), tid)
    requires var mid := EndOf(sys, labels);
             && Stocked(mid.db, cart, product) && mid.txs[tid] == Call(cart, CWantUser, {})
             && FindOrder(mid.db.orders, newId).None? && FindOrder(mid.db.orders, otherId).None?
             && TxStep(mid.db, Walker(mid.db, cart, product, 6), newId) == (tx, mid.db)
             && OutcomeOf(tx).None? && IdleFor(mid.db, tx.held, otherId)
             && TxStep(mid.db, tx, otherId) == (done, db)
    ensures FreshlyRuns(sys, more)
    ensures EndOf(sys, more).db == db && EndOf(sys, more).txs == EndOf(sys, labels).txs[tid := done]
    ensures Before(sys, more, EndOf(sys, labels).txs[tid := tx])
  {
    var inserted := WalkAndInsert(sys, labels, tid, cart, product, newId, tx);
    StepAlone(sys, inserted, tid, otherId, done, db);
    more := inserted + [Next(tid, otherId)];
    assert more[..|more| - 1] == inserted;
  }

  lemma InsertGoesThrough(db: Db, cart: Id, product: Id, newId: Id)
    requires Stocked(db, cart, product) && ExampleBuild(db, cart, product, newId).Ok?
    requires InsertError(db, ExampleBuild(db, cart, product, newId).value).None?
    ensures TxStep(db, Walker(db, cart, product, 6), newId) == (Inserted(db, cart, product, newId), db)
  {
    InsertOf(db, cart, product, newId);
  }

  /** A call that meets nobody inserts its order and commits it. */
  lemma CreationSteps(db: Db, cart: Id, product: Id, newId: Id, otherId: Id)
    requires Stocked(db, cart, product) && ExampleBuild(db, cart, product, newId).Ok? && otherId != newId
    requires InsertError(db, ExampleBuild(db, cart, product, newId).value).None?
    ensures var tx := Inserted(db, cart, product, newId);
            && TxStep(db, Walker(db, cart, product, 6), newId) == (tx, db)
            && OutcomeOf(tx).None? && IdleFor(db, tx.held, otherId)
            && TxStep(db, tx, otherId) == (Call(cart, CDone(Created(newId)), {}),
                                           ApplyWrites(db, ExampleBuild(db, cart, product, newId).value))
  {
    InsertGoesThrough(db, cart, product, newId);
    CommitOfInserted(db, cart, product, newId, otherId);
    OtherIdIsIdle(db, cart, product, newId, otherId);
  }

  /** Somebody has the token, for another cart row. */
  predicate TakenFor(db: Db, cart: Id) {
    var found := FindToken(db.orders, 1, "t");
    found.Some? && db.orders[found.value].hash.cartIds != [cart]
  }

  lemma InsertCollides(db: Db, cart: Id, product: Id, newId: Id)
    requires Stocked(db, cart, product) && TakenFor(db, cart)
    ensures TxStep(db, Walker(db, cart, product, 6), newId) == (Call(cart, CConflict, {}), db)
  {
    ExampleBuilds(db, cart, product, newId);
    InsertOf(db, cart, product, newId);
  }

  lemma ConflictIsRefused(db: Db, cart: Id, newId: Id)
    requires TakenFor(db, cart)
    ensures TxStep(db, Call(cart, CConflict, {}), newId) == (Call(cart, CDone(Failed(UniqueViolation)), {}), db)
  {
    SingleSorted(cart);
  }

  /** A call that finds the token taken at its INSERT ends with the raw violation. */
  lemma LosesAlone(sys: Sys, labels: seq<Label>, tid: nat, cart: Id, product: Id, newId: Id) returns (more: seq<Label>)
    requires FreshlyRuns(sys, labels) && Alone(EndOf(sys, labels), tid)
    requires var mid := EndOf(sys, labels);
             && Stocked(mid.db, cart, product) && mid.txs[tid] == Call(cart, CWantUser, {})
             && TakenFor(mid.db, cart) && FindOrder(mid.db.orders, newId).None?
    ensures FreshlyRuns(sys, more)
    ensures Before(sys, more, EndOf(sys, labels).txs[tid := Call(cart, CConflict, {})])
    ensures EndOf(sys, more).txs == EndOf(sys, labels).txs[tid := Call(cart, CDone(Failed(UniqueViolation)), {})]
  {
    var db := EndOf(sys, labels).db;
    InsertCollides(db, cart, product, newId);
    ConflictIsRefused(db, cart, newId);
    more := WalkInsertAndEnd(sys, labels, tid, cart, product, newId, Call(cart, CConflict, {}),
                             newId, Call(cart, CDone(Failed(UniqueViolation)), {}), db);
  }

  // ---------- both begin ----------

  lemma BeginAlone(sys: Sys, labels: seq<Label>, tid: nat, cart: Id)
    requires FreshlyRuns(sys, labels) && tid !in EndOf(sys, labels).txs
    ensures FreshlyRuns(sys, labels + [Begin(tid, Call(cart, CStart, {}))])
    ensures var mid, end := EndOf(sys, labels), EndOf(sys, labels + [Begin(tid, Call(cart, CStart, {}))]);
            end.db == mid.db && end.txs == mid.txs[tid := Call(cart, CStart, {})]
  {
    FreshRunSnoc(sys, labels, Begin(tid, Call(cart, CStart, {})));
  }

  /** A call with an unused token goes on to the buyer row. */
  lemma PassesTheReplayCheck(db: Db, cart: Id, newId: Id)
    requires cart != ZERO_ID && FindToken(db.orders, 1, "t").None?
    ensures TxStep(db, Call(cart, CStart, {}), newId) == (Call(cart, CWantUser, {}), db)
  {
    CallIsValid(cart);
  }

  lemma PassAlone(sys: Sys, labels: seq<Label>, tid: nat, cart: Id)
    requires FreshlyRuns(sys, labels) && Alone(EndOf(sys, labels), tid) && cart != ZERO_ID
    requires EndOf(sys, labels).txs[tid] == Call(cart, CStart, {}) && EndOf(sys, labels).db.orders == []
    ensures FreshlyRuns(sys, labels + [Next(tid, 9)])
    ensures var mid, end := EndOf(sys, labels), EndOf(sys, labels + [Next(tid, 9)]);
            end.db == mid.db && end.txs == mid.txs[tid := Call(cart, CWantUser, {})]
  {
    PassesTheReplayCheck(EndOf(sys, labels).db, cart, 9);
    StepAlone(sys, labels, tid, 9, Call(cart, CWantUser, {}), EndOf(sys, labels).db);
  }

  lemma OneBegins(sys: Sys) returns (labels: seq<Label>)
    requires sys.txs == map[]
    ensures FreshlyRuns(sys, labels) && EndOf(sys, labels).db == sys.db
    ensures EndOf(sys, labels).txs == map[0 := Call(4, CStart, {})]
  {
    labels := [];
    BeginAlone(sys, labels, 0, 4);
    labels := labels + [Begin(0, Call(4, CStart, {}))];
  }

  lemma BothBegin(sys: Sys) returns (labels: seq<Label>)
    requires sys.txs == map[]
    ensures FreshlyRuns(sys, labels) && EndOf(sys, labels).db == sys.db
    ensures EndOf(sys, labels).txs == map[0 := Call(4, CStart, {}), 1 := Call(6, CStart, {})]
  {
    labels := OneBegins(sys);
    BeginAlone(sys, labels, 1, 6);
    labels := labels + [Begin(1, Call(6, CStart, {}))];
  }

  lemma OnePasses(sys: Sys) returns (labels: seq<Label>)
    requires sys.txs == map[] && sys.db.orders == []
    ensures FreshlyRuns(sys, labels) && EndOf(sys, labels).db == sys.db
    ensures EndOf(sys, labels).txs == map[0 := Call(4, CWantUser, {}), 1 := Call(6, CStart, {})]
  {
    labels := BothBegin(sys);
    PassAlone(sys, labels, 0, 4);
    labels := labels + [Next(0, 9)];
  }

  /** Both calls begin, and neither finds an order of the token. */
  lemma BothPassTheReplayCheck(sys: Sys) returns (labels: seq<Label>)
    requires sys.txs == map[] && sys.db.orders == []
    ensures FreshlyRuns(sys, labels) && EndOf(sys, labels).db == sys.db
    ensures EndOf(sys, labels).txs == map[0 := Call(4, CWantUser, {}), 1 := Call(6, CWantUser, {})]
  {
    labels := OnePasses(sys);
    PassAlone(sys, labels, 1, 6);
    labels := labels + [Next(1, 9)];
  }

  // ---------- the race ----------

  /** What the first commit leaves for the second call: its rows, less points, and
      an order of the token made from another cart row. */
  lemma AfterTheFirst(db: Db, w: Writes)
    requires Stocked(db, 4, 2) && Stocked(db, 6, 5) && db.users[1] >= 20 && db.orders == []
    requires ExampleBuild(db, 4, 2, 9) == Ok(w)
    ensures Stocked(ApplyWrites(db, w), 6, 5) && TakenFor(ApplyWrites(db, w), 6)
    ensures FindOrder(ApplyWrites(db, w).orders, 10).None?
  {
    ExampleBuilds(db, 4, 2, 9);
    assert ([] + [w.order])[..0] == [];
  }

  lemma FirstIsAlone(sys: Sys, first: Tx, second: Tx)
    requires sys.txs == map[0 := first, 1 := second] && second.held == {}
    ensures Alone(sys, 0) && sys.txs[0] == first
    ensures forall done :: sys.txs[0 := done] == map[0 := done, 1 := second]
  {
  }

  lemma FirstWins(sys: Sys, labels: seq<Label>, cart: Id, product: Id, newId: Id, otherId: Id, tx: Tx, done: Tx,
                  db: Db, second: Tx)
    returns (more: seq<Label>)
    requires FreshlyRuns(sys, labels) && second.held == {}
    requires EndOf(sys, labels).txs == map[0 := Call(cart, CWantUser, {}), 1 := second]
    requires var mid := EndOf(sys, labels).db;
             && Stocked(mid, cart, product) && mid.orders == []
             && TxStep(mid, Walker(mid, cart, product, 6), newId) == (tx, mid)
             && OutcomeOf(tx).None? && IdleFor(mid, tx.held, otherId) && TxStep(mid, tx, otherId) == (done, db)
    ensures FreshlyRuns(sys, more)
    ensures EndOf(sys, more).db == db && EndOf(sys, more).txs == map[0 := done, 1 := second]
  {
    FirstIsAlone(EndOf(sys, labels), Call(cart, CWantUser, {}), second);
    more := WalkInsertAndEnd(sys, labels, 0, cart, product, newId, tx, otherId, done, db);
  }

  lemma SecondLoses(sys: Sys, labels: seq<Label>, first: Tx) returns (more: seq<Label>)
    requires FreshlyRuns(sys, labels) && Stocked(EndOf(sys, labels).db, 6, 5) && TakenFor(EndOf(sys, labels).db, 6)
    requires FindOrder(EndOf(sys, labels).db.orders, 10).None? && first.held == {}
    requires EndOf(sys, labels).txs == map[0 := first, 1 := Call(6, CWantUser, {})]
    ensures FreshlyRuns(sys, more)
    ensures EndOf(sys, more).txs == map[0 := first, 1 := Call(6, CDone(Failed(UniqueViolation)), {})]
    ensures Before(sys, more, map[0 := first, 1 := Call(6, CConflict, {})])
  {
    var txs := EndOf(sys, labels).txs;
    more := LosesAlone(sys, labels, 1, 6, 5, 10);
    assert txs[1 := Call(6, CConflict, {})] == map[0 := first, 1 := Call(6, CConflict, {})];
  }

  /** Two calls with one token, of different cart rows: the first creates its order,
      the second ends with the raw unique violation. */
  lemma SecondGetsRawViolation(sys: Sys) returns (labels: seq<Label>)
    requires sys.txs == map[] && sys.db.orders == []
    requires Stocked(sys.db, 4, 2) && Stocked(sys.db, 6, 5) && sys.db.users[1] >= 20
    requires ExampleBuild(sys.db, 4, 2, 9).Ok? && InsertError(sys.db, ExampleBuild(sys.db, 4, 2, 9).value).None?
    ensures FreshlyRuns(sys, labels)
    ensures EndOf(sys, labels).txs
            == map[0 := Call(4, CDone(Created(9)), {}), 1 := Call(6, CDone(Failed(UniqueViolation)), {})]
    ensures Before(sys, labels, map[0 := Call(4, CDone(Created(9)), {}), 1 := Call(6, CConflict, {})])
  {
    labels := BothPassTheReplayCheck(sys);
    CreationSteps(sys.db, 4, 2, 9, 8);
    AfterTheFirst(sys.db, ExampleBuild(sys.db, 4, 2, 9).value);
    labels := FirstWins(sys, labels, 4, 2, 9, 8, Inserted(sys.db, 4, 2, 9), Call(4, CDone(Created(9)), {}),
                        ApplyWrites(sys.db, ExampleBuild(sys.db, 4, 2, 9).value), Call(6, CWantUser, {}));
    labels := SecondLoses(sys, labels, Call(4, CDone(Created(9)), {}));
  }

  /** The run exists, from a good system: the example shop with nothing begun. It hands
      out fresh ids only, and one step before its end the loser is in conflict. */
  lemma RawViolationHappens() returns (labels: seq<Label>)
    ensures SysOk(Idle(SHOP, 0)) && LossesOk(Idle(SHOP, 0))
    ensures IsRun(Idle(SHOP, 0), labels) && FreshRun(Idle(SHOP, 0), labels)
    ensures EndOf(Idle(SHOP, 0), labels).txs
            == map[0 := Call(4, CDone(Created(9)), {}), 1 := Call(6, CDone(Failed(UniqueViolation)), {})]
    ensures Before(Idle(SHOP, 0), labels, map[0 := Call(4, CDone(Created(9)), {}), 1 := Call(6, CConflict, {})])
  {
    ShopIsGood();
    IdleIsGood(SHOP, 0);
    FirstInserts();
    labels := SecondGetsRawViolation(Idle(SHOP, 0));
  }
}
