/** What every step of the system keeps: the ledger is the balance, the orders
    are in step with the ledger, and the schema's CHECK and unique constraints
    hold without ever having to reject a committed step. */
module Invariants {
  import opened Base
  import opened EventKeys
  import opened Sorting
  import opened Tables
  import opened Checkout

  function SumDeltas(ledger: seq<LedgerRow>, u: Id): int {
    if ledger == [] then 0
    else
      var n := |ledger| - 1;
      SumDeltas(ledger[..n], u) + if ledger[n].user == u then ledger[n].delta else 0
  }

  lemma SumDeltasAppend(ledger: seq<LedgerRow>, row: LedgerRow, u: Id)
    ensures SumDeltas(ledger + [row], u) == SumDeltas(ledger, u) + if row.user == u then row.delta else 0
  {
    assert (ledger + [row])[..|ledger|] == ledger;
  }

  // ---------- the ledger is the balance ----------

  ghost predicate RowOk(users: map<Id, int>, ledger: seq<LedgerRow>, i: nat)
    requires i < |ledger|
  {
    && ledger[i].user in users
    && LedgerRowChecks(ledger[i])
    && ledger[i].balanceAfter == SumDeltas(ledger[..i + 1], ledger[i].user)
    && ledger[i].balanceAfter <= MAX64
  }

  ghost predicate BalanceOk(users: map<Id, int>, ledger: seq<LedgerRow>, u: Id)
    requires u in users
  {
    users[u] == SumDeltas(ledger, u) && 0 <= users[u] <= MAX64
  }

  ghost predicate KeysDistinct(ledger: seq<LedgerRow>) {
    forall i, j :: 0 <= i < j < |ledger| ==> ledger[i].key != ledger[j].key
  }

  ghost predicate RowsOk(users: map<Id, int>, ledger: seq<LedgerRow>) {
    forall i :: 0 <= i < |ledger| ==> RowOk(users, ledger, i)
  }

  ghost predicate BalancesOk(users: map<Id, int>, ledger: seq<LedgerRow>) {
    forall u :: u in users ==> BalanceOk(users, ledger, u)
  }

  ghost predicate LedgerOk(db: Db) {
    RowsOk(db.users, db.ledger) && BalancesOk(db.users, db.ledger) && KeysDistinct(db.ledger)
  }

  // ---------- orders ----------

  /** The orders_*_consistent CHECK constraints. */
  predicate StampsOk(o: Order) {
    && (o.status == Paid ==> o.shippedBy.None?)
    && (o.status == Shipped || o.status == Completed ==> o.shippedBy.Some?)
    && (o.completed <==> o.status == Completed)
    && (o.refunded <==> o.status == Refunded)
  }

  ghost predicate OrderOk(o: Order) {
    && 0 < o.total <= MAX64
    && StampsOk(o)
    && DistinctLines(LinesOfItems(o.items))
    && (forall i :: 0 <= i < |o.items| ==> o.items[i].price > 0 && 0 < o.items[i].quantity <= MAX32)
    && o.hash.lines == SortLines(LinesOfItems(o.items))
    && o.hash.cartIds == SortIds(o.hash.cartIds)
    && DistinctIds(o.hash.cartIds)
    && |o.hash.cartIds| == |o.items|
  }

  ghost predicate EachOrderOk(orders: seq<Order>, users: map<Id, int>) {
    forall i :: 0 <= i < |orders| ==> OrderOk(orders[i]) && orders[i].user in users
  }

  /** The primary key and orders_user_id_client_token_key. */
  ghost predicate OrdersUnique(orders: seq<Order>) {
    forall i, j :: 0 <= i < j < |orders| ==>
      && orders[i].id != orders[j].id
      && (orders[i].user != orders[j].user || orders[i].token != orders[j].token)
  }

  ghost predicate OrdersOk(db: Db) {
    EachOrderOk(db.orders, db.users) && OrdersUnique(db.orders)
  }

  // ---------- orders and ledger ----------

  predicate HasRow(ledger: seq<LedgerRow>, key: EventKey, user: Id, delta: int) {
    FindKey(ledger, key).Some?
    && ledger[FindKey(ledger, key).value].user == user
    && ledger[FindKey(ledger, key).value].delta == delta
  }

  predicate OrderPosted(ledger: seq<LedgerRow>, o: Order) {
    && HasRow(ledger, OrderPay(o.id), o.user, -o.total)
    && (o.status == Refunded ==> HasRow(ledger, OrderRefund(o.id), o.user, o.total))
    && (o.status != Refunded ==> FindKey(ledger, OrderRefund(o.id)).None?)
  }

  predicate RowHasOrder(orders: seq<Order>, row: LedgerRow) {
    && (row.key.OrderPay? ==> FindOrder(orders, row.key.order).Some? && row.order == Some(row.key.order))
    && (row.key.OrderRefund? ==> FindOrder(orders, row.key.order).Some? && row.order == Some(row.key.order))
  }

  ghost predicate OrdersPosted(orders: seq<Order>, ledger: seq<LedgerRow>) {
    forall i :: 0 <= i < |orders| ==> OrderPosted(ledger, orders[i])
  }

  ghost predicate RowsHaveOrders(orders: seq<Order>, ledger: seq<LedgerRow>) {
    forall j :: 0 <= j < |ledger| ==> RowHasOrder(orders, ledger[j])
  }

  ghost predicate PostedOk(db: Db) {
    OrdersPosted(db.orders, db.ledger) && RowsHaveOrders(db.orders, db.ledger)
  }

  // ---------- carts, products, addresses, logins ----------

  ghost predicate CartsOk(db: Db) {
    && (forall c :: c in db.carts ==> 0 < db.carts[c].quantity <= MAX32 && db.carts[c].product in db.products)
    && (forall c, d :: c in db.carts && d in db.carts && c != d ==>
          db.carts[c].user != db.carts[d].user || db.carts[c].product != db.carts[d].product)
  }

  ghost predicate ProductsOk(db: Db) {
    forall p :: p in db.products ==> 0 < db.products[p].price <= MAX64 && 0 <= db.products[p].stock <= MAX32
  }

  ghost predicate AddressesOk(addresses: map<Id, Address>) {
    && (forall a :: a in addresses ==> 1 <= addresses[a].version <= MAX64)
    && (forall a, b :: a in addresses && b in addresses && a != b ==>
          addresses[a].isDefault && addresses[b].isDefault ==> addresses[a].user != addresses[b].user)
  }

  ghost predicate LoginsOk(db: Db) {
    forall o :: o in db.openids ==> db.openids[o] in db.users
  }

  ghost predicate Inv(db: Db) {
    && LedgerOk(db) && OrdersOk(db) && PostedOk(db)
    && CartsOk(db) && ProductsOk(db) && AddressesOk(db.addresses) && LoginsOk(db)
  }

  // ---------- posting one ledger row ----------

  lemma PostKeepsRows(users: map<Id, int>, ledger: seq<LedgerRow>, row: LedgerRow)
    requires RowsOk(users, ledger) && BalancesOk(users, ledger)
    requires row.user in users && LedgerRowChecks(row)
    requires row.balanceAfter == users[row.user] + row.delta && row.balanceAfter <= MAX64
    ensures RowsOk(users[row.user := row.balanceAfter], ledger + [row])
  {
    var users', ledger' := users[row.user := row.balanceAfter], ledger + [row];
    forall i | 0 <= i < |ledger'| ensures RowOk(users', ledger', i) {
      if i < |ledger| {
        assert RowOk(users, ledger, i);
        assert ledger'[..i + 1] == ledger[..i + 1];
      } else {
        assert BalanceOk(users, ledger, row.user);
        assert ledger'[..i + 1] == ledger + [row];
        SumDeltasAppend(ledger, row, row.user);
      }
    }
  }

  lemma PostKeepsBalances(users: map<Id, int>, ledger: seq<LedgerRow>, row: LedgerRow)
    requires BalancesOk(users, ledger) && row.user in users
    requires row.balanceAfter == users[row.user] + row.delta && 0 <= row.balanceAfter <= MAX64
    ensures BalancesOk(users[row.user := row.balanceAfter], ledger + [row])
  {
    var users', ledger' := users[row.user := row.balanceAfter], ledger + [row];
    forall u | u in users' ensures BalanceOk(users', ledger', u) {
      assert BalanceOk(users, ledger, u);
      SumDeltasAppend(ledger, row, u);
    }
  }

  lemma PostKeepsLedger(db: Db, after: Db, row: LedgerRow)
    requires LedgerOk(db)
    requires row.user in db.users && LedgerRowChecks(row) && FindKey(db.ledger, row.key).None?
    requires row.balanceAfter == db.users[row.user] + row.delta && row.balanceAfter <= MAX64
    requires after.ledger == db.ledger + [row] && after.users == db.users[row.user := row.balanceAfter]
    ensures LedgerOk(after)
  {
    PostKeepsRows(db.users, db.ledger, row);
    PostKeepsBalances(db.users, db.ledger, row);
  }

  /** A row of another family leaves every order posted as it was. */
  lemma PostKeepsPosted(orders: seq<Order>, ledger: seq<LedgerRow>, row: LedgerRow, o: Order)
    requires OrderPosted(ledger, o)
    requires row.key != OrderRefund(o.id)
    ensures OrderPosted(ledger + [row], o)
  {
    FindKeyAppend(ledger, row, OrderPay(o.id));
    FindKeyAppend(ledger, row, OrderRefund(o.id));
  }

  /** An order is found at its own position. */
  lemma FoundAt(orders: seq<Order>, i: nat)
    requires OrdersUnique(orders) && i < |orders|
    ensures FindOrder(orders, orders[i].id) == Some(i)
    ensures FindToken(orders, orders[i].user, orders[i].token) == Some(i)
  {
  }

  // ---------- one lemma for each kind of step ----------

  lemma {:induction false} SelectCartAll(db: Db, user: Id, ids: seq<Id>)
    requires forall i :: 0 <= i < |ids| ==> OwnsCartRow(db, user, ids[i])
    ensures var rows := SelectCart(db, user, ids);
            |rows| == |ids| && forall i :: 0 <= i < |ids| ==> ids[i] in db.carts && rows[i] == db.carts[ids[i]]
  {
    if ids != [] {
      SelectCartAll(db, user, ids[1..]);
    }
  }

  lemma SortIdsFacts(ids: seq<Id>)
    ensures |SortIds(ids)| == |ids| && SortedBy(IdKey, SortIds(ids)) && multiset(SortIds(ids)) == multiset(ids)
    ensures forall x :: x in ids <==> x in SortIds(ids)
    ensures DistinctIds(ids) ==> DistinctIds(SortIds(ids)) && SortIds(SortIds(ids)) == SortIds(ids)
  {
    SortByIsSort(IdKey, ids);
    SameElements(ids, SortIds(ids));
    if DistinctIds(ids) {
      DistinctPermutes(IdKey, ids, SortIds(ids));
      SortByIsSort(IdKey, SortIds(ids));
      SortCanonical(IdKey, SortIds(ids), SortIds(SortIds(ids)));
    }
  }

  /** The locked cart rows are the requested ones, of distinct products. */
  lemma LockedCart(db: Db, user: Id, ids: seq<Id>)
    requires CartsOk(db) && DistinctIds(ids) && LockCart(db, user, ids).Ok?
    ensures var rows := LockCart(db, user, ids).value;
            var sorted := SortIds(ids);
            && |rows| == |sorted| == |ids|
            && (forall i :: 0 <= i < |sorted| ==> sorted[i] in db.carts && rows[i] == db.carts[sorted[i]])
            && DistinctLines(LinesOfCart(rows))
            && forall i :: 0 <= i < |rows| ==> 0 < rows[i].quantity <= MAX32 && rows[i].product in db.products
  {
    var sorted := SortIds(ids);
    SortIdsFacts(ids);
    forall i | 0 <= i < |sorted| ensures OwnsCartRow(db, user, sorted[i]) {
      assert sorted[i] in ids;
    }
    SelectCartAll(db, user, sorted);
    var rows := SelectCart(db, user, sorted);
    var lines := LinesOfCart(rows);
    forall i, j | 0 <= i < j < |lines| ensures LineKey(lines[i]) != LineKey(lines[j]) {
      assert IdKey(sorted[i]) != IdKey(sorted[j]);
    }
  }

  /** What a successful checkout posts. */
  ghost predicate CheckoutPosts(balance: int, user: Id, token: string, req: OrderRequest, newId: Id, w: Writes) {
    && w.user == user
    && w.order.id == newId && w.order.user == user && w.order.token == token
    && w.order.status == Paid && OrderOk(w.order)
    && w.order.hash.cartIds == SortIds(req.cartIds)
    && w.balance == balance - w.order.total && 0 <= w.balance <= MAX64
    && w.row == LedgerRow(user, Some(newId), OrderPay(newId), None, -w.order.total, w.balance, None, "")
  }

  /** What a successful checkout takes out of stock and cart. */
  ghost predicate CheckoutTakes(db: Db, user: Id, req: OrderRequest, w: Writes) {
    && w.cartIds == IdSet(req.cartIds)
    && (forall c :: c in w.cartIds ==> OwnsCartRow(db, user, c))
    && (forall p :: p in w.products ==>
          && p in db.products
          && w.products[p] == db.products[p].(stock := db.products[p].stock - Units(LinesOfItems(w.order.items), p))
          && 0 <= w.products[p].stock <= MAX32)
    && (forall i :: 0 <= i < |w.order.items| ==> w.order.items[i].product in w.products)
  }

  ghost predicate CheckoutFresh(db: Db, user: Id, token: string, newId: Id) {
    && FindOrder(db.orders, newId).None?
    && FindToken(db.orders, user, token).None?
    && FindKey(db.ledger, OrderPay(newId)).None?
  }

  lemma ItemsMirrorCart(rows: seq<CartItem>, prods: map<Id, Product>)
    requires forall i :: 0 <= i < |rows| ==> rows[i].product in prods
    ensures LinesOfItems(ItemsOf(rows, prods)) == LinesOfCart(rows)
  {
  }

  /** Cart rows and product rows as a checkout has locked them. */
  ghost predicate LockedRows(rows: seq<CartItem>, prods: map<Id, Product>) {
    && Positive(rows, prods)
    && DistinctLines(LinesOfCart(rows))
    && (forall i :: 0 <= i < |rows| ==> rows[i].quantity <= MAX32)
    && (forall p :: p in prods ==> 0 <= prods[p].stock <= MAX32)
  }

  lemma BuiltItems(rows: seq<CartItem>, prods: map<Id, Product>, items: seq<OrderItem>)
    requires LockedRows(rows, prods) && items == ItemsOf(rows, prods)
    ensures LinesOfItems(items) == LinesOfCart(rows)
    ensures DistinctLines(LinesOfItems(items))
    ensures forall i :: 0 <= i < |items| ==> items[i].price > 0 && 0 < items[i].quantity <= MAX32
  {
    ItemsMirrorCart(rows, prods);
  }

  lemma BuiltPosts(balance: int, addr: Address, rows: seq<CartItem>, prods: map<Id, Product>,
                   user: Id, token: string, req: OrderRequest, newId: Id)
    requires Build(balance, addr, rows, prods, user, token, req, newId).Ok?
    requires Build(balance, addr, rows, prods, user, token, req, newId).value.order.total > 0
    requires LockedRows(rows, prods) && 0 <= balance <= MAX64
    requires DistinctIds(req.cartIds) && |rows| == |req.cartIds|
    ensures CheckoutPosts(balance, user, token, req, newId,
                          Build(balance, addr, rows, prods, user, token, req, newId).value)
  {
    var w := Build(balance, addr, rows, prods, user, token, req, newId).value;
    AcceptedTotal(rows, prods, 0);
    BuiltItems(rows, prods, w.order.items);
    SortIdsFacts(req.cartIds);
    AdjustedExactly(balance, Wrap64(0 - w.order.total));
    assert OrderOk(w.order);
  }

  lemma BuiltStocks(balance: int, addr: Address, rows: seq<CartItem>, prods: map<Id, Product>,
                    user: Id, token: string, req: OrderRequest, newId: Id)
    requires Build(balance, addr, rows, prods, user, token, req, newId).Ok?
    requires LockedRows(rows, prods)
    ensures var w := Build(balance, addr, rows, prods, user, token, req, newId).value;
            && w.cartIds == IdSet(req.cartIds)
            && LinesOfItems(w.order.items) == LinesOfCart(rows)
            && w.products.Keys == prods.Keys
            && forall p :: p in prods ==>
                 && w.products[p] == prods[p].(stock := prods[p].stock - Units(LinesOfItems(w.order.items), p))
                 && 0 <= w.products[p].stock <= MAX32
  {
    var w := Build(balance, addr, rows, prods, user, token, req, newId).value;
    BuiltItems(rows, prods, w.order.items);
    DecrementAllEffect(prods, LinesOfCart(rows));
    DecrementAllInRange(prods, LinesOfCart(rows));
  }

  lemma LockedRowsOfDb(db: Db, user: Id, req: OrderRequest, rows: seq<CartItem>, prods: map<Id, Product>)
    requires CartsOk(db) && ProductsOk(db) && DistinctIds(req.cartIds)
    requires LockCart(db, user, req.cartIds) == Ok(rows)
    requires LockProducts(db.products, ProductIds(rows)) == Ok(prods)
    ensures LockedRows(rows, prods) && |rows| == |req.cartIds|
    ensures forall c :: c in IdSet(req.cartIds) ==> OwnsCartRow(db, user, c)
    ensures forall p :: p in prods ==> p in db.products && prods[p] == db.products[p]
  {
    LockedCart(db, user, req.cartIds);
    forall i | 0 <= i < |rows| ensures rows[i].product in prods {
      assert rows[i].product == ProductIds(rows)[i];
    }
  }

  lemma {:induction false} CheckoutFactsAt(db: Db, user: Id, token: string, req: OrderRequest, newId: Id,
                        rows: seq<CartItem>, prods: map<Id, Product>, w: Writes)
    requires CartsOk(db) && ProductsOk(db) && ValidRequest(req)
    requires user in db.users && 0 <= db.users[user] <= MAX64 && req.address in db.addresses
    requires LockCart(db, user, req.cartIds) == Ok(rows)
    requires LockProducts(db.products, ProductIds(rows)) == Ok(prods)
    requires Build(db.users[user], db.addresses[req.address], rows, prods, user, token, req, newId) == Ok(w)
    requires w.order.total > 0
    ensures CheckoutPosts(db.users[user], user, token, req, newId, w)
    ensures CheckoutTakes(db, user, req, w)
  {
    LockedRowsOfDb(db, user, req, rows, prods);
    BuiltPosts(db.users[user], db.addresses[req.address], rows, prods, user, token, req, newId);
    BuiltStocks(db.users[user], db.addresses[req.address], rows, prods, user, token, req, newId);
  }

  lemma {:induction false} CheckoutFacts(db: Db, user: Id, token: string, req: OrderRequest, newId: Id)
    requires CartsOk(db) && ProductsOk(db) && BalancesOk(db.users, db.ledger) && ValidRequest(req)
    requires CreateFresh(db, user, token, req, newId).Ok?
    ensures var w := CreateFresh(db, user, token, req, newId).value;
            && user in db.users
            && CheckoutPosts(db.users[user], user, token, req, newId, w)
            && CheckoutTakes(db, user, req, w)
            && CheckoutFresh(db, user, token, newId)
  {
    var w := CreateFresh(db, user, token, req, newId).value;
    var rows := LockCart(db, user, req.cartIds).value;
    var prods := LockProducts(db.products, ProductIds(rows)).value;
    assert BalanceOk(db.users, db.ledger, user);
    CheckoutFactsAt(db, user, token, req, newId, rows, prods, w);
  }
}
