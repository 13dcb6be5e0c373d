/** Checkout and its replays written out in full: when a call succeeds, everything it
    then writes, and the error of every refusal, in terms of the rows alone. */
module CheckoutContracts {
  import opened Base
  import opened EventKeys
  import opened Sorting
  import opened Tables
  import opened Checkout
  import opened Invariants
  import opened History
  import opened Replay
  import opened Backstops

  // ---------- the request and the rows it names ----------

  /** A call with a usable key, a buyer, an address and distinct cart rows. */
  predicate WellFormed(user: Id, token: string, req: OrderRequest) {
    && 1 <= ByteLen(token) <= 64 && Trim(token) != ""
    && user != ZERO_ID && req.address != ZERO_ID
    && req.cartIds != [] && ZERO_ID !in req.cartIds
    && forall i, j :: 0 <= i < j < |req.cartIds| ==> req.cartIds[i] != req.cartIds[j]
  }

  lemma WellFormedExactly(user: Id, token: string, req: OrderRequest)
    ensures WellFormed(user, token, req) <==> ValidIdempotencyKey(token) && ValidRequest(req) && user != ZERO_ID
  {
    assert forall i, j :: 0 <= i < j < |req.cartIds| ==>
             (req.cartIds[i] != req.cartIds[j] <==> IdKey(req.cartIds[i]) != IdKey(req.cartIds[j]));
  }

  predicate OwnRow(db: Db, user: Id, c: Id) {
    c in db.carts && db.carts[c].user == user
  }

  /** The int64 product that one cart row is charged. */
  function LineCharge(db: Db, c: Id): int {
    if c in db.carts && db.carts[c].product in db.products
    then Wrap64(db.products[db.carts[c].product].price * db.carts[c].quantity) else 0
  }

  function Basket(db: Db, ids: seq<Id>): int {
    if ids == [] then 0 else LineCharge(db, ids[0]) + Basket(db, ids[1..])
  }

  /** The product of the row is there, on sale, with enough stock. */
  predicate Available(db: Db, c: Id) {
    c in db.carts && db.carts[c].product in db.products
    && db.products[db.carts[c].product].onSale
    && db.carts[c].quantity <= db.products[db.carts[c].product].stock
  }

  /** Everything a first checkout needs of the tables. */
  predicate CanBuy(db: Db, user: Id, req: OrderRequest) {
    && user in db.users
    && req.address in db.addresses && db.addresses[req.address].user == user
    && (forall c :: c in req.cartIds ==> OwnRow(db, user, c) && Available(db, c) && LineCharge(db, c) >= 0)
    && 0 < Basket(db, req.cartIds) <= db.users[user]
  }

  // ---------- the order of the rows does not matter ----------

  lemma {:induction false} BasketInsert(db: Db, x: Id, ids: seq<Id>)
    ensures Basket(db, Insert(IdKey, x, ids)) == LineCharge(db, x) + Basket(db, ids)
  {
    if ids == [] || IdKey(x) <= IdKey(ids[0]) {
      assert ([x] + ids)[1..] == ids;
    } else {
      BasketInsert(db, x, ids[1..]);
      assert ([ids[0]] + Insert(IdKey, x, ids[1..]))[1..] == Insert(IdKey, x, ids[1..]);
    }
  }

  lemma {:induction false} BasketSorted(db: Db, ids: seq<Id>)
    ensures Basket(db, SortIds(ids)) == Basket(db, ids)
  {
    if ids != [] {
      BasketSorted(db, ids[1..]);
      BasketInsert(db, ids[0], SortIds(ids[1..]));
    }
  }

  /** `rows` are the cart rows of `ids`, one by one, of known products. */
  ghost predicate RowsOfIds(db: Db, ids: seq<Id>, rows: seq<CartItem>) {
    && |rows| == |ids|
    && forall i :: 0 <= i < |ids| ==>
         ids[i] in db.carts && rows[i] == db.carts[ids[i]] && rows[i].product in db.products
  }

  lemma {:induction false} BasketOfRows(db: Db, ids: seq<Id>, rows: seq<CartItem>)
    requires RowsOfIds(db, ids, rows)
    ensures ChargedTotal(rows, db.products) == Basket(db, ids)
  {
    if ids != [] {
      BasketOfRows(db, ids[1..], rows[1..]);
    }
  }

  lemma ChosenRows(db: Db, user: Id, req: OrderRequest)
    requires CartsOk(db) && ValidRequest(req) && OwnsAll(db, user, req)
    ensures RowsOfIds(db, SortIds(req.cartIds), Chosen(db, user, req))
    ensures forall c :: c in req.cartIds <==> c in SortIds(req.cartIds)
  {
    OwnedRowsLock(db, user, req);
    LockedCart(db, user, req.cartIds);
    SortIdsFacts(req.cartIds);
  }

  lemma ChosenFits(db: Db, user: Id, req: OrderRequest)
    requires CartsOk(db) && ValidRequest(req) && OwnsAll(db, user, req)
    ensures RowsOfIds(db, SortIds(req.cartIds), Chosen(db, user, req))
    ensures Purchasable(Chosen(db, user, req), db.products) <==> forall c :: c in req.cartIds ==> Available(db, c)
    ensures ChargesNonNegative(Chosen(db, user, req), db.products)
            <==> forall c :: c in req.cartIds ==> LineCharge(db, c) >= 0
    ensures ChargedTotal(Chosen(db, user, req), db.products) == Basket(db, req.cartIds)
  {
    ChosenRows(db, user, req);
    var ids, rows := SortIds(req.cartIds), Chosen(db, user, req);
    BasketOfRows(db, ids, rows);
    BasketSorted(db, req.cartIds);
    assert forall i :: 0 <= i < |ids| ==> ids[i] in req.cartIds;
    forall c | c in req.cartIds ensures exists i :: 0 <= i < |ids| && ids[i] == c {
      assert c in ids;
    }
    if Purchasable(rows, db.products) {
      forall c | c in req.cartIds ensures Available(db, c) {
        var i :| 0 <= i < |ids| && ids[i] == c;
        assert rows[i] == db.carts[c];
      }
    }
    if ChargesNonNegative(rows, db.products) {
      forall c | c in req.cartIds ensures LineCharge(db, c) >= 0 {
        var i :| 0 <= i < |ids| && ids[i] == c;
        assert Charge(rows[i], db.products) >= 0;
      }
    }
  }

  // ---------- a first checkout ----------

  /** A first checkout succeeds exactly when the call is well formed, the address and
      every cart row are the buyer's own, every product is to be had, no line is
      charged a negative amount and the charge is positive and within the balance. */
  lemma CheckoutExactly(db: Db, user: Id, token: string, req: OrderRequest, newId: Id)
    requires Inv(db) && FindToken(db.orders, user, token).None? && FindOrder(db.orders, newId).None?
    ensures CreateOrder(db, user, token, req, newId).1.Ok? <==> WellFormed(user, token, req) && CanBuy(db, user, req)
  {
    WellFormedExactly(user, token, req);
    if WellFormed(user, token, req) {
      CheckoutSucceedsExactly(db, user, token, req, newId);
      assert OwnsAll(db, user, req) <==> forall c :: c in req.cartIds ==> OwnRow(db, user, c) by {
        assert forall i :: 0 <= i < |req.cartIds| ==> req.cartIds[i] in req.cartIds;
      }
      if OwnsAll(db, user, req) {
        ChosenFits(db, user, req);
      }
    }
  }

  /** The row a first checkout posts and the order it leaves. */
  ghost predicate OrderIs(db: Db, o: Order, user: Id, token: string, req: OrderRequest, newId: Id)
    requires req.address in db.addresses
  {
    var ids := o.hash.cartIds;
    && o == Order(newId, user, token, o.hash, Basket(db, req.cartIds), o.items, Paid, None, false, false, "", "", None)
    && o.hash == RequestHash(ids, o.hash.lines, req.address, db.addresses[req.address].version,
                             db.addresses[req.address].snap)
    && multiset(ids) == multiset(req.cartIds)
    && (forall i, j :: 0 <= i < j < |ids| ==> ids[i] < ids[j])
    && |o.items| == |ids|
    && (forall i :: 0 <= i < |ids| ==>
          && ids[i] in db.carts && db.carts[ids[i]].product in db.products
          && o.items[i] == OrderItem(db.carts[ids[i]].product, db.products[db.carts[ids[i]].product].price,
                                     db.carts[ids[i]].quantity))
    && multiset(o.hash.lines) == multiset(LinesOfItems(o.items))
    && (forall i, j :: 0 <= i < j < |o.hash.lines| ==> o.hash.lines[i].product < o.hash.lines[j].product)
  }

  lemma AscendingIds(ids: seq<Id>)
    requires DistinctIds(ids)
    ensures var s := SortIds(ids);
            multiset(s) == multiset(ids) && forall i, j :: 0 <= i < j < |s| ==> s[i] < s[j]
  {
    SortIdsFacts(ids);
    var s := SortIds(ids);
    forall i, j | 0 <= i < j < |s| ensures s[i] < s[j] {
      assert IdKey(s[i]) <= IdKey(s[j]) && IdKey(s[i]) != IdKey(s[j]);
    }
  }

  lemma AscendingLines(lines: seq<Line>)
    requires DistinctLines(lines)
    ensures var s := SortLines(lines);
            multiset(s) == multiset(lines) && forall i, j :: 0 <= i < j < |s| ==> s[i].product < s[j].product
  {
    SortByIsSort(LineKey, lines);
    DistinctPermutes(LineKey, lines, SortLines(lines));
    var s := SortLines(lines);
    forall i, j | 0 <= i < j < |s| ensures s[i].product < s[j].product {
      assert LineKey(s[i]) <= LineKey(s[j]) && LineKey(s[i]) != LineKey(s[j]);
    }
  }

  /** What the transaction body has built, over the chosen rows. */
  lemma FreshOwns(db: Db, user: Id, token: string, req: OrderRequest, newId: Id)
    requires CreateFresh(db, user, token, req, newId).Ok?
    ensures OwnsAll(db, user, req) && user in db.users && OwnAddress(db, user, req.address)
  {
  }

  lemma FreshBuilds(db: Db, user: Id, token: string, req: OrderRequest, newId: Id)
    requires Inv(db) && CreateFresh(db, user, token, req, newId).Ok? && ValidRequest(req)
    ensures OwnsAll(db, user, req) && user in db.users && OwnAddress(db, user, req.address)
    ensures var w := CreateFresh(db, user, token, req, newId).value;
            var rows := Chosen(db, user, req);
            && (forall i :: 0 <= i < |rows| ==> rows[i].product in db.products)
            && w.order == NewOrder(newId, user, token, req, db.addresses[req.address], rows, w.order.total,
                                   w.order.items)
  {
    FreshOwns(db, user, token, req, newId);
    OwnedRowsLock(db, user, req);
    var rows := Chosen(db, user, req);
    var prods := LockProducts(db.products, ProductIds(rows)).value;
    PricedLinesVerified(rows, prods, 0);
  }

  lemma {:induction false} OrderWritten(db: Db, user: Id, token: string, req: OrderRequest, newId: Id)
    requires Inv(db) && FindToken(db.orders, user, token).None? && FindOrder(db.orders, newId).None?
    requires CreateFresh(db, user, token, req, newId).Ok? && ValidRequest(req) && user != ZERO_ID
    ensures req.address in db.addresses
    ensures OrderIs(db, CreateFresh(db, user, token, req, newId).value.order, user, token, req, newId)
  {
    FreshBuilds(db, user, token, req, newId);
    FreshSucceedsExactly(db, user, token, req, newId);
    ChosenFits(db, user, req);
    CheckoutFacts(db, user, token, req, newId);
    CheckoutMirrors(db, user, token, req, newId);
    var o := CreateFresh(db, user, token, req, newId).value.order;
    assert OrderOk(o);
    AscendingIds(req.cartIds);
    AscendingLines(LinesOfItems(o.items));
  }

  /** No row of another product takes part: a product is named by at most one row. */
  lemma UnitsOfRow(db: Db, ids: seq<Id>, items: seq<OrderItem>, k: nat)
    requires DistinctLines(LinesOfItems(items)) && |items| == |ids| && k < |ids|
    requires forall i :: 0 <= i < |ids| ==> ids[i] in db.carts && items[i].product == db.carts[ids[i]].product
                                            && items[i].quantity == db.carts[ids[i]].quantity
    ensures Units(LinesOfItems(items), db.carts[ids[k]].product) == db.carts[ids[k]].quantity
  {
    UnitsOfDistinct(LinesOfItems(items), k);
  }

  /** Exactly the named rows are gone. */
  ghost predicate RowsGone(db: Db, carts: map<Id, CartItem>, req: OrderRequest) {
    && (forall c :: c in carts <==> c in db.carts && c !in req.cartIds)
    && forall c :: c in carts ==> carts[c] == db.carts[c]
  }

  /** Each row's product has the row's units less, and no other product changes. */
  ghost predicate UnitsTaken(db: Db, products: map<Id, Product>, req: OrderRequest) {
    && products.Keys == db.products.Keys
    && (forall c :: c in req.cartIds ==>
          && c in db.carts && db.carts[c].product in db.products
          && products[db.carts[c].product]
             == db.products[db.carts[c].product].(
                  stock := db.products[db.carts[c].product].stock - db.carts[c].quantity))
    && forall p :: p in db.products && (forall c :: c in req.cartIds && c in db.carts ==> db.carts[c].product != p) ==>
         products[p] == db.products[p]
  }

  /** Everything a first checkout writes: the order, one ledger row, the points, the
      units of each row's product and the rows themselves; and that is all. */
  ghost predicate Bought(db: Db, after: Db, o: Order, user: Id, token: string, req: OrderRequest, newId: Id)
    requires req.address in db.addresses && user in db.users
  {
    && OrderIs(db, o, user, token, req, newId)
    && RowsGone(db, after.carts, req) && UnitsTaken(db, after.products, req)
    && after == db.(users := db.users[user := db.users[user] - Basket(db, req.cartIds)], products := after.products,
                    carts := after.carts, orders := db.orders + [o],
                    ledger := db.ledger + [LedgerRow(user, Some(newId), OrderPay(newId), None,
                                                     -Basket(db, req.cartIds),
                                                     db.users[user] - Basket(db, req.cartIds), None, "")])
  }

  lemma RowsAreGone(db: Db, req: OrderRequest)
    ensures RowsGone(db, db.carts - IdSet(req.cartIds), req)
  {
  }

  lemma RowUnits(db: Db, user: Id, req: OrderRequest, w: Writes, c: Id)
    requires CheckoutTakes(db, user, req, w) && OrderOk(w.order)
    requires MirrorsCart(db, w.order, SortIds(req.cartIds)) && c in req.cartIds
    ensures c in db.carts && db.carts[c].product in w.products
    ensures Units(LinesOfItems(w.order.items), db.carts[c].product) == db.carts[c].quantity
  {
    var ids := SortIds(req.cartIds);
    SortIdsFacts(req.cartIds);
    assert c in ids;
    var k :| 0 <= k < |ids| && ids[k] == c;
    assert w.order.items[k].product in w.products;
    UnitsOfRow(db, ids, w.order.items, k);
  }

  lemma OtherUnits(db: Db, req: OrderRequest, o: Order, p: Id)
    requires MirrorsCart(db, o, SortIds(req.cartIds))
    requires forall c :: c in req.cartIds && c in db.carts ==> db.carts[c].product != p
    ensures Units(LinesOfItems(o.items), p) == 0
  {
    var ids, lines := SortIds(req.cartIds), LinesOfItems(o.items);
    SortIdsFacts(req.cartIds);
    forall i | 0 <= i < |lines| ensures lines[i].product != p {
      assert ids[i] in req.cartIds && ids[i] in db.carts;
    }
    UnlistedProduct(lines, p);
  }

  lemma UnitsAreTaken(db: Db, user: Id, req: OrderRequest, w: Writes)
    requires CheckoutTakes(db, user, req, w) && OrderOk(w.order)
    requires MirrorsCart(db, w.order, SortIds(req.cartIds))
    ensures UnitsTaken(db, db.products + w.products, req)
  {
    forall c | c in req.cartIds
      ensures c in db.carts && db.carts[c].product in w.products
              && Units(LinesOfItems(w.order.items), db.carts[c].product) == db.carts[c].quantity
    {
      RowUnits(db, user, req, w, c);
    }
    forall p | p in db.products && forall c :: c in req.cartIds && c in db.carts ==> db.carts[c].product != p
      ensures Units(LinesOfItems(w.order.items), p) == 0
    {
      OtherUnits(db, req, w.order, p);
    }
  }

  lemma RowBuilt(balance: int, user: Id, token: string, req: OrderRequest, newId: Id, w: Writes)
    requires CheckoutPosts(balance, user, token, req, newId, w)
    ensures w.user == user && w.balance == balance - w.order.total
    ensures w.row == LedgerRow(user, Some(newId), OrderPay(newId), None, -w.order.total, balance - w.order.total,
                               None, "")
  {
  }

  lemma RowPosted(db: Db, user: Id, req: OrderRequest, newId: Id, w: Writes)
    requires user in db.users && w.user == user && w.cartIds == IdSet(req.cartIds)
    requires w.order.total == Basket(db, req.cartIds) && w.balance == db.users[user] - w.order.total
    requires w.row == LedgerRow(user, Some(newId), OrderPay(newId), None, -w.order.total,
                                db.users[user] - w.order.total, None, "")
    ensures var after := ApplyWrites(db, w);
            after == db.(users := db.users[user := db.users[user] - Basket(db, req.cartIds)],
                         products := db.products + w.products, carts := db.carts - IdSet(req.cartIds),
                         orders := db.orders + [w.order],
                         ledger := db.ledger + [LedgerRow(user, Some(newId), OrderPay(newId), None,
                                                          -Basket(db, req.cartIds),
                                                          db.users[user] - Basket(db, req.cartIds), None, "")])
  {
  }

  lemma WritesApplied(db: Db, user: Id, token: string, req: OrderRequest, newId: Id)
    requires CreateOrder(db, user, token, req, newId).1.Ok? && FindToken(db.orders, user, token).None?
    ensures ValidIdempotencyKey(token) && ValidRequest(req) && user != ZERO_ID
    ensures CreateFresh(db, user, token, req, newId).Ok?
    ensures CreateOrder(db, user, token, req, newId)
            == (ApplyWrites(db, CreateFresh(db, user, token, req, newId).value),
                Ok(CreateFresh(db, user, token, req, newId).value.order))
  {
  }

  lemma {:induction false} CheckoutEffect(db: Db, user: Id, token: string, req: OrderRequest, newId: Id)
    requires Inv(db) && FindToken(db.orders, user, token).None? && FindOrder(db.orders, newId).None?
    requires CreateOrder(db, user, token, req, newId).1.Ok?
    ensures req.address in db.addresses && user in db.users
    ensures var (after, r) := CreateOrder(db, user, token, req, newId);
            Bought(db, after, r.value, user, token, req, newId)
  {
    WritesApplied(db, user, token, req, newId);
    OrderWritten(db, user, token, req, newId);
    CheckoutFacts(db, user, token, req, newId);
    CheckoutMirrors(db, user, token, req, newId);
    var w := CreateFresh(db, user, token, req, newId).value;
    RowBuilt(db.users[user], user, token, req, newId, w);
    RowPosted(db, user, req, newId, w);
    RowsAreGone(db, req);
    UnitsAreTaken(db, user, req, w);
  }

  // ---------- the refusals of a first checkout ----------

  /** The verification loop passes row k of `ids`: to be had, not charged a negative
      amount, and the running total stays an int64. */
  predicate Passes(db: Db, ids: seq<Id>, total: int, k: nat)
    requires k < |ids|
  {
    Available(db, ids[k]) && LineCharge(db, ids[k]) >= 0 && total + Basket(db, ids[..k + 1]) <= MAX64
  }

  /** Why row k does not pass. */
  function RowError(db: Db, c: Id): Error
    requires c in db.carts && db.carts[c].product in db.products
  {
    var p := db.products[db.carts[c].product];
    if !p.onSale then ProductOffSale else if p.stock < db.carts[c].quantity then InsufficientStock
    else InvalidOrderRequest
  }

  lemma PassesNext(db: Db, ids: seq<Id>, total: int, k: nat)
    requires k + 1 < |ids|
    ensures Passes(db, ids, total, k + 1) <==> Passes(db, ids[1..], total + LineCharge(db, ids[0]), k)
  {
    assert ids[..k + 2][1..] == ids[1..][..k + 1];
  }

  /** One pass of the loop. */
  lemma FirstRow(db: Db, ids: seq<Id>, rows: seq<CartItem>, total: Int64)
    requires ids != [] && RowsOfIds(db, ids, rows) && Positive(rows, db.products) && total >= 0
    ensures PriceLines(rows, db.products, total) ==
            if Passes(db, ids, total, 0) then PriceLines(rows[1..], db.products, Wrap64(total + LineCharge(db, ids[0])))
            else Err(RowError(db, ids[0]))
    ensures Passes(db, ids, total, 0) ==> 0 <= total + LineCharge(db, ids[0]) <= MAX64
  {
    var x := db.products[rows[0].product].price * rows[0].quantity;
    assert x > 0;
    GuardedAddition(total, x);
    assert ids[..1][1..] == [];
    assert Basket(db, ids[..1]) == LineCharge(db, ids[0]);
  }

  /** The loop stops at the first row that does not pass, with that row's error. */
  lemma {:induction false} StopsAt(db: Db, ids: seq<Id>, rows: seq<CartItem>, total: Int64, k: nat)
    requires RowsOfIds(db, ids, rows) && Positive(rows, db.products) && total >= 0 && k < |ids|
    requires !Passes(db, ids, total, k) && forall j :: 0 <= j < k ==> Passes(db, ids, total, j)
    ensures PriceLines(rows, db.products, total) == Err(RowError(db, ids[k]))
    decreases |ids|
  {
    FirstRow(db, ids, rows, total);
    if k > 0 {
      assert Passes(db, ids, total, 0);
      var rest, next := ids[1..], total + LineCharge(db, ids[0]);
      PassesNext(db, ids, total, k - 1);
      forall j | 0 <= j < k - 1 ensures Passes(db, rest, next, j) {
        PassesNext(db, ids, total, j);
      }
      StopsAt(db, rest, rows[1..], next, k - 1);
    }
  }

  /** The errors before any product is looked at. */
  lemma CheckoutRefusals(db: Db, user: Id, token: string, req: OrderRequest, newId: Id)
    requires FindToken(db.orders, user, token).None?
    ensures CreateOrder(db, user, token, req, newId).1.Err? ==> CreateOrder(db, user, token, req, newId).0 == db
    ensures var r := CreateOrder(db, user, token, req, newId).1;
            && (ByteLen(token) < 1 || ByteLen(token) > 64 || Trim(token) == "" ==> r == Err(InvalidIdempotencyKey))
            && (1 <= ByteLen(token) <= 64 && Trim(token) != "" && !WellFormed(user, token, req) ==>
                  r == Err(InvalidOrderRequest))
            && (WellFormed(user, token, req) ==>
                  && (user !in db.users ==> r == Err(UserNotFound))
                  && (user in db.users && !(req.address in db.addresses && db.addresses[req.address].user == user) ==>
                        r == Err(AddressNotFound))
                  && (user in db.users && req.address in db.addresses && db.addresses[req.address].user == user ==>
                        (exists c :: c in req.cartIds && !OwnRow(db, user, c)) ==> r == Err(CartItemNotFound)))
  {
    WellFormedExactly(user, token, req);
    if exists c :: c in req.cartIds && !OwnRow(db, user, c) {
      var c :| c in req.cartIds && !OwnRow(db, user, c);
      var i :| 0 <= i < |req.cartIds| && req.cartIds[i] == c;
      assert !OwnsCartRow(db, user, req.cartIds[i]);
    }
  }

  /** Buyer, address and rows are in order. */
  predicate InOrder(db: Db, user: Id, req: OrderRequest) {
    && user in db.users
    && req.address in db.addresses && db.addresses[req.address].user == user
    && forall c :: c in req.cartIds ==> OwnRow(db, user, c)
  }

  lemma OwnRowsAll(db: Db, user: Id, req: OrderRequest)
    requires InOrder(db, user, req)
    ensures OwnsAll(db, user, req)
  {
    assert forall i :: 0 <= i < |req.cartIds| ==> req.cartIds[i] in req.cartIds;
  }

  lemma PricesOfChosen(db: Db, user: Id, token: string, req: OrderRequest, newId: Id)
    requires Inv(db) && WellFormed(user, token, req) && InOrder(db, user, req)
    requires FindToken(db.orders, user, token).None?
    requires PriceLines(Chosen(db, user, req), db.products, 0).Err?
    ensures CreateOrder(db, user, token, req, newId).1 == Err(PriceLines(Chosen(db, user, req), db.products, 0).error)
  {
    WellFormedExactly(user, token, req);
    OwnRowsAll(db, user, req);
    OwnedRowsLock(db, user, req);
    ChosenPositive(db, user, req);
  }

  lemma ChosenStops(db: Db, user: Id, req: OrderRequest, k: nat)
    requires CartsOk(db) && ProductsOk(db) && ValidRequest(req) && OwnsAll(db, user, req)
    requires var ids := SortIds(req.cartIds);
             k < |ids| && !Passes(db, ids, 0, k) && forall j :: 0 <= j < k ==> Passes(db, ids, 0, j)
    ensures var c := SortIds(req.cartIds)[k];
            && c in db.carts && db.carts[c].product in db.products
            && PriceLines(Chosen(db, user, req), db.products, 0) == Err(RowError(db, c))
  {
    ChosenRows(db, user, req);
    ChosenPositive(db, user, req);
    StopsAt(db, SortIds(req.cartIds), Chosen(db, user, req), 0, k);
  }

  /** In id order, the first row that does not pass decides the error. */
  lemma {:induction false} RowRefusal(db: Db, user: Id, token: string, req: OrderRequest, newId: Id, ids: seq<Id>,
      k: nat)
    requires Inv(db) && WellFormed(user, token, req) && InOrder(db, user, req)
    requires FindToken(db.orders, user, token).None?
    requires multiset(ids) == multiset(req.cartIds) && forall i, j :: 0 <= i < j < |ids| ==> ids[i] < ids[j]
    requires k < |ids| && !Passes(db, ids, 0, k) && forall j :: 0 <= j < k ==> Passes(db, ids, 0, j)
    ensures ids[k] in db.carts && db.carts[ids[k]].product in db.products
    ensures CreateOrder(db, user, token, req, newId).1 == Err(RowError(db, ids[k]))
  {
    WellFormedExactly(user, token, req);
    OwnRowsAll(db, user, req);
    SortedIds(req.cartIds, ids);
    ChosenStops(db, user, req, k);
    PricesOfChosen(db, user, token, req, newId);
  }

  lemma SortedIds(given: seq<Id>, ids: seq<Id>)
    requires DistinctIds(given) && multiset(ids) == multiset(given)
    requires forall i, j :: 0 <= i < j < |ids| ==> ids[i] < ids[j]
    ensures ids == SortIds(given)
  {
    SortIdsFacts(given);
    SortCanonical(IdKey, SortIds(given), ids);
  }

  /** When every row passes, only the charge can be in the way: above the balance, or
      nothing at all. */
  lemma {:induction false} ChargeRefusal(db: Db, user: Id, token: string, req: OrderRequest, newId: Id)
    requires Inv(db) && WellFormed(user, token, req) && InOrder(db, user, req)
    requires FindToken(db.orders, user, token).None?
    requires forall c :: c in req.cartIds ==> Available(db, c) && LineCharge(db, c) >= 0
    requires Basket(db, req.cartIds) <= MAX64
    ensures Basket(db, req.cartIds) > db.users[user] ==>
              CreateOrder(db, user, token, req, newId).1 == Err(InsufficientPoints)
    ensures Basket(db, req.cartIds) == 0 ==> CreateOrder(db, user, token, req, newId).1 == Err(CheckViolation)
  {
    WellFormedExactly(user, token, req);
    OwnRowsAll(db, user, req);
    OwnedRowsLock(db, user, req);
    ChosenPositive(db, user, req);
    ChosenFits(db, user, req);
    var rows := Chosen(db, user, req);
    var prods := LockProducts(db.products, ProductIds(rows)).value;
    ChargedExactly(rows, db.products, 0);
    assert BalanceOk(db.users, db.ledger, user);
    BuildSucceedsExactly(db.users[user], db.addresses[req.address], rows, prods, user, token, req, newId);
    var b := Build(db.users[user], db.addresses[req.address], rows, prods, user, token, req, newId);
    if b.Ok? && b.value.order.total == 0 {
      ZeroTotalRefused(db, b.value);
    }
  }

  // ---------- replays ----------

  /** With the token used, nothing is ever written, and the order is the answer exactly
      when the request names the same rows and the buyer's own, unedited address. */
  lemma ReplayExactly(db: Db, user: Id, token: string, req: OrderRequest, newId: Id)
    requires Inv(db) && FindToken(db.orders, user, token).Some?
    ensures var o := db.orders[FindToken(db.orders, user, token).value];
            CreateOrder(db, user, token, req, newId) ==
            (db, if ByteLen(token) < 1 || ByteLen(token) > 64 || Trim(token) == "" then Err(InvalidIdempotencyKey)
                 else if !WellFormed(user, token, req) then Err(InvalidOrderRequest)
                 else if !(req.address in db.addresses && db.addresses[req.address].user == user) then
                   Err(AddressNotFound)
                 else if (forall c :: c in req.cartIds <==> c in o.hash.cartIds) && req.address == o.hash.address
                         && db.addresses[req.address].version == o.hash.version
                         && db.addresses[req.address].snap == o.hash.snap then Ok(o)
                 else Err(IdempotencyConflict))
  {
    WellFormedExactly(user, token, req);
    var o := db.orders[FindToken(db.orders, user, token).value];
    assert OrderOk(o);
    if WellFormed(user, token, req) {
      ReplayAcceptedExactly(db, user, req, o, o.items);
    }
  }

  /** Whoever gets an order, by a first call or a replay, has named an address of
      their own. */
  lemma OwnAddressAlways(db: Db, user: Id, token: string, req: OrderRequest, newId: Id)
    requires Inv(db) && CreateOrder(db, user, token, req, newId).1.Ok?
    ensures req.address in db.addresses && db.addresses[req.address].user == user
  {
    if FindToken(db.orders, user, token).Some? {
      ReplayExactly(db, user, token, req, newId);
    } else {
      WritesApplied(db, user, token, req, newId);
      FreshOwns(db, user, token, req, newId);
    }
  }

  /** And a well-formed call that names any other is answered so, before anything is
      written: when the token is used, and when it is not and the buyer exists. */
  lemma ForeignAddressRefused(db: Db, user: Id, token: string, req: OrderRequest, newId: Id)
    requires Inv(db) && WellFormed(user, token, req)
    requires req.address !in db.addresses || db.addresses[req.address].user != user
    requires FindToken(db.orders, user, token).Some? || user in db.users
    ensures CreateOrder(db, user, token, req, newId) == (db, Err(AddressNotFound))
  {
    if FindToken(db.orders, user, token).Some? {
      ReplayExactly(db, user, token, req, newId);
    } else {
      CheckoutRefusals(db, user, token, req, newId);
    }
  }
}
