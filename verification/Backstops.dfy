/** When a checkout succeeds, said without its code, and why the schema's own
    constraints are never what stops it. */
module Backstops {
  import opened Base
  import opened EventKeys
  import opened Tables
  import opened Checkout
  import opened Lifecycle
  import opened Invariants

  /** The cart rows the request names, in id order. */
  function Chosen(db: Db, user: Id, req: OrderRequest): seq<CartItem> {
    SelectCart(db, user, SortIds(req.cartIds))
  }

  predicate OwnsAll(db: Db, user: Id, req: OrderRequest) {
    forall i :: 0 <= i < |req.cartIds| ==> req.cartIds[i] in db.carts && db.carts[req.cartIds[i]].user == user
  }

  /** The address row is there and the buyer's own. */
  predicate OwnAddress(db: Db, user: Id, id: Id) {
    id in db.addresses && db.addresses[id].user == user
  }

  /** What a checkout needs: the products to be had, and a positive charge within
      the balance, where no line is charged a negative amount. */
  predicate Payable(db: Db, user: Id, req: OrderRequest) {
    && user in db.users && OwnAddress(db, user, req.address) && OwnsAll(db, user, req)
    && Purchasable(Chosen(db, user, req), db.products)
    && ChargesNonNegative(Chosen(db, user, req), db.products)
    && 0 < ChargedTotal(Chosen(db, user, req), db.products) <= db.users[user]
  }

  /** The same in the buyer's terms: the exact total is within the balance. */
  predicate Orderable(db: Db, user: Id, req: OrderRequest) {
    && user in db.users && OwnAddress(db, user, req.address) && OwnsAll(db, user, req)
    && Purchasable(Chosen(db, user, req), db.products)
    && ExactTotal(Chosen(db, user, req), db.products) <= db.users[user]
  }

  /** No line of the chosen rows leaves the int64 range. */
  predicate LinesFit(db: Db, user: Id, req: OrderRequest) {
    forall i :: 0 <= i < |Chosen(db, user, req)| && Chosen(db, user, req)[i].product in db.products ==>
      db.products[Chosen(db, user, req)[i].product].price * Chosen(db, user, req)[i].quantity <= MAX64
  }

  // ---------- the locked rows and the table agree ----------

  lemma {:induction false} PriceLinesWithin(rows: seq<CartItem>, part: map<Id, Product>, all: map<Id, Product>,
      total: Int64)
    requires forall i :: 0 <= i < |rows| ==>
             rows[i].product in part && rows[i].product in all && part[rows[i].product] == all[rows[i].product]
    ensures PriceLines(rows, part, total) == PriceLines(rows, all, total)
    decreases |rows|
  {
    if rows != [] {
      var p := part[rows[0].product];
      var lineTotal: int := Wrap64(p.price * rows[0].quantity);
      PriceLinesWithin(rows[1..], part, all, Wrap64(total + lineTotal));
    }
  }

  /** Once the lines are verified, only the buyer's points can stop the build. */
  lemma {:induction false} BuildSucceedsExactly(balance: int, addr: Address, rows: seq<CartItem>,
      prods: map<Id, Product>, user: Id, token: string, req: OrderRequest, newId: Id)
    requires LockedRows(rows, prods) && 0 <= balance <= MAX64
    requires PriceLines(rows, prods, 0).Ok?
    ensures var total := PriceLines(rows, prods, 0).value;
            var b := Build(balance, addr, rows, prods, user, token, req, newId);
            && (b.Ok? <==> total <= balance)
            && (b.Err? ==> b.error == InsufficientPoints)
            && (b.Ok? ==> b.value.order.total == total)
  {
    var total := PriceLines(rows, prods, 0).value;
    AcceptedTotal(rows, prods, 0);
    PricedLinesVerified(rows, prods, 0);
    var lines := LinesOfCart(rows);
    VerifiedLinesDecrement(prods, lines);
    AdjustedExactly(balance, Wrap64(0 - total));
  }

  /** With a fresh order id and an unused token, no unique or CHECK constraint
      refuses what a checkout has built, except a total that wrapped to zero. */
  lemma InsertsGoThrough(db: Db, user: Id, token: string, req: OrderRequest, newId: Id, w: Writes)
    requires Inv(db) && FindToken(db.orders, user, token).None? && FindOrder(db.orders, newId).None?
    requires user in db.users && CheckoutPosts(db.users[user], user, token, req, newId, w)
    ensures InsertError(db, w).None?
  {
    KeyFitsExactly(w.row.key);
    assert OrderOk(w.order);
    forall j | 0 <= j < |db.ledger| ensures db.ledger[j].key != OrderPay(newId) {
      assert RowHasOrder(db.orders, db.ledger[j]);
    }
  }

  lemma OwnedRowsLock(db: Db, user: Id, req: OrderRequest)
    requires CartsOk(db) && ValidRequest(req) && OwnsAll(db, user, req)
    ensures LockCart(db, user, req.cartIds) == Ok(Chosen(db, user, req))
    ensures LockProducts(db.products, ProductIds(Chosen(db, user, req))).Ok?
    ensures forall i :: 0 <= i < |Chosen(db, user, req)| ==> Chosen(db, user, req)[i].product in db.products
  {
    LockedCart(db, user, req.cartIds);
  }

  lemma ChosenPositive(db: Db, user: Id, req: OrderRequest)
    requires CartsOk(db) && ProductsOk(db) && ValidRequest(req) && OwnsAll(db, user, req)
    ensures var rows := Chosen(db, user, req);
            && |rows| > 0 && Positive(rows, db.products)
            && LockProducts(db.products, ProductIds(rows)).Ok?
            && LockedRows(rows, LockProducts(db.products, ProductIds(rows)).value)
            && PriceLines(rows, LockProducts(db.products, ProductIds(rows)).value, 0)
               == PriceLines(rows, db.products, 0)
  {
    OwnedRowsLock(db, user, req);
    var rows := Chosen(db, user, req);
    var prods := LockProducts(db.products, ProductIds(rows)).value;
    LockedRowsOfDb(db, user, req, rows, prods);
    forall i | 0 <= i < |rows|
      ensures rows[i].product in prods && rows[i].product in db.products
              && prods[rows[i].product] == db.products[rows[i].product]
    {
      assert ProductIds(rows)[i] == rows[i].product;
    }
    PriceLinesWithin(rows, prods, db.products, 0);
  }

  /** The verification loop against the buyer's terms. */
  lemma PricedExactly(rows: seq<CartItem>, products: map<Id, Product>)
    requires |rows| > 0 && Positive(rows, products) && NoLineOverflow(rows, products)
    ensures ChargesNonNegative(rows, products) && ChargedTotal(rows, products) == ExactTotal(rows, products) > 0
  {
    ChargesAreExact(rows, products);
    assert products[rows[0].product].price * rows[0].quantity > 0;
    ExactTotalNonNegative(rows[1..], products);
  }

  lemma {:induction false} ChargesAreExact(rows: seq<CartItem>, products: map<Id, Product>)
    requires Positive(rows, products) && NoLineOverflow(rows, products)
    ensures ChargesNonNegative(rows, products) && ChargedTotal(rows, products) == ExactTotal(rows, products)
  {
    forall i | 0 <= i < |rows|
      ensures Charge(rows[i], products) == products[rows[i].product].price * rows[i].quantity >= 0
    {
      assert products[rows[i].product].price * rows[i].quantity > 0;
    }
    if rows != [] {
      ChargesAreExact(rows[1..], products);
    }
  }

  /** A built order of no points is what the CHECK on the total refuses. */
  lemma ZeroTotalRefused(db: Db, w: Writes)
    requires w.order.total <= 0
    ensures InsertError(db, w) == Some(CheckViolation)
  {
  }

  lemma {:induction false} FreshSucceedsExactly(db: Db, user: Id, token: string, req: OrderRequest, newId: Id)
    requires Inv(db) && ValidRequest(req) && user != ZERO_ID && user in db.users
    requires OwnAddress(db, user, req.address) && OwnsAll(db, user, req)
    requires FindToken(db.orders, user, token).None? && FindOrder(db.orders, newId).None?
    ensures forall i :: 0 <= i < |Chosen(db, user, req)| ==> Chosen(db, user, req)[i].product in db.products
    ensures CreateFresh(db, user, token, req, newId).Ok? <==> Payable(db, user, req)
    ensures CreateFresh(db, user, token, req, newId).Ok? ==>
              CreateFresh(db, user, token, req, newId).value.order.total
                == ChargedTotal(Chosen(db, user, req), db.products)
  {
    var rows := Chosen(db, user, req);
    OwnedRowsLock(db, user, req);
    ChosenPositive(db, user, req);
    ChargedExactly(rows, db.products, 0);
    assert BalanceOk(db.users, db.ledger, user);
    var prods := LockProducts(db.products, ProductIds(rows)).value;
    var addr := db.addresses[req.address];
    if PriceLines(rows, db.products, 0).Ok? {
      BuildSucceedsExactly(db.users[user], addr, rows, prods, user, token, req, newId);
      if Build(db.users[user], addr, rows, prods, user, token, req, newId).Ok? {
        var w := Build(db.users[user], addr, rows, prods, user, token, req, newId).value;
        if w.order.total > 0 {
          CheckoutFactsAt(db, user, token, req, newId, rows, prods, w);
          InsertsGoThrough(db, user, token, req, newId, w);
        } else {
          ZeroTotalRefused(db, w);
        }
      }
    }
  }

  /** A first checkout, of any cart, succeeds exactly when the buyer owns the
      address and every chosen cart row, every product is on sale with enough
      stock, no line is charged a negative amount and the charge is positive and
      within the balance: nothing else is ever in the way. */
  lemma CheckoutSucceedsExactly(db: Db, user: Id, token: string, req: OrderRequest, newId: Id)
    requires Inv(db) && ValidIdempotencyKey(token) && ValidRequest(req) && user != ZERO_ID
    requires FindToken(db.orders, user, token).None? && FindOrder(db.orders, newId).None?
    ensures CreateOrder(db, user, token, req, newId).1.Ok? <==> Payable(db, user, req)
  {
    if user in db.users && OwnAddress(db, user, req.address) && OwnsAll(db, user, req) {
      FreshSucceedsExactly(db, user, token, req, newId);
    }
  }

  /** When no line leaves the int64 range, the charge is the exact total: the
      checkout succeeds exactly when the buyer can really pay. */
  lemma FittingCheckoutSucceedsExactly(db: Db, user: Id, token: string, req: OrderRequest, newId: Id)
    requires Inv(db) && ValidIdempotencyKey(token) && ValidRequest(req) && user != ZERO_ID
    requires FindToken(db.orders, user, token).None? && FindOrder(db.orders, newId).None?
    requires LinesFit(db, user, req)
    ensures CreateOrder(db, user, token, req, newId).1.Ok? <==> Orderable(db, user, req)
  {
    CheckoutSucceedsExactly(db, user, token, req, newId);
    if user in db.users && OwnAddress(db, user, req.address) && OwnsAll(db, user, req) {
      ChosenPositive(db, user, req);
      PricedExactly(Chosen(db, user, req), db.products);
    }
  }

  /** The points charged for an accepted order are the exact total if and only if
      no line product left the int64 range. */
  lemma ChargedExactTotalExactly(db: Db, user: Id, token: string, req: OrderRequest, newId: Id)
    requires Inv(db) && FindToken(db.orders, user, token).None? && FindOrder(db.orders, newId).None?
    requires CreateOrder(db, user, token, req, newId).1.Ok?
    ensures forall i :: 0 <= i < |Chosen(db, user, req)| ==> Chosen(db, user, req)[i].product in db.products
    ensures CreateOrder(db, user, token, req, newId).1.value.total <= ExactTotal(Chosen(db, user, req), db.products)
    ensures CreateOrder(db, user, token, req, newId).1.value.total == ExactTotal(Chosen(db, user, req), db.products)
            <==> LinesFit(db, user, req)
  {
    var rows := Chosen(db, user, req);
    FreshSucceedsExactly(db, user, token, req, newId);
    ChosenPositive(db, user, req);
    ChargedExactly(rows, db.products, 0);
    AcceptedTotal(rows, db.products, 0);
  }

  /** Prices up to 2^32 + 2 are enough for the condition at every quantity. */
  lemma {:induction false} SmallPricesFit(db: Db, user: Id, req: OrderRequest)
    requires CartsOk(db) && ProductsOk(db) && ValidRequest(req) && OwnsAll(db, user, req)
    requires forall p :: p in db.products ==> db.products[p].price <= 0x1_0000_0002
    ensures LinesFit(db, user, req)
  {
    ChosenPositive(db, user, req);
    SmallPricesNeverOverflow(Chosen(db, user, req), db.products);
  }

  // ---------- refunds ----------

  predicate RoomFor(products: map<Id, Product>, lines: seq<Line>) {
    forall i :: 0 <= i < |lines| ==>
      lines[i].product in products && products[lines[i].product].stock + lines[i].quantity <= MAX32
  }

  /** On distinct products the increments succeed exactly when each fits its column. */
  lemma {:induction false} IncrementsExactly(products: map<Id, Product>, lines: seq<Line>)
    requires DistinctLines(lines)
    ensures IncrementAll(products, lines).Ok? <==> RoomFor(products, lines)
    decreases |lines|
  {
    if lines != [] {
      LinesTail(lines);
      var l := lines[0];
      if l.product in products && products[l.product].stock + l.quantity <= MAX32 {
        var row := products[l.product];
        var next := products[l.product := row.(stock := row.stock + l.quantity)];
        IncrementsExactly(next, lines[1..]);
        assert RoomFor(products, lines) <==> RoomFor(next, lines[1..]) by {
          assert lines == [lines[0]] + lines[1..];
        }
      }
    }
  }

  /** An approval succeeds exactly on an order with an open request whose points
      and units still fit their columns: the ledger's unique key never refuses it. */
  lemma {:induction false} ApproveSucceedsExactly(db: Db, admin: Id, id: Id)
    requires Inv(db)
    ensures Approve(db, admin, id).1.Ok? <==>
            var found := FindOrder(db.orders, id);
            && admin != ZERO_ID && id != ZERO_ID && found.Some?
            && (var o := db.orders[found.value];
                && o.status == RefundRequested
                && o.user in db.users && db.users[o.user] + o.total <= MAX64
                && RoomFor(db.products, LinesOfItems(o.items)))
  {
    var found := FindOrder(db.orders, id);
    if admin != ZERO_ID && id != ZERO_ID && found.Some? && db.orders[found.value].status == RefundRequested {
      var o := db.orders[found.value];
      assert OrderOk(o) && OrderPosted(db.ledger, o);
      RefundSucceedsExactly(db, o, admin);
    }
  }

  lemma {:induction false} UnitsOfDistinct(lines: seq<Line>, j: nat)
    requires DistinctLines(lines) && j < |lines|
    ensures Units(lines, lines[j].product) == lines[j].quantity
  {
    LinesTail(lines);
    if j == 0 {
      UnlistedProduct(lines[1..], lines[0].product);
    } else {
      UnitsOfDistinct(lines[1..], j - 1);
    }
  }

  /** Each listed product has exactly its line's units more, and no other changes. */
  lemma IncrementsEffect(products: map<Id, Product>, items: seq<OrderItem>)
    requires DistinctLines(LinesOfItems(items)) && IncrementAll(products, LinesOfItems(items)).Ok?
    ensures var after := IncrementAll(products, LinesOfItems(items)).value;
            && after.Keys == products.Keys
            && (forall j :: 0 <= j < |items| ==>
                  && items[j].product in products
                  && after[items[j].product]
                     == products[items[j].product].(stock := products[items[j].product].stock + items[j].quantity))
            && forall p :: p in products && (forall j :: 0 <= j < |items| ==> items[j].product != p) ==>
                 after[p] == products[p]
  {
    var lines := LinesOfItems(items);
    IncrementAllEffect(products, lines);
    IncrementsExactly(products, lines);
    forall j | 0 <= j < |items|
      ensures items[j].product in products && Units(lines, items[j].product) == items[j].quantity
    {
      assert lines[j].product in products;
      UnitsOfDistinct(lines, j);
    }
    forall p | p in products && forall j :: 0 <= j < |items| ==> items[j].product != p
      ensures Units(lines, p) == 0
    {
      UnlistedProduct(lines, p);
    }
  }

  /** What an accepted approval has built. */
  lemma RefundBuilt(db: Db, o: Order, admin: Id)
    requires BalancesOk(db.users, db.ledger) && OrderOk(o) && ApproveFresh(db, o, admin).Ok?
    ensures o.user in db.users
    ensures var w := ApproveFresh(db, o, admin).value;
            && w.order == o.(status := Refunded, refunded := true, reviewedBy := Some(admin))
            && w.balance == db.users[o.user] + o.total
            && w.row == LedgerRow(o.user, Some(o.id), OrderRefund(o.id), None, o.total, db.users[o.user] + o.total,
                                  Some(admin), "")
            && IncrementAll(db.products, LinesOfItems(o.items)) == Ok(w.products)
  {
    assert BalanceOk(db.users, db.ledger, o.user);
    AdjustedExactly(db.users[o.user], o.total);
  }

  lemma RefundApplied(db: Db, i: nat, w: Refund)
    requires i < |db.orders| && w.products.Keys == db.products.Keys
    ensures ApplyRefund(db, i, w)
            == db.(users := db.users[w.order.user := w.balance], products := w.products,
                   orders := db.orders[i := w.order], ledger := db.ledger + [w.row])
  {
    assert db.products + w.products == w.products;
  }

  lemma ApproveApplies(db: Db, admin: Id, id: Id)
    requires Approve(db, admin, id).1.Ok?
    ensures FindOrder(db.orders, id).Some?
    ensures var i := FindOrder(db.orders, id).value;
            && ApproveFresh(db, db.orders[i], admin).Ok?
            && Approve(db, admin, id) == (ApplyRefund(db, i, ApproveFresh(db, db.orders[i], admin).value),
                                          Ok(ApproveFresh(db, db.orders[i], admin).value.order))
  {
  }

  /** Everything an approval writes: the order row, the points with their ledger row,
      the units; and that is all. */
  lemma {:induction false} ApproveEffect(db: Db, admin: Id, id: Id)
    requires Inv(db) && Approve(db, admin, id).1.Ok?
    ensures var (after, r) := Approve(db, admin, id);
            var i := FindOrder(db.orders, id).value;
            var o := db.orders[i];
            && r.value == o.(status := Refunded, refunded := true, reviewedBy := Some(admin))
            && after == db.(users := after.users, products := after.products, orders := after.orders,
                            ledger := after.ledger)
            && after.orders == db.orders[i := r.value]
            && after.users == db.users[o.user := db.users[o.user] + o.total]
            && after.ledger == db.ledger + [LedgerRow(o.user, Some(id), OrderRefund(id), None, o.total,
                                                      db.users[o.user] + o.total, Some(admin), "")]
            && after.products.Keys == db.products.Keys
            && (forall j :: 0 <= j < |o.items| ==>
                  var p := o.items[j].product;
                  p in db.products && after.products[p]
                                      == db.products[p].(stock := db.products[p].stock + o.items[j].quantity))
            && forall p :: p in db.products && (forall j :: 0 <= j < |o.items| ==> o.items[j].product != p) ==>
                 after.products[p] == db.products[p]
  {
    ApproveApplies(db, admin, id);
    var i := FindOrder(db.orders, id).value;
    var o := db.orders[i];
    assert OrderOk(o);
    RefundBuilt(db, o, admin);
    IncrementsEffect(db.products, o.items);
    RefundApplied(db, i, ApproveFresh(db, o, admin).value);
  }

  lemma {:induction false} IncrementErrors(products: map<Id, Product>, lines: seq<Line>)
    requires forall i :: 0 <= i < |lines| ==> lines[i].product in products
    ensures IncrementAll(products, lines).Err? ==> IncrementAll(products, lines).error == NumericOutOfRange
    decreases |lines|
  {
    if lines != [] {
      var l := lines[0];
      var row := products[l.product];
      IncrementErrors(products[l.product := row.(stock := row.stock + l.quantity)], lines[1..]);
    }
  }

  lemma RefundErrors(db: Db, o: Order, admin: Id)
    requires BalancesOk(db.users, db.ledger) && OrderOk(o) && o.status == RefundRequested && o.user in db.users
    requires FindKey(db.ledger, OrderRefund(o.id)).None? && ApproveFresh(db, o, admin).Err?
    ensures ApproveFresh(db, o, admin).error ==
            if exists j :: 0 <= j < |o.items| && o.items[j].product !in db.products then ProductNotFound
            else NumericOutOfRange
  {
    assert BalanceOk(db.users, db.ledger, o.user);
    AdjustedExactly(db.users[o.user], o.total);
    KeyFitsExactly(OrderRefund(o.id));
    if forall j :: 0 <= j < |o.items| ==> o.items[j].product in db.products {
      IncrementErrors(db.products, LinesOfItems(o.items));
    }
  }

  /** The error of every refused approval, and that it changes nothing. */
  lemma {:induction false} ApproveRefusals(db: Db, admin: Id, id: Id)
    requires Inv(db) && Approve(db, admin, id).1.Err?
    ensures Approve(db, admin, id).0 == db
    ensures Approve(db, admin, id).1.error ==
            var found := FindOrder(db.orders, id);
            if admin == ZERO_ID || id == ZERO_ID || found.None? then OrderNotFound
            else
              var o := db.orders[found.value];
              if o.status != RefundRequested then OrderStateConflict
              else if exists j :: 0 <= j < |o.items| && o.items[j].product !in db.products then ProductNotFound
              else NumericOutOfRange
  {
    var found := FindOrder(db.orders, id);
    if admin != ZERO_ID && id != ZERO_ID && found.Some? && db.orders[found.value].status == RefundRequested {
      assert OrderOk(db.orders[found.value]) && OrderPosted(db.ledger, db.orders[found.value]);
      RefundErrors(db, db.orders[found.value], admin);
    }
  }

  lemma RefundSucceedsExactly(db: Db, o: Order, admin: Id)
    requires BalancesOk(db.users, db.ledger) && OrderOk(o) && o.status == RefundRequested && o.user in db.users
    requires FindKey(db.ledger, OrderRefund(o.id)).None?
    ensures ApproveFresh(db, o, admin).Ok? <==>
            db.users[o.user] + o.total <= MAX64 && RoomFor(db.products, LinesOfItems(o.items))
  {
    assert BalanceOk(db.users, db.ledger, o.user);
    AdjustedExactly(db.users[o.user], o.total);
    KeyFitsExactly(OrderRefund(o.id));
    IncrementsExactly(db.products, LinesOfItems(o.items));
    if RoomFor(db.products, LinesOfItems(o.items)) {
      forall j | 0 <= j < |o.items| ensures o.items[j].product in db.products {
        assert LinesOfItems(o.items)[j].product in db.products;
      }
    }
  }

  // ---------- the conditions can be met ----------

  const SAMPLE_SNAPSHOT := Snapshot("Li", "555-0100", "North", "1 Main St")

  /** One buyer with a hundred points, one product, one address, one cart row. */
  function SampleShop(price: int, quantity: int): Db {
    Db(map["o" := 1], map[1 := 100], map[2 := Product(price, 5, true)], map[3 := Address(1, SAMPLE_SNAPSHOT, true, 1)],
       map[4 := CartItem(1, 2, quantity)], [], [LedgerRow(1, None, Signup(1), None, 100, 100, None, "")])
  }

  const SAMPLE_REQUEST := OrderRequest([4], 3)

  lemma SampleShopIsGood(price: int, quantity: int)
    requires 0 < price <= MAX64 && 0 < quantity <= 5
    ensures Inv(SampleShop(price, quantity))
  {
    var db := SampleShop(price, quantity);
    var ledger := db.ledger;
    assert ledger[..1] == ledger && ledger[..0] == [];
    assert SumDeltas([], 1) == 0;
    assert SumDeltas(ledger, 1) == 100;
    assert RowOk(db.users, ledger, 0);
    assert BalanceOk(db.users, ledger, 1);
  }

  lemma SampleRows(price: int, quantity: int)
    ensures ValidRequest(SAMPLE_REQUEST) && OwnsAll(SampleShop(price, quantity), 1, SAMPLE_REQUEST)
    ensures Chosen(SampleShop(price, quantity), 1, SAMPLE_REQUEST) == [CartItem(1, 2, quantity)]
  {
    var db := SampleShop(price, quantity);
    var ids: seq<Id> := [4];
    SortIdsFacts(ids);
    assert SortIds(ids)[0] in ids;
    assert SortIds(ids) == ids;
    assert ids[1..] == [];
    assert SelectCart(db, 1, ids) == [db.carts[4]] + SelectCart(db, 1, []);
  }

  lemma SamplePayable(price: int, quantity: int)
    requires 0 < price <= MAX64 && 0 < quantity <= 5 && 0 < Wrap64(price * quantity) <= 100
    ensures Payable(SampleShop(price, quantity), 1, SAMPLE_REQUEST)
    ensures Chosen(SampleShop(price, quantity), 1, SAMPLE_REQUEST)[0].product in SampleShop(price, quantity).products
    ensures ChargedTotal(Chosen(SampleShop(price, quantity), 1, SAMPLE_REQUEST), SampleShop(price, quantity).products)
            == Wrap64(price * quantity)
  {
    SampleRows(price, quantity);
    var rows := [CartItem(1, 2, quantity)];
    assert rows[1..] == [];
    assert ChargedTotal(rows[1..], SampleShop(price, quantity).products) == 0;
  }

  /** Checkouts of the sample shop succeed, for the charge of the one line. */
  lemma SampleCheckout(price: int, quantity: int, newId: Id)
    requires 0 < price <= MAX64 && 0 < quantity <= 5 && 0 < Wrap64(price * quantity) <= 100
    ensures var db := SampleShop(price, quantity);
            && Inv(db) && Payable(db, 1, SAMPLE_REQUEST) && ValidIdempotencyKey("t")
            && CreateOrder(db, 1, "t", SAMPLE_REQUEST, newId).1.Ok?
            && CreateOrder(db, 1, "t", SAMPLE_REQUEST, newId).1.value.total == Wrap64(price * quantity)
  {
    SampleShopIsGood(price, quantity);
    SampleRows(price, quantity);
    SamplePayable(price, quantity);
    OneCharacter("t");
    CheckoutSucceedsExactly(SampleShop(price, quantity), 1, "t", SAMPLE_REQUEST, newId);
    FreshSucceedsExactly(SampleShop(price, quantity), 1, "t", SAMPLE_REQUEST, newId);
  }

  /** A shop whose checkout succeeds at the exact total: three units at ten points. */
  lemma ShopCanSell(newId: Id)
    ensures var db := SampleShop(10, 3);
            && Inv(db) && Payable(db, 1, SAMPLE_REQUEST)
            && CreateOrder(db, 1, "t", SAMPLE_REQUEST, newId).1.Ok?
            && CreateOrder(db, 1, "t", SAMPLE_REQUEST, newId).1.value.total == 30
  {
    SampleCheckout(10, 3, newId);
  }

  /** A good shop that sells four units at 2^62 + 1 points for four points. */
  lemma WrappedCheckoutSucceeds(newId: Id)
    ensures var db := SampleShop(0x4000_0000_0000_0001, 4);
            && Inv(db) && ValidRequest(SAMPLE_REQUEST) && !LinesFit(db, 1, SAMPLE_REQUEST)
            && CreateOrder(db, 1, "t", SAMPLE_REQUEST, newId).1.Ok?
            && CreateOrder(db, 1, "t", SAMPLE_REQUEST, newId).1.value.total == 4
  {
    assert Wrap64(0x4000_0000_0000_0001 * 4) == 4;
    SampleCheckout(0x4000_0000_0000_0001, 4, newId);
    SampleRows(0x4000_0000_0000_0001, 4);
  }
}
