/** What holds between two points of a run: the ledger only grows, orders keep
    their identity and move only along the state machine, a rejection undoes its
    request, and no cart row feeds two orders. */
module History {
  import opened Base
  import opened EventKeys
  import opened Tables
  import opened Checkout
  import opened Lifecycle
  import opened Runs
  import opened Invariants
  import opened Preservation

  // ---------- the ledger ----------

  /** In every state a run reaches, each balance is the sum of the buyer's
      deltas, each balance_after is the prefix sum at its row, and neither is
      ever negative. No bound on the deltas is needed. */
  lemma {:induction false} LedgerConservation(db: Db, steps: seq<Step>)
    requires Inv(db)
    ensures var after := Run(db, steps);
            && (forall u :: u in after.users ==> after.users[u] == SumDeltas(after.ledger, u) >= 0)
            && (forall i :: 0 <= i < |after.ledger| ==>
                  after.ledger[i].balanceAfter == SumDeltas(after.ledger[..i + 1], after.ledger[i].user) >= 0)
  {
    RunKeeps(db, steps);
    var after := Run(db, steps);
    forall u | u in after.users ensures after.users[u] == SumDeltas(after.ledger, u) >= 0 {
      assert BalanceOk(after.users, after.ledger, u);
    }
    forall i | 0 <= i < |after.ledger|
      ensures after.ledger[i].balanceAfter == SumDeltas(after.ledger[..i + 1], after.ledger[i].user) >= 0
    {
      assert RowOk(after.users, after.ledger, i);
    }
  }

  /** Rows of the ledger with a given key. */
  ghost function RowsWithKey(ledger: seq<LedgerRow>, key: EventKey): set<nat> {
    set i: nat | i < |ledger| && ledger[i].key == key
  }

  lemma OneRowPerKey(ledger: seq<LedgerRow>, key: EventKey)
    requires KeysDistinct(ledger)
    ensures RowsWithKey(ledger, key) == if FindKey(ledger, key).Some? then {FindKey(ledger, key).value} else {}
  {
  }

  /** Every order has exactly one payment row, of minus its total, and exactly
      one refund row, of plus the same total, if and only if it is refunded;
      no payment or refund row is without its order. */
  lemma {:induction false} OrderLedgerCorrespondence(db: Db, steps: seq<Step>)
    requires Inv(db)
    ensures var after := Run(db, steps);
            && (forall i :: 0 <= i < |after.orders| ==>
                  var o := after.orders[i];
                  && HasRow(after.ledger, OrderPay(o.id), o.user, -o.total)
                  && |RowsWithKey(after.ledger, OrderPay(o.id))| == 1
                  && (o.status == Refunded ==> HasRow(after.ledger, OrderRefund(o.id), o.user, o.total))
                  && |RowsWithKey(after.ledger, OrderRefund(o.id))| == (if o.status == Refunded then 1 else 0))
            && (forall j :: 0 <= j < |after.ledger| ==> RowHasOrder(after.orders, after.ledger[j]))
  {
    RunKeeps(db, steps);
    var after := Run(db, steps);
    forall i | 0 <= i < |after.orders|
      ensures var o := after.orders[i];
              && HasRow(after.ledger, OrderPay(o.id), o.user, -o.total)
              && |RowsWithKey(after.ledger, OrderPay(o.id))| == 1
              && (o.status == Refunded ==> HasRow(after.ledger, OrderRefund(o.id), o.user, o.total))
              && |RowsWithKey(after.ledger, OrderRefund(o.id))| == (if o.status == Refunded then 1 else 0)
    {
      var o := after.orders[i];
      assert OrderPosted(after.ledger, o);
      OneRowPerKey(after.ledger, OrderPay(o.id));
      OneRowPerKey(after.ledger, OrderRefund(o.id));
    }
  }

  /** Over every run each ledger row is of one family, with the sign, the order, the
      administrator and the request its family has. */
  lemma RowsOfFamilies(db: Db, steps: seq<Step>, i: nat)
    requires Inv(db) && i < |Run(db, steps).ledger|
    ensures var row := Run(db, steps).ledger[i];
            match row.key
            case OrderPay(id) => row.delta < 0 && row.order == Some(id) && row.admin.None? && row.hash.None?
            case OrderRefund(id) => row.delta > 0 && row.order == Some(id) && row.admin.Some? && row.hash.None?
            case Signup(_) => row.delta > 0 && row.order.None? && row.admin.None? && row.hash.None?
            case AdminAdjust(_, _) =>
              row.delta != 0 && row.order.None? && row.admin.Some? && row.hash.Some? && row.remark != ""
  {
    RunKeeps(db, steps);
    var after := Run(db, steps);
    assert RowOk(after.users, after.ledger, i);
    assert RowHasOrder(after.orders, after.ledger[i]);
  }

  /** Over every run each order has a positive int64 total, positive lines of distinct
      products, and the stamps its status has. */
  lemma OrdersOfStatus(db: Db, steps: seq<Step>, i: nat)
    requires Inv(db) && i < |Run(db, steps).orders|
    ensures var o := Run(db, steps).orders[i];
            && 0 < o.total <= MAX64
            && (forall j :: 0 <= j < |o.items| ==> o.items[j].price > 0 && 0 < o.items[j].quantity <= MAX32)
            && (forall j, k :: 0 <= j < k < |o.items| ==> o.items[j].product != o.items[k].product)
            && (o.completed <==> o.status == Completed) && (o.refunded <==> o.status == Refunded)
            && (o.status == Paid ==> o.shippedBy.None?)
            && (o.status == Shipped || o.status == Completed ==> o.shippedBy.Some?)
  {
    RunKeeps(db, steps);
    var o := Run(db, steps).orders[i];
    assert OrderOk(o);
    forall j, k | 0 <= j < k < |o.items| ensures o.items[j].product != o.items[k].product {
      assert LineKey(LinesOfItems(o.items)[j]) != LineKey(LinesOfItems(o.items)[k]);
    }
  }

  // ---------- one order along a run ----------

  /** The arrows of the state machine, with the shipping stamp they carry. */
  predicate Arrow(o: Order, p: Order) {
    || p == o
    || (o.status == Paid && p.status == Shipped && p.shippedBy.Some?)
    || (o.status == Shipped && p.status == Completed && p.shippedBy == o.shippedBy)
    || ((o.status == Paid || o.status == Shipped) && p.status == RefundRequested && p.shippedBy == o.shippedBy)
    || (o.status == RefundRequested && p.status == Refunded && p.shippedBy == o.shippedBy)
    || (o.status == RefundRequested && p.shippedBy == o.shippedBy
        && p.status == (if o.shippedBy.Some? then Shipped else Paid))
  }

  predicate IsRequestOf(db: Db, s: Step, id: Id) {
    s.DoMove? && s.call.Request? && s.call.order == id && Move(db, s.call).1.Ok?
  }

  /** What one step may do to the order at position i. */
  ghost predicate OrderStep(db: Db, s: Step, after: Db, i: nat)
    requires i < |db.orders|
  {
    && |db.orders| <= |after.orders|
    && SameOrder(db.orders[i], after.orders[i])
    && Arrow(db.orders[i], after.orders[i])
    && (db.orders[i].status != RefundRequested && after.orders[i].status == RefundRequested ==>
          IsRequestOf(db, s, db.orders[i].id))
  }

  lemma MoveStepsOrder(db: Db, c: OrderCall, i: nat)
    requires i < |db.orders|
    ensures OrderStep(db, DoMove(c), Move(db, c).0, i)
  {
    if Move(db, c).0 != db {
      var k := LockOrder(db, Buyer(c), c.order).value;
      assert SameOrder(db.orders[k], Transition(db.orders[k], c).value);
      assert Arrow(db.orders[k], Transition(db.orders[k], c).value);
    }
  }

  lemma ApproveStepsOrder(db: Db, admin: Id, id: Id, i: nat)
    requires i < |db.orders|
    ensures OrderStep(db, DoApprove(admin, id), Approve(db, admin, id).0, i)
  {
    if Approve(db, admin, id).0 != db {
      var k := LockOrder(db, None, id).value;
      var r := ApproveFresh(db, db.orders[k], admin).value;
      assert r.order == RefundedOrder(db.orders[k], admin);
    }
  }

  lemma CreateStepsOrder(db: Db, user: Id, token: string, req: OrderRequest, newId: Id, i: nat)
    requires i < |db.orders|
    ensures var after := CreateOrder(db, user, token, req, newId).0;
            i < |after.orders| && after.orders[i] == db.orders[i]
  {
  }

  lemma {:induction false} StepOnOrder(db: Db, s: Step, i: nat)
    requires i < |db.orders|
    ensures OrderStep(db, s, Exec(db, s), i)
  {
    match s
    case DoCreate(user, token, req, newId) => CreateStepsOrder(db, user, token, req, newId, i);
    case DoMove(c) => MoveStepsOrder(db, c, i);
    case DoApprove(admin, id) => ApproveStepsOrder(db, admin, id, i);
    case _ => OrdersFrame(db, s);
  }

  /** The answer of the four single-row calls, written out: when each is accepted,
      the row it leaves behind, and the error of every refusal. An accepted call
      changes that one row and a refused one nothing at all. */
  lemma MoveExactly(db: Db, c: OrderCall)
    ensures var found := FindOrder(db.orders, c.order);
            Move(db, c).1.Ok? <==>
            && c.order != ZERO_ID && found.Some?
            && var o := db.orders[found.value];
               match c
               case Request(user, _, reason) =>
                 && user != ZERO_ID && o.user == user && 1 <= |Trim(reason)| <= 255
                 && (o.status == Paid || o.status == Shipped)
               case Reject(admin, _, reason) =>
                 admin != ZERO_ID && 1 <= |Trim(reason)| <= 255 && o.status == RefundRequested
               case Ship(admin, _) => admin != ZERO_ID && o.status == Paid
               case Confirm(user, _) => user != ZERO_ID && o.user == user && o.status == Shipped
    ensures Move(db, c).1.Ok? ==>
              var i := FindOrder(db.orders, c.order).value;
              var o, p := db.orders[i], Move(db, c).1.value;
              && Move(db, c).0 == db.(orders := db.orders[i := p])
              && p == match c
                      case Request(_, _, reason) =>
                        o.(status := RefundRequested, reason := Trim(reason), rejectReason := "", reviewedBy := None)
                      case Reject(admin, _, reason) =>
                        o.(status := if o.shippedBy.Some? then Shipped else Paid, rejectReason := Trim(reason),
                           reviewedBy := Some(admin))
                      case Ship(admin, _) => o.(status := Shipped, shippedBy := Some(admin))
                      case Confirm(_, _) => o.(status := Completed, completed := true)
    ensures Move(db, c).1.Err? ==>
              var found := FindOrder(db.orders, c.order);
              && Move(db, c).0 == db
              && Move(db, c).1.error ==
                 if (c.Request? || c.Reject?) && (Trim(c.reason) == "" || |Trim(c.reason)| > 255)
                 then InvalidRefundReason
                 else if c.order == ZERO_ID || found.None? || ((c.Reject? || c.Ship?) && c.admin == ZERO_ID)
                         || ((c.Request? || c.Confirm?)
                             && (c.user == ZERO_ID || db.orders[found.value].user != c.user))
                 then OrderNotFound
                 else OrderStateConflict
  {
  }

  /** An order is never lost and never changes what was bought, by whom or for
      how much; completed and refunded orders never change at all. */
  lemma {:induction false} OrderForever(db: Db, steps: seq<Step>, i: nat)
    requires i < |db.orders|
    ensures var after := Run(db, steps);
            && i < |after.orders|
            && SameOrder(db.orders[i], after.orders[i])
            && (db.orders[i].status in {Completed, Refunded} ==> after.orders[i] == db.orders[i])
  {
    if steps != [] {
      var n := |steps| - 1;
      OrderForever(db, steps[..n], i);
      StepOnOrder(Run(db, steps[..n]), steps[n], i);
    }
  }

  /** No accepted refund request for the order in the run. */
  ghost predicate NoRequest(db: Db, steps: seq<Step>, id: Id) {
    forall k :: 0 <= k < |steps| ==> !IsRequestOf(Run(db, steps[..k]), steps[k], id)
  }

  lemma {:induction false} RequestKeepsStamp(db: Db, steps: seq<Step>, i: nat)
    requires i < |db.orders| && db.orders[i].status == RefundRequested
    requires NoRequest(db, steps, db.orders[i].id)
    ensures var after := Run(db, steps);
            && i < |after.orders| && SameOrder(db.orders[i], after.orders[i])
            && (after.orders[i].status == RefundRequested ==> after.orders[i].shippedBy == db.orders[i].shippedBy)
  {
    if steps != [] {
      var n := |steps| - 1;
      forall k | 0 <= k < n ensures !IsRequestOf(Run(db, steps[..n][..k]), steps[..n][k], db.orders[i].id) {
        assert steps[..n][..k] == steps[..k];
      }
      RequestKeepsStamp(db, steps[..n], i);
      StepOnOrder(Run(db, steps[..n]), steps[n], i);
    }
  }

  /** An accepted request records the status it found in the order it leaves. */
  lemma RequestRecords(db: Db, request: OrderCall)
    requires Inv(db) && request.Request? && Move(db, request).1.Ok?
    ensures LockOrder(db, Buyer(request), request.order).Ok?
    ensures var i, orders := LockOrder(db, Buyer(request), request.order).value, Move(db, request).0.orders;
            && FindOrder(db.orders, request.order) == Some(i)
            && i < |orders| && orders[i].id == request.order && orders[i].status == RefundRequested
            && orders[i].shippedBy == db.orders[i].shippedBy
  {
  }

  /** Reject undoes Request: whatever happens in between, a rejection returns
      the order to the status it had when its latest request was accepted. */
  lemma {:induction false} RejectUndoesRequest(db: Db, request: OrderCall, steps: seq<Step>, reject: OrderCall)
    requires Inv(db) && request.Request? && reject.Reject? && reject.order == request.order
    requires Move(db, request).1.Ok?
    requires NoRequest(Move(db, request).0, steps, request.order)
    requires Move(Run(Move(db, request).0, steps), reject).1.Ok?
    ensures FindOrder(db.orders, request.order).Some?
    ensures Move(Run(Move(db, request).0, steps), reject).1.value.status
            == db.orders[FindOrder(db.orders, request.order).value].status
  {
    var i := LockOrder(db, Buyer(request), request.order).value;
    var db1 := Move(db, request).0;
    var db2 := Run(db1, steps);
    assert OrderOk(db.orders[i]);
    RequestRecords(db, request);
    MoveKeeps(db, request);
    RequestKeepsStamp(db1, steps, i);
    RunKeeps(db1, steps);
    FoundAt(db2.orders, i);
  }

  // ---------- cart consumption ----------

  /** The items of an order mirror the cart rows it consumed, row by row, at the
      current price. */
  ghost predicate MirrorsCart(db: Db, o: Order, ids: seq<Id>) {
    && |o.items| == |ids|
    && forall k :: 0 <= k < |ids| ==>
         && ids[k] in db.carts
         && db.carts[ids[k]].product in db.products
         && o.items[k] == OrderItem(db.carts[ids[k]].product, db.products[db.carts[ids[k]].product].price,
                                    db.carts[ids[k]].quantity)
  }

  lemma ItemsMirrorRows(db: Db, user: Id, req: OrderRequest, rows: seq<CartItem>, prods: map<Id, Product>, o: Order)
    requires CartsOk(db) && DistinctIds(req.cartIds)
    requires LockCart(db, user, req.cartIds) == Ok(rows)
    requires LockProducts(db.products, ProductIds(rows)) == Ok(prods)
    requires forall i :: 0 <= i < |rows| ==> rows[i].product in prods
    requires o.items == ItemsOf(rows, prods)
    ensures MirrorsCart(db, o, SortIds(req.cartIds))
  {
    LockedCart(db, user, req.cartIds);
  }

  lemma {:induction false} CheckoutMirrors(db: Db, user: Id, token: string, req: OrderRequest, newId: Id)
    requires CartsOk(db) && DistinctIds(req.cartIds) && CreateFresh(db, user, token, req, newId).Ok?
    ensures MirrorsCart(db, CreateFresh(db, user, token, req, newId).value.order, SortIds(req.cartIds))
  {
    var rows := LockCart(db, user, req.cartIds).value;
    var prods := LockProducts(db.products, ProductIds(rows)).value;
    PricedLinesVerified(rows, prods, 0);
    ItemsMirrorRows(db, user, req, rows, prods, CreateFresh(db, user, token, req, newId).value.order);
  }

  /** A successful checkout deletes exactly the requested rows, all of them the
      buyer's own, and turns them into the items of the order. */
  lemma {:induction false} CheckoutConsumesCart(db: Db, user: Id, token: string, req: OrderRequest, newId: Id)
    requires Inv(db) && FindToken(db.orders, user, token).None?
    requires CreateOrder(db, user, token, req, newId).1.Ok?
    ensures var after := CreateOrder(db, user, token, req, newId).0;
            var o := CreateOrder(db, user, token, req, newId).1.value;
            && after.carts == db.carts - IdSet(req.cartIds)
            && (forall c :: c in req.cartIds ==> c in db.carts && db.carts[c].user == user)
            && o.hash.cartIds == SortIds(req.cartIds)
            && MirrorsCart(db, o, SortIds(req.cartIds))
  {
    var w := CreateFresh(db, user, token, req, newId).value;
    CheckoutFacts(db, user, token, req, newId);
    CheckoutMirrors(db, user, token, req, newId);
    forall c | c in req.cartIds ensures c in db.carts && db.carts[c].user == user {
      assert c in w.cartIds && OwnsCartRow(db, user, c);
    }
  }

  /** Cart row ids that went into an order. */
  ghost function Consumed(orders: seq<Order>): set<Id> {
    set i, c | 0 <= i < |orders| && c in orders[i].hash.cartIds :: c
  }

  ghost predicate CartHistory(db: Db) {
    && (forall i, c :: 0 <= i < |db.orders| && c in db.orders[i].hash.cartIds ==> c !in db.carts)
    && (forall i, j, c :: 0 <= i < j < |db.orders| && c in db.orders[i].hash.cartIds ==>
          c !in db.orders[j].hash.cartIds)
  }

  /** uid.New never hands out the id of a cart row that was already consumed. */
  ghost predicate FreshCartId(db: Db, s: Step) {
    s.DoAddToCart? ==> s.newId !in Consumed(db.orders)
  }

  ghost predicate FreshCartIds(db: Db, steps: seq<Step>) {
    forall k :: 0 <= k < |steps| ==> FreshCartId(Run(db, steps[..k]), steps[k])
  }

  lemma CartHistoryByHash(db: Db, after: Db)
    requires CartHistory(db) && |after.orders| == |db.orders|
    requires forall i :: 0 <= i < |db.orders| ==> after.orders[i].hash == db.orders[i].hash
    requires forall c :: c in after.carts && c !in db.carts ==> c !in Consumed(db.orders)
    ensures CartHistory(after)
  {
  }

  lemma AppendKeepsCartHistory(db: Db, after: Db, o: Order)
    requires CartHistory(db) && after.orders == db.orders + [o]
    requires forall c :: c in o.hash.cartIds ==> c in db.carts && c !in after.carts
    requires after.carts.Keys <= db.carts.Keys
    ensures CartHistory(after)
  {
  }

  lemma {:induction false} CreateKeepsCartHistory(db: Db, user: Id, token: string, req: OrderRequest, newId: Id)
    requires Inv(db) && CartHistory(db)
    ensures CartHistory(CreateOrder(db, user, token, req, newId).0)
  {
    var after := CreateOrder(db, user, token, req, newId).0;
    if after != db {
      CheckoutFacts(db, user, token, req, newId);
      var w := CreateFresh(db, user, token, req, newId).value;
      SortIdsFacts(req.cartIds);
      forall c | c in w.order.hash.cartIds ensures c in db.carts && c !in after.carts {
        assert c in w.cartIds && OwnsCartRow(db, user, c);
      }
      AppendKeepsCartHistory(db, after, w.order);
    }
  }

  lemma MoveKeepsHashes(db: Db, c: OrderCall)
    ensures var after := Move(db, c).0;
            && after.carts == db.carts && |after.orders| == |db.orders|
            && forall i :: 0 <= i < |db.orders| ==> after.orders[i].hash == db.orders[i].hash
  {
  }

  lemma ApproveKeepsHashes(db: Db, admin: Id, id: Id)
    ensures var after := Approve(db, admin, id).0;
            && after.carts == db.carts && |after.orders| == |db.orders|
            && forall i :: 0 <= i < |db.orders| ==> after.orders[i].hash == db.orders[i].hash
  {
  }

  lemma OthersKeepCarts(db: Db, s: Step)
    requires !IsOrderStep(s)
    ensures forall c :: c in Exec(db, s).carts && c !in db.carts ==> s.DoAddToCart? && c == s.newId
  {
    match s
    case DoAddToCart(user, product, quantity, newId) => AddToCartFrame(db, user, product, quantity, newId);
    case DoUpdateCart(user, id, quantity) =>
    case DoDeleteFromCart(user, id) =>
    case _ =>
      if IsAddressStep(s) {
        AddressFrame(db, s);
      } else if IsProductStep(s) {
        ProductFrame(db, s);
      } else {
        AccountFrame(db, s);
      }
  }

  lemma {:induction false} StepKeepsCartHistory(db: Db, s: Step)
    requires Inv(db) && CartHistory(db) && FreshCartId(db, s)
    ensures CartHistory(Exec(db, s))
  {
    if s.DoCreate? {
      CreateKeepsCartHistory(db, s.user, s.token, s.req, s.newId);
    } else if s.DoMove? {
      MoveKeepsHashes(db, s.call);
      CartHistoryByHash(db, Exec(db, s));
    } else if s.DoApprove? {
      ApproveKeepsHashes(db, s.admin, s.order);
      CartHistoryByHash(db, Exec(db, s));
    } else {
      OrdersFrame(db, s);
      OthersKeepCarts(db, s);
      CartHistoryByHash(db, Exec(db, s));
    }
  }

  lemma FreshPrefix(db: Db, steps: seq<Step>, n: nat)
    requires FreshCartIds(db, steps) && n < |steps|
    ensures FreshCartIds(db, steps[..n]) && FreshCartId(Run(db, steps[..n]), steps[n])
  {
    forall k | 0 <= k < n ensures FreshCartId(Run(db, steps[..n][..k]), steps[..n][k]) {
      assert steps[..n][..k] == steps[..k];
    }
  }

  /** Over a whole run no cart row feeds two orders, and none that fed one is
      still in a cart. */
  lemma {:induction false} CartRowsFeedOneOrder(db: Db, steps: seq<Step>)
    requires Inv(db) && CartHistory(db) && FreshCartIds(db, steps)
    ensures CartHistory(Run(db, steps))
  {
    if steps != [] {
      var n := |steps| - 1;
      FreshPrefix(db, steps, n);
      CartRowsFeedOneOrder(db, steps[..n]);
      RunKeeps(db, steps[..n]);
      StepKeepsCartHistory(Run(db, steps[..n]), steps[n]);
    }
  }
}
