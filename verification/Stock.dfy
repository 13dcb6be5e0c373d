/** Stock conservation: units only move between the shelf and the orders that
    are not refunded; the only other source is an administrator's stock edit. */
module Stock {
  import opened Base
  import opened Tables
  import opened Checkout
  import opened Lifecycle
  import opened Catalog
  import opened Runs
  import opened Invariants
  import opened Preservation

  function Held(o: Order, p: Id): int {
    if o.status == Refunded then 0 else Units(LinesOfItems(o.items), p)
  }

  /** Units of p in all orders that are not refunded. */
  function Reserved(orders: seq<Order>, p: Id): int {
    if orders == [] then 0
    else Reserved(orders[..|orders| - 1], p) + Held(orders[|orders| - 1], p)
  }

  function OnShelf(db: Db, p: Id): int {
    if p in db.products then db.products[p].stock else 0
  }

  /** What an accepted administrator edit adds to the stock of p. */
  function StockEdit(db: Db, s: Step, p: Id): int {
    match s
    case DoCreateProduct(price, stock, onSale, newId) =>
      if newId == p && CreateProduct(db, price, stock, onSale, newId).1.Ok? then stock else 0
    case DoUpdateProduct(id, price, stock, onSale) =>
      if id == p && UpdateProduct(db, id, price, stock, onSale).1.Ok? && stock.Some? then stock.value - OnShelf(db, p)
        else 0
    case _ => 0
  }

  function NetEdits(db: Db, steps: seq<Step>, p: Id): int {
    if steps == [] then 0
    else
      var n := |steps| - 1;
      NetEdits(db, steps[..n], p) + StockEdit(Run(db, steps[..n]), steps[n], p)
  }

  lemma ReservedAppend(orders: seq<Order>, o: Order, p: Id)
    ensures Reserved(orders + [o], p) == Reserved(orders, p) + Held(o, p)
  {
    assert (orders + [o])[..|orders|] == orders;
  }

  lemma {:induction false} ReservedUpdate(orders: seq<Order>, i: nat, o: Order, p: Id)
    requires i < |orders|
    ensures Reserved(orders[i := o], p) == Reserved(orders, p) - Held(orders[i], p) + Held(o, p)
  {
    var n := |orders| - 1;
    if i < n {
      assert orders[i := o][..n] == orders[..n][i := o];
      ReservedUpdate(orders[..n], i, o, p);
    } else {
      assert orders[i := o][..n] == orders[..n];
    }
  }

  lemma CheckoutMovesStock(db: Db, user: Id, req: OrderRequest, w: Writes, p: Id)
    requires CheckoutTakes(db, user, req, w) && w.order.status == Paid
    ensures OnShelf(ApplyWrites(db, w), p) == OnShelf(db, p) - Held(w.order, p)
  {
    var lines := LinesOfItems(w.order.items);
    if p !in w.products {
      forall i | 0 <= i < |lines| ensures lines[i].product != p {
        assert w.order.items[i].product in w.products;
      }
      UnlistedProduct(lines, p);
    }
  }

  lemma {:induction false} CreateConservesStock(db: Db, s: Step, p: Id)
    requires Inv(db) && s.DoCreate?
    ensures OnShelf(Exec(db, s), p) + Reserved(Exec(db, s).orders, p) == OnShelf(db, p) + Reserved(db.orders, p)
  {
    if Exec(db, s) != db {
      CheckoutFacts(db, s.user, s.token, s.req, s.newId);
      var w := CreateFresh(db, s.user, s.token, s.req, s.newId).value;
      CheckoutMovesStock(db, s.user, s.req, w, p);
      ReservedAppend(db.orders, w.order, p);
    }
  }

  lemma MoveConservesStock(db: Db, c: OrderCall, p: Id)
    requires Inv(db)
    ensures var after := Move(db, c).0;
            after.products == db.products && Reserved(after.orders, p) == Reserved(db.orders, p)
  {
    if Move(db, c).0 != db {
      var i := LockOrder(db, Buyer(c), c.order).value;
      assert OrderOk(db.orders[i]);
      TransitionFacts(db.orders[i], c);
      ReservedUpdate(db.orders, i, Transition(db.orders[i], c).value, p);
    }
  }

  lemma {:induction false} ApproveConservesStock(db: Db, admin: Id, id: Id, p: Id)
    requires Inv(db)
    ensures var after := Approve(db, admin, id).0;
            OnShelf(after, p) + Reserved(after.orders, p) == OnShelf(db, p) + Reserved(db.orders, p)
  {
    if Approve(db, admin, id).0 != db {
      var i := LockOrder(db, None, id).value;
      assert OrderOk(db.orders[i]);
      ApproveFacts(db, db.orders[i], admin);
      var r := ApproveFresh(db, db.orders[i], admin).value;
      ReservedUpdate(db.orders, i, r.order, p);
      var lines := LinesOfItems(db.orders[i].items);
      if p !in db.products {
        forall j | 0 <= j < |lines| ensures lines[j].product != p {
          assert db.orders[i].items[j].product in db.products;
        }
        UnlistedProduct(lines, p);
      }
    }
  }

  lemma CreateProductMovesStock(db: Db, price: Int64, stock: Int32, onSale: bool, newId: Id, p: Id)
    ensures var r := CreateProduct(db, price, stock, onSale, newId);
            && r.0.orders == db.orders
            && OnShelf(r.0, p) == OnShelf(db, p) + if newId == p && r.1.Ok? then stock else 0
  {
  }

  lemma UpdateProductMovesStock(db: Db, id: Id, price: Option<Int64>, stock: Option<Int32>, onSale: Option<bool>, p: Id)
    ensures var r := UpdateProduct(db, id, price, stock, onSale);
            && r.0.orders == db.orders
            && OnShelf(r.0, p) == if id == p && r.1.Ok? && stock.Some? then stock.value else OnShelf(db, p)
  {
  }

  lemma {:induction false} QuietStepKeepsStock(db: Db, s: Step, p: Id)
    requires !IsOrderStep(s) && !IsProductStep(s)
    ensures Exec(db, s).orders == db.orders && Exec(db, s).products == db.products && StockEdit(db, s, p) == 0
  {
    if IsAddressStep(s) {
      AddressFrame(db, s);
    } else if IsCartStep(s) {
      CartFrame(db, s);
    } else {
      AccountFrame(db, s);
    }
  }

  lemma {:induction false} StepConservesStock(db: Db, s: Step, p: Id)
    requires Inv(db)
    ensures OnShelf(Exec(db, s), p) + Reserved(Exec(db, s).orders, p)
            == OnShelf(db, p) + Reserved(db.orders, p) + StockEdit(db, s, p)
  {
    match s
    case DoCreate(_, _, _, _) => CreateConservesStock(db, s, p);
    case DoMove(call) => MoveConservesStock(db, call, p);
    case DoApprove(admin, order) => ApproveConservesStock(db, admin, order, p);
    case DoCreateProduct(price, stock, onSale, newId) => CreateProductMovesStock(db, price, stock, onSale, newId, p);
    case DoUpdateProduct(id, price, stock, onSale) => UpdateProductMovesStock(db, id, price, stock, onSale, p);
    case _ => QuietStepKeepsStock(db, s, p);
  }

  /** Over every run, for every product: stock plus the units in non-refunded
      orders is the opening figure plus the administrators' net edits, and the
      stock is never negative. */
  lemma {:induction false} StockConservation(db: Db, steps: seq<Step>, p: Id)
    requires Inv(db)
    ensures var after := Run(db, steps);
            && OnShelf(after, p) + Reserved(after.orders, p)
               == OnShelf(db, p) + Reserved(db.orders, p) + NetEdits(db, steps, p)
            && OnShelf(after, p) >= 0
  {
    RunKeeps(db, steps);
    if steps != [] {
      var n := |steps| - 1;
      StockConservation(db, steps[..n], p);
      RunKeeps(db, steps[..n]);
      StepConservesStock(Run(db, steps[..n]), steps[n], p);
    }
  }
}
