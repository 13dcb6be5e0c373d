/** CreateOrderUsecase as it runs: one transaction of statements over the
    database, proved to do what the function CreateOrder says. */
module CheckoutUsecase {
  import opened Base
  import opened Tables
  import opened Checkout
  import opened Store
  import AddressService
  import CartRepository
  import OrderRepository
  import PaymentRepository
  import ProductRepository

  /** validateOrderRequest: no zero id, no repeated cart id, at least one. */
  method ValidateOrderRequest(req: OrderRequest) returns (ok: bool)
    ensures ok <==> ValidRequest(req)
  {
    if req.address == ZERO_ID {
      return false;
    }
    if |req.cartIds| == 0 {
      return false;
    }
    var seen: set<Id> := {};
    var i := 0;
    while i < |req.cartIds|
      invariant 0 <= i <= |req.cartIds|
      invariant forall id :: id in seen <==> id in req.cartIds[..i]
      invariant ZERO_ID !in req.cartIds[..i] && DistinctIds(req.cartIds[..i])
    {
      var id := req.cartIds[i];
      assert req.cartIds[..i + 1] == req.cartIds[..i] + [id];
      if id == ZERO_ID {
        assert id in req.cartIds;
        return false;
      }
      if id in seen {
        RepeatedId(req.cartIds, i);
        return false;
      }
      AppendDistinct(req.cartIds[..i], id);
      seen := seen + {id};
      i := i + 1;
    }
    assert req.cartIds[..i] == req.cartIds;
    return true;
  }

  lemma RepeatedId(ids: seq<Id>, i: nat)
    requires i < |ids| && ids[i] in ids[..i]
    ensures !DistinctIds(ids)
  {
    var j :| 0 <= j < i && ids[j] == ids[i];
    assert IdKey(ids[j]) == IdKey(ids[i]);
  }

  lemma AppendDistinct(ids: seq<Id>, id: Id)
    requires DistinctIds(ids) && id !in ids
    ensures DistinctIds(ids + [id])
  {
    forall i, j | 0 <= i < j < |ids + [id]| ensures IdKey((ids + [id])[i]) != IdKey((ids + [id])[j]) {
      if j == |ids| {
        assert ids[i] != id;
      } else {
        assert IdKey(ids[i]) != IdKey(ids[j]);
      }
    }
  }

  /** indexProducts. */
  method IndexProducts(rows: seq<ProductRepository.ProductRow>, ghost products: map<Id, Product>)
    returns (out: map<Id, Product>)
    requires ProductRepository.RowsOfTable(products, rows)
    ensures forall id :: id in out <==> ProductRepository.Lists(rows, id)
    ensures forall id :: id in out ==> id in products && out[id] == products[id]
  {
    out := map[];
    var i := 0;
    while i < |rows|
      invariant 0 <= i <= |rows|
      invariant forall id :: id in out <==> ProductRepository.Lists(rows[..i], id)
      invariant forall id :: id in out ==> id in products && out[id] == products[id]
    {
      assert rows[..i + 1] == rows[..i] + [rows[i]];
      forall id ensures ProductRepository.Lists(rows[..i + 1], id) <==>
        ProductRepository.Lists(rows[..i], id) || id == rows[i].id {
        ProductRepository.ListsAppend(rows[..i], rows[i], id);
      }
      out := out[rows[i].id := rows[i].product];
      i := i + 1;
    }
    assert rows[..i] == rows;
  }

  /** The verification loop: running total in int64 and the item snapshots. */
  method VerifyLines(rows: seq<CartItem>, prods: map<Id, Product>) returns (r: Result<(Int64, seq<OrderItem>), Error>)
    ensures PriceLines(rows, prods, 0) == if r.Ok? then Ok(r.value.0) else Err(r.error)
    ensures r.Ok? ==> (forall i :: 0 <= i < |rows| ==> rows[i].product in prods) && r.value.1 == ItemsOf(rows, prods)
  {
    var total: Int64 := 0;
    var orderItems: seq<OrderItem> := [];
    var i := 0;
    while i < |rows|
      invariant 0 <= i <= |rows| && |orderItems| == i
      invariant PriceLines(rows[i..], prods, total) == PriceLines(rows, prods, 0)
      invariant forall j :: 0 <= j < i ==>
                  && rows[j].product in prods
                  && orderItems[j] == OrderItem(rows[j].product, prods[rows[j].product].price, rows[j].quantity)
    {
      var cartItem := rows[i];
      assert rows[i..][1..] == rows[i + 1..];
      if cartItem.product !in prods {
        return Err(ProductNotFound);
      }
      var product := prods[cartItem.product];
      if !product.onSale {
        return Err(ProductOffSale);
      }
      if product.stock < cartItem.quantity {
        return Err(InsufficientStock);
      }
      var lineTotal: int := Wrap64(product.price * cartItem.quantity);
      if total > Wrap64(MAX64 - lineTotal) {
        return Err(InvalidOrderRequest);
      }
      total := Wrap64(total + lineTotal);
      orderItems := orderItems + [OrderItem(cartItem.product, product.price, cartItem.quantity)];
      i := i + 1;
    }
    return Ok((total, orderItems));
  }

  /** The second pass: conditional decrements in cart-row order. */
  method DecrementStocks(tx: Database, lines: seq<Line>) returns (r: Result<(), Error>)
    modifies tx`products
    ensures DecrementAll(old(tx.products), lines) == if r.Ok? then Ok(tx.products) else Err(r.error)
  {
    var i := 0;
    while i < |lines|
      invariant 0 <= i <= |lines|
      invariant DecrementAll(tx.products, lines[i..]) == DecrementAll(old(tx.products), lines)
    {
      ProductRepository.DecrementFirst(tx.products, lines[i..]);
      assert lines[i..][1..] == lines[i + 1..];
      var one := ProductRepository.DecrementStock(tx, lines[i].product, lines[i].quantity);
      if one.Err? {
        return Err(one.error);
      }
      i := i + 1;
    }
    return Ok(());
  }

  /** Decrementing in the whole table is decrementing the locked rows. */
  lemma {:induction false} DecrementWithin(all: map<Id, Product>, part: map<Id, Product>, lines: seq<Line>)
    requires forall p :: p in part ==> p in all && all[p] == part[p]
    requires forall i :: 0 <= i < |lines| ==> lines[i].product in part
    ensures var within := DecrementAll(part, lines);
            DecrementAll(all, lines) == if within.Ok? then Ok(all + within.value) else Err(within.error)
    decreases |lines|
  {
    if lines == [] {
      assert all + part == all;
    } else {
      var l := lines[0];
      var row := part[l.product];
      if row.onSale && row.stock >= l.quantity {
        var next := row.(stock := row.stock - l.quantity);
        DecrementWithin(all[l.product := next], part[l.product := next], lines[1..]);
        if DecrementAll(part[l.product := next], lines[1..]).Ok? {
          DecrementAllEffect(part[l.product := next], lines[1..]);
          var after := DecrementAll(part[l.product := next], lines[1..]).value;
          assert all[l.product := next] + after == all + after;
        }
      }
    }
  }

  // ---------- buildAndCommit ----------

  /** The rows the transaction has locked when it starts to build. */
  ghost predicate Locked(db: Db, user: Id, req: OrderRequest, addr: Address, rows: seq<CartItem>,
      prods: map<Id, Product>)
  {
    && ValidRequest(req) && user in db.users && OwnsAddress(db, user, req.address) && db.addresses[req.address] == addr
    && LockCart(db, user, req.cartIds) == Ok(rows)
    && LockProducts(db.products, ProductIds(rows)) == Ok(prods)
  }

  lemma DecrementLocked(products: map<Id, Product>, rows: seq<CartItem>, prods: map<Id, Product>)
    requires LockProducts(products, ProductIds(rows)) == Ok(prods)
    requires forall i :: 0 <= i < |rows| ==> rows[i].product in prods
    ensures var locked := DecrementAll(prods, LinesOfCart(rows));
            DecrementAll(products, LinesOfCart(rows)) ==
            if locked.Ok? then Ok(products + locked.value) else Err(locked.error)
  {
    DecrementWithin(products, prods, LinesOfCart(rows));
  }

  datatype Payment = Payment(total: int, items: seq<OrderItem>, balance: int)

  /** Verification, stock and points: everything before the first INSERT. */
  method Pay(tx: Database, user: Id, rows: seq<CartItem>, prods: map<Id, Product>) returns (r: Result<Payment, Error>)
    requires user in tx.users && LockProducts(tx.products, ProductIds(rows)) == Ok(prods)
    modifies tx`products, tx`users
    ensures match PriceLines(rows, prods, 0)
            case Err(e) => r == Err(e)
            case Ok(total) =>
              match DecrementAll(prods, LinesOfCart(rows))
              case Err(e) => r == Err(e)
              case Ok(stocks) =>
                match Adjusted(old(tx.users[user]), Wrap64(0 - total))
                case Err(e) => r == Err(e)
                case Ok(balance) =>
                  && (forall i :: 0 <= i < |rows| ==> rows[i].product in prods)
                  && r == Ok(Payment(total, ItemsOf(rows, prods), balance))
                  && tx.products == old(tx.products) + stocks && tx.users == old(tx.users)[user := balance]
  {
    var verified := VerifyLines(rows, prods);
    if verified.Err? {
      return Err(verified.error);
    }
    var total: int, orderItems := verified.value.0, verified.value.1;
    DecrementLocked(tx.products, rows, prods);
    var decremented := DecrementStocks(tx, LinesOfCart(rows));
    if decremented.Err? {
      return Err(decremented.error);
    }
    var paid := PaymentRepository.AdjustBalance(tx, user, Wrap64(0 - total));
    if paid.Err? {
      return Err(paid.error);
    }
    return Ok(Payment(total, orderItems, paid.value));
  }

  /** The INSERTs and the cart deletion. */
  method Record(tx: Database, user: Id, req: OrderRequest, order: Order, row: LedgerRow) returns (r: Result<(), Error>)
    requires DistinctIds(req.cartIds) && LockCart(tx.View(), user, req.cartIds).Ok?
    modifies tx`orders, tx`ledger, tx`carts
    ensures var error := if OrderInsertError(old(tx.orders), order).Some? then OrderInsertError(old(tx.orders), order)
                         else LedgerInsertError(old(tx.ledger), row);
            match error
            case Some(e) => r == Err(e)
            case None =>
              && r == Ok(())
              && tx.orders == old(tx.orders) + [order] && tx.ledger == old(tx.ledger) + [row]
              && tx.carts == old(tx.carts) - IdSet(req.cartIds)
  {
    ghost var db := tx.View();
    var inserted := OrderRepository.Create(tx, order);
    if inserted.Err? {
      return Err(inserted.error);
    }
    var posted := PaymentRepository.Create(tx, row);
    if posted.Err? {
      return Err(posted.error);
    }
    CartRepository.LockedRowsDelete(db, user, req.cartIds);
    assert CartRepository.OwnRows(tx.View(), user, req.cartIds) == CartRepository.OwnRows(db, user, req.cartIds);
    r := CartRepository.DeleteByIDs(tx, user, req.cartIds);
  }

  lemma LockCartReads(db: Db, after: Db, user: Id, ids: seq<Id>)
    requires after.carts == db.carts
    ensures LockCart(after, user, ids) == LockCart(db, user, ids)
  {
    SelectCartReads(db, after, user, SortIds(ids));
  }

  lemma {:induction false} SelectCartReads(db: Db, after: Db, user: Id, ids: seq<Id>)
    requires after.carts == db.carts
    ensures SelectCart(after, user, ids) == SelectCart(db, user, ids)
  {
    if ids != [] {
      SelectCartReads(db, after, user, ids[1..]);
    }
  }

  /** Build, case by case. */
  lemma {:induction false} BuildCases(balance: int, addr: Address, rows: seq<CartItem>, prods: map<Id, Product>,
                   user: Id, token: string, req: OrderRequest, newId: Id)
    ensures var b := Build(balance, addr, rows, prods, user, token, req, newId);
            match PriceLines(rows, prods, 0)
            case Err(e) => b == Err(e)
            case Ok(total) =>
              match DecrementAll(prods, LinesOfCart(rows))
              case Err(e) => b == Err(e)
              case Ok(stocks) =>
                match Adjusted(balance, Wrap64(0 - total))
                case Err(e) => b == Err(e)
                case Ok(newBalance) =>
                  && (forall i :: 0 <= i < |rows| ==> rows[i].product in prods)
                  && b == Ok(Writes(user, newBalance, stocks,
                                    NewOrder(newId, user, token, req, addr, rows, total, ItemsOf(rows, prods)),
                                    PayRow(newId, user, total, newBalance), IdSet(req.cartIds)))
  {
    if PriceLines(rows, prods, 0).Ok? {
      PricedLinesVerified(rows, prods, 0);
    }
  }

  /** The side effects, statement by statement. */
  method BuildAndCommit(tx: Database, user: Id, token: string, req: OrderRequest, addr: Address,
                        rows: seq<CartItem>, prods: map<Id, Product>, newId: Id) returns (r: Result<Order, Error>)
    requires Locked(tx.View(), user, req, addr, rows, prods)
    modifies tx
    ensures match Build(old(tx.users[user]), addr, rows, prods, user, token, req, newId)
            case Err(e) => r == Err(e)
            case Ok(w) =>
              match InsertError(old(tx.View()), w)
              case Some(e) => r == Err(e)
              case None => r == Ok(w.order) && tx.View() == ApplyWrites(old(tx.View()), w)
  {
    ghost var db := tx.View();
    BuildCases(tx.users[user], addr, rows, prods, user, token, req, newId);
    var paid := Pay(tx, user, rows, prods);
    if paid.Err? {
      return Err(paid.error);
    }
    var total := paid.value.total;
    var order := NewOrder(newId, user, token, req, addr, rows, total, paid.value.items);
    LockCartReads(db, tx.View(), user, req.cartIds);
    var recorded := Record(tx, user, req, order, PayRow(newId, user, total, paid.value.balance));
    if recorded.Err? {
      return Err(recorded.error);
    }
    return Ok(order);
  }

  // ---------- Execute ----------

  /** resolveReplay: recomputes the hash from the request, the existing order's
      items and the current address. */
  method DecideReplay(tx: Database, user: Id, req: OrderRequest, existing: Order) returns (r: Result<Order, Error>)
    ensures r == ResolveReplay(tx.View(), user, req, existing, existing.items)
  {
    var addr := AddressService.LockForOrder(tx, user, req.address);
    if addr.Err? {
      return Err(addr.error);
    }
    var items: seq<Line> := [];
    var i := 0;
    while i < |existing.items|
      invariant 0 <= i <= |existing.items| && |items| == i
      invariant forall j :: 0 <= j < i ==> items[j] == Line(existing.items[j].product, existing.items[j].quantity)
    {
      items := items + [Line(existing.items[i].product, existing.items[i].quantity)];
      i := i + 1;
    }
    assert items == LinesOfItems(existing.items);
    if ComputeHash(req.cartIds, items, req.address, addr.value) != existing.hash {
      return Err(IdempotencyConflict);
    }
    return Ok(existing);
  }

  /** The re-check: a racer's order is replayed, otherwise the error stands. */
  method ReplayOrRefuse(tx: Database, user: Id, req: OrderRequest, racer: Option<Order>, error: Error)
    returns (r: Result<Order, Error>)
    ensures r == match racer case Some(o) => ResolveReplay(tx.View(), user, req, o, o.items) case None => Err(error)
  {
    if racer.Some? {
      r := DecideReplay(tx, user, req, racer.value);
    } else {
      r := Err(error);
    }
  }

  lemma AllProductsListed(products: map<Id, Product>, ids: seq<Id>, out: map<Id, Product>)
    requires LockProducts(products, ids).Ok?
    requires forall id :: id in out <==> id in ids
    requires forall id :: id in out ==> id in products && out[id] == products[id]
    ensures LockProducts(products, ids) == Ok(out)
  {
    assert LockProducts(products, ids).value == out;
  }

  /** The transaction body: locks in the documented order, then the decision. */
  method Attempt(tx: Database, user: Id, token: string, req: OrderRequest, newId: Id) returns (r: Result<Order, Error>)
    requires ValidIdempotencyKey(token) && ValidRequest(req) && user != ZERO_ID
    modifies tx
    ensures r == CreateOrder(old(tx.View()), user, token, req, newId).1
    ensures r.Ok? ==> tx.View() == CreateOrder(old(tx.View()), user, token, req, newId).0
  {
    ghost var db := tx.View();
    var existing := OrderRepository.FindForReplay(tx, user, token);
    if existing.Some? {
      r := DecideReplay(tx, user, req, existing.value);
      return;
    }
    var locked := PaymentRepository.LockUser(tx, user);
    if locked.Err? {
      return Err(locked.error);
    }
    var addr := AddressService.LockForOrder(tx, user, req.address);
    if addr.Err? {
      return Err(addr.error);
    }
    var cartItems := CartRepository.LockForOrder(tx, user, req.cartIds);
    if cartItems.Err? {
      if cartItems.error == CartItemNotFound {
        var racer := OrderRepository.FindForReplay(tx, user, token);
        r := ReplayOrRefuse(tx, user, req, racer, cartItems.error);
        return;
      }
      return Err(cartItems.error);
    }
    var rows := CartRepository.Items(cartItems.value);
    var products := ProductRepository.LockByIDs(tx, ProductIds(rows));
    if products.Err? {
      return Err(products.error);
    }
    var productByID := IndexProducts(products.value, tx.products);
    AllProductsListed(tx.products, ProductIds(rows), productByID);
    r := BuildAndCommit(tx, user, token, req, addr.value, rows, productByID, newId);
  }

  /** resolveAfterConflict: after the rollback, answers from the winner's order. */
  method ResolveAfterConflict(tx: Database, user: Id, token: string, req: OrderRequest)
    returns (r: Result<Order, Error>)
    ensures match FindToken(tx.orders, user, token)
            case None => r == Err(OrderNotFound)
            case Some(i) => r == ResolveReplay(tx.View(), user, req, tx.orders[i], tx.orders[i].items)
  {
    var existing := OrderRepository.FindForReplay(tx, user, token);
    if existing.None? {
      return Err(OrderNotFound);
    }
    r := DecideReplay(tx, user, req, existing.value);
  }

  lemma NoConflictAlone(db: Db, user: Id, token: string, req: OrderRequest, newId: Id)
    requires CreateOrder(db, user, token, req, newId).1 == Err(UniqueViolation)
    ensures FindToken(db.orders, user, token).None? && CreateOrder(db, user, token, req, newId).0 == db
  {
  }

  lemma RefusedChangesNothing(db: Db, user: Id, token: string, req: OrderRequest, newId: Id)
    requires CreateOrder(db, user, token, req, newId).1.Err?
    ensures CreateOrder(db, user, token, req, newId).0 == db
  {
  }

  /** CreateOrderUsecase.Execute. */
  method Execute(db: Database, user: Id, token: string, req: OrderRequest, newId: Id) returns (r: Result<Order, Error>)
    modifies db
    ensures (db.View(), r) == CreateOrder(old(db.View()), user, token, req, newId)
    ensures r.Ok? ==> req.address in old(db.addresses) && old(db.addresses)[req.address].user == user
  {
    if !ValidIdempotencyKey(token) {
      return Err(InvalidIdempotencyKey);
    }
    var ok := ValidateOrderRequest(req);
    if !ok {
      return Err(InvalidOrderRequest);
    }
    if user == ZERO_ID {
      return Err(InvalidOrderRequest);
    }
    var begun := db.View();
    r := Attempt(db, user, token, req, newId);
    if r.Err? {
      RefusedChangesNothing(begun, user, token, req, newId);
      db.Rollback(begun);
      if r.error == UniqueViolation {
        NoConflictAlone(begun, user, token, req, newId);
        var replay := ResolveAfterConflict(db, user, token, req);
        if replay.Ok? {
          return replay;
        }
      }
    }
  }
}
