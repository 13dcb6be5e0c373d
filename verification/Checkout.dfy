/** Order creation (create.go) as a function of the database: validation, the
    replay decision, and the one write set a successful checkout commits. */
module Checkout {
  import opened Base
  import opened EventKeys
  import opened Tables

  // ---------- validation ----------

  /** What validateOrderRequest accepts. */
  predicate ValidRequest(req: OrderRequest) {
    && req.address != ZERO_ID
    && req.cartIds != []
    && ZERO_ID !in req.cartIds
    && DistinctIds(req.cartIds)
  }

  // ---------- request hash and replay ----------

  function ComputeHash(cartIds: seq<Id>, lines: seq<Line>, addressId: Id, addr: Address): RequestHash {
    RequestHash(SortIds(cartIds), SortLines(lines), addressId, addr.version, addr.snap)
  }

  predicate OwnsAddress(db: Db, user: Id, id: Id) {
    id != ZERO_ID && user != ZERO_ID && id in db.addresses && db.addresses[id].user == user
  }

  /** Same-token replay or conflict for an existing order whose items the
      database returned in the order `items`. */
  function ResolveReplay(db: Db, user: Id, req: OrderRequest, existing: Order, items: seq<OrderItem>)
    : Result<Order, Error>
  {
    if !OwnsAddress(db, user, req.address) then Err(AddressNotFound)
    else if ComputeHash(req.cartIds, LinesOfItems(items), req.address, db.addresses[req.address]) != existing.hash
    then Err(IdempotencyConflict)
    else Ok(existing)
  }

  // ---------- cart and product rows ----------

  predicate OwnsCartRow(db: Db, user: Id, id: Id) {
    id in db.carts && db.carts[id].user == user
  }

  /** SELECT ... WHERE user_id = ? AND id IN ids ORDER BY id FOR UPDATE. */
  function SelectCart(db: Db, user: Id, sortedIds: seq<Id>): seq<CartItem> {
    if sortedIds == [] then []
    else if OwnsCartRow(db, user, sortedIds[0]) then [db.carts[sortedIds[0]]] + SelectCart(db, user, sortedIds[1..])
    else SelectCart(db, user, sortedIds[1..])
  }

  function LockCart(db: Db, user: Id, ids: seq<Id>): Result<seq<CartItem>, Error> {
    if exists i :: 0 <= i < |ids| && !OwnsCartRow(db, user, ids[i]) then Err(CartItemNotFound)
    else Ok(SelectCart(db, user, SortIds(ids)))
  }

  function ProductIds(rows: seq<CartItem>): (ids: seq<Id>)
    ensures |ids| == |rows| && forall i :: 0 <= i < |rows| ==> ids[i] == rows[i].product
  {
    seq(|rows|, i requires 0 <= i < |rows| => rows[i].product)
  }

  /** The product rows a checkout locks, by id. */
  function LockProducts(products: map<Id, Product>, ids: seq<Id>): Result<map<Id, Product>, Error> {
    if exists i :: 0 <= i < |ids| && ids[i] !in products then Err(ProductNotFound)
    else Ok(map p | p in products && p in ids :: products[p])
  }

  // ---------- pricing ----------

  /** The verification loop: every line on sale with enough stock, the running
      total in Go's int64. Only the addition is guarded against overflow. */
  function PriceLines(rows: seq<CartItem>, prods: map<Id, Product>, total: Int64): Result<Int64, Error>
    decreases |rows|
  {
    if rows == [] then Ok(total)
    else if rows[0].product !in prods then Err(ProductNotFound)
    else
      var p := prods[rows[0].product];
      if !p.onSale then Err(ProductOffSale)
      else if p.stock < rows[0].quantity then Err(InsufficientStock)
      else
        var lineTotal: int := Wrap64(p.price * rows[0].quantity);
        if total > Wrap64(MAX64 - lineTotal) then Err(InvalidOrderRequest)
        else PriceLines(rows[1..], prods, Wrap64(total + lineTotal))
  }

  function ItemsOf(rows: seq<CartItem>, prods: map<Id, Product>): (items: seq<OrderItem>)
    requires forall i :: 0 <= i < |rows| ==> rows[i].product in prods
    ensures |items| == |rows|
    ensures forall i :: 0 <= i < |rows| ==>
              items[i] == OrderItem(rows[i].product, prods[rows[i].product].price, rows[i].quantity)
  {
    seq(|rows|, i requires 0 <= i < |rows| =>
      OrderItem(rows[i].product, prods[rows[i].product].price, rows[i].quantity))
  }

  lemma {:induction false} PricedLinesVerified(rows: seq<CartItem>, prods: map<Id, Product>, total: Int64)
    requires PriceLines(rows, prods, total).Ok?
    ensures forall i :: 0 <= i < |rows| ==>
              && rows[i].product in prods
              && prods[rows[i].product].onSale
              && rows[i].quantity <= prods[rows[i].product].stock
    decreases |rows|
  {
    if rows != [] {
      var p := prods[rows[0].product];
      var lineTotal: int := Wrap64(p.price * rows[0].quantity);
      PricedLinesVerified(rows[1..], prods, Wrap64(total + lineTotal));
    }
  }

  // ---------- the write set ----------

  /** Everything one checkout writes. Until commit only its own transaction sees it. */
  datatype Writes = Writes(
    user: Id, balance: int, products: map<Id, Product>, order: Order, row: LedgerRow, cartIds: set<Id>)

  function ApplyWrites(db: Db, w: Writes): Db {
    db.(users := db.users[w.user := w.balance],
        products := db.products + w.products,
        carts := db.carts - w.cartIds,
        orders := db.orders + [w.order],
        ledger := db.ledger + [w.row])
  }

  function IdSet(ids: seq<Id>): set<Id> {
    set i | 0 <= i < |ids| :: ids[i]
  }

  function NewOrder(newId: Id, user: Id, token: string, req: OrderRequest, addr: Address,
                    rows: seq<CartItem>, total: int, items: seq<OrderItem>): Order {
    Order(newId, user, token, ComputeHash(req.cartIds, LinesOfCart(rows), req.address, addr),
          total, items, Paid, None, false, false, "", "", None)
  }

  function PayRow(newId: Id, user: Id, total: int, balance: int): LedgerRow {
    LedgerRow(user, Some(newId), OrderPay(newId), None, Wrap64(0 - total), balance, None, "")
  }

  /** The statements of buildAndCommit over the rows the transaction has locked. */
  function Build(balance: int, addr: Address, rows: seq<CartItem>, prods: map<Id, Product>,
                 user: Id, token: string, req: OrderRequest, newId: Id): Result<Writes, Error>
  {
    var total :- PriceLines(rows, prods, 0);
    PricedLinesVerified(rows, prods, 0);
    var stocks :- DecrementAll(prods, LinesOfCart(rows));
    var newBalance :- Adjusted(balance, Wrap64(0 - total));
    Ok(Writes(user, newBalance, stocks, NewOrder(newId, user, token, req, addr, rows, total, ItemsOf(rows, prods)),
              PayRow(newId, user, total, newBalance), IdSet(req.cartIds)))
  }

  function InsertError(db: Db, w: Writes): Option<Error> {
    if OrderInsertError(db.orders, w.order).Some? then OrderInsertError(db.orders, w.order)
    else LedgerInsertError(db.ledger, w.row)
  }

  /** The transaction body once the token is known to be unused. */
  function CreateFresh(db: Db, user: Id, token: string, req: OrderRequest, newId: Id): Result<Writes, Error> {
    if user !in db.users then Err(UserNotFound)
    else if !OwnsAddress(db, user, req.address) then Err(AddressNotFound)
    else
      var rows :- LockCart(db, user, req.cartIds);
      var prods :- LockProducts(db.products, ProductIds(rows));
      var w :- Build(db.users[user], db.addresses[req.address], rows, prods, user, token, req, newId);
      if InsertError(db, w).Some? then Err(InsertError(db, w).value) else Ok(w)
  }

  /** CreateOrderUsecase.Execute, run alone. The new row gets the id `newId`. */
  function CreateOrder(db: Db, user: Id, token: string, req: OrderRequest, newId: Id): (Db, Result<Order, Error>) {
    if !ValidIdempotencyKey(token) then (db, Err(InvalidIdempotencyKey))
    else if !ValidRequest(req) || user == ZERO_ID then (db, Err(InvalidOrderRequest))
    else
      var found := FindToken(db.orders, user, token);
      if found.Some? then
        (db, ResolveReplay(db, user, req, db.orders[found.value], db.orders[found.value].items))
      else
        match CreateFresh(db, user, token, req, newId)
        case Ok(w) => (ApplyWrites(db, w), Ok(w.order))
        case Err(e) => (db, Err(e))
  }

  // ---------- the total ----------

  function ExactTotal(rows: seq<CartItem>, prods: map<Id, Product>): int
    requires forall i :: 0 <= i < |rows| ==> rows[i].product in prods
  {
    if rows == [] then 0
    else prods[rows[0].product].price * rows[0].quantity + ExactTotal(rows[1..], prods)
  }

  predicate NoLineOverflow(rows: seq<CartItem>, prods: map<Id, Product>)
    requires forall i :: 0 <= i < |rows| ==> rows[i].product in prods
  {
    forall i :: 0 <= i < |rows| ==> prods[rows[i].product].price * rows[i].quantity <= MAX64
  }

  predicate Positive(rows: seq<CartItem>, prods: map<Id, Product>) {
    forall i :: 0 <= i < |rows| ==>
      rows[i].quantity > 0 && rows[i].product in prods && prods[rows[i].product].price > 0
  }

  predicate Purchasable(rows: seq<CartItem>, prods: map<Id, Product>) {
    forall i :: 0 <= i < |rows| ==>
      && rows[i].product in prods
      && prods[rows[i].product].onSale
      && rows[i].quantity <= prods[rows[i].product].stock
  }

  /** What one pass through the guard does to a line of exact value x > 0. */
  lemma GuardedAddition(total: Int64, x: int)
    requires total >= 0 && x > 0
    ensures var line: int := Wrap64(x);
            && line <= x
            && (line == x <==> x <= MAX64)
            && (total > Wrap64(MAX64 - line) <==> line < 0 || total + line > MAX64)
            && (!(total > Wrap64(MAX64 - line)) ==> Wrap64(total + line) == total + line)
  {
    var line: int := Wrap64(x);
    var k :| line == x - k * TWO64;
    assert k >= 0;
    assert k == 0 ==> line == x;
    assert k >= 1 ==> line <= x - TWO64;
    if line < 0 {
      var d: int := Wrap64(MAX64 - line);
      var m :| d == MAX64 - line - m * TWO64;
      assert m == 1;
    }
  }

  /** An accepted total never exceeds the exact sum, and it is the exact sum if
      and only if no line product left the int64 range. */
  lemma {:induction false} AcceptedTotal(rows: seq<CartItem>, prods: map<Id, Product>, total: Int64)
    requires Positive(rows, prods) && total >= 0
    requires PriceLines(rows, prods, total).Ok?
    ensures var t := PriceLines(rows, prods, total).value;
            && total <= t <= total + ExactTotal(rows, prods)
            && (t == total + ExactTotal(rows, prods) <==> NoLineOverflow(rows, prods))
    decreases |rows|
  {
    if rows != [] {
      var x := prods[rows[0].product].price * rows[0].quantity;
      assert x > 0;
      GuardedAddition(total, x);
      var line: int := Wrap64(x);
      AcceptedTotal(rows[1..], prods, Wrap64(total + line));
      assert NoLineOverflow(rows, prods) <==> x <= MAX64 && NoLineOverflow(rows[1..], prods) by {
        assert rows == [rows[0]] + rows[1..];
      }
    }
  }

  /** What the int64 product charges for one line. */
  function Charge(row: CartItem, prods: map<Id, Product>): int
    requires row.product in prods
  {
    Wrap64(prods[row.product].price * row.quantity)
  }

  function ChargedTotal(rows: seq<CartItem>, prods: map<Id, Product>): int
    requires forall i :: 0 <= i < |rows| ==> rows[i].product in prods
  {
    if rows == [] then 0 else Charge(rows[0], prods) + ChargedTotal(rows[1..], prods)
  }

  predicate ChargesNonNegative(rows: seq<CartItem>, prods: map<Id, Product>)
    requires forall i :: 0 <= i < |rows| ==> rows[i].product in prods
  {
    forall i :: 0 <= i < |rows| ==> Charge(rows[i], prods) >= 0
  }

  lemma {:induction false} ChargedTotalNonNegative(rows: seq<CartItem>, prods: map<Id, Product>)
    requires forall i :: 0 <= i < |rows| ==> rows[i].product in prods
    requires ChargesNonNegative(rows, prods)
    ensures ChargedTotal(rows, prods) >= 0
  {
    if rows != [] {
      ChargedTotalNonNegative(rows[1..], prods);
    }
  }

  /** For every cart, overflowing lines included: the loop accepts exactly when the
      lines are purchasable, none is charged a negative amount and the charges sum
      to an int64, and then it answers that sum. */
  lemma {:induction false} ChargedExactly(rows: seq<CartItem>, prods: map<Id, Product>, total: Int64)
    requires Positive(rows, prods) && total >= 0
    ensures PriceLines(rows, prods, total).Ok? <==>
            Purchasable(rows, prods) && ChargesNonNegative(rows, prods) && total + ChargedTotal(rows, prods) <= MAX64
    ensures PriceLines(rows, prods, total).Ok? ==>
            PriceLines(rows, prods, total).value == total + ChargedTotal(rows, prods)
    decreases |rows|
  {
    if rows != [] {
      var x := prods[rows[0].product].price * rows[0].quantity;
      assert x > 0;
      GuardedAddition(total, x);
      var line: int := Charge(rows[0], prods);
      assert rows == [rows[0]] + rows[1..];
      if ChargesNonNegative(rows, prods) {
        ChargedTotalNonNegative(rows[1..], prods);
      }
      if line >= 0 && total + line <= MAX64 {
        ChargedExactly(rows[1..], prods, total + line);
      }
    }
  }

  /** Without a line overflow, the guard rejects exactly the sums that do not fit. */
  lemma {:induction false} TotalAcceptedExactly(rows: seq<CartItem>, prods: map<Id, Product>, total: Int64)
    requires Positive(rows, prods) && total >= 0
    requires Purchasable(rows, prods) && NoLineOverflow(rows, prods)
    ensures var sum := total + ExactTotal(rows, prods);
            var r := PriceLines(rows, prods, total);
            if sum <= MAX64 then r.Ok? && r.value == sum else r == Err(InvalidOrderRequest)
    decreases |rows|
  {
    if rows != [] {
      var x := prods[rows[0].product].price * rows[0].quantity;
      assert x > 0;
      GuardedAddition(total, x);
      ExactTotalNonNegative(rows[1..], prods);
      if total + x <= MAX64 {
        TotalAcceptedExactly(rows[1..], prods, Wrap64(total + x));
      }
    }
  }

  lemma {:induction false} ExactTotalNonNegative(rows: seq<CartItem>, prods: map<Id, Product>)
    requires Positive(rows, prods)
    ensures ExactTotal(rows, prods) >= 0
  {
    if rows != [] {
      assert prods[rows[0].product].price * rows[0].quantity > 0;
      ExactTotalNonNegative(rows[1..], prods);
    }
  }

  /** A line whose product wraps to a negative value is always rejected. */
  lemma NegativeLineRejected(rows: seq<CartItem>, prods: map<Id, Product>, total: Int64)
    requires rows != [] && Positive(rows, prods) && Purchasable(rows, prods) && total >= 0
    requires Wrap64(prods[rows[0].product].price * rows[0].quantity) < 0
    ensures PriceLines(rows, prods, total) == Err(InvalidOrderRequest)
  {
    GuardedAddition(total, prods[rows[0].product].price * rows[0].quantity);
  }

  /** Prices up to 2^32 + 2 cannot overflow a line at any 32-bit quantity. */
  lemma SmallPricesNeverOverflow(rows: seq<CartItem>, prods: map<Id, Product>)
    requires Positive(rows, prods)
    requires forall i :: 0 <= i < |rows| ==>
               rows[i].quantity <= MAX32 && prods[rows[i].product].price <= 0x1_0000_0002
    ensures NoLineOverflow(rows, prods)
  {
    forall i | 0 <= i < |rows|
      ensures prods[rows[i].product].price * rows[i].quantity <= MAX64
    {
      var p, q := prods[rows[i].product].price, rows[i].quantity;
      assert p * q <= 0x1_0000_0002 * q by {
        assert (0x1_0000_0002 - p) * q >= 0;
      }
    }
  }

  /** The unguarded product: four units at 2^62 + 1 points are sold for 4 points. */
  lemma WrappedProductIsSoldCheap(user: Id, p: Id)
    ensures var rows := [CartItem(user, p, 4)];
            var prods := map[p := Product(0x4000_0000_0000_0001, 10, true)];
            PriceLines(rows, prods, 0) == Ok(4) && ExactTotal(rows, prods) > MAX64
  {
    var rows := [CartItem(user, p, 4)];
    var prods := map[p := Product(0x4000_0000_0000_0001, 10, true)];
    assert rows[1..] == [];
    assert Wrap64(0x4000_0000_0000_0001 * 4) == 4;
    assert PriceLines(rows, prods, 0) == PriceLines(rows[1..], prods, 4);
    assert ExactTotal(rows, prods) == 0x4000_0000_0000_0001 * 4 + ExactTotal(rows[1..], prods);
  }
}
