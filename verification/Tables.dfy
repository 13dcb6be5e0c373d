/** The tables the points and order subsystem works on, as one value, and the
    effect of each SQL statement on them: lookups, inserts under the unique and
    CHECK constraints, conditional updates. */
module Tables {
  import opened Base
  import opened EventKeys
  import opened Sorting

  datatype Status = Paid | Shipped | Completed | RefundRequested | Refunded

  datatype Product = Product(price: int, stock: int, onSale: bool)

  datatype Snapshot = Snapshot(receiver: string, phone: string, region: string, detail: string)

  datatype Address = Address(user: Id, snap: Snapshot, isDefault: bool, version: int)

  datatype CartItem = CartItem(user: Id, product: Id, quantity: int)

  /** One product/quantity pair: of a request hash, an order or a stock update. */
  datatype Line = Line(product: Id, quantity: int)

  datatype OrderItem = OrderItem(product: Id, price: int, quantity: int)

  /** The canonical payload a request hash covers. SHA-256 over JSON is taken as
      injective, so the payload itself stands for the digest. */
  datatype RequestHash = RequestHash(
    cartIds: seq<Id>, lines: seq<Line>, address: Id, version: int, snap: Snapshot)

  datatype OrderRequest = OrderRequest(cartIds: seq<Id>, address: Id)

  /** Timestamps are kept as set or unset; shipped_by and shipped_at are one
      stamp, as are refund_reviewed_by and refund_reviewed_at. */
  datatype Order = Order(
    id: Id, user: Id, token: string, hash: RequestHash, total: int, items: seq<OrderItem>,
    status: Status, shippedBy: Option<Id>, completed: bool, refunded: bool,
    reason: string, rejectReason: string, reviewedBy: Option<Id>)

  datatype AdjustHash = AdjustHash(user: Id, delta: int, remark: string)

  /** The type column of a ledger row is the family of its event key. */
  datatype LedgerRow = LedgerRow(
    user: Id, order: Option<Id>, key: EventKey, hash: Option<AdjustHash>,
    delta: int, balanceAfter: int, admin: Option<Id>, remark: string)

  /** Orders and ledger rows are never deleted and are listed in commit order. */
  datatype Db = Db(
    openids: map<string, Id>,
    users: map<Id, int>,
    products: map<Id, Product>,
    addresses: map<Id, Address>,
    carts: map<Id, CartItem>,
    orders: seq<Order>,
    ledger: seq<LedgerRow>)

  // ---------- lookups ----------

  function FindOrder(orders: seq<Order>, id: Id): (r: Option<nat>)
    ensures r.Some? ==> r.value < |orders| && orders[r.value].id == id
    ensures r.None? ==> forall i :: 0 <= i < |orders| ==> orders[i].id != id
  {
    if orders == [] then None
    else
      var n := |orders| - 1;
      var r := FindOrder(orders[..n], id);
      if r.Some? then r else if orders[n].id == id then Some(n) else None
  }

  function FindToken(orders: seq<Order>, user: Id, token: string): (r: Option<nat>)
    ensures r.Some? ==> r.value < |orders| && orders[r.value].user == user && orders[r.value].token == token
    ensures r.None? ==> forall i :: 0 <= i < |orders| ==> orders[i].user != user || orders[i].token != token
  {
    if orders == [] then None
    else
      var n := |orders| - 1;
      var r := FindToken(orders[..n], user, token);
      if r.Some? then r else if orders[n].user == user && orders[n].token == token then Some(n) else None
  }

  function FindKey(ledger: seq<LedgerRow>, key: EventKey): (r: Option<nat>)
    ensures r.Some? ==> r.value < |ledger| && ledger[r.value].key == key
    ensures r.None? ==> forall i :: 0 <= i < |ledger| ==> ledger[i].key != key
  {
    if ledger == [] then None
    else
      var n := |ledger| - 1;
      var r := FindKey(ledger[..n], key);
      if r.Some? then r else if ledger[n].key == key then Some(n) else None
  }

  lemma FindOrderAppend(orders: seq<Order>, o: Order, id: Id)
    ensures FindOrder(orders + [o], id) ==
            if FindOrder(orders, id).Some? then FindOrder(orders, id)
            else if o.id == id then Some(|orders|) else None
  {
    assert (orders + [o])[..|orders|] == orders;
  }

  lemma FindTokenAppend(orders: seq<Order>, o: Order, user: Id, token: string)
    ensures FindToken(orders + [o], user, token) ==
            if FindToken(orders, user, token).Some? then FindToken(orders, user, token)
            else if o.user == user && o.token == token then Some(|orders|) else None
  {
    assert (orders + [o])[..|orders|] == orders;
  }

  lemma FindKeyAppend(ledger: seq<LedgerRow>, row: LedgerRow, key: EventKey)
    ensures FindKey(ledger + [row], key) ==
            if FindKey(ledger, key).Some? then FindKey(ledger, key)
            else if row.key == key then Some(|ledger|) else None
  {
    assert (ledger + [row])[..|ledger|] == ledger;
  }

  /** Status changes do not move an order or change what it is found by. */
  lemma {:induction false} FindOrderUpdate(orders: seq<Order>, i: nat, o: Order, id: Id)
    requires i < |orders| && o.id == orders[i].id
    ensures FindOrder(orders[i := o], id) == FindOrder(orders, id)
  {
    var n := |orders| - 1;
    if i < n {
      assert orders[i := o][..n] == orders[..n][i := o];
      FindOrderUpdate(orders[..n], i, o, id);
    } else {
      assert orders[i := o][..n] == orders[..n];
    }
  }

  lemma {:induction false} FindTokenUpdate(orders: seq<Order>, i: nat, o: Order, user: Id, token: string)
    requires i < |orders| && o.user == orders[i].user && o.token == orders[i].token
    ensures FindToken(orders[i := o], user, token) == FindToken(orders, user, token)
  {
    var n := |orders| - 1;
    if i < n {
      assert orders[i := o][..n] == orders[..n][i := o];
      FindTokenUpdate(orders[..n], i, o, user, token);
    } else {
      assert orders[i := o][..n] == orders[..n];
    }
  }

  // ---------- lines ----------

  function IdKey(id: Id): int { id as int }

  function LineKey(line: Line): int { line.product as int }

  function SortIds(ids: seq<Id>): seq<Id> { SortBy(IdKey, ids) }

  function SortLines(lines: seq<Line>): seq<Line> { SortBy(LineKey, lines) }

  predicate DistinctIds(ids: seq<Id>) { DistinctBy(IdKey, ids) }

  predicate DistinctLines(lines: seq<Line>) { DistinctBy(LineKey, lines) }

  function LinesOfCart(rows: seq<CartItem>): (lines: seq<Line>)
    ensures |lines| == |rows|
    ensures forall i :: 0 <= i < |rows| ==> lines[i] == Line(rows[i].product, rows[i].quantity)
  {
    seq(|rows|, i requires 0 <= i < |rows| => Line(rows[i].product, rows[i].quantity))
  }

  function LinesOfItems(items: seq<OrderItem>): (lines: seq<Line>)
    ensures |lines| == |items|
    ensures forall i :: 0 <= i < |items| ==> lines[i] == Line(items[i].product, items[i].quantity)
  {
    seq(|items|, i requires 0 <= i < |items| => Line(items[i].product, items[i].quantity))
  }

  /** Units of product p in the lines. */
  function Units(lines: seq<Line>, p: Id): int {
    if lines == [] then 0
    else (if lines[0].product == p then lines[0].quantity else 0) + Units(lines[1..], p)
  }

  // ---------- statements ----------

  /** UPDATE users SET points_balance = points_balance + delta, as it acts on one
      locked row. A negative delta carries the guard points_balance >= -delta,
      where the negation is Go's; the column is a bigint with CHECK >= 0. */
  function Adjusted(balance: int, delta: Int64): Result<int, Error> {
    if delta < 0 && balance < Wrap64(0 - delta) then Err(InsufficientPoints)
    else if balance + delta > MAX64 then Err(NumericOutOfRange)
    else if balance + delta < 0 then Err(CheckViolation)
    else Ok(balance + delta)
  }

  /** UPDATE products SET stock = stock - qty WHERE status = 'on_sale' AND
      stock >= qty, one line after the other. */
  function DecrementAll(products: map<Id, Product>, lines: seq<Line>): Result<map<Id, Product>, Error>
    decreases |lines|
  {
    if lines == [] then Ok(products)
    else
      var l := lines[0];
      if l.product in products && products[l.product].onSale && products[l.product].stock >= l.quantity then
        var row := products[l.product];
        DecrementAll(products[l.product := row.(stock := row.stock - l.quantity)], lines[1..])
      else Err(InsufficientStock)
  }

  /** UPDATE products SET stock = stock + qty, one line after the other; the
      column is a 32-bit integer. */
  function IncrementAll(products: map<Id, Product>, lines: seq<Line>): Result<map<Id, Product>, Error>
    decreases |lines|
  {
    if lines == [] then Ok(products)
    else
      var l := lines[0];
      if l.product !in products then Err(ProductNotFound)
      else
        var row := products[l.product];
        if row.stock + l.quantity > MAX32 then Err(NumericOutOfRange)
        else IncrementAll(products[l.product := row.(stock := row.stock + l.quantity)], lines[1..])
  }

  /** The constraints an INSERT of an order and its items meets, in the order
      the database tests them; None when the insert succeeds. */
  function OrderInsertError(orders: seq<Order>, o: Order): Option<Error> {
    if o.total <= 0 then Some(CheckViolation)
    else if FindOrder(orders, o.id).Some? || FindToken(orders, o.user, o.token).Some? then Some(UniqueViolation)
    else if exists i :: 0 <= i < |o.items| && (o.items[i].price <= 0 || o.items[i].quantity <= 0)
      then Some(CheckViolation)
    else if !DistinctLines(LinesOfItems(o.items)) then Some(UniqueViolation)
    else None
  }

  /** points_ledger_direction_valid and the non-zero and non-negative checks. A
      remark is stored trimmed, so not blank means not empty. */
  predicate LedgerRowChecks(row: LedgerRow) {
    && row.delta != 0
    && row.balanceAfter >= 0
    && (row.key.OrderPay? ==> row.order.Some? && row.delta < 0 && row.admin.None? && row.hash.None?)
    && (row.key.OrderRefund? ==> row.order.Some? && row.delta > 0 && row.admin.Some? && row.hash.None?)
    && (row.key.Signup? ==> row.order.None? && row.delta > 0 && row.admin.None? && row.hash.None?)
    && (row.key.AdminAdjust? ==> row.order.None? && row.admin.Some? && row.hash.Some? && row.remark != "")
  }

  function LedgerInsertError(ledger: seq<LedgerRow>, row: LedgerRow): Option<Error> {
    if !KeyFits(row.key) then Some(ValueTooLong)
    else if !LedgerRowChecks(row) then Some(CheckViolation)
    else if FindKey(ledger, row.key).Some? then Some(UniqueViolation)
    else None
  }

  /** The INSERT of an order goes through exactly under a new id and an unused token,
      with a positive total and positive lines of distinct products. */
  lemma OrderInsertExactly(orders: seq<Order>, o: Order)
    ensures OrderInsertError(orders, o).None? <==>
            && o.total > 0
            && (forall i :: 0 <= i < |orders| ==>
                  orders[i].id != o.id && (orders[i].user != o.user || orders[i].token != o.token))
            && (forall i :: 0 <= i < |o.items| ==> o.items[i].price > 0 && o.items[i].quantity > 0)
            && forall i, j :: 0 <= i < j < |o.items| ==> o.items[i].product != o.items[j].product
  {
    var lines := LinesOfItems(o.items);
    assert forall i, j :: 0 <= i < j < |o.items| ==>
             (o.items[i].product != o.items[j].product <==> LineKey(lines[i]) != LineKey(lines[j]));
  }

  /** The INSERT of a ledger row goes through exactly under a new key that fits, with
      the sign, the order, the administrator and the request of its family. */
  lemma LedgerInsertExactly(ledger: seq<LedgerRow>, row: LedgerRow)
    ensures LedgerInsertError(ledger, row).None? <==>
            && |KeyText(row.key)| <= 96 && row.balanceAfter >= 0
            && (forall i :: 0 <= i < |ledger| ==> ledger[i].key != row.key)
            && match row.key
               case OrderPay(_) => row.delta < 0 && row.order.Some? && row.admin.None? && row.hash.None?
               case OrderRefund(_) => row.delta > 0 && row.order.Some? && row.admin.Some? && row.hash.None?
               case Signup(_) => row.delta > 0 && row.order.None? && row.admin.None? && row.hash.None?
               case AdminAdjust(_, _) =>
                 row.delta != 0 && row.order.None? && row.admin.Some? && row.hash.Some? && row.remark != ""
    ensures LedgerInsertError(ledger, row) == Some(UniqueViolation) ==>
              exists i :: 0 <= i < |ledger| && ledger[i].key == row.key
  {
  }

  // ---------- what the stock statements do to one product ----------

  lemma {:induction false} DecrementAllEffect(products: map<Id, Product>, lines: seq<Line>)
    requires DecrementAll(products, lines).Ok?
    ensures var after := DecrementAll(products, lines).value;
            && after.Keys == products.Keys
            && forall p :: p in products ==>
                 after[p] == products[p].(stock := products[p].stock - Units(lines, p))
    decreases |lines|
  {
    if lines != [] {
      var l := lines[0];
      var row := products[l.product];
      DecrementAllEffect(products[l.product := row.(stock := row.stock - l.quantity)], lines[1..]);
    }
  }

  lemma {:induction false} IncrementAllEffect(products: map<Id, Product>, lines: seq<Line>)
    requires IncrementAll(products, lines).Ok?
    ensures var after := IncrementAll(products, lines).value;
            && after.Keys == products.Keys
            && forall p :: p in products ==>
                 after[p] == products[p].(stock := products[p].stock + Units(lines, p))
    decreases |lines|
  {
    if lines != [] {
      var l := lines[0];
      var row := products[l.product];
      IncrementAllEffect(products[l.product := row.(stock := row.stock + l.quantity)], lines[1..]);
    }
  }

  lemma {:induction false} UnlistedProduct(lines: seq<Line>, p: Id)
    requires forall i :: 0 <= i < |lines| ==> lines[i].product != p
    ensures Units(lines, p) == 0
  {
    if lines != [] {
      UnlistedProduct(lines[1..], p);
    }
  }

  /** A decrement never drives a stock below zero, and an increment keeps it
      inside the column. */
  lemma {:induction false} DecrementAllInRange(products: map<Id, Product>, lines: seq<Line>)
    requires DecrementAll(products, lines).Ok?
    requires forall p :: p in products ==> 0 <= products[p].stock <= MAX32
    requires forall i :: 0 <= i < |lines| ==> lines[i].quantity >= 0
    ensures var after := DecrementAll(products, lines).value;
            forall p :: p in after ==> 0 <= after[p].stock <= MAX32
    decreases |lines|
  {
    if lines != [] {
      var l := lines[0];
      var row := products[l.product];
      DecrementAllInRange(products[l.product := row.(stock := row.stock - l.quantity)], lines[1..]);
    }
  }

  lemma {:induction false} IncrementAllInRange(products: map<Id, Product>, lines: seq<Line>)
    requires IncrementAll(products, lines).Ok?
    requires forall p :: p in products ==> 0 <= products[p].stock <= MAX32
    requires forall i :: 0 <= i < |lines| ==> lines[i].quantity >= 0
    ensures var after := IncrementAll(products, lines).value;
            forall p :: p in after ==> 0 <= after[p].stock <= MAX32
    decreases |lines|
  {
    if lines != [] {
      var l := lines[0];
      var row := products[l.product];
      IncrementAllInRange(products[l.product := row.(stock := row.stock + l.quantity)], lines[1..]);
    }
  }

  lemma LinesTail(lines: seq<Line>)
    requires lines != [] && DistinctLines(lines)
    ensures DistinctLines(lines[1..])
    ensures forall i :: 1 <= i < |lines| ==> lines[i].product != lines[0].product
  {
    forall i, j | 0 <= i < j < |lines[1..]| ensures LineKey(lines[1..][i]) != LineKey(lines[1..][j]) {
      assert lines[1..][i] == lines[i + 1] && lines[1..][j] == lines[j + 1];
    }
    forall i | 1 <= i < |lines| ensures lines[i].product != lines[0].product {
      assert LineKey(lines[0]) != LineKey(lines[i]);
    }
  }

  /** The two passes of checkout: once every line has been verified on distinct
      products, the second pass of conditional decrements cannot fail. */
  lemma {:induction false} VerifiedLinesDecrement(products: map<Id, Product>, lines: seq<Line>)
    requires DistinctLines(lines)
    requires forall i :: 0 <= i < |lines| ==>
               && lines[i].product in products
               && products[lines[i].product].onSale
               && lines[i].quantity <= products[lines[i].product].stock
    ensures DecrementAll(products, lines).Ok?
    decreases |lines|
  {
    if lines != [] {
      LinesTail(lines);
      var l := lines[0];
      var row := products[l.product];
      VerifiedLinesDecrement(products[l.product := row.(stock := row.stock - l.quantity)], lines[1..]);
    }
  }

  /** The bare balance guard does its job for every delta but the one whose
      negation wraps: there it lets everything through, and it is the CHECK
      constraint that refuses the statement. */
  lemma AdjustedExactly(balance: int, delta: Int64)
    requires 0 <= balance <= MAX64
    ensures Adjusted(balance, delta).Ok? <==> 0 <= balance + delta <= MAX64
    ensures Adjusted(balance, delta).Ok? ==> Adjusted(balance, delta).value == balance + delta
    ensures balance + delta < 0 ==>
              Adjusted(balance, delta) == Err(if delta == MIN64 then CheckViolation else InsufficientPoints)
  {
    assert Wrap64(-MIN64) == MIN64;
  }
}
