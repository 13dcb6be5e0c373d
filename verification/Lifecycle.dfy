/** The order state machine after payment: refund.go and fulfillment.go as
    functions of the database. */
module Lifecycle {
  import opened Base
  import opened EventKeys
  import opened Tables

  predicate ValidReason(reason: string) {
    Trim(reason) != "" && |Trim(reason)| <= 255
  }

  /** LockForUpdate, or LockForUpdateByUser when a buyer is given. */
  function LockOrder(db: Db, buyer: Option<Id>, id: Id): Result<nat, Error> {
    var found := FindOrder(db.orders, id);
    if found.Some? && (buyer.Some? ==> db.orders[found.value].user == buyer.value)
    then Ok(found.value) else Err(OrderNotFound)
  }

  // ---------- the transitions of one locked order row ----------

  function Requested(o: Order, reason: string): Result<Order, Error> {
    if o.status == Paid || o.status == Shipped then
      Ok(o.(status := RefundRequested, reason := Trim(reason), rejectReason := "", reviewedBy := None))
    else Err(OrderStateConflict)
  }

  /** Reject returns to the state the request came from, read off the shipping stamp. */
  function Rejected(o: Order, admin: Id, reason: string): Result<Order, Error> {
    if o.status == RefundRequested then
      Ok(o.(status := if o.shippedBy.Some? then Shipped else Paid,
            rejectReason := Trim(reason), reviewedBy := Some(admin)))
    else Err(OrderStateConflict)
  }

  function ShippedOut(o: Order, admin: Id): Result<Order, Error> {
    if o.status == Paid then Ok(o.(status := Shipped, shippedBy := Some(admin)))
    else Err(OrderStateConflict)
  }

  function Confirmed(o: Order): Result<Order, Error> {
    if o.status == Shipped then Ok(o.(status := Completed, completed := true))
    else Err(OrderStateConflict)
  }

  /** The four calls that touch nothing but one order row. */
  datatype OrderCall =
    | Request(user: Id, order: Id, reason: string)
    | Reject(admin: Id, order: Id, reason: string)
    | Ship(admin: Id, order: Id)
    | Confirm(user: Id, order: Id)

  function CallError(c: OrderCall): Option<Error> {
    match c
    case Request(user, id, reason) =>
      if !ValidReason(reason) then Some(InvalidRefundReason)
      else if user == ZERO_ID || id == ZERO_ID then Some(OrderNotFound) else None
    case Reject(admin, id, reason) =>
      if !ValidReason(reason) then Some(InvalidRefundReason)
      else if admin == ZERO_ID || id == ZERO_ID then Some(OrderNotFound) else None
    case Ship(admin, id) => if admin == ZERO_ID || id == ZERO_ID then Some(OrderNotFound) else None
    case Confirm(user, id) => if user == ZERO_ID || id == ZERO_ID then Some(OrderNotFound) else None
  }

  function Buyer(c: OrderCall): Option<Id> {
    match c
    case Request(user, _, _) => Some(user)
    case Confirm(user, _) => Some(user)
    case _ => None
  }

  function Transition(o: Order, c: OrderCall): Result<Order, Error> {
    match c
    case Request(_, _, reason) => Requested(o, reason)
    case Reject(admin, _, reason) => Rejected(o, admin, reason)
    case Ship(admin, _) => ShippedOut(o, admin)
    case Confirm(_, _) => Confirmed(o)
  }

  function Move(db: Db, c: OrderCall): (Db, Result<Order, Error>) {
    if CallError(c).Some? then (db, Err(CallError(c).value))
    else
      match LockOrder(db, Buyer(c), c.order)
      case Err(e) => (db, Err(e))
      case Ok(i) =>
        match Transition(db.orders[i], c)
        case Err(e) => (db, Err(e))
        case Ok(o) => (db.(orders := db.orders[i := o]), Ok(o))
  }

  // ---------- refund approval ----------

  /** What an approval writes besides the order row. */
  datatype Refund = Refund(order: Order, balance: int, products: map<Id, Product>, row: LedgerRow)

  function ItemIds(o: Order): (ids: seq<Id>)
    ensures |ids| == |o.items| && forall i :: 0 <= i < |ids| ==> ids[i] == o.items[i].product
  {
    seq(|o.items|, i requires 0 <= i < |o.items| => o.items[i].product)
  }

  function RefundedOrder(o: Order, admin: Id): Order {
    o.(status := Refunded, refunded := true, reviewedBy := Some(admin))
  }

  /** The statements of an approval over the locked order, user and product rows. */
  function BuildRefund(o: Order, admin: Id, balance: int, products: map<Id, Product>,
      ledger: seq<LedgerRow>): Result<Refund, Error>
  {
    if o.total < MIN64 || o.total > MAX64 then Err(NumericOutOfRange)
    else
      var newBalance :- Adjusted(balance, o.total);
      var row := LedgerRow(o.user, Some(o.id), OrderRefund(o.id), None, o.total, newBalance, Some(admin), "");
      if LedgerInsertError(ledger, row).Some? then Err(LedgerInsertError(ledger, row).value)
      else
        var stocks :- IncrementAll(products, LinesOfItems(o.items));
        Ok(Refund(RefundedOrder(o, admin), newBalance, stocks, row))
  }

  function ApplyRefund(db: Db, i: nat, r: Refund): Db
    requires i < |db.orders|
  {
    db.(users := db.users[r.order.user := r.balance],
        products := db.products + r.products,
        orders := db.orders[i := r.order],
        ledger := db.ledger + [r.row])
  }

  function ApproveFresh(db: Db, o: Order, admin: Id): Result<Refund, Error> {
    if o.status != RefundRequested then Err(OrderStateConflict)
    else if o.user !in db.users then Err(UserNotFound)
    else if exists j :: 0 <= j < |o.items| && o.items[j].product !in db.products then Err(ProductNotFound)
    else BuildRefund(o, admin, db.users[o.user], db.products, db.ledger)
  }

  /** RefundUsecase.Approve. */
  function Approve(db: Db, admin: Id, id: Id): (Db, Result<Order, Error>) {
    if admin == ZERO_ID || id == ZERO_ID then (db, Err(OrderNotFound))
    else
      match LockOrder(db, None, id)
      case Err(e) => (db, Err(e))
      case Ok(i) =>
        match ApproveFresh(db, db.orders[i], admin)
        case Err(e) => (db, Err(e))
        case Ok(r) => (ApplyRefund(db, i, r), Ok(r.order))
  }
}
