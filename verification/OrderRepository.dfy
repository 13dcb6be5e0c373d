/** The row locks and updates of order/repository.go. */
module OrderRepository {
  import opened Base
  import opened Tables
  import opened Lifecycle
  import opened Store

  /** SELECT of the same-token order, with or without FOR UPDATE; a miss is not
      an error. */
  method FindForReplay(tx: Database, user: Id, token: string) returns (r: Option<Order>)
    ensures r == match FindToken(tx.orders, user, token) case None => None case Some(i) => Some(tx.orders[i])
  {
    var i := 0;
    while i < |tx.orders|
      invariant 0 <= i <= |tx.orders|
      invariant FindToken(tx.orders[..i], user, token).None?
    {
      assert tx.orders[..i + 1][..i] == tx.orders[..i];
      if tx.orders[i].user == user && tx.orders[i].token == token {
        FindTokenPrefix(tx.orders, i + 1, user, token);
        return Some(tx.orders[i]);
      }
      i := i + 1;
    }
    assert tx.orders[..i] == tx.orders;
    return None;
  }

  lemma {:induction false} FindTokenPrefix(orders: seq<Order>, n: nat, user: Id, token: string)
    requires n <= |orders| && FindToken(orders[..n], user, token).Some?
    ensures FindToken(orders, user, token) == FindToken(orders[..n], user, token)
    decreases |orders| - n
  {
    if n == |orders| {
      assert orders[..n] == orders;
    } else {
      assert orders[..n + 1][..n] == orders[..n];
      FindTokenPrefix(orders, n + 1, user, token);
    }
  }

  lemma {:induction false} FindOrderPrefix(orders: seq<Order>, n: nat, id: Id)
    requires n <= |orders| && FindOrder(orders[..n], id).Some?
    ensures FindOrder(orders, id) == FindOrder(orders[..n], id)
    decreases |orders| - n
  {
    if n == |orders| {
      assert orders[..n] == orders;
    } else {
      assert orders[..n + 1][..n] == orders[..n];
      FindOrderPrefix(orders, n + 1, id);
    }
  }

  /** The position of the row with this primary key. */
  method Locate(tx: Database, id: Id) returns (r: Option<nat>)
    ensures r == FindOrder(tx.orders, id)
  {
    var i := 0;
    while i < |tx.orders|
      invariant 0 <= i <= |tx.orders|
      invariant FindOrder(tx.orders[..i], id).None?
    {
      assert tx.orders[..i + 1][..i] == tx.orders[..i];
      if tx.orders[i].id == id {
        FindOrderPrefix(tx.orders, i + 1, id);
        return Some(i);
      }
      i := i + 1;
    }
    assert tx.orders[..i] == tx.orders;
    return None;
  }

  method LockForUpdate(tx: Database, id: Id) returns (r: Result<Order, Error>)
    ensures r == match LockOrder(tx.View(), None, id) case Ok(i) => Ok(tx.orders[i]) case Err(e) => Err(e)
    ensures r.Ok? ==> r.value in tx.orders && r.value.id == id
    ensures r.Err? ==> r.error == OrderNotFound && forall i :: 0 <= i < |tx.orders| ==> tx.orders[i].id != id
  {
    var i := Locate(tx, id);
    if i.None? {
      return Err(OrderNotFound);
    }
    return Ok(tx.orders[i.value]);
  }

  /** Another buyer's order cannot be told from a missing one. */
  method LockForUpdateByUser(tx: Database, user: Id, id: Id) returns (r: Result<Order, Error>)
    ensures r == match LockOrder(tx.View(), Some(user), id) case Ok(i) => Ok(tx.orders[i]) case Err(e) => Err(e)
    ensures r.Ok? ==> r.value in tx.orders && r.value.id == id && r.value.user == user
    ensures r.Err? ==> r.error == OrderNotFound
                       && (FindOrder(tx.orders, id).None? || tx.orders[FindOrder(tx.orders, id).value].user != user)
  {
    var i := Locate(tx, id);
    if i.None? || tx.orders[i.value].user != user {
      return Err(OrderNotFound);
    }
    return Ok(tx.orders[i.value]);
  }

  /** The WHERE conditions of the conditional updates. */
  datatype OrderWhere = OrderWhere(id: Id, user: Option<Id>, status: Option<Status>)

  predicate Matches(o: Order, where: OrderWhere) {
    && o.id == where.id
    && (where.user.Some? ==> o.user == where.user.value)
    && (where.status.Some? ==> o.status == where.status.value)
  }

  /** The columns the conditional updates set; None leaves a column alone. */
  datatype OrderFields = OrderFields(
    status: Status, shippedBy: Option<Option<Id>>, completed: Option<bool>, refunded: Option<bool>,
    reason: Option<string>, rejectReason: Option<string>, reviewedBy: Option<Option<Id>>)

  function Pick<T>(field: Option<T>, current: T): T {
    if field.Some? then field.value else current
  }

  function SetFields(o: Order, f: OrderFields): Order {
    o.(status := f.status, shippedBy := Pick(f.shippedBy, o.shippedBy), completed := Pick(f.completed, o.completed),
       refunded := Pick(f.refunded, o.refunded), reason := Pick(f.reason, o.reason),
       rejectReason := Pick(f.rejectReason, o.rejectReason), reviewedBy := Pick(f.reviewedBy, o.reviewedBy))
  }

  /** UPDATE of the row that meets the condition; no such row is a conflict. */
  method UpdateFields(tx: Database, where: OrderWhere, fields: OrderFields) returns (r: Result<(), Error>)
    modifies tx`orders
    ensures var i := FindOrder(old(tx.orders), where.id);
            if i.Some? && Matches(old(tx.orders)[i.value], where)
            then r == Ok(()) && tx.orders == old(tx.orders)[i.value := SetFields(old(tx.orders)[i.value], fields)]
            else r == Err(OrderStateConflict) && tx.orders == old(tx.orders)
  {
    var i := Locate(tx, where.id);
    if i.None? || !Matches(tx.orders[i.value], where) {
      return Err(OrderStateConflict);
    }
    tx.orders := tx.orders[i.value := SetFields(tx.orders[i.value], fields)];
    return Ok(());
  }

  /** INSERT of an order and its items. */
  method Create(tx: Database, o: Order) returns (r: Result<(), Error>)
    modifies tx`orders
    ensures r == match OrderInsertError(old(tx.orders), o) case None => Ok(()) case Some(e) => Err(e)
    ensures tx.orders == if r.Ok? then old(tx.orders) + [o] else old(tx.orders)
  {
    var error := OrderInsertError(tx.orders, o);
    if error.Some? {
      return Err(error.value);
    }
    tx.orders := tx.orders + [o];
    return Ok(());
  }
}
