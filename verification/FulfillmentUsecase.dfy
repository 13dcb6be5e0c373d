/** FulfillmentUsecase (fulfillment.go) statement by statement. */
module FulfillmentUsecase {
  import opened Base
  import opened Tables
  import opened Lifecycle
  import opened Store
  import OrderRepository

  method ShipOrder(db: Database, admin: Id, order: Id) returns (r: Result<Order, Error>)
    modifies db
    ensures (db.View(), r) == Move(old(db.View()), Ship(admin, order))
    ensures r.Ok? <==> admin != ZERO_ID && order != ZERO_ID && FindOrder(old(db.orders), order).Some?
                       && old(db.orders)[FindOrder(old(db.orders), order).value].status == Paid
  {
    if admin == ZERO_ID || order == ZERO_ID {
      return Err(OrderNotFound);
    }
    var locked := OrderRepository.LockForUpdate(db, order);
    if locked.Err? {
      return Err(locked.error);
    }
    var row := locked.value;
    if row.status != Paid {
      return Err(OrderStateConflict);
    }
    var updated := OrderRepository.UpdateFields(
      db, OrderRepository.OrderWhere(row.id, None, None),
      OrderRepository.OrderFields(Shipped, Some(Some(admin)), None, None, None, None, None));
    return updated.Then(row.(status := Shipped, shippedBy := Some(admin)));
  }

  method ConfirmOrder(db: Database, user: Id, order: Id) returns (r: Result<Order, Error>)
    modifies db
    ensures (db.View(), r) == Move(old(db.View()), Confirm(user, order))
    ensures r.Ok? <==> user != ZERO_ID && order != ZERO_ID && FindOrder(old(db.orders), order).Some?
                       && old(db.orders)[FindOrder(old(db.orders), order).value].user == user
                       && old(db.orders)[FindOrder(old(db.orders), order).value].status == Shipped
  {
    if user == ZERO_ID || order == ZERO_ID {
      return Err(OrderNotFound);
    }
    var locked := OrderRepository.LockForUpdateByUser(db, user, order);
    if locked.Err? {
      return Err(locked.error);
    }
    var row := locked.value;
    if row.status != Shipped {
      return Err(OrderStateConflict);
    }
    var updated := OrderRepository.UpdateFields(
      db, OrderRepository.OrderWhere(row.id, Some(user), None),
      OrderRepository.OrderFields(Completed, None, Some(true), None, None, None, None));
    return updated.Then(row.(status := Completed, completed := true));
  }
}
