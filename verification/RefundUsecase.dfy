/** RefundUsecase (refund.go) statement by statement. */
module RefundUsecase {
  import opened Base
  import opened EventKeys
  import opened Tables
  import opened Checkout
  import opened Lifecycle
  import opened Store
  import OrderRepository
  import PaymentRepository
  import ProductRepository

  /** Moves a paid or shipped order to refund_requested. */
  method RequestRefund(db: Database, user: Id, order: Id, reason: string) returns (r: Result<Order, Error>)
    modifies db
    ensures (db.View(), r) == Move(old(db.View()), Request(user, order, reason))
  {
    var trimmed := Trim(reason);
    if trimmed == "" || |trimmed| > 255 {
      return Err(InvalidRefundReason);
    }
    if user == ZERO_ID || order == ZERO_ID {
      return Err(OrderNotFound);
    }
    var locked := OrderRepository.LockForUpdateByUser(db, user, order);
    if locked.Err? {
      return Err(locked.error);
    }
    var row := locked.value;
    if row.status != Paid && row.status != Shipped {
      return Err(OrderStateConflict);
    }
    var updated := OrderRepository.UpdateFields(
      db, OrderRepository.OrderWhere(row.id, Some(user), None),
      OrderRepository.OrderFields(RefundRequested, None, None, None, Some(trimmed), Some(""), Some(None)));
    return updated.Then(row.(status := RefundRequested, reason := trimmed, rejectReason := "", reviewedBy := None));
  }

  /** Returns the order to the state the request came from. */
  method RejectRefund(db: Database, admin: Id, order: Id, reason: string) returns (r: Result<Order, Error>)
    modifies db
    ensures (db.View(), r) == Move(old(db.View()), Reject(admin, order, reason))
  {
    var trimmed := Trim(reason);
    if trimmed == "" || |trimmed| > 255 {
      return Err(InvalidRefundReason);
    }
    if admin == ZERO_ID || order == ZERO_ID {
      return Err(OrderNotFound);
    }
    var locked := OrderRepository.LockForUpdate(db, order);
    if locked.Err? {
      return Err(locked.error);
    }
    var row := locked.value;
    if row.status != RefundRequested {
      return Err(OrderStateConflict);
    }
    var target := Paid;
    if row.shippedBy.Some? {
      target := Shipped;
    }
    var updated := OrderRepository.UpdateFields(
      db, OrderRepository.OrderWhere(row.id, None, Some(RefundRequested)),
      OrderRepository.OrderFields(target, None, None, None, None, Some(trimmed), Some(Some(admin))));
    return updated.Then(row.(status := target, rejectReason := trimmed, reviewedBy := Some(admin)));
  }

  /** Puts the units of each item back, one row after the other. */
  method RestoreStock(tx: Database, items: seq<OrderItem>) returns (r: Result<(), Error>)
    modifies tx`products
    ensures IncrementAll(old(tx.products), LinesOfItems(items)) == if r.Ok? then Ok(tx.products) else Err(r.error)
  {
    var i := 0;
    while i < |items|
      invariant 0 <= i <= |items|
      invariant IncrementAll(tx.products, LinesOfItems(items)[i..])
                == IncrementAll(old(tx.products), LinesOfItems(items))
    {
      ProductRepository.IncrementFirst(tx.products, LinesOfItems(items)[i..]);
      assert LinesOfItems(items)[i..][1..] == LinesOfItems(items)[i + 1..];
      var one := ProductRepository.IncrementStock(tx, items[i].product, items[i].quantity);
      if one.Err? {
        return Err(one.error);
      }
      i := i + 1;
    }
    return Ok(());
  }

  function RefundRow(o: Order, admin: Id, balance: int): LedgerRow {
    LedgerRow(o.user, Some(o.id), OrderRefund(o.id), None, o.total, balance, Some(admin), "")
  }

  /** BuildRefund, case by case. */
  lemma RefundCases(o: Order, admin: Id, balance: int, products: map<Id, Product>, ledger: seq<LedgerRow>)
    requires MIN64 <= o.total <= MAX64
    ensures var b := BuildRefund(o, admin, balance, products, ledger);
            match Adjusted(balance, o.total)
            case Err(e) => b == Err(e)
            case Ok(newBalance) =>
              match LedgerInsertError(ledger, RefundRow(o, admin, newBalance))
              case Some(e) => b == Err(e)
              case None =>
                match IncrementAll(products, LinesOfItems(o.items))
                case Err(e) => b == Err(e)
                case Ok(stocks) => b == Ok(Refund(RefundedOrder(o, admin), newBalance, stocks,
                  RefundRow(o, admin, newBalance)))
  {
  }

  /** The points and their ledger row. */
  method PayBack(tx: Database, o: Order, admin: Id) returns (r: Result<int, Error>)
    requires o.user in tx.users && MIN64 <= o.total <= MAX64
    modifies tx`users, tx`ledger
    ensures match Adjusted(old(tx.users[o.user]), o.total)
            case Err(e) => r == Err(e)
            case Ok(balance) =>
              match LedgerInsertError(old(tx.ledger), RefundRow(o, admin, balance))
              case Some(e) => r == Err(e)
              case None =>
                && r == Ok(balance) && tx.users == old(tx.users)[o.user := balance]
                && tx.ledger == old(tx.ledger) + [RefundRow(o, admin, balance)]
  {
    var total: Int64 := o.total;
    var paid := PaymentRepository.AdjustBalance(tx, o.user, total);
    if paid.Err? {
      return Err(paid.error);
    }
    var posted := PaymentRepository.Create(tx, RefundRow(o, admin, paid.value));
    if posted.Err? {
      return Err(posted.error);
    }
    return Ok(paid.value);
  }

  /** The stock and the status. */
  method PutBack(tx: Database, o: Order, admin: Id) returns (r: Result<Order, Error>)
    requires o.status == RefundRequested
    requires FindOrder(tx.orders, o.id).Some? && tx.orders[FindOrder(tx.orders, o.id).value] == o
    modifies tx`products, tx`orders
    ensures match IncrementAll(old(tx.products), LinesOfItems(o.items))
            case Err(e) => r == Err(e)
            case Ok(stocks) =>
              && r == Ok(RefundedOrder(o, admin)) && tx.products == stocks
              && tx.orders == old(tx.orders)[FindOrder(old(tx.orders), o.id).value := RefundedOrder(o, admin)]
  {
    var restored := RestoreStock(tx, o.items);
    if restored.Err? {
      return Err(restored.error);
    }
    var updated := OrderRepository.UpdateFields(
      tx, OrderRepository.OrderWhere(o.id, None, Some(RefundRequested)),
      OrderRepository.OrderFields(Refunded, None, None, Some(true), None, None, Some(Some(admin))));
    return updated.Then(RefundedOrder(o, admin));
  }

  /** Points, ledger, stock and status, in that order, over the locked rows. */
  method Restore(tx: Database, o: Order, admin: Id) returns (r: Result<Order, Error>)
    requires o.user in tx.users && MIN64 <= o.total <= MAX64 && o.status == RefundRequested
    requires FindOrder(tx.orders, o.id).Some? && tx.orders[FindOrder(tx.orders, o.id).value] == o
    modifies tx
    ensures match BuildRefund(o, admin, old(tx.users[o.user]), old(tx.products), old(tx.ledger))
            case Err(e) => r == Err(e)
            case Ok(refund) =>
              && r == Ok(refund.order)
              && tx.View() == old(tx.View()).(
                   users := old(tx.users)[o.user := refund.balance],
                   products := refund.products,
                   orders := old(tx.orders)[FindOrder(old(tx.orders), o.id).value := refund.order],
                   ledger := old(tx.ledger) + [refund.row])
  {
    RefundCases(o, admin, tx.users[o.user], tx.products, tx.ledger);
    var paid := PayBack(tx, o, admin);
    if paid.Err? {
      return Err(paid.error);
    }
    r := PutBack(tx, o, admin);
  }

  /** What the transaction body of an approval commits. */
  lemma ApproveCases(db: Db, admin: Id, id: Id, i: nat)
    requires admin != ZERO_ID && id != ZERO_ID && LockOrder(db, None, id) == Ok(i)
    ensures Approve(db, admin, id) ==
            if ApproveFresh(db, db.orders[i], admin).Ok?
            then (ApplyRefund(db, i, ApproveFresh(db, db.orders[i], admin).value),
              Ok(ApproveFresh(db, db.orders[i], admin).value.order))
            else (db, Err(ApproveFresh(db, db.orders[i], admin).error))
  {
  }

  /** Incremented stocks replace the whole products table. */
  lemma StocksReplace(o: Order, admin: Id, balance: int, products: map<Id, Product>, ledger: seq<LedgerRow>)
    requires BuildRefund(o, admin, balance, products, ledger).Ok?
    ensures products + BuildRefund(o, admin, balance, products, ledger).value.products
            == BuildRefund(o, admin, balance, products, ledger).value.products
  {
    IncrementAllEffect(products, LinesOfItems(o.items));
  }

  lemma MissingProduct(products: map<Id, Product>, o: Order)
    ensures LockProducts(products, ItemIds(o)).Err? <==>
            exists j :: 0 <= j < |o.items| && o.items[j].product !in products
  {
    if exists j :: 0 <= j < |o.items| && o.items[j].product !in products {
      var j :| 0 <= j < |o.items| && o.items[j].product !in products;
      assert ItemIds(o)[j] !in products;
    }
  }

  /** The transaction body of Approve. */
  method Attempt(tx: Database, admin: Id, order: Id) returns (r: Result<Order, Error>)
    requires admin != ZERO_ID && order != ZERO_ID
    requires forall i :: 0 <= i < |tx.orders| ==> MIN64 <= tx.orders[i].total <= MAX64
    modifies tx
    ensures r == Approve(old(tx.View()), admin, order).1
    ensures r.Ok? ==> tx.View() == Approve(old(tx.View()), admin, order).0
  {
    ghost var db := tx.View();
    var locked := OrderRepository.LockForUpdate(tx, order);
    if locked.Err? {
      return Err(locked.error);
    }
    var row := locked.value;
    ghost var i := FindOrder(db.orders, order).value;
    ApproveCases(db, admin, order, i);
    if row.status != RefundRequested {
      return Err(OrderStateConflict);
    }
    var user := PaymentRepository.LockUser(tx, row.user);
    if user.Err? {
      return Err(user.error);
    }
    MissingProduct(tx.products, row);
    var products := ProductRepository.LockByIDs(tx, ItemIds(row));
    if products.Err? {
      return Err(products.error);
    }
    if BuildRefund(row, admin, db.users[row.user], db.products, db.ledger).Ok? {
      StocksReplace(row, admin, db.users[row.user], db.products, db.ledger);
    }
    r := Restore(tx, row, admin);
  }

  /** RefundUsecase.Approve. The stored totals are bigint values. */
  method ApproveRefund(db: Database, admin: Id, order: Id) returns (r: Result<Order, Error>)
    requires forall i :: 0 <= i < |db.orders| ==> MIN64 <= db.orders[i].total <= MAX64
    modifies db
    ensures (db.View(), r) == Approve(old(db.View()), admin, order)
  {
    if admin == ZERO_ID || order == ZERO_ID {
      return Err(OrderNotFound);
    }
    var begun := db.View();
    r := Attempt(db, admin, order);
    if r.Err? {
      db.Rollback(begun);
    }
  }
}
