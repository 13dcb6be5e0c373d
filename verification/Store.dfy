/** The database as an object that statements change in place, one repository
    statement after the other inside a transaction. Each statement is proved to
    have the effect the functions in Tables give it. */
module Store {
  import opened Base
  import opened Tables

  class Database {
    var openids: map<string, Id>
    var users: map<Id, int>
    var products: map<Id, Product>
    var addresses: map<Id, Address>
    var carts: map<Id, CartItem>
    var orders: seq<Order>
    var ledger: seq<LedgerRow>

    /** The contents, as one value. */
    function View(): Db
      reads this
    {
      Db(openids, users, products, addresses, carts, orders, ledger)
    }

    constructor (d: Db)
      ensures View() == d
    {
      openids, users, products, addresses := d.openids, d.users, d.products, d.addresses;
      carts, orders, ledger := d.carts, d.orders, d.ledger;
    }

    /** Rolls back to what the transaction saw when it began. */
    method Rollback(begun: Db)
      modifies this
      ensures View() == begun
    {
      openids, users, products, addresses := begun.openids, begun.users, begun.products, begun.addresses;
      carts, orders, ledger := begun.carts, begun.orders, begun.ledger;
    }
  }
}
