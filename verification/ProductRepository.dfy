/** The locking and stock statements of product/repository.go. */
module ProductRepository {
  import opened Base
  import opened Sorting
  import opened Tables
  import opened Checkout
  import opened Invariants
  import opened Store

  /** A products row as a query returns it. */
  datatype ProductRow = ProductRow(id: Id, product: Product)

  /** Rows of distinct ids in ascending order, each as the table has it. */
  ghost predicate RowsOfTable(products: map<Id, Product>, rows: seq<ProductRow>) {
    && (forall i, j :: 0 <= i < j < |rows| ==> rows[i].id < rows[j].id)
    && (forall i :: 0 <= i < |rows| ==> rows[i].id in products && rows[i].product == products[rows[i].id])
  }

  ghost predicate Lists(rows: seq<ProductRow>, id: Id) {
    exists i :: 0 <= i < |rows| && rows[i].id == id
  }

  /** SELECT ... WHERE id IN ids ORDER BY id FOR UPDATE: each matching row once. */
  method SelectForUpdate(tx: Database, ids: seq<Id>) returns (rows: seq<ProductRow>)
    ensures RowsOfTable(tx.products, rows)
    ensures forall id :: Lists(rows, id) <==> id in ids && id in tx.products
  {
    var sorted := SortIds(ids);
    SortIdsFacts(ids);
    rows := [];
    var k := 0;
    while k < |sorted|
      invariant 0 <= k <= |sorted|
      invariant RowsOfTable(tx.products, rows)
      invariant forall x :: Lists(rows, x) <==> x in sorted[..k] && x in tx.products
    {
      var id := sorted[k];
      assert sorted[..k + 1] == sorted[..k] + [id];
      if id in tx.products {
        if rows == [] || rows[|rows| - 1].id != id {
          AppendKeepsOrder(tx.products, rows, sorted, k);
          forall x ensures Lists(rows + [ProductRow(id, tx.products[id])], x) <==> Lists(rows, x) || x == id {
            ListsAppend(rows, ProductRow(id, tx.products[id]), x);
          }
          rows := rows + [ProductRow(id, tx.products[id])];
        } else {
          assert Lists(rows, rows[|rows| - 1].id);
        }
      }
      k := k + 1;
    }
    assert sorted[..k] == sorted;
  }

  lemma AppendKeepsOrder(products: map<Id, Product>, rows: seq<ProductRow>, sorted: seq<Id>, k: nat)
    requires RowsOfTable(products, rows) && SortedBy(IdKey, sorted) && k < |sorted| && sorted[k] in products
    requires forall x :: Lists(rows, x) <==> x in sorted[..k] && x in products
    requires rows == [] || rows[|rows| - 1].id != sorted[k]
    ensures RowsOfTable(products, rows + [ProductRow(sorted[k], products[sorted[k]])])
  {
    if rows != [] {
      var last := rows[|rows| - 1].id;
      assert Lists(rows, last);
      forall i | 0 <= i < |rows| ensures rows[i].id < sorted[k] {
        BelowNext(sorted, k, rows[i].id, last);
      }
    }
  }

  /** In an ascending list, an id at or below the last listed one and different
      from the next is strictly below the next. */
  lemma BelowNext(sorted: seq<Id>, k: nat, id: Id, last: Id)
    requires SortedBy(IdKey, sorted) && k < |sorted|
    requires id <= last && last in sorted[..k] && last != sorted[k]
    ensures id < sorted[k]
  {
    var j :| 0 <= j < k && sorted[j] == last;
    assert IdKey(sorted[j]) <= IdKey(sorted[k]);
  }

  /** Locks the rows in ascending id order; one missing row is an error. */
  method LockByIDs(tx: Database, ids: seq<Id>) returns (r: Result<seq<ProductRow>, Error>)
    ensures r.Err? <==> exists i :: 0 <= i < |ids| && ids[i] !in tx.products
    ensures r.Err? <==> LockProducts(tx.products, ids).Err?
    ensures r.Err? ==> r.error == ProductNotFound
    ensures r.Ok? ==> RowsOfTable(tx.products, r.value) && forall id :: Lists(r.value, id) <==> id in ids
  {
    if ids == [] {
      return Ok([]);
    }
    var rows := SelectForUpdate(tx, ids);
    var found: set<Id> := {};
    var i := 0;
    while i < |rows|
      invariant 0 <= i <= |rows|
      invariant forall id :: id in found <==> Lists(rows[..i], id)
    {
      assert rows[..i + 1] == rows[..i] + [rows[i]];
      forall id ensures Lists(rows[..i + 1], id) <==> Lists(rows[..i], id) || id == rows[i].id {
        ListsAppend(rows[..i], rows[i], id);
      }
      found := found + {rows[i].id};
      i := i + 1;
    }
    assert rows[..i] == rows;
    var j := 0;
    while j < |ids|
      invariant 0 <= j <= |ids|
      invariant forall m :: 0 <= m < j ==> ids[m] in tx.products
    {
      if ids[j] !in found {
        assert !Lists(rows, ids[j]);
        return Err(ProductNotFound);
      }
      assert Lists(rows, ids[j]);
      j := j + 1;
    }
    return Ok(rows);
  }

  lemma ListsAppend(rows: seq<ProductRow>, row: ProductRow, id: Id)
    ensures Lists(rows + [row], id) <==> Lists(rows, id) || id == row.id
  {
    var all := rows + [row];
    if Lists(rows, id) {
      var i :| 0 <= i < |rows| && rows[i].id == id;
      assert all[i].id == id;
    }
    assert all[|rows|].id == row.id;
  }

  /** The conditional decrement of one stock. */
  method DecrementStock(tx: Database, id: Id, qty: int) returns (r: Result<int, Error>)
    modifies tx`products
    ensures r.Ok? <==> id in old(tx.products) && old(tx.products)[id].onSale && qty <= old(tx.products)[id].stock
    ensures r.Ok? ==> tx.products == old(tx.products)[id := old(tx.products)[id].(stock := r.value)]
                      && r.value == old(tx.products)[id].stock - qty
    ensures r.Err? ==> r.error == InsufficientStock
    ensures DecrementAll(old(tx.products), [Line(id, qty)]) == if r.Ok? then Ok(tx.products) else Err(r.error)
    ensures r.Err? ==> tx.products == old(tx.products)
  {
    if id in tx.products && tx.products[id].onSale && tx.products[id].stock >= qty {
      var row := tx.products[id];
      tx.products := tx.products[id := row.(stock := row.stock - qty)];
      return Ok(row.stock - qty);
    }
    return Err(InsufficientStock);
  }

  /** The unconditional increment of one stock. */
  method IncrementStock(tx: Database, id: Id, qty: int) returns (r: Result<int, Error>)
    modifies tx`products
    ensures r.Ok? <==> id in old(tx.products) && old(tx.products)[id].stock + qty <= MAX32
    ensures r.Ok? ==> tx.products == old(tx.products)[id := old(tx.products)[id].(stock := r.value)]
                      && r.value == old(tx.products)[id].stock + qty
    ensures r.Err? ==> r.error == if id !in old(tx.products) then ProductNotFound else NumericOutOfRange
    ensures IncrementAll(old(tx.products), [Line(id, qty)]) == if r.Ok? then Ok(tx.products) else Err(r.error)
    ensures r.Err? ==> tx.products == old(tx.products)
  {
    if id !in tx.products {
      return Err(ProductNotFound);
    }
    var row := tx.products[id];
    if row.stock + qty > MAX32 {
      return Err(NumericOutOfRange);
    }
    tx.products := tx.products[id := row.(stock := row.stock + qty)];
    return Ok(row.stock + qty);
  }

  lemma DecrementFirst(products: map<Id, Product>, lines: seq<Line>)
    requires lines != []
    ensures DecrementAll(products, lines) ==
            match DecrementAll(products, [lines[0]])
            case Ok(next) => DecrementAll(next, lines[1..])
            case Err(e) => Err(e)
  {
    var one := [lines[0]];
    assert one[1..] == [];
  }

  lemma IncrementFirst(products: map<Id, Product>, lines: seq<Line>)
    requires lines != []
    ensures IncrementAll(products, lines) ==
            match IncrementAll(products, [lines[0]])
            case Ok(next) => IncrementAll(next, lines[1..])
            case Err(e) => Err(e)
  {
    var one := [lines[0]];
    assert one[1..] == [];
  }
}
