/** The cart statements an order runs (cart/repository.go). */
module CartRepository {
  import opened Base
  import opened Sorting
  import opened Tables
  import opened Checkout
  import opened Invariants
  import opened Store

  /** A cart_items row as a query returns it. */
  datatype CartRecord = CartRecord(id: Id, item: CartItem)

  function Items(rows: seq<CartRecord>): (items: seq<CartItem>)
    ensures |items| == |rows| && forall i :: 0 <= i < |rows| ==> items[i] == rows[i].item
  {
    seq(|rows|, i requires 0 <= i < |rows| => rows[i].item)
  }

  ghost predicate Lists(rows: seq<CartRecord>, id: Id) {
    exists i :: 0 <= i < |rows| && rows[i].id == id
  }

  /** The buyer's own rows as the table has them, in ascending id order. */
  ghost predicate OfTable(carts: map<Id, CartItem>, user: Id, rows: seq<CartRecord>) {
    && (forall i, j :: 0 <= i < j < |rows| ==> rows[i].id <= rows[j].id)
    && forall i :: 0 <= i < |rows| ==>
         rows[i].id in carts && carts[rows[i].id].user == user && rows[i].item == carts[rows[i].id]
  }

  lemma ListsAppend(rows: seq<CartRecord>, row: CartRecord, id: Id)
    ensures Lists(rows + [row], id) <==> Lists(rows, id) || id == row.id
  {
    var all := rows + [row];
    if Lists(rows, id) {
      var i :| 0 <= i < |rows| && rows[i].id == id;
      assert all[i].id == id;
    }
    assert all[|rows|].id == row.id;
  }

  lemma AppendRecord(rows: seq<CartRecord>, row: CartRecord)
    ensures forall x :: Lists(rows + [row], x) <==> Lists(rows, x) || x == row.id
    ensures Items(rows + [row]) == Items(rows) + [row.item]
  {
    forall x ensures Lists(rows + [row], x) <==> Lists(rows, x) || x == row.id {
      ListsAppend(rows, row, x);
    }
  }

  lemma {:induction false} SelectCartAppend(db: Db, user: Id, ids: seq<Id>, id: Id)
    ensures SelectCart(db, user, ids + [id]) ==
            SelectCart(db, user, ids) + if OwnsCartRow(db, user, id) then [db.carts[id]] else []
  {
    if ids == [] {
      assert ids + [id] == [id];
      assert [id][1..] == [];
    } else {
      assert (ids + [id])[1..] == ids[1..] + [id];
      SelectCartAppend(db, user, ids[1..], id);
    }
  }

  ghost predicate Before(rows: seq<CartRecord>, sorted: seq<Id>, k: nat) {
    k < |sorted| ==> forall i :: 0 <= i < |rows| ==> rows[i].id <= sorted[k]
  }

  lemma NextRow(carts: map<Id, CartItem>, user: Id, rows: seq<CartRecord>, sorted: seq<Id>, k: nat)
    requires OfTable(carts, user, rows) && SortedBy(IdKey, sorted) && k < |sorted| && Before(rows, sorted, k)
    ensures Before(rows, sorted, k + 1)
    ensures sorted[k] in carts && carts[sorted[k]].user == user ==>
              var more := rows + [CartRecord(sorted[k], carts[sorted[k]])];
              OfTable(carts, user, more) && Before(more, sorted, k + 1)
  {
    assert k + 1 < |sorted| ==> IdKey(sorted[k]) <= IdKey(sorted[k + 1]);
  }

  /** SELECT ... WHERE user_id = ? AND id IN ids ORDER BY id FOR UPDATE. The ids
      are distinct: validateOrderRequest turns repeated ones away. */
  method SelectForUpdate(tx: Database, user: Id, ids: seq<Id>) returns (rows: seq<CartRecord>)
    ensures Items(rows) == SelectCart(tx.View(), user, SortIds(ids))
    ensures OfTable(tx.carts, user, rows)
    ensures forall id :: Lists(rows, id) <==> id in ids && id in tx.carts && tx.carts[id].user == user
  {
    var db := tx.View();
    var sorted := SortIds(ids);
    SortIdsFacts(ids);
    rows := [];
    var k := 0;
    while k < |sorted|
      invariant 0 <= k <= |sorted|
      invariant Items(rows) == SelectCart(db, user, sorted[..k])
      invariant OfTable(tx.carts, user, rows) && Before(rows, sorted, k)
      invariant forall id :: Lists(rows, id) <==> id in sorted[..k] && OwnsCartRow(db, user, id)
    {
      NextRow(tx.carts, user, rows, sorted, k);
      var id := sorted[k];
      assert sorted[..k + 1] == sorted[..k] + [id];
      SelectCartAppend(db, user, sorted[..k], id);
      if OwnsCartRow(db, user, id) {
        var row := CartRecord(id, db.carts[id]);
        AppendRecord(rows, row);
        rows := rows + [row];
      }
      k := k + 1;
    }
    assert sorted[..k] == sorted;
  }

  /** Locks the buyer's rows in ascending id order; a row that is missing or
      somebody else's is an error. */
  method LockForOrder(tx: Database, user: Id, ids: seq<Id>) returns (r: Result<seq<CartRecord>, Error>)
    ensures ids == [] ==> r == Err(InvalidCartItem)
    ensures ids != [] ==>
              (r.Ok? <==> forall i :: 0 <= i < |ids| ==> ids[i] in tx.carts && tx.carts[ids[i]].user == user)
    ensures r.Ok? ==> OfTable(tx.carts, user, r.value) && forall id :: Lists(r.value, id) <==> id in ids
    ensures ids != [] ==>
              LockCart(tx.View(), user, ids) == if r.Ok? then Ok(Items(r.value)) else Err(r.error)
  {
    if ids == [] {
      return Err(InvalidCartItem);
    }
    var rows := SelectForUpdate(tx, user, ids);
    var found: set<Id> := {};
    var i := 0;
    while i < |rows|
      invariant 0 <= i <= |rows|
      invariant forall id :: id in found <==> Lists(rows[..i], id)
    {
      assert rows[..i + 1] == rows[..i] + [rows[i]];
      forall id ensures Lists(rows[..i + 1], id) <==> Lists(rows[..i], id) || id == rows[i].id {
        ListsAppend(rows[..i], rows[i], id);
      }
      found := found + {rows[i].id};
      i := i + 1;
    }
    assert rows[..i] == rows;
    var j := 0;
    while j < |ids|
      invariant 0 <= j <= |ids|
      invariant forall m :: 0 <= m < j ==> OwnsCartRow(tx.View(), user, ids[m])
    {
      if ids[j] !in found {
        assert !Lists(rows, ids[j]);
        return Err(CartItemNotFound);
      }
      assert Lists(rows, ids[j]);
      j := j + 1;
    }
    return Ok(rows);
  }

  function OwnRows(db: Db, user: Id, ids: seq<Id>): set<Id> {
    set i | 0 <= i < |ids| && ids[i] in db.carts && db.carts[ids[i]].user == user :: ids[i]
  }

  /** DELETE of the buyer's rows among ids; the row count must be exact. */
  method DeleteByIDs(tx: Database, user: Id, ids: seq<Id>) returns (r: Result<(), Error>)
    modifies tx`carts
    ensures tx.carts == old(tx.carts) - OwnRows(old(tx.View()), user, ids)
    ensures r == if |OwnRows(old(tx.View()), user, ids)| == |ids| then Ok(()) else Err(CartItemNotFound)
  {
    if ids == [] {
      return Ok(());
    }
    var doomed := OwnRows(tx.View(), user, ids);
    tx.carts := tx.carts - doomed;
    if |doomed| != |ids| {
      return Err(CartItemNotFound);
    }
    return Ok(());
  }

  lemma {:induction false} DistinctSetSize(ids: seq<Id>)
    requires DistinctIds(ids)
    ensures |IdSet(ids)| == |ids|
  {
    if ids == [] {
      assert IdSet(ids) == {};
    } else {
      var n := |ids| - 1;
      DistinctSetSize(ids[..n]);
      forall i | 0 <= i < n ensures ids[i] != ids[n] {
        assert IdKey(ids[i]) != IdKey(ids[n]);
      }
      assert ids[n] !in IdSet(ids[..n]);
      assert IdSet(ids) == IdSet(ids[..n]) + {ids[n]};
    }
  }

  /** After LockForOrder has accepted distinct ids, the delete removes exactly
      the requested rows and its count check passes. */
  lemma LockedRowsDelete(db: Db, user: Id, ids: seq<Id>)
    requires DistinctIds(ids) && LockCart(db, user, ids).Ok?
    ensures OwnRows(db, user, ids) == IdSet(ids) && |OwnRows(db, user, ids)| == |ids|
  {
    DistinctSetSize(ids);
    assert OwnRows(db, user, ids) == IdSet(ids);
  }
}
