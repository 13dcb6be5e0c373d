/** balance.go and repository.go of the payment package, statement by statement. */
module PaymentRepository {
  import opened Base
  import opened EventKeys
  import opened Tables
  import opened Store

  /** SELECT ... FOR UPDATE on the buyer row. */
  method LockUser(tx: Database, user: Id) returns (r: Result<(), Error>)
    ensures r == if user in tx.users then Ok(()) else Err(UserNotFound)
  {
    if user !in tx.users {
      return Err(UserNotFound);
    }
    return Ok(());
  }

  /** The conditional balance update. On a missing row the unguarded form matches
      nothing and reports a zero balance; the guarded form reports a miss. */
  method AdjustBalance(tx: Database, user: Id, delta: Int64) returns (r: Result<int, Error>)
    modifies tx`users
    ensures user in old(tx.users) ==> r == Adjusted(old(tx.users[user]), delta)
    ensures user !in old(tx.users) ==> r == if delta >= 0 then Ok(0) else Err(InsufficientPoints)
    ensures tx.users == if r.Ok? && user in old(tx.users) then old(tx.users)[user := r.value] else old(tx.users)
  {
    if delta >= 0 {
      if user !in tx.users {
        return Ok(0);
      }
    } else {
      var needed: int := Wrap64(0 - delta);
      if user !in tx.users || tx.users[user] < needed {
        return Err(InsufficientPoints);
      }
    }
    var newBalance := tx.users[user] + delta;
    if newBalance > MAX64 {
      return Err(NumericOutOfRange);
    }
    if newBalance < 0 {
      return Err(CheckViolation);
    }
    tx.users := tx.users[user := newBalance];
    return Ok(newBalance);
  }

  /** INSERT of one ledger row. */
  method Create(tx: Database, row: LedgerRow) returns (r: Result<(), Error>)
    modifies tx`ledger
    ensures r == match LedgerInsertError(old(tx.ledger), row) case None => Ok(()) case Some(e) => Err(e)
    ensures tx.ledger == if r.Ok? then old(tx.ledger) + [row] else old(tx.ledger)
  {
    var error := LedgerInsertError(tx.ledger, row);
    if error.Some? {
      return Err(error.value);
    }
    tx.ledger := tx.ledger + [row];
    return Ok(());
  }

  /** SELECT by event key, with or without the row lock. */
  method FindByEventKey(tx: Database, key: EventKey) returns (r: Option<LedgerRow>)
    ensures r.None? ==> FindKey(tx.ledger, key).None?
    ensures r.Some? ==> FindKey(tx.ledger, key).Some? && r.value == tx.ledger[FindKey(tx.ledger, key).value]
  {
    var i := 0;
    while i < |tx.ledger|
      invariant 0 <= i <= |tx.ledger|
      invariant FindKey(tx.ledger[..i], key).None?
    {
      assert tx.ledger[..i + 1][..i] == tx.ledger[..i];
      if tx.ledger[i].key == key {
        FindKeyPrefix(tx.ledger, i + 1, key);
        return Some(tx.ledger[i]);
      }
      i := i + 1;
    }
    assert tx.ledger[..i] == tx.ledger;
    return None;
  }

  /** The first match of a prefix is the first match of the whole. */
  lemma {:induction false} FindKeyPrefix(ledger: seq<LedgerRow>, n: nat, key: EventKey)
    requires n <= |ledger| && FindKey(ledger[..n], key).Some?
    ensures FindKey(ledger, key) == FindKey(ledger[..n], key)
    decreases |ledger| - n
  {
    if n == |ledger| {
      assert ledger[..n] == ledger;
    } else {
      assert ledger[..n + 1][..n] == ledger[..n];
      FindKeyPrefix(ledger, n + 1, key);
    }
  }
}
