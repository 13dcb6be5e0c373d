/** Adjustments and logins written out in full: when each call succeeds, everything
    it then writes, and the error of every refusal. */
module AccountContracts {
  import opened Base
  import opened EventKeys
  import opened Tables
  import opened Accounts
  import opened Runs
  import opened Invariants

  // ---------- administrator adjustment ----------

  lemma WellFormedExactly(admin: Id, key: string, a: Adjustment)
    ensures AdjustCallError(admin, key, a) ==
            if ByteLen(key) < 1 || ByteLen(key) > 64 || Trim(key) == "" then Some(InvalidIdempotencyKey)
            else if admin == ZERO_ID || a.user == ZERO_ID || a.delta == 0 || Trim(a.remark) == ""
                    || |Trim(a.remark)| > 255 then Some(InvalidAdjustment)
            else None
  {
  }

  /** The transaction body on an unused key. */
  lemma FreshExactly(db: Db, admin: Id, key: string, a: Adjustment)
    requires BalancesOk(db.users, db.ledger) && FindKey(db.ledger, AdminAdjust(admin, key)).None?
    requires a.delta != 0 && Trim(a.remark) != ""
    ensures AdjustFresh(db, admin, key, a) ==
            if a.user !in db.users then Err(UserNotFound)
            else if db.users[a.user] + a.delta < 0 then
              Err(if a.delta == MIN64 then CheckViolation else InsufficientPoints)
            else if db.users[a.user] + a.delta > MAX64 then Err(NumericOutOfRange)
            else if |key| > 46 then Err(ValueTooLong)
            else Ok(LedgerRow(a.user, None, AdminAdjust(admin, key),
                              Some(AdjustHash(a.user, a.delta, Trim(a.remark))), a.delta,
                              db.users[a.user] + a.delta, Some(admin), Trim(a.remark)))
  {
    KeyFitsExactly(AdminAdjust(admin, key));
    if a.user in db.users {
      assert BalanceOk(db.users, db.ledger, a.user);
      AdjustedExactly(db.users[a.user], a.delta);
    }
  }

  lemma UnusedKeyExactly(db: Db, admin: Id, key: string, a: Adjustment)
    requires FindKey(db.ledger, AdminAdjust(admin, key)).None?
    ensures Adjust(db, admin, key, a) ==
            if AdjustCallError(admin, key, a).Some? then (db, Err(AdjustCallError(admin, key, a).value))
            else if AdjustFresh(db, admin, key, a).Err? then (db, Err(AdjustFresh(db, admin, key, a).error))
            else
              var row := AdjustFresh(db, admin, key, a).value;
              (db.(users := db.users[row.user := row.balanceAfter], ledger := db.ledger + [row]), Ok(row))
  {
  }

  /** An adjustment under an unused key succeeds exactly when the key is well formed
      and short enough for the event key's column, both ids are set, there is a delta
      and a remark, the buyer exists and the new balance is a non-negative int64. */
  lemma AdjustSucceedsExactly(db: Db, admin: Id, key: string, a: Adjustment)
    requires BalancesOk(db.users, db.ledger) && FindKey(db.ledger, AdminAdjust(admin, key)).None?
    ensures Adjust(db, admin, key, a).1.Ok? <==>
            && 1 <= ByteLen(key) <= 64 && Trim(key) != "" && |key| <= 46
            && admin != ZERO_ID && a.user != ZERO_ID && a.delta != 0 && 1 <= |Trim(a.remark)| <= 255
            && a.user in db.users && 0 <= db.users[a.user] + a.delta <= MAX64
  {
    UnusedKeyExactly(db, admin, key, a);
    WellFormedExactly(admin, key, a);
    if a.delta != 0 && Trim(a.remark) != "" {
      FreshExactly(db, admin, key, a);
    }
  }

  /** Everything it then writes: the balance and one ledger row. */
  lemma AdjustEffect(db: Db, admin: Id, key: string, a: Adjustment)
    requires BalancesOk(db.users, db.ledger) && FindKey(db.ledger, AdminAdjust(admin, key)).None?
    requires Adjust(db, admin, key, a).1.Ok?
    ensures a.user in db.users
    ensures var row := LedgerRow(a.user, None, AdminAdjust(admin, key),
                                 Some(AdjustHash(a.user, a.delta, Trim(a.remark))), a.delta,
                                 db.users[a.user] + a.delta, Some(admin), Trim(a.remark));
            Adjust(db, admin, key, a) ==
            (db.(users := db.users[a.user := db.users[a.user] + a.delta], ledger := db.ledger + [row]), Ok(row))
  {
    AdjustSucceedsExactly(db, admin, key, a);
    UnusedKeyExactly(db, admin, key, a);
    FreshExactly(db, admin, key, a);
  }

  /** The error of every refusal under an unused key. */
  lemma AdjustRefusals(db: Db, admin: Id, key: string, a: Adjustment)
    requires BalancesOk(db.users, db.ledger) && FindKey(db.ledger, AdminAdjust(admin, key)).None?
    requires Adjust(db, admin, key, a).1.Err?
    ensures Adjust(db, admin, key, a).0 == db
    ensures Adjust(db, admin, key, a).1.error ==
            if ByteLen(key) < 1 || ByteLen(key) > 64 || Trim(key) == "" then InvalidIdempotencyKey
            else if admin == ZERO_ID || a.user == ZERO_ID || a.delta == 0 || Trim(a.remark) == ""
                    || |Trim(a.remark)| > 255 then InvalidAdjustment
            else if a.user !in db.users then UserNotFound
            else if db.users[a.user] + a.delta < 0 then
              if a.delta == MIN64 then CheckViolation else InsufficientPoints
            else if db.users[a.user] + a.delta > MAX64 then NumericOutOfRange
            else ValueTooLong
  {
    UnusedKeyExactly(db, admin, key, a);
    WellFormedExactly(admin, key, a);
    if a.delta != 0 && Trim(a.remark) != "" {
      FreshExactly(db, admin, key, a);
    }
  }

  /** Under a used key nothing is ever written, and the stored row is the answer
      exactly for the same buyer, delta and trimmed remark. */
  lemma AdjustReplays(db: Db, admin: Id, key: string, a: Adjustment)
    requires FindKey(db.ledger, AdminAdjust(admin, key)).Some?
    ensures var row := db.ledger[FindKey(db.ledger, AdminAdjust(admin, key)).value];
            Adjust(db, admin, key, a) ==
            (db, if ByteLen(key) < 1 || ByteLen(key) > 64 || Trim(key) == "" then Err(InvalidIdempotencyKey)
                 else if admin == ZERO_ID || a.user == ZERO_ID || a.delta == 0 || Trim(a.remark) == ""
                         || |Trim(a.remark)| > 255 then Err(InvalidAdjustment)
                 else if row.hash == Some(AdjustHash(a.user, a.delta, Trim(a.remark))) then Ok(row)
                 else Err(IdempotencyConflict))
  {
  }

  /** An administrator can take points away: fifty of a hundred. */
  lemma DeductionHappens()
    ensures var db := Db(map["o" := 1], map[1 := 100], map[], map[], map[], [],
                         [LedgerRow(1, None, Signup(1), None, 100, 100, None, "")]);
            && LedgerOk(db) && Adjust(db, 9, "k", Adjustment(1, -50, "r")).1.Ok?
            && Adjust(db, 9, "k", Adjustment(1, -50, "r")).0.users == map[1 := 50]
  {
    var db := Db(map["o" := 1], map[1 := 100], map[], map[], map[], [],
                 [LedgerRow(1, None, Signup(1), None, 100, 100, None, "")]);
    var ledger := db.ledger;
    assert ledger[..1] == ledger && ledger[..0] == [];
    assert SumDeltas([], 1) == 0;
    assert SumDeltas(ledger, 1) == 100;
    assert RowOk(db.users, ledger, 0);
    assert BalanceOk(db.users, ledger, 1);
    OneCharacter("k");
    OneCharacter("r");
    AdjustSucceedsExactly(db, 9, "k", Adjustment(1, -50, "r"));
    AdjustEffect(db, 9, "k", Adjustment(1, -50, "r"));
    assert db.users[1 := 50] == map[1 := 50];
  }

  // ---------- login ----------

  /** A login of a known buyer: the bonus goes to a zero balance without a signup row,
      once there is a bonus; otherwise nothing changes. The answer is the balance. */
  lemma KnownLoginExactly(db: Db, openid: string, bonus: Int64, newId: Id)
    requires Trim(openid) in db.openids && db.openids[Trim(openid)] in db.users
    ensures var user := db.openids[Trim(openid)];
            UpsertByOpenID(db, openid, bonus, newId) ==
            if Trim(openid) == "" || bonus < 0 then (db, Err(InvalidLogin))
            else if db.users[user] == 0 && bonus > 0 && user != ZERO_ID && FindKey(db.ledger, Signup(user)).None? then
              (db.(users := db.users[user := bonus],
                   ledger := db.ledger + [LedgerRow(user, None, Signup(user), None, bonus, bonus, None, "")]),
               Ok(Login(user, bonus)))
            else (db, Ok(Login(user, db.users[user])))
  {
  }

  /** A login under a new openid: the buyer row, and the bonus with its signup row
      when there is one. */
  lemma NewLoginExactly(db: Db, openid: string, bonus: Int64, newId: Id)
    requires Trim(openid) !in db.openids && FindKey(db.ledger, Signup(newId)).None?
    ensures UpsertByOpenID(db, openid, bonus, newId) ==
            if Trim(openid) == "" || bonus < 0 then (db, Err(InvalidLogin))
            else if |Trim(openid)| > 64 then (db, Err(ValueTooLong))
            else if newId in db.users then (db, Err(RowNotFound))
            else
              var given := if newId != ZERO_ID then bonus else 0;
              (db.(openids := db.openids[Trim(openid) := newId], users := db.users[newId := given],
                   ledger := db.ledger + if given > 0
                     then [LedgerRow(newId, None, Signup(newId), None, bonus, bonus, None, "")] else []),
               Ok(Login(newId, given)))
  {
    assert db.users[newId := 0][newId := bonus] == db.users[newId := bonus];
    assert db.ledger + [] == db.ledger;
  }

  /** The steps of a run are these calls. */
  lemma AccountStepsAreCalls(db: Db, admin: Id, key: string, a: Adjustment, openid: string, bonus: Int64, newId: Id)
    ensures Exec(db, DoAdjust(admin, key, a)) == Adjust(db, admin, key, a).0
    ensures Exec(db, DoLogin(openid, bonus, newId)) == UpsertByOpenID(db, openid, bonus, newId).0
  {
  }
}
