/** Buyers' points outside checkout: the administrator adjustment (adjust.go)
    and the insert-or-read login with its signup bonus (user/service.go). */
module Accounts {
  import opened Base
  import opened EventKeys
  import opened Tables

  // ---------- administrator adjustment ----------

  datatype Adjustment = Adjustment(user: Id, delta: Int64, remark: string)

  predicate ValidAdjustment(a: Adjustment) {
    && a.user != ZERO_ID
    && a.delta != 0
    && Trim(a.remark) != ""
    && |Trim(a.remark)| <= 255
  }

  function ComputeAdjustHash(a: Adjustment): AdjustHash {
    AdjustHash(a.user, a.delta, Trim(a.remark))
  }

  function AdjustCallError(admin: Id, key: string, a: Adjustment): Option<Error> {
    if !ValidIdempotencyKey(key) then Some(InvalidIdempotencyKey)
    else if !ValidAdjustment(a) || admin == ZERO_ID then Some(InvalidAdjustment)
    else None
  }

  /** A replay of a committed key: the stored row, or a conflict. */
  function ReplayAdjustment(row: LedgerRow, a: Adjustment): Result<LedgerRow, Error> {
    if row.hash == Some(ComputeAdjustHash(a)) then Ok(row) else Err(IdempotencyConflict)
  }

  /** Balance update and ledger row over the locked user row. */
  function BuildAdjustment(balance: int, admin: Id, key: string, a: Adjustment): Result<LedgerRow, Error> {
    var newBalance :- Adjusted(balance, a.delta);
    Ok(LedgerRow(a.user, None, AdminAdjust(admin, key), Some(ComputeAdjustHash(a)),
                 a.delta, newBalance, Some(admin), Trim(a.remark)))
  }

  function PostRow(db: Db, row: LedgerRow): Db {
    db.(users := db.users[row.user := row.balanceAfter], ledger := db.ledger + [row])
  }

  function AdjustFresh(db: Db, admin: Id, key: string, a: Adjustment): Result<LedgerRow, Error> {
    if a.user !in db.users then Err(UserNotFound)
    else
      var row :- BuildAdjustment(db.users[a.user], admin, key, a);
      if LedgerInsertError(db.ledger, row).Some? then Err(LedgerInsertError(db.ledger, row).value)
      else Ok(row)
  }

  /** AdjustPointsUsecase.Execute. */
  function Adjust(db: Db, admin: Id, key: string, a: Adjustment): (Db, Result<LedgerRow, Error>) {
    if AdjustCallError(admin, key, a).Some? then (db, Err(AdjustCallError(admin, key, a).value))
    else
      var found := FindKey(db.ledger, AdminAdjust(admin, key));
      if found.Some? then (db, ReplayAdjustment(db.ledger[found.value], a))
      else
        match AdjustFresh(db, admin, key, a)
        case Err(e) => (db, Err(e))
        case Ok(row) => (PostRow(db, row), Ok(row))
  }

  // ---------- login ----------

  datatype Login = Login(user: Id, balance: int)

  /** INSERT ... ON CONFLICT DO NOTHING on users, then the re-read by openid. */
  function UpsertUser(db: Db, openid: string, newId: Id): Result<(Db, Id), Error> {
    if openid in db.openids then Ok((db, db.openids[openid]))
    else if |openid| > 64 then Err(ValueTooLong)
    else if newId in db.users then Err(RowNotFound)
    else Ok((db.(openids := db.openids[openid := newId], users := db.users[newId := 0]), newId))
  }

  function BonusRow(user: Id, bonus: Int64): LedgerRow {
    LedgerRow(user, None, Signup(user), None, bonus, bonus, None, "")
  }

  /** INSERT ... ON CONFLICT DO NOTHING on the ledger; the balance is overwritten
      only when the row was inserted. */
  function AwardBonus(db: Db, user: Id, bonus: Int64): Db {
    if FindKey(db.ledger, Signup(user)).Some? then db else PostRow(db, BonusRow(user, bonus))
  }

  /** Service.UpsertByOpenID. */
  function UpsertByOpenID(db: Db, openid: string, bonus: Int64, newId: Id): (Db, Result<Login, Error>) {
    if Trim(openid) == "" || bonus < 0 then (db, Err(InvalidLogin))
    else
      match UpsertUser(db, Trim(openid), newId)
      case Err(e) => (db, Err(e))
      case Ok((db1, user)) =>
        if user !in db1.users then (db, Err(RowNotFound))
        else
          var db2 := if db1.users[user] == 0 && bonus > 0 && user != ZERO_ID then AwardBonus(db1, user, bonus) else db1;
          (db2, Ok(Login(user, db2.users[user])))
  }
}
