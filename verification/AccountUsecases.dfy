/** AdjustPointsUsecase (adjust.go) and the login of user/service.go, statement
    by statement. */
module AccountUsecases {
  import opened Base
  import opened EventKeys
  import opened Tables
  import opened Accounts
  import opened Store
  import PaymentRepository

  // ---------- administrator adjustment ----------

  /** The transaction body of an adjustment. */
  method AttemptAdjust(tx: Database, admin: Id, key: string, a: Adjustment) returns (r: Result<LedgerRow, Error>)
    requires AdjustCallError(admin, key, a).None?
    modifies tx
    ensures r == Adjust(old(tx.View()), admin, key, a).1
    ensures r.Ok? ==> tx.View() == Adjust(old(tx.View()), admin, key, a).0
  {
    var existing := PaymentRepository.FindByEventKey(tx, AdminAdjust(admin, key));
    if existing.Some? {
      if existing.value.hash != Some(ComputeAdjustHash(a)) {
        return Err(IdempotencyConflict);
      }
      return Ok(existing.value);
    }
    var locked := PaymentRepository.LockUser(tx, a.user);
    if locked.Err? {
      return Err(locked.error);
    }
    var balance := PaymentRepository.AdjustBalance(tx, a.user, a.delta);
    if balance.Err? {
      return Err(balance.error);
    }
    var row := LedgerRow(a.user, None, AdminAdjust(admin, key), Some(ComputeAdjustHash(a)),
                         a.delta, balance.value, Some(admin), Trim(a.remark));
    var posted := PaymentRepository.Create(tx, row);
    if posted.Err? {
      return Err(posted.error);
    }
    return Ok(row);
  }

  /** After a lost insert: the stored row, or the conflict, or the error itself. */
  method ResolveLostInsert(tx: Database, admin: Id, key: string, a: Adjustment, error: Error)
    returns (r: Result<LedgerRow, Error>)
    ensures match FindKey(tx.ledger, AdminAdjust(admin, key))
            case None => r == Err(error)
            case Some(i) => r == ReplayAdjustment(tx.ledger[i], a)
  {
    var existing := PaymentRepository.FindByEventKey(tx, AdminAdjust(admin, key));
    if existing.None? {
      return Err(error);
    }
    if existing.value.hash != Some(ComputeAdjustHash(a)) {
      return Err(IdempotencyConflict);
    }
    return Ok(existing.value);
  }

  lemma AdjustAlone(db: Db, admin: Id, key: string, a: Adjustment)
    requires Adjust(db, admin, key, a).1.Err?
    ensures Adjust(db, admin, key, a).0 == db
    ensures Adjust(db, admin, key, a).1.error == UniqueViolation ==> FindKey(db.ledger, AdminAdjust(admin, key)).None?
  {
  }

  /** AdjustPointsUsecase.Execute. */
  method ExecuteAdjust(db: Database, admin: Id, key: string, a: Adjustment) returns (r: Result<LedgerRow, Error>)
    modifies db
    ensures (db.View(), r) == Adjust(old(db.View()), admin, key, a)
  {
    if !ValidIdempotencyKey(key) {
      return Err(InvalidIdempotencyKey);
    }
    if !ValidAdjustment(a) {
      return Err(InvalidAdjustment);
    }
    if admin == ZERO_ID {
      return Err(InvalidAdjustment);
    }
    var begun := db.View();
    r := AttemptAdjust(db, admin, key, a);
    if r.Err? {
      AdjustAlone(begun, admin, key, a);
      db.Rollback(begun);
      if r.error == UniqueViolation {
        r := ResolveLostInsert(db, admin, key, a, UniqueViolation);
      }
    }
  }

  // ---------- login ----------

  /** A users row as the login holds it: id and the balance it has read. */
  datatype UserRecord = UserRecord(id: Id, balance: int)

  /** INSERT ... ON CONFLICT DO NOTHING, then the re-read when nothing was inserted. */
  method InsertOrRead(tx: Database, openid: string, newId: Id) returns (r: Result<UserRecord, Error>)
    requires forall o :: o in tx.openids ==> tx.openids[o] in tx.users
    modifies tx`openids, tx`users
    ensures match UpsertUser(old(tx.View()), openid, newId)
            case Err(e) => r == Err(e) && tx.View() == old(tx.View())
            case Ok((after, user)) =>
              tx.View() == after && user in after.users && r == Ok(UserRecord(user, after.users[user]))
  {
    if openid in tx.openids {
      var id := tx.openids[openid];
      return Ok(UserRecord(id, tx.users[id]));
    }
    if |openid| > 64 {
      return Err(ValueTooLong);
    }
    if newId in tx.users {
      return Err(RowNotFound);
    }
    tx.openids := tx.openids[openid := newId];
    tx.users := tx.users[newId := 0];
    return Ok(UserRecord(newId, 0));
  }

  /** awardSignupBonus: true when the ledger row was really inserted. */
  method AwardSignupBonus(tx: Database, user: Id, bonus: Int64) returns (created: bool)
    requires user in tx.users && bonus > 0
    modifies tx`ledger, tx`users
    ensures tx.View() == AwardBonus(old(tx.View()), user, bonus)
    ensures created <==> FindKey(old(tx.ledger), Signup(user)).None?
  {
    var existing := PaymentRepository.FindByEventKey(tx, Signup(user));
    if existing.Some? {
      return false;
    }
    tx.ledger := tx.ledger + [BonusRow(user, bonus)];
    tx.users := tx.users[user := bonus];
    return true;
  }

  /** Service.UpsertByOpenID. Every openid names an existing buyer. */
  method Upsert(db: Database, openid: string, bonus: Int64, newId: Id) returns (r: Result<Login, Error>)
    requires forall o :: o in db.openids ==> db.openids[o] in db.users
    modifies db
    ensures (db.View(), r) == UpsertByOpenID(old(db.View()), openid, bonus, newId)
  {
    if Trim(openid) == "" {
      return Err(InvalidLogin);
    }
    if bonus < 0 {
      return Err(InvalidLogin);
    }
    var user := InsertOrRead(db, Trim(openid), newId);
    if user.Err? {
      return Err(user.error);
    }
    var record := user.value;
    if record.balance == 0 && bonus > 0 && record.id != ZERO_ID {
      var created := AwardSignupBonus(db, record.id, bonus);
      if created {
        record := record.(balance := bonus);
      }
    }
    return Ok(Login(record.id, db.users[record.id]));
  }
}
