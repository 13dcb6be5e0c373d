/** The login reads the balance without a lock and later overwrites it with the
    bonus. What keeps that sound is not the read but the signup row. */
module LoginRace {
  import opened Base
  import opened EventKeys
  import opened Tables
  import opened Checkout
  import opened Lifecycle
  import opened Accounts
  import opened Runs
  import opened Invariants
  import opened Preservation
  import opened Replay

  /** The rest of a login of an existing buyer that has read balance `seen`. */
  function FinishLogin(db: Db, user: Id, seen: int, bonus: Int64): Db {
    if seen == 0 && bonus > 0 && user != ZERO_ID then AwardBonus(db, user, bonus) else db
  }

  /** Finishing at once is the login as one step. */
  lemma FinishAtOnce(db: Db, openid: string, bonus: Int64, newId: Id)
    requires Trim(openid) != "" && bonus >= 0 && Trim(openid) in db.openids && db.openids[Trim(openid)] in db.users
    ensures var user := db.openids[Trim(openid)];
            UpsertByOpenID(db, openid, bonus, newId).0 == FinishLogin(db, user, db.users[user], bonus)
  {
  }

  ghost predicate SignupPosted(users: map<Id, int>, ledger: seq<LedgerRow>) {
    forall u :: u in users && u != ZERO_ID ==> FindKey(ledger, Signup(u)).Some?
  }

  /** Every login of the run offers the same bonus. */
  predicate BonusIs(steps: seq<Step>, bonus: Int64) {
    forall k :: 0 <= k < |steps| && steps[k].DoLogin? ==> steps[k].bonus == bonus
  }

  lemma {:induction false} RowStays(a: seq<LedgerRow>, b: seq<LedgerRow>, key: EventKey)
    requires a <= b && FindKey(a, key).Some?
    ensures FindKey(b, key).Some?
  {
    assert b[FindKey(a, key).value].key == key;
  }

  lemma OrderStepKeepsBuyers(db: Db, s: Step)
    requires Inv(db) && IsOrderStep(s)
    ensures Exec(db, s).users.Keys == db.users.Keys
  {
    match s
    case DoCreate(user, token, req, newId) => CreateKeepsBuyers(db, user, token, req, newId);
    case DoMove(c) => assert Move(db, c).0.users == db.users;
    case DoApprove(admin, id) => ApproveKeepsBuyers(db, admin, id);
  }

  lemma AdjustKeepsBuyers(db: Db, admin: Id, key: string, a: Adjustment)
    requires Inv(db)
    ensures Adjust(db, admin, key, a).0.users.Keys == db.users.Keys
  {
    if Adjust(db, admin, key, a).0 != db {
      AdjustFacts(db, admin, key, a);
    }
  }

  lemma {:induction false} BuyersStay(db: Db, s: Step)
    requires Inv(db) && !s.DoLogin?
    ensures Exec(db, s).users.Keys == db.users.Keys
  {
    if IsOrderStep(s) {
      OrderStepKeepsBuyers(db, s);
    } else if s.DoAdjust? {
      AdjustKeepsBuyers(db, s.admin, s.key, s.adjustment);
    } else if IsAddressStep(s) {
      AddressFrame(db, s);
    } else if IsCartStep(s) {
      CartFrame(db, s);
    } else {
      ProductFrame(db, s);
    }
  }

  lemma CreateKeepsBuyers(db: Db, user: Id, token: string, req: OrderRequest, newId: Id)
    requires Inv(db)
    ensures CreateOrder(db, user, token, req, newId).0.users.Keys == db.users.Keys
  {
    if CreateOrder(db, user, token, req, newId).0 != db {
      CheckoutFacts(db, user, token, req, newId);
    }
  }

  lemma ApproveKeepsBuyers(db: Db, admin: Id, id: Id)
    requires Inv(db)
    ensures Approve(db, admin, id).0.users.Keys == db.users.Keys
  {
    if Approve(db, admin, id).0 != db {
      var i := LockOrder(db, None, id).value;
      assert OrderOk(db.orders[i]);
      ApproveFacts(db, db.orders[i], admin);
    }
  }

  lemma LoginPosts(db: Db, openid: string, bonus: Int64, newId: Id)
    requires Inv(db) && SignupPosted(db.users, db.ledger) && bonus > 0
    ensures var after := UpsertByOpenID(db, openid, bonus, newId).0;
            SignupPosted(after.users, after.ledger)
  {
    var after := UpsertByOpenID(db, openid, bonus, newId).0;
    if after != db {
      var (db1, user) := UpsertUser(db, Trim(openid), newId).value;
      UpsertKeeps(db, Trim(openid), newId);
      AwardFrame(db1, user, bonus);
      forall u | u in after.users && u != ZERO_ID ensures FindKey(after.ledger, Signup(u)).Some? {
        if u != user || u in db.users {
          RowStays(db.ledger, after.ledger, Signup(u));
        } else {
          assert FindKey(db1.ledger, Signup(u)).Some? || after.ledger == db1.ledger + [BonusRow(u, bonus)];
          if FindKey(db1.ledger, Signup(u)).None? {
            FindKeyAppend(db1.ledger, BonusRow(u, bonus), Signup(u));
          }
        }
      }
    }
  }

  lemma {:induction false} StepPosts(db: Db, s: Step, bonus: Int64)
    requires Inv(db) && SignupPosted(db.users, db.ledger) && bonus > 0 && (s.DoLogin? ==> s.bonus == bonus)
    ensures SignupPosted(Exec(db, s).users, Exec(db, s).ledger)
  {
    if s.DoLogin? {
      LoginPosts(db, s.openid, bonus, s.newId);
    } else {
      BuyersStay(db, s);
      LedgerGrows(db, s);
      forall u | u in Exec(db, s).users && u != ZERO_ID ensures FindKey(Exec(db, s).ledger, Signup(u)).Some? {
        RowStays(db.ledger, Exec(db, s).ledger, Signup(u));
      }
    }
  }

  lemma {:induction false} RunPosts(db: Db, steps: seq<Step>, bonus: Int64)
    requires Inv(db) && SignupPosted(db.users, db.ledger) && bonus > 0 && BonusIs(steps, bonus)
    ensures SignupPosted(Run(db, steps).users, Run(db, steps).ledger)
  {
    if steps != [] {
      var n := |steps| - 1;
      RunPosts(db, steps[..n], bonus);
      RunKeeps(db, steps[..n]);
      StepPosts(Run(db, steps[..n]), steps[n], bonus);
    }
  }

  /** With one bonus for the whole run, a login that finishes on a stale balance,
      however much happened since it read it, changes nothing. */
  lemma StaleLoginIsHarmless(steps: seq<Step>, meanwhile: seq<Step>, bonus: Int64, user: Id)
    requires BonusIs(steps + meanwhile, bonus) && user in Run(EMPTY_DB, steps).users
    ensures var seen := Run(EMPTY_DB, steps).users[user];
            var db := Run(EMPTY_DB, steps + meanwhile);
            FinishLogin(db, user, seen, bonus) == db
  {
    EmptyDbIsGood();
    RunConcat(EMPTY_DB, steps, meanwhile);
    if bonus > 0 && user != ZERO_ID {
      assert BonusIs(steps, bonus) by {
        assert forall k :: 0 <= k < |steps| ==> (steps + meanwhile)[k] == steps[k];
      }
      assert BonusIs(meanwhile, bonus) by {
        assert forall k :: 0 <= k < |meanwhile| ==> (steps + meanwhile)[|steps| + k] == meanwhile[k];
      }
      RunPosts(EMPTY_DB, steps, bonus);
      LedgerAppendOnly(Run(EMPTY_DB, steps), meanwhile);
      RowStays(Run(EMPTY_DB, steps).ledger, Run(EMPTY_DB, steps + meanwhile).ledger, Signup(user));
    }
  }

  /** Without that, the overwrite is sound exactly when the row exists already or
      the balance is still zero: points earned since the read would be lost. */
  lemma OverwriteSoundExactly(db: Db, user: Id, bonus: Int64)
    requires BalancesOk(db.users, db.ledger) && user in db.users && bonus > 0
    ensures var after := AwardBonus(db, user, bonus);
            user in after.users
            && (BalanceOk(after.users, after.ledger, user) <==>
                  FindKey(db.ledger, Signup(user)).Some? || db.users[user] == 0)
  {
    assert BalanceOk(db.users, db.ledger, user);
    SumDeltasAppend(db.ledger, BonusRow(user, bonus), user);
  }

  /** The input that loses points: a first login without a bonus, fifty points from
      an administrator while the second login is under way, and that login's bonus
      of a hundred overwrites them. One constant bonus is needed. */
  lemma RaisedBonusLosesPoints()
    ensures var before := Run(EMPTY_DB, [DoLogin("o", 0, 1)]);
            var meanwhile := Run(before, [DoAdjust(9, "k", Adjustment(1, 50, "r"))]);
            var after := FinishLogin(meanwhile, 1, 0, 100);
            && 1 in before.users && before.users[1] == 0
            && 1 in after.users && after.users[1] == 100 && SumDeltas(after.ledger, 1) == 150
  {
    OneCharacter("o");
    OneCharacter("k");
    OneCharacter("r");
    var before := Db(map["o" := 1], map[1 := 0], map[], map[], map[], [], []);
    RunOne(EMPTY_DB, [], DoLogin("o", 0, 1));
    assert [] + [DoLogin("o", 0, 1)] == [DoLogin("o", 0, 1)];
    assert Run(EMPTY_DB, [DoLogin("o", 0, 1)]) == before;
    var step := DoAdjust(9, "k", Adjustment(1, 50, "r"));
    var row := LedgerRow(1, None, AdminAdjust(9, "k"), Some(AdjustHash(1, 50, "r")), 50, 50, Some(9), "r");
    RunOne(before, [], step);
    assert [] + [step] == [step];
    KeyFitsExactly(AdminAdjust(9, "k"));
    assert Exec(before, step) == PostRow(before, row);
    SumDeltasAppend([], row, 1);
    SumDeltasAppend([row], BonusRow(1, 100), 1);
    FindKeyAppend([], row, Signup(1));
  }
}
