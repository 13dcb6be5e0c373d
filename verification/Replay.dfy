/** Idempotency over runs: when a repeated call is recognised as the same call,
    and what it may and may not do. */
module Replay {
  import opened Base
  import opened EventKeys
  import opened Sorting
  import opened Tables
  import opened Checkout
  import opened Lifecycle
  import opened Accounts
  import opened Runs
  import opened Invariants
  import opened Preservation
  import opened History

  // ---------- the hash is canonical ----------

  /** Whatever the unstable sorts make of whatever order the database returns
      the items in, the hash is the same, because the products are distinct. */
  lemma HashCanonical(cartIds: seq<Id>, lines: seq<Line>, address: Id, addr: Address,
                      otherIds: seq<Id>, otherLines: seq<Line>, sortedIds: seq<Id>, sortedLines: seq<Line>)
    requires DistinctIds(cartIds) && DistinctLines(lines)
    requires multiset(otherIds) == multiset(cartIds) && multiset(otherLines) == multiset(lines)
    requires IsSortOf(IdKey, otherIds, sortedIds) && IsSortOf(LineKey, otherLines, sortedLines)
    ensures RequestHash(sortedIds, sortedLines, address, addr.version, addr.snap)
            == ComputeHash(cartIds, lines, address, addr)
  {
    SortByIsSort(IdKey, cartIds);
    SortByIsSort(LineKey, lines);
    DistinctPermutes(IdKey, cartIds, sortedIds);
    DistinctPermutes(LineKey, lines, sortedLines);
    SortCanonical(IdKey, sortedIds, SortIds(cartIds));
    SortCanonical(LineKey, sortedLines, SortLines(lines));
  }

  lemma {:induction false} DistinctAsMultiset(s: seq<Id>, t: seq<Id>)
    requires DistinctIds(s) && DistinctIds(t)
    requires forall x :: x in s <==> x in t
    ensures multiset(s) == multiset(t)
  {
    forall x ensures multiset(s)[x] == multiset(t)[x] {
      DistinctCount(s, x);
      DistinctCount(t, x);
    }
  }

  lemma DistinctCount(s: seq<Id>, x: Id)
    requires DistinctIds(s)
    ensures multiset(s)[x] == if x in s then 1 else 0
  {
    if x in s {
      var a :| 0 <= a < |s| && s[a] == x;
      forall k | 0 <= k < |s| && k != a ensures s[k] != s[a] {
        assert IdKey(s[k]) != IdKey(s[a]);
      }
      OnceInMultiset(s, a);
    }
  }

  /** Two requests sort to the same id list exactly when they name the same rows. */
  lemma SameIdsSameSort(a: seq<Id>, b: seq<Id>)
    requires DistinctIds(a) && DistinctIds(b)
    ensures SortIds(a) == SortIds(b) <==> forall x :: x in a <==> x in b
  {
    SortIdsFacts(a);
    SortIdsFacts(b);
    if forall x :: x in a <==> x in b {
      DistinctAsMultiset(a, b);
      SortCanonical(IdKey, SortIds(a), SortIds(b));
    }
  }

  /** A replay is accepted exactly when it names the rows the order consumed, as
      a set, and the same address at the same version and content. */
  lemma ReplayAcceptedExactly(db: Db, user: Id, req: OrderRequest, o: Order, items: seq<OrderItem>)
    requires OrderOk(o) && ValidRequest(req)
    requires multiset(LinesOfItems(items)) == multiset(LinesOfItems(o.items))
    ensures ResolveReplay(db, user, req, o, items) ==
            if user == ZERO_ID || req.address !in db.addresses || db.addresses[req.address].user != user then
              Err(AddressNotFound)
            else if (forall x :: x in req.cartIds <==> x in o.hash.cartIds)
                    && req.address == o.hash.address
                    && db.addresses[req.address].version == o.hash.version
                    && db.addresses[req.address].snap == o.hash.snap
            then Ok(o) else Err(IdempotencyConflict)
  {
    if OwnsAddress(db, user, req.address) {
      var addr := db.addresses[req.address];
      SortByIsSort(LineKey, LinesOfItems(items));
      SortByIsSort(IdKey, o.hash.cartIds);
      HashCanonical(o.hash.cartIds, LinesOfItems(o.items), req.address, addr,
                    o.hash.cartIds, LinesOfItems(items), SortIds(o.hash.cartIds), SortLines(LinesOfItems(items)));
      assert SortLines(LinesOfItems(items)) == o.hash.lines;
      SameIdsSameSort(req.cartIds, o.hash.cartIds);
    }
  }

  // ---------- address versions ----------

  ghost predicate NeverCreated(steps: seq<Step>, a: Id) {
    forall k :: 0 <= k < |steps| ==> !(steps[k].DoCreateAddress? && steps[k].newId == a)
  }

  lemma CreateOnAddress(db: Db, s: Step, a: Id)
    requires s.DoCreateAddress? && s.newId != a
    ensures a in Exec(db, s).addresses ==>
              && a in db.addresses
              && Exec(db, s).addresses[a].user == db.addresses[a].user
              && Exec(db, s).addresses[a].version >= db.addresses[a].version
              && (Exec(db, s).addresses[a].version == db.addresses[a].version ==>
                    Exec(db, s).addresses[a].snap == db.addresses[a].snap)
  {
  }

  lemma UpdateOnAddress(db: Db, s: Step, a: Id)
    requires s.DoUpdateAddress?
    ensures a in Exec(db, s).addresses ==>
              && a in db.addresses
              && Exec(db, s).addresses[a].user == db.addresses[a].user
              && Exec(db, s).addresses[a].version >= db.addresses[a].version
              && (Exec(db, s).addresses[a].version == db.addresses[a].version ==>
                    Exec(db, s).addresses[a].snap == db.addresses[a].snap)
  {
  }

  lemma DeleteOnAddress(db: Db, s: Step, a: Id)
    requires s.DoDeleteAddress?
    ensures a in Exec(db, s).addresses ==> a in db.addresses && Exec(db, s).addresses[a] == db.addresses[a]
  {
  }

  lemma OthersKeepAddresses(db: Db, s: Step)
    requires !IsAddressStep(s)
    ensures Exec(db, s).addresses == db.addresses
  {
    if IsOrderStep(s) {
      OrderStepKeepsAddresses(db, s);
    } else if IsCartStep(s) {
      CartFrame(db, s);
    } else if IsProductStep(s) {
      ProductFrame(db, s);
    } else {
      AccountFrame(db, s);
    }
  }

  /** Within one step an address that stays keeps its owner, its version never
      falls, and its content changes only with its version: clearing another
      default touches neither. */
  lemma StepOnAddress(db: Db, s: Step, a: Id)
    requires !(s.DoCreateAddress? && s.newId == a)
    ensures a in Exec(db, s).addresses ==>
              && a in db.addresses
              && Exec(db, s).addresses[a].user == db.addresses[a].user
              && Exec(db, s).addresses[a].version >= db.addresses[a].version
              && (Exec(db, s).addresses[a].version == db.addresses[a].version ==>
                    Exec(db, s).addresses[a].snap == db.addresses[a].snap)
  {
    if s.DoCreateAddress? {
      CreateOnAddress(db, s, a);
    } else if s.DoUpdateAddress? {
      UpdateOnAddress(db, s, a);
    } else if s.DoDeleteAddress? {
      DeleteOnAddress(db, s, a);
    } else {
      OthersKeepAddresses(db, s);
    }
  }

  lemma OrderStepKeepsAddresses(db: Db, s: Step)
    requires IsOrderStep(s)
    ensures Exec(db, s).addresses == db.addresses
  {
    match s
    case DoCreate(user, token, req, newId) => CreateKeepsAddresses(db, user, token, req, newId);
    case DoMove(c) =>
    case DoApprove(admin, id) =>
  }

  lemma CreateKeepsAddresses(db: Db, user: Id, token: string, req: OrderRequest, newId: Id)
    ensures CreateOrder(db, user, token, req, newId).0.addresses == db.addresses
  {
  }

  /** The version determines the content: what the request hash relies on. */
  lemma {:induction false} VersionDeterminesSnapshot(db: Db, steps: seq<Step>, a: Id)
    requires NeverCreated(steps, a)
    ensures var after := Run(db, steps);
            a in after.addresses ==>
              && a in db.addresses
              && after.addresses[a].user == db.addresses[a].user
              && after.addresses[a].version >= db.addresses[a].version
              && (after.addresses[a].version == db.addresses[a].version ==>
                    after.addresses[a].snap == db.addresses[a].snap)
  {
    if steps != [] {
      var n := |steps| - 1;
      VersionDeterminesSnapshot(db, steps[..n], a);
      StepOnAddress(Run(db, steps[..n]), steps[n], a);
    }
  }

  // ---------- checkout and its replays ----------

  /** The hash of a built order is the request's, over the locked address. */
  lemma BuiltHash(balance: int, addr: Address, rows: seq<CartItem>, prods: map<Id, Product>,
                  user: Id, token: string, req: OrderRequest, newId: Id)
    requires Build(balance, addr, rows, prods, user, token, req, newId).Ok?
    ensures var o := Build(balance, addr, rows, prods, user, token, req, newId).value.order;
            && o.user == user && o.token == token
            && o.hash.cartIds == SortIds(req.cartIds) && o.hash.address == req.address
            && o.hash.version == addr.version && o.hash.snap == addr.snap
  {
  }

  lemma {:induction false} FreshHash(db: Db, user: Id, token: string, req: OrderRequest, newId: Id)
    requires CreateFresh(db, user, token, req, newId).Ok?
    ensures var o := CreateFresh(db, user, token, req, newId).value.order;
            && OwnsAddress(db, user, req.address)
            && o.user == user && o.token == token
            && o.hash.cartIds == SortIds(req.cartIds) && o.hash.address == req.address
            && o.hash.version == db.addresses[req.address].version
            && o.hash.snap == db.addresses[req.address].snap
  {
    var rows := LockCart(db, user, req.cartIds).value;
    var prods := LockProducts(db.products, ProductIds(rows)).value;
    BuiltHash(db.users[user], db.addresses[req.address], rows, prods, user, token, req, newId);
  }

  /** What the first, successful call leaves for the replays to compare with. */
  lemma {:induction false} CreatedOrder(db: Db, user: Id, token: string, req: OrderRequest, newId: Id)
    requires Inv(db) && FindToken(db.orders, user, token).None?
    requires CreateOrder(db, user, token, req, newId).1.Ok?
    ensures var (after, r) := CreateOrder(db, user, token, req, newId);
            && ValidRequest(req) && req.address in db.addresses && db.addresses[req.address].user == user
            && after.orders == db.orders + [r.value] && after.addresses == db.addresses
            && r.value.user == user && r.value.token == token
            && r.value.hash.cartIds == SortIds(req.cartIds) && r.value.hash.address == req.address
            && r.value.hash.version == db.addresses[req.address].version
            && r.value.hash.snap == db.addresses[req.address].snap
  {
    FreshHash(db, user, token, req, newId);
  }

  /** A call whose token is the order's is answered by the replay decision. */
  lemma ReplayOf(db: Db, user: Id, token: string, req: OrderRequest, newId: Id, n: nat)
    requires OrdersUnique(db.orders) && n < |db.orders| && OrderOk(db.orders[n])
    requires db.orders[n].user == user && db.orders[n].token == token
    requires ValidIdempotencyKey(token) && ValidRequest(req) && user != ZERO_ID
    ensures var o := db.orders[n];
            CreateOrder(db, user, token, req, newId) ==
            (db, if req.address !in db.addresses || db.addresses[req.address].user != user then Err(AddressNotFound)
                 else if (forall x :: x in req.cartIds <==> x in o.hash.cartIds)
                         && req.address == o.hash.address
                         && db.addresses[req.address].version == o.hash.version
                         && db.addresses[req.address].snap == o.hash.snap
                 then Ok(o) else Err(IdempotencyConflict))
  {
    FoundAt(db.orders, n);
    ReplayAcceptedExactly(db, user, req, db.orders[n], db.orders[n].items);
  }

  /** Create, let anything at all happen, call again with the same token: no
      second set of effects, and the answer is the first order exactly when the
      request names the same cart rows and the same, unedited address. */
  lemma {:induction false} CreateThenReplay(db: Db, user: Id, token: string, req: OrderRequest, newId: Id,
                         steps: seq<Step>, again: OrderRequest, otherId: Id)
    requires Inv(db) && FindToken(db.orders, user, token).None?
    requires CreateOrder(db, user, token, req, newId).1.Ok?
    requires ValidRequest(again) && NeverCreated(steps, req.address)
    ensures var (db1, first) := CreateOrder(db, user, token, req, newId);
            var db2 := Run(db1, steps);
            var (db3, second) := CreateOrder(db2, user, token, again, otherId);
            && db3 == db2
            && (second.Ok? <==>
                  && (forall x :: x in again.cartIds <==> x in req.cartIds)
                  && again.address == req.address
                  && req.address in db2.addresses
                  && db2.addresses[req.address].version == db.addresses[req.address].version)
            && (second.Ok? ==> SameOrder(first.value, second.value))
            && (second.Err? ==>
                  second.error == if again.address in db2.addresses && db2.addresses[again.address].user == user
                                  then IdempotencyConflict else AddressNotFound)
  {
    var (db1, first) := CreateOrder(db, user, token, req, newId);
    var db2 := Run(db1, steps);
    var n := |db.orders|;
    CreatedOrder(db, user, token, req, newId);
    CreateKeeps(db, user, token, req, newId);
    OrderForever(db1, steps, n);
    RunKeeps(db1, steps);
    assert OrderOk(db2.orders[n]);
    ReplayOf(db2, user, token, again, otherId, n);
    VersionDeterminesSnapshot(db1, steps, req.address);
    SortIdsFacts(req.cartIds);
  }

  // ---------- adjustments ----------

  lemma LedgerGrows(db: Db, s: Step)
    ensures db.ledger <= Exec(db, s).ledger
  {
    match s
    case DoCreate(user, token, req, newId) => assert db.ledger <= CreateOrder(db, user, token, req, newId).0.ledger;
    case DoMove(c) => assert Move(db, c).0.ledger == db.ledger;
    case DoApprove(admin, id) => assert db.ledger <= Approve(db, admin, id).0.ledger;
    case _ =>
      if IsAddressStep(s) {
        AddressFrame(db, s);
      } else if IsCartStep(s) {
        CartFrame(db, s);
      } else if IsProductStep(s) {
        ProductFrame(db, s);
      } else {
        AccountFrame(db, s);
      }
  }

  /** The ledger is append-only over every run. */
  lemma {:induction false} LedgerAppendOnly(db: Db, steps: seq<Step>)
    ensures db.ledger <= Run(db, steps).ledger
  {
    if steps != [] {
      LedgerAppendOnly(db, steps[..|steps| - 1]);
      LedgerGrows(Run(db, steps[..|steps| - 1]), steps[|steps| - 1]);
    }
  }

  lemma AdjustAgain(db: Db, admin: Id, key: string, a: Adjustment, again: Adjustment, i: nat)
    requires AdjustCallError(admin, key, again).None? && FindKey(db.ledger, AdminAdjust(admin, key)) == Some(i)
    requires db.ledger[i].hash == Some(ComputeAdjustHash(a))
    ensures Adjust(db, admin, key, again) ==
            (db, if again.user == a.user && again.delta == a.delta && Trim(again.remark) == Trim(a.remark)
                 then Ok(db.ledger[i]) else Err(IdempotencyConflict))
  {
  }

  lemma AdjustPosts(db: Db, admin: Id, key: string, a: Adjustment)
    requires FindKey(db.ledger, AdminAdjust(admin, key)).None? && Adjust(db, admin, key, a).1.Ok?
    ensures AdjustCallError(admin, key, a).None? && AdjustFresh(db, admin, key, a).Ok?
    ensures var row := AdjustFresh(db, admin, key, a).value; Adjust(db, admin, key, a) == (PostRow(db, row), Ok(row))
  {
  }

  lemma AdjustRow(db: Db, admin: Id, key: string, a: Adjustment)
    requires BalancesOk(db.users, db.ledger) && AdjustFresh(db, admin, key, a).Ok?
    ensures var row := AdjustFresh(db, admin, key, a).value;
            && a.user in db.users && row.user == a.user && row.balanceAfter == db.users[a.user] + a.delta
            && row.key == AdminAdjust(admin, key) && row.hash == Some(ComputeAdjustHash(a))
  {
    AdjustFacts(db, admin, key, a);
  }

  lemma AdjustCommits(db: Db, admin: Id, key: string, a: Adjustment)
    requires BalancesOk(db.users, db.ledger)
    requires FindKey(db.ledger, AdminAdjust(admin, key)).None? && Adjust(db, admin, key, a).1.Ok?
    ensures var (after, r) := Adjust(db, admin, key, a);
            && AdjustCallError(admin, key, a).None? && a.user in db.users
            && after.ledger == db.ledger + [r.value] && after.users == db.users[a.user := db.users[a.user] + a.delta]
            && r.value.key == AdminAdjust(admin, key) && r.value.hash == Some(ComputeAdjustHash(a))
  {
    AdjustPosts(db, admin, key, a);
    AdjustRow(db, admin, key, a);
  }

  /** Once an adjustment is committed, every later call with its key changes
      nothing; an equal request gets the committed row back and a different one
      conflicts, whichever buyer it names. */
  lemma {:induction false} AdjustThenReplay(db: Db, admin: Id, key: string, a: Adjustment, steps: seq<Step>,
      again: Adjustment)
    requires Inv(db) && FindKey(db.ledger, AdminAdjust(admin, key)).None?
    requires Adjust(db, admin, key, a).1.Ok? && ValidAdjustment(again)
    ensures a.user in db.users
    ensures var (db1, first) := Adjust(db, admin, key, a);
            var db2 := Run(db1, steps);
            && db1.users == db.users[a.user := db.users[a.user] + a.delta]
            && Adjust(db2, admin, key, again) ==
               (db2, if again.user == a.user && again.delta == a.delta && Trim(again.remark) == Trim(a.remark)
                     then Ok(first.value) else Err(IdempotencyConflict))
            && RowsWithKey(db2.ledger, AdminAdjust(admin, key)) == {|db.ledger|}
  {
    var (db1, first) := Adjust(db, admin, key, a);
    var db2 := Run(db1, steps);
    AdjustCommits(db, admin, key, a);
    AdjustKeeps(db, admin, key, a);
    RunKeeps(db1, steps);
    LedgerAppendOnly(db1, steps);
    assert db2.ledger[|db.ledger|] == first.value;
    OneRowPerKey(db2.ledger, AdminAdjust(admin, key));
    AdjustAgain(db2, admin, key, a, again, |db.ledger|);
  }

  // ---------- the signup bonus ----------

  lemma OpenidsStay(db: Db, s: Step, openid: string)
    requires openid in db.openids
    ensures openid in Exec(db, s).openids && Exec(db, s).openids[openid] == db.openids[openid]
  {
    match s
    case DoCreate(user, token, req, newId) => assert CreateOrder(db, user, token, req, newId).0.openids == db.openids;
    case DoMove(c) => assert Move(db, c).0.openids == db.openids;
    case DoApprove(admin, id) => assert Approve(db, admin, id).0.openids == db.openids;
    case DoAdjust(admin, key, a) => AdjustFrame(db, admin, key, a);
    case DoLogin(o, bonus, newId) => LoginKeepsOpenids(db, o, bonus, newId, openid);
    case _ =>
      if IsAddressStep(s) {
        AddressFrame(db, s);
      } else if IsCartStep(s) {
        CartFrame(db, s);
      } else {
        ProductFrame(db, s);
      }
  }

  lemma LoginKeepsOpenids(db: Db, o: string, bonus: Int64, newId: Id, openid: string)
    requires openid in db.openids
    ensures var after := UpsertByOpenID(db, o, bonus, newId).0;
            openid in after.openids && after.openids[openid] == db.openids[openid]
  {
  }

  lemma {:induction false} OpenidsForever(db: Db, steps: seq<Step>, openid: string)
    requires openid in db.openids
    ensures var after := Run(db, steps);
            openid in after.openids && after.openids[openid] == db.openids[openid]
  {
    if steps != [] {
      OpenidsForever(db, steps[..|steps| - 1], openid);
      OpenidsStay(Run(db, steps[..|steps| - 1]), steps[|steps| - 1], openid);
    }
  }

  lemma LoginReply(db: Db, openid: string, bonus: Int64, newId: Id)
    requires UpsertByOpenID(db, openid, bonus, newId).1.Ok?
    ensures var (after, r) := UpsertByOpenID(db, openid, bonus, newId);
            Trim(openid) != "" && Trim(openid) in after.openids && after.openids[Trim(openid)] == r.value.user
  {
  }

  lemma RepeatLogin(db: Db, openid: string, bonus: Int64, newId: Id)
    requires Trim(openid) != "" && bonus >= 0 && Trim(openid) in db.openids
    requires db.openids[Trim(openid)] in db.users && FindKey(db.ledger, Signup(db.openids[Trim(openid)])).Some?
    ensures var user := db.openids[Trim(openid)];
            UpsertByOpenID(db, openid, bonus, newId) == (db, Ok(Login(user, db.users[user])))
  {
  }

  lemma FirstLoginCommits(db: Db, openid: string, bonus: Int64, newId: Id)
    requires Trim(openid) != "" && |Trim(openid)| <= 64 && Trim(openid) !in db.openids && bonus >= 0
    requires newId != ZERO_ID && newId !in db.users && FindKey(db.ledger, Signup(newId)).None?
    ensures UpsertByOpenID(db, openid, bonus, newId) ==
            (db.(openids := db.openids[Trim(openid) := newId], users := db.users[newId := bonus],
                 ledger := if bonus > 0 then db.ledger + [BonusRow(newId, bonus)] else db.ledger),
             Ok(Login(newId, bonus)))
  {
    assert db.users[newId := 0][newId := bonus] == db.users[newId := bonus];
  }

  /** The first login of a new buyer, under a fresh id. */
  lemma FirstLogin(db: Db, openid: string, bonus: Int64, newId: Id)
    requires Trim(openid) != "" && |Trim(openid)| <= 64 && Trim(openid) !in db.openids && bonus >= 0
    requires newId != ZERO_ID && newId !in db.users && FindKey(db.ledger, Signup(newId)).None?
    ensures var (after, r) := UpsertByOpenID(db, openid, bonus, newId);
            && r == Ok(Login(newId, bonus))
            && after.users == db.users[newId := bonus]
            && (if bonus > 0 then HasRow(after.ledger, Signup(newId), newId, bonus) else after.ledger == db.ledger)
            && SumDeltas(after.ledger, newId) == SumDeltas(db.ledger, newId) + bonus
  {
    FirstLoginCommits(db, openid, bonus, newId);
    if bonus > 0 {
      FindKeyAppend(db.ledger, BonusRow(newId, bonus), Signup(newId));
      SumDeltasAppend(db.ledger, BonusRow(newId, bonus), newId);
    }
  }

  /** A buyer gets the bonus at most once: after the row exists, every later
      login of that buyer leaves the database as it is and reports the balance
      it holds. */
  lemma BonusOnce(db: Db, openid: string, bonus: Int64, newId: Id, steps: seq<Step>, bonus2: Int64, newId2: Id)
    requires Inv(db) && UpsertByOpenID(db, openid, bonus, newId).1.Ok? && bonus2 >= 0
    requires var (db1, r) := UpsertByOpenID(db, openid, bonus, newId);
             FindKey(db1.ledger, Signup(r.value.user)).Some?
    ensures var (db1, r) := UpsertByOpenID(db, openid, bonus, newId);
            var db2 := Run(db1, steps);
            && |RowsWithKey(db2.ledger, Signup(r.value.user))| == 1
            && r.value.user in db2.users
            && UpsertByOpenID(db2, openid, bonus2, newId2) == (db2, Ok(Login(r.value.user, db2.users[r.value.user])))
  {
    var (db1, r) := UpsertByOpenID(db, openid, bonus, newId);
    var db2 := Run(db1, steps);
    LoginKeeps(db, openid, bonus, newId);
    RunKeeps(db1, steps);
    LedgerAppendOnly(db1, steps);
    LoginReply(db, openid, bonus, newId);
    OpenidsForever(db1, steps, Trim(openid));
    var i := FindKey(db1.ledger, Signup(r.value.user)).value;
    assert db2.ledger[i].key == Signup(r.value.user);
    OneRowPerKey(db2.ledger, Signup(r.value.user));
    RepeatLogin(db2, openid, bonus2, newId2);
  }
}
