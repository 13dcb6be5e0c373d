/** The fixed-window login limiters: one dimension (application/auth) and two
    (admin). Times are in nanoseconds of a clock that never runs backwards. */
module RateLimiters {
  import opened Base

  datatype Bucket = Bucket(started: int, count: nat)

  /** One visit to a bucket: the bucket left behind and the verdict. */
  function Visit(b: Option<Bucket>, limit: nat, window: nat, now: int): (Bucket, bool) {
    if b.None? || now - b.value.started >= window then (Bucket(now, 1), true)
    else if b.value.count >= limit then (b.value, false)
    else (b.value.(count := b.value.count + 1), true)
  }

  /** The bucket of a key that was ever visited holds at least its first token. */
  predicate BucketOk(b: Option<Bucket>, limit: nat, now: int) {
    b.Some? ==> 1 <= b.value.count <= limit && b.value.started <= now
  }

  predicate Ascending(times: seq<int>) {
    forall i, j :: 0 <= i < j < |times| ==> times[i] <= times[j]
  }

  /** Admissions among consecutive visits to one bucket. */
  function Admitted(b: Option<Bucket>, limit: nat, window: nat, times: seq<int>): nat
    decreases |times|
  {
    if times == [] then 0
    else
      var (next, ok) := Visit(b, limit, window, times[0]);
      (if ok then 1 else 0) + Admitted(Some(next), limit, window, times[1..])
  }

  function Min(a: nat, b: nat): nat {
    if a < b then a else b
  }

  /** While the window lasts, exactly the tokens that are left are given out, one to
      each visit until there are none. */
  lemma {:induction false} LeftInWindow(b: Bucket, limit: nat, window: nat, times: seq<int>)
    requires b.count <= limit
    requires forall i :: 0 <= i < |times| ==> times[i] - b.started < window
    ensures Admitted(Some(b), limit, window, times) == Min(|times|, limit - b.count)
    decreases |times|
  {
    if times != [] {
      var (next, ok) := Visit(Some(b), limit, window, times[0]);
      LeftInWindow(next, limit, window, times[1..]);
    }
  }

  /** A key without a bucket, or whose window has passed: of visits that last less than
      a window exactly the first `limit` are let through. */
  lemma FreshWindowExactly(b: Option<Bucket>, limit: nat, window: nat, times: seq<int>)
    requires limit >= 1 && Ascending(times)
    requires times != [] ==> b.None? || times[0] - b.value.started >= window
    requires times != [] ==> times[|times| - 1] - times[0] < window
    ensures Admitted(b, limit, window, times) == Min(|times|, limit)
  {
    if times != [] {
      LeftInWindow(Bucket(times[0], 1), limit, window, times[1..]);
    }
  }

  /** While the window lasts, only the tokens that are left are given out. */
  lemma {:induction false} AdmittedInWindow(b: Bucket, limit: nat, window: nat, times: seq<int>)
    requires b.count <= limit
    requires forall i :: 0 <= i < |times| ==> times[i] - b.started < window
    ensures b.count + Admitted(Some(b), limit, window, times) <= limit
    decreases |times|
  {
    if times != [] {
      var (next, ok) := Visit(Some(b), limit, window, times[0]);
      AdmittedInWindow(next, limit, window, times[1..]);
    }
  }

  /** A window opened by a visit admits at most the limit, that visit included. */
  lemma WindowBound(b: Option<Bucket>, limit: nat, window: nat, times: seq<int>)
    requires limit >= 1 && times != [] && Ascending(times)
    requires b.None? || times[0] - b.value.started >= window
    requires times[|times| - 1] - times[0] < window
    ensures Admitted(b, limit, window, times) <= limit
  {
    AdmittedInWindow(Bucket(times[0], 1), limit, window, times[1..]);
  }

  lemma {:induction false} SpanFrom(b: Bucket, limit: nat, window: nat, times: seq<int>)
    requires 1 <= b.count <= limit && Ascending(times)
    requires times == [] || times[|times| - 1] - times[0] < window
    ensures Admitted(Some(b), limit, window, times) <= 2 * limit - 1
    ensures b.count + Admitted(Some(b), limit, window, times) <= 2 * limit
    decreases |times|
  {
    if times != [] {
      if times[0] - b.started >= window {
        WindowBound(Some(b), limit, window, times);
      } else {
        var (next, ok) := Visit(Some(b), limit, window, times[0]);
        assert Ascending(times[1..]);
        SpanFrom(next, limit, window, times[1..]);
      }
    }
  }

  /** Any span shorter than the window admits fewer than twice the limit. */
  lemma SpanBound(b: Option<Bucket>, limit: nat, window: nat, times: seq<int>, now: int)
    requires limit >= 1 && BucketOk(b, limit, now) && Ascending(times)
    requires times != [] ==> times[|times| - 1] - times[0] < window
    ensures Admitted(b, limit, window, times) <= 2 * limit - 1
  {
    if b.Some? {
      SpanFrom(b.value, limit, window, times);
    } else if times != [] {
      WindowBound(b, limit, window, times);
    }
  }

  function Repeat(t: int, n: nat): seq<int> {
    if n == 0 then [] else [t] + Repeat(t, n - 1)
  }

  lemma {:induction false} RepeatAdmits(b: Bucket, limit: nat, window: nat, t: int, n: nat, rest: seq<int>)
    requires t - b.started < window && b.count + n <= limit
    ensures Admitted(Some(b), limit, window, Repeat(t, n) + rest)
            == n + Admitted(Some(b.(count := b.count + n)), limit, window, rest)
    decreases n
  {
    if n == 0 {
      assert Repeat(t, 0) + rest == rest;
    } else {
      var times := Repeat(t, n) + rest;
      assert times[1..] == Repeat(t, n - 1) + rest;
      RepeatAdmits(b.(count := b.count + 1), limit, window, t, n - 1, rest);
    }
  }

  /** The bound is reached: late in one window and early in the next. */
  lemma SpanBoundIsTight(limit: nat, window: nat)
    requires limit >= 1 && window >= 2
    ensures Admitted(Some(Bucket(0, 1)), limit, window, Repeat(window - 1, limit - 1) + Repeat(window, limit))
            == 2 * limit - 1
  {
    RepeatAdmits(Bucket(0, 1), limit, window, window - 1, limit - 1, Repeat(window, limit));
    var late := Repeat(window, limit);
    assert late[1..] == Repeat(window, limit - 1) + [];
    RepeatAdmits(Bucket(window, 1), limit, window, window, limit - 1, []);
  }

  // ---------- the two-dimensional limiter ----------

  function AtLeastOne(n: int): (limit: nat)
    ensures limit >= 1
  {
    if n < 1 then 1 else n
  }

  /** A window that is not positive becomes one minute. */
  function OrMinute(n: int): (window: nat)
    ensures window > 0
  {
    if n <= 0 then 60_000_000_000 else n
  }

  datatype Settings = Settings(accountLimit: nat, accountWindow: nat, ipLimit: nat, ipWindow: nat)

  /** Both maps of buckets, by normalised key. */
  datatype Buckets = Buckets(accounts: map<string, Bucket>, ips: map<string, Bucket>)

  function Lookup(m: map<string, Bucket>, key: string): Option<Bucket> {
    if key in m then Some(m[key]) else None
  }

  /** The account is charged first; an address that is out of tokens rejects the
      attempt without giving the account token back. */
  function Attempt(s: Settings, b: Buckets, account: string, ip: string, now: int): (Buckets, bool) {
    var (mine, accountOk) := Visit(Lookup(b.accounts, account), s.accountLimit, s.accountWindow, now);
    var accounts := b.accounts[account := mine];
    if !accountOk then (Buckets(accounts, b.ips), false)
    else if ip == "" then (Buckets(accounts, b.ips), true)
    else
      var (host, ipOk) := Visit(Lookup(b.ips, ip), s.ipLimit, s.ipWindow, now);
      (Buckets(accounts, b.ips[ip := host]), ipOk)
  }

  /** A visit of this key passes: it has no bucket, its window has passed, or it has a
      token left. */
  predicate HasRoom(buckets: map<string, Bucket>, key: string, limit: nat, window: nat, now: int) {
    key !in buckets || now - buckets[key].started >= window || buckets[key].count < limit
  }

  /** The buckets after a visit of the key: a new window, one token more, or as they were. */
  function Visited(buckets: map<string, Bucket>, key: string, limit: nat, window: nat, now: int): map<string, Bucket> {
    if key !in buckets || now - buckets[key].started >= window then buckets[key := Bucket(now, 1)]
    else if buckets[key].count < limit then buckets[key := Bucket(buckets[key].started, buckets[key].count + 1)]
    else buckets
  }

  /** An attempt passes exactly when the account has room and so has the address, if
      there is one; the address is visited only when the account had room. */
  lemma AttemptExactly(s: Settings, b: Buckets, account: string, ip: string, now: int)
    ensures var accountRoom := HasRoom(b.accounts, account, s.accountLimit, s.accountWindow, now);
            var (after, ok) := Attempt(s, b, account, ip, now);
            && (ok <==> accountRoom && (ip == "" || HasRoom(b.ips, ip, s.ipLimit, s.ipWindow, now)))
            && after.accounts == Visited(b.accounts, account, s.accountLimit, s.accountWindow, now)
            && after.ips == if accountRoom && ip != "" then Visited(b.ips, ip, s.ipLimit, s.ipWindow, now) else b.ips
  {
    if account in b.accounts {
      assert b.accounts == b.accounts[account := b.accounts[account]];
    }
    if ip in b.ips {
      assert b.ips == b.ips[ip := b.ips[ip]];
    }
  }

  class AdminLoginLimiter {
    const settings: Settings
    const fold: string -> string
    var accountBuckets: map<string, Bucket>
    var ipBuckets: map<string, Bucket>

    function View(): Buckets
      reads this
    {
      Buckets(accountBuckets, ipBuckets)
    }

    /** Invalid values are clamped, so that at least one attempt per window is let
        through; `toLower` is strings.ToLower. */
    constructor (accountLimit: int, accountWindow: int, ipLimit: int, ipWindow: int, toLower: string -> string)
      ensures settings == Settings(AtLeastOne(accountLimit), OrMinute(accountWindow), AtLeastOne(ipLimit),
              OrMinute(ipWindow))
      ensures settings.accountLimit == (if accountLimit < 1 then 1 else accountLimit)
      ensures settings.ipLimit == (if ipLimit < 1 then 1 else ipLimit)
      ensures settings.accountWindow == (if accountWindow <= 0 then 60_000_000_000 else accountWindow)
      ensures settings.ipWindow == (if ipWindow <= 0 then 60_000_000_000 else ipWindow)
      ensures fold == toLower && View() == Buckets(map[], map[])
    {
      settings := Settings(AtLeastOne(accountLimit), OrMinute(accountWindow), AtLeastOne(ipLimit), OrMinute(ipWindow));
      fold := toLower;
      accountBuckets, ipBuckets := map[], map[];
    }

    /** allowIntoBucket on one of the two maps. */
    static method AllowIntoBucket(buckets: map<string, Bucket>, key: string, limit: nat, window: nat, now: int)
      returns (after: map<string, Bucket>, ok: bool)
      ensures ok <==> key !in buckets || now - buckets[key].started >= window || buckets[key].count < limit
      ensures after == Visited(buckets, key, limit, window, now)
      ensures var visit := Visit(Lookup(buckets, key), limit, window, now);
              after == buckets[key := visit.0] && ok == visit.1
    {
      if key !in buckets || now - buckets[key].started >= window {
        return buckets[key := Bucket(now, 1)], true;
      }
      if buckets[key].count >= limit {
        assert buckets == buckets[key := buckets[key]];
        return buckets, false;
      }
      return buckets[key := buckets[key].(count := buckets[key].count + 1)], true;
    }

    method Allow(username: string, ip: string, now: int) returns (ok: bool)
      modifies this
      ensures (View(), ok) == Attempt(settings, old(View()), fold(Trim(username)), Trim(ip), now)
      ensures var account := fold(Trim(username));
              ok <==>
              && (account !in old(accountBuckets)
                  || now - old(accountBuckets)[account].started >= settings.accountWindow
                  || old(accountBuckets)[account].count < settings.accountLimit)
              && (Trim(ip) == "" || Trim(ip) !in old(ipBuckets)
                  || now - old(ipBuckets)[Trim(ip)].started >= settings.ipWindow
                  || old(ipBuckets)[Trim(ip)].count < settings.ipLimit)
    {
      var accountKey, ipKey := fold(Trim(username)), Trim(ip);
      accountBuckets, ok := AllowIntoBucket(accountBuckets, accountKey, settings.accountLimit, settings.accountWindow,
        now);
      if !ok {
        return;
      }
      if ipKey != "" {
        ipBuckets, ok := AllowIntoBucket(ipBuckets, ipKey, settings.ipLimit, settings.ipWindow, now);
      }
    }

    method Reset(username: string, ip: string)
      modifies this
      ensures View() == Buckets(old(accountBuckets) - {fold(Trim(username))},
                                if Trim(ip) == "" then old(ipBuckets) else old(ipBuckets) - {Trim(ip)})
      ensures View() == After(settings, old(View()), Clear(fold(Trim(username)), Trim(ip)))
    {
      accountBuckets := accountBuckets - {fold(Trim(username))};
      if Trim(ip) != "" {
        ipBuckets := ipBuckets - {Trim(ip)};
      }
    }
  }

  // ---------- both bounds at once ----------

  /** What happens to the limiter, in clock order, keys normalised. */
  datatype Event =
    | Try(account: string, ip: string, at: int)
    | Clear(account: string, ip: string)

  function After(s: Settings, b: Buckets, e: Event): Buckets {
    match e
    case Try(account, ip, at) => Attempt(s, b, account, ip, at).0
    case Clear(account, ip) => Buckets(b.accounts - {account}, if ip == "" then b.ips else b.ips - {ip})
  }

  predicate Passes(s: Settings, b: Buckets, e: Event) {
    e.Try? && Attempt(s, b, e.account, e.ip, e.at).1
  }

  /** Attempts with this account key, or address key, that were let through. */
  function PassedAccount(s: Settings, b: Buckets, events: seq<Event>, key: string): nat
    decreases |events|
  {
    if events == [] then 0
    else (if Passes(s, b, events[0]) && events[0].account == key then 1 else 0)
         + PassedAccount(s, After(s, b, events[0]), events[1..], key)
  }

  function PassedIp(s: Settings, b: Buckets, events: seq<Event>, key: string): nat
    decreases |events|
  {
    if events == [] then 0
    else (if Passes(s, b, events[0]) && events[0].ip == key then 1 else 0)
         + PassedIp(s, After(s, b, events[0]), events[1..], key)
  }

  /** The moments at which a key's bucket is visited. */
  function AccountVisits(events: seq<Event>, key: string): seq<int>
    decreases |events|
  {
    if events == [] then []
    else (if events[0].Try? && events[0].account == key then [events[0].at] else []) + AccountVisits(events[1..], key)
  }

  /** An address bucket is visited only when the account had a token. */
  function IpVisits(s: Settings, b: Buckets, events: seq<Event>, key: string): seq<int>
    decreases |events|
  {
    if events == [] then []
    else
      var e := events[0];
      (if e.Try? && e.ip == key && Visit(Lookup(b.accounts, e.account), s.accountLimit, s.accountWindow, e.at).1
       then [e.at] else [])
      + IpVisits(s, After(s, b, e), events[1..], key)
  }

  /** No Reset of this account, or of this address, among the events. */
  predicate AccountUncleared(events: seq<Event>, key: string) {
    forall i :: 0 <= i < |events| ==> !(events[i].Clear? && events[i].account == key)
  }

  predicate IpUncleared(events: seq<Event>, key: string) {
    forall i :: 0 <= i < |events| ==> !(events[i].Clear? && events[i].ip == key)
  }

  predicate InClockOrder(events: seq<Event>) {
    forall i, j :: 0 <= i < j < |events| && events[i].Try? && events[j].Try? ==> events[i].at <= events[j].at
  }

  /** All attempts lie within less than a window of each other. */
  predicate WithinSpan(events: seq<Event>, window: nat) {
    forall i, j :: 0 <= i < |events| && 0 <= j < |events| && events[i].Try? && events[j].Try? ==>
      events[j].at - events[i].at < window
  }

  lemma {:induction false} PassedAccountIsAdmitted(s: Settings, b: Buckets, events: seq<Event>, key: string)
    requires AccountUncleared(events, key)
    ensures PassedAccount(s, b, events, key)
            <= Admitted(Lookup(b.accounts, key), s.accountLimit, s.accountWindow, AccountVisits(events, key))
    decreases |events|
  {
    if events != [] {
      var e, rest := events[0], events[1..];
      var next := After(s, b, e);
      PassedAccountIsAdmitted(s, next, rest, key);
      if e.Try? && e.account == key {
        var times := AccountVisits(events, key);
        assert times[1..] == AccountVisits(rest, key);
        assert Lookup(next.accounts, key)
          == Some(Visit(Lookup(b.accounts, key), s.accountLimit, s.accountWindow, e.at).0);
      } else {
        assert AccountVisits(events, key) == AccountVisits(rest, key);
        assert Lookup(next.accounts, key) == Lookup(b.accounts, key);
      }
    }
  }

  lemma {:induction false} PassedIpIsAdmitted(s: Settings, b: Buckets, events: seq<Event>, key: string)
    requires IpUncleared(events, key) && key != ""
    ensures PassedIp(s, b, events, key)
            <= Admitted(Lookup(b.ips, key), s.ipLimit, s.ipWindow, IpVisits(s, b, events, key))
    decreases |events|
  {
    if events != [] {
      var e, rest := events[0], events[1..];
      var next := After(s, b, e);
      PassedIpIsAdmitted(s, next, rest, key);
      if e.Try? && e.ip == key && Visit(Lookup(b.accounts, e.account), s.accountLimit, s.accountWindow, e.at).1 {
        var times := IpVisits(s, b, events, key);
        assert times[1..] == IpVisits(s, next, rest, key);
        assert Lookup(next.ips, key) == Some(Visit(Lookup(b.ips, key), s.ipLimit, s.ipWindow, e.at).0);
      } else {
        assert IpVisits(s, b, events, key) == IpVisits(s, next, rest, key);
        assert Lookup(next.ips, key) == Lookup(b.ips, key);
      }
    }
  }

  /** Visits are attempts, in the same order. */
  lemma {:induction false} AccountVisitsInOrder(events: seq<Event>, key: string)
    requires InClockOrder(events)
    ensures Ascending(AccountVisits(events, key))
    ensures forall t :: t in AccountVisits(events, key) ==>
            exists i :: 0 <= i < |events| && events[i].Try? && events[i].at == t
  {
    if events != [] {
      var rest := events[1..];
      assert forall i :: 0 <= i < |rest| ==> rest[i] == events[i + 1];
      AccountVisitsInOrder(rest, key);
      ConsAscending(events, AccountVisits(rest, key));
    }
  }

  lemma {:induction false} IpVisitsInOrder(s: Settings, b: Buckets, events: seq<Event>, key: string)
    requires InClockOrder(events)
    ensures Ascending(IpVisits(s, b, events, key))
    ensures forall t :: t in IpVisits(s, b, events, key) ==>
            exists i :: 0 <= i < |events| && events[i].Try? && events[i].at == t
    decreases |events|
  {
    if events != [] {
      var rest := events[1..];
      assert forall i :: 0 <= i < |rest| ==> rest[i] == events[i + 1];
      IpVisitsInOrder(s, After(s, b, events[0]), rest, key);
      ConsAscending(events, IpVisits(s, After(s, b, events[0]), rest, key));
    }
  }

  lemma ConsAscending(events: seq<Event>, times: seq<int>)
    requires events != [] && InClockOrder(events) && Ascending(times)
    requires forall t :: t in times ==>
             exists i :: 0 <= i < |events[1..]| && events[1..][i].Try? && events[1..][i].at == t
    ensures events[0].Try? ==> Ascending([events[0].at] + times)
    ensures forall t :: t in times ==> exists i :: 0 <= i < |events| && events[i].Try? && events[i].at == t
  {
    forall t | t in times
      ensures exists i :: 0 <= i < |events| && events[i].Try? && events[i].at == t
      ensures events[0].Try? ==> events[0].at <= t
    {
      var i :| 0 <= i < |events[1..]| && events[1..][i].Try? && events[1..][i].at == t;
      assert events[i + 1] == events[1..][i];
    }
    if events[0].Try? {
      var all := [events[0].at] + times;
      forall i, j | 0 <= i < j < |all| ensures all[i] <= all[j] {
        assert all[j] == times[j - 1] && times[j - 1] in times;
      }
    }
  }

  lemma SpanOfVisits(events: seq<Event>, times: seq<int>, window: nat)
    requires WithinSpan(events, window) && times != []
    requires forall t :: t in times ==> exists i :: 0 <= i < |events| && events[i].Try? && events[i].at == t
    ensures times[|times| - 1] - times[0] < window
  {
    assert times[0] in times && times[|times| - 1] in times;
    var i :| 0 <= i < |events| && events[i].Try? && events[i].at == times[0];
    var j :| 0 <= j < |events| && events[j].Try? && events[j].at == times[|times| - 1];
  }

  /** Both budgets hold at once: in any span shorter than the account window an
      account is let through fewer than twice its limit, and in any span shorter
      than the address window so is an address, although an address rejection has
      already cost the account a token. */
  lemma AccountBudget(s: Settings, b: Buckets, events: seq<Event>, key: string, now: int)
    requires s.accountLimit >= 1 && BucketOk(Lookup(b.accounts, key), s.accountLimit, now)
    requires AccountUncleared(events, key) && InClockOrder(events) && WithinSpan(events, s.accountWindow)
    ensures PassedAccount(s, b, events, key) <= 2 * s.accountLimit - 1
  {
    var times := AccountVisits(events, key);
    AccountVisitsInOrder(events, key);
    PassedAccountIsAdmitted(s, b, events, key);
    if times != [] {
      SpanOfVisits(events, times, s.accountWindow);
    }
    SpanBound(Lookup(b.accounts, key), s.accountLimit, s.accountWindow, times, now);
  }

  lemma IpBudget(s: Settings, b: Buckets, events: seq<Event>, key: string, now: int)
    requires s.ipLimit >= 1 && key != "" && BucketOk(Lookup(b.ips, key), s.ipLimit, now)
    requires IpUncleared(events, key) && InClockOrder(events) && WithinSpan(events, s.ipWindow)
    ensures PassedIp(s, b, events, key) <= 2 * s.ipLimit - 1
  {
    var times := IpVisits(s, b, events, key);
    IpVisitsInOrder(s, b, events, key);
    PassedIpIsAdmitted(s, b, events, key);
    if times != [] {
      SpanOfVisits(events, times, s.ipWindow);
    }
    SpanBound(Lookup(b.ips, key), s.ipLimit, s.ipWindow, times, now);
  }

  // ---------- the one-dimensional limiter ----------

  /** One dimension is two with nothing asked of the second: the account is the
      address, and the address is left empty. */
  function OneDimension(limit: nat, window: nat): Settings {
    Settings(limit, window, 1, 1)
  }

  class LoginLimiter {
    const limit: nat
    const window: nat
    var buckets: map<string, Bucket>

    /** Invalid settings are clamped. */
    constructor (configuredLimit: int, configuredWindow: int)
      ensures limit == if configuredLimit < 1 then 1 else configuredLimit
      ensures window == if configuredWindow <= 0 then 60_000_000_000 else configuredWindow
      ensures buckets == map[]
    {
      limit, window := AtLeastOne(configuredLimit), OrMinute(configuredWindow);
      buckets := map[];
    }

    /** A request without a detectable address shares the empty bucket. */
    method Allow(ip: string, now: int) returns (ok: bool)
      modifies this`buckets
      ensures var key := Trim(ip);
              var visit := Visit(Lookup(old(buckets), key), limit, window, now);
              ok == visit.1 && buckets == old(buckets)[key := visit.0]
      ensures ok <==> Trim(ip) !in old(buckets) || now - old(buckets)[Trim(ip)].started >= window
                      || old(buckets)[Trim(ip)].count < limit
      ensures (Buckets(buckets, map[]), ok)
              == Attempt(OneDimension(limit, window), Buckets(old(buckets), map[]), Trim(ip), "", now)
    {
      var key := Trim(ip);
      if key !in buckets || now - buckets[key].started >= window {
        buckets := buckets[key := Bucket(now, 1)];
        return true;
      }
      if buckets[key].count >= limit {
        assert buckets == buckets[key := buckets[key]];
        return false;
      }
      buckets := buckets[key := buckets[key].(count := buckets[key].count + 1)];
      return true;
    }

    method Reset(ip: string)
      modifies this`buckets
      ensures buckets == old(buckets) - {Trim(ip)}
      ensures Buckets(buckets, map[]) ==
              After(OneDimension(limit, window), Buckets(old(buckets), map[]), Clear(Trim(ip), ""))
    {
      buckets := buckets - {Trim(ip)};
    }
  }

  /** The budget of one dimension, over any mix of attempts and resets of any
      addresses, as long as this one is not reset. */
  lemma OneDimensionBudget(limit: nat, window: nat, buckets: map<string, Bucket>, events: seq<Event>, key: string,
      now: int)
    requires limit >= 1 && BucketOk(Lookup(buckets, key), limit, now)
    requires forall i :: 0 <= i < |events| ==> events[i].ip == ""
    requires AccountUncleared(events, key) && InClockOrder(events) && WithinSpan(events, window)
    ensures PassedAccount(OneDimension(limit, window), Buckets(buckets, map[]), events, key) <= 2 * limit - 1
  {
    AccountBudget(OneDimension(limit, window), Buckets(buckets, map[]), events, key, now);
  }

  lemma {:induction false} PassedAccountExactly(s: Settings, b: Buckets, events: seq<Event>, key: string)
    requires AccountUncleared(events, key) && forall i :: 0 <= i < |events| ==> events[i].ip == ""
    ensures PassedAccount(s, b, events, key)
            == Admitted(Lookup(b.accounts, key), s.accountLimit, s.accountWindow, AccountVisits(events, key))
    decreases |events|
  {
    if events != [] {
      var e, rest := events[0], events[1..];
      var next := After(s, b, e);
      PassedAccountExactly(s, next, rest, key);
      if e.Try? && e.account == key {
        var times := AccountVisits(events, key);
        assert times[1..] == AccountVisits(rest, key);
        assert Lookup(next.accounts, key)
          == Some(Visit(Lookup(b.accounts, key), s.accountLimit, s.accountWindow, e.at).0);
      } else {
        assert AccountVisits(events, key) == AccountVisits(rest, key);
        assert Lookup(next.accounts, key) == Lookup(b.accounts, key);
      }
    }
  }

  /** An address seen for the first time, or after its reset: of its attempts within
      less than a window exactly the first `limit` pass, whatever other addresses do. */
  lemma FirstAttemptsPass(limit: nat, window: nat, buckets: map<string, Bucket>, events: seq<Event>, key: string)
    requires limit >= 1 && key !in buckets
    requires forall i :: 0 <= i < |events| ==> events[i].ip == ""
    requires AccountUncleared(events, key) && InClockOrder(events) && WithinSpan(events, window)
    ensures PassedAccount(OneDimension(limit, window), Buckets(buckets, map[]), events, key)
            == Min(|AccountVisits(events, key)|, limit)
  {
    var times := AccountVisits(events, key);
    AccountVisitsInOrder(events, key);
    PassedAccountExactly(OneDimension(limit, window), Buckets(buckets, map[]), events, key);
    if times != [] {
      SpanOfVisits(events, times, window);
    }
    FreshWindowExactly(None, limit, window, times);
  }

  predicate BucketsOk(s: Settings, b: Buckets, now: int) {
    && (forall k :: k in b.accounts ==> BucketOk(Some(b.accounts[k]), s.accountLimit, now))
    && (forall k :: k in b.ips ==> BucketOk(Some(b.ips[k]), s.ipLimit, now))
  }

  /** What the budgets ask of the buckets holds initially and is kept by every event. */
  lemma EventKeepsBuckets(s: Settings, b: Buckets, e: Event, now: int)
    requires s.accountLimit >= 1 && s.ipLimit >= 1 && BucketsOk(s, b, now) && (e.Try? ==> now <= e.at)
    ensures BucketsOk(s, After(s, b, e), if e.Try? then e.at else now)
  {
  }

  /** An address that rejects the attempt has cost the account its token. */
  lemma RejectedAttemptStillCounts(s: Settings, b: Buckets, account: string, ip: string, now: int)
    requires s.accountLimit >= 1 && BucketsOk(s, b, now) && ip != "" && ip in b.ips
    requires account in b.accounts && now - b.accounts[account].started < s.accountWindow
    requires b.accounts[account].count < s.accountLimit
    requires now - b.ips[ip].started < s.ipWindow && b.ips[ip].count >= s.ipLimit
    ensures var (after, ok) := Attempt(s, b, account, ip, now);
            !ok && after.accounts[account].count == b.accounts[account].count + 1 && after.ips[ip] == b.ips[ip]
  {
  }
}
