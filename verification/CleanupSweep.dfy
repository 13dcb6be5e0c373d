/** The sweep over unreferenced objects (cleanup.go), while uploads, touches and
    product edits go on around it. Times are in nanoseconds. */
module CleanupSweep {

  /** What the sweep can see: modification times and referenced keys. */
  datatype World = World(mtimes: map<string, int>, referenced: set<string>)

  /** What others do meanwhile; each happens at a moment of the clock. */
  datatype Op =
    | Touch(key: string, at: int)
    | Upload(key: string, at: int)
    | Remove(key: string, at: int)
    | Refer(key: string, at: int)
    | Unrefer(key: string, at: int)

  function Apply(w: World, op: Op): World {
    match op
    case Touch(key, at) => if key in w.mtimes then w.(mtimes := w.mtimes[key := at]) else w
    case Upload(key, at) => w.(mtimes := w.mtimes[key := at])
    case Remove(key, _) => w.(mtimes := w.mtimes - {key})
    case Refer(key, _) => w.(referenced := w.referenced + {key})
    case Unrefer(key, _) => w.(referenced := w.referenced - {key})
  }

  function ApplyAll(w: World, ops: seq<Op>): World {
    if ops == [] then w else Apply(ApplyAll(w, ops[..|ops| - 1]), ops[|ops| - 1])
  }

  // ---------- one object ----------

  /** What the sweep is told about one object: whether the reference lookup, the
      re-stat and the deletion fail, and what happens before each of them. */
  datatype Turn = Turn(
    beforeLookup: seq<Op>, lookupFails: bool,
    beforeStat: seq<Op>, statFails: bool,
    beforeDelete: seq<Op>, deleteFails: bool)

  datatype Verdict = Kept | Doomed

  /** The decision about one key, and the world the sweep leaves for the next. */
  function Judge(w: World, key: string, listed: int, canStat: bool, grace: int, now: int, t: Turn): (World, Verdict) {
    var w1 := ApplyAll(w, t.beforeLookup);
    if t.lookupFails || key in w1.referenced then (w1, Kept)
    else
      var w2 := if canStat then ApplyAll(w1, t.beforeStat) else w1;
      if canStat && (t.statFails || key !in w2.mtimes) then (w2, Kept)
      else
        var mtime := if canStat then w2.mtimes[key] else listed;
        if grace > 0 && now - mtime < grace then (w2, Kept)
        else
          var w3 := ApplyAll(w2, t.beforeDelete);
          if t.deleteFails then (w3, Kept) else (Apply(w3, Remove(key, now)), Doomed)
  }

  datatype Listed = Listed(key: string, mtime: int)

  /** The keys a sweep deletes, in listing order, and the world it leaves. */
  function Swept(w: World, infos: seq<Listed>, turns: seq<Turn>, canStat: bool, grace: int, now: int)
    : (World, seq<string>)
    requires |turns| == |infos|
  {
    if infos == [] then (w, [])
    else
      var n := |infos| - 1;
      var (w1, gone) := Swept(w, infos[..n], turns[..n], canStat, grace, now);
      var (w2, verdict) := Judge(w1, infos[n].key, infos[n].mtime, canStat, grace, now, turns[n]);
      (w2, if verdict == Doomed then gone + [infos[n].key] else gone)
  }

  /** The volume and the product table around the sweep. */
  class Storage {
    var world: World

    constructor (w: World)
      ensures world == w
    {
      world := w;
    }

    /** Others run. */
    method Pass(ops: seq<Op>)
      modifies this
      ensures world == ApplyAll(old(world), ops)
    {
      var i := 0;
      while i < |ops|
        invariant 0 <= i <= |ops|
        invariant world == ApplyAll(old(world), ops[..i])
      {
        assert ops[..i + 1][..i] == ops[..i];
        world := Apply(world, ops[i]);
        i := i + 1;
      }
      assert ops[..i] == ops;
    }

    /** Cleanup: the sweep loop. `deleted` counts and `gone` lists the deletions. */
    method Cleanup(infos: seq<Listed>, turns: seq<Turn>, canStat: bool, grace: int, now: int)
      returns (deleted: nat, gone: seq<string>)
      requires |turns| == |infos|
      modifies this
      ensures (world, gone) == Swept(old(world), infos, turns, canStat, grace, now)
      ensures deleted == |gone|
    {
      deleted, gone := 0, [];
      var i := 0;
      while i < |infos|
        invariant 0 <= i <= |infos| && deleted == |gone|
        invariant (world, gone) == Swept(old(world), infos[..i], turns[..i], canStat, grace, now)
      {
        var info, t := infos[i], turns[i];
        assert infos[..i + 1][..i] == infos[..i] && turns[..i + 1][..i] == turns[..i];
        var removed := Visit(info, t, canStat, grace, now);
        if removed {
          deleted := deleted + 1;
          gone := gone + [info.key];
        }
        i := i + 1;
      }
      assert infos[..i] == infos && turns[..i] == turns;
    }

    /** The loop body for one object. */
    method Visit(info: Listed, t: Turn, canStat: bool, grace: int, now: int) returns (removed: bool)
      modifies this
      ensures (world, if removed then Doomed else Kept)
              == Judge(old(world), info.key, info.mtime, canStat, grace, now, t)
    {
      Pass(t.beforeLookup);
      if t.lookupFails || info.key in world.referenced {
        return false;
      }
      var mtime := info.mtime;
      if canStat {
        Pass(t.beforeStat);
        if t.statFails || info.key !in world.mtimes {
          return false;
        }
        mtime := world.mtimes[info.key];
      }
      if grace > 0 && now - mtime < grace {
        return false;
      }
      Pass(t.beforeDelete);
      if t.deleteFails {
        return false;
      }
      world := Apply(world, Remove(info.key, now));
      return true;
    }
  }

  // ---------- what a deletion implies ----------

  /** What each operation of the others does, key by key. */
  lemma ApplyExactly(w: World, op: Op, key: string)
    ensures key in Apply(w, op).mtimes <==>
            (key in w.mtimes && !(op.Remove? && op.key == key)) || (op.Upload? && op.key == key)
    ensures key in Apply(w, op).mtimes ==>
              Apply(w, op).mtimes[key] == if (op.Touch? || op.Upload?) && op.key == key then op.at else w.mtimes[key]
    ensures key in Apply(w, op).referenced <==>
            (key in w.referenced && !(op.Unrefer? && op.key == key)) || (op.Refer? && op.key == key)
  {
  }

  /** The verdict in every setting, and that the sweep itself changes nothing but the
      one file it deletes. */
  lemma JudgeExactly(w: World, key: string, listed: int, canStat: bool, grace: int, now: int, t: Turn)
    ensures var atLookup := ApplyAll(w, t.beforeLookup);
            var atStat := if canStat then ApplyAll(atLookup, t.beforeStat) else atLookup;
            var atDelete := ApplyAll(atStat, t.beforeDelete);
            var found := !t.lookupFails && key !in atLookup.referenced;
            var aged := found && (canStat ==> !t.statFails && key in atStat.mtimes)
                       && (grace > 0 ==> now - (if canStat then atStat.mtimes[key] else listed) >= grace);
            Judge(w, key, listed, canStat, grace, now, t) ==
            if !found then (atLookup, Kept)
            else if !aged then (atStat, Kept)
            else if t.deleteFails then (atDelete, Kept)
            else (World(map k | k in atDelete.mtimes && k != key :: atDelete.mtimes[k], atDelete.referenced), Doomed)
  {
    var atLookup := ApplyAll(w, t.beforeLookup);
    var atDelete := ApplyAll(if canStat then ApplyAll(atLookup, t.beforeStat) else atLookup, t.beforeDelete);
    assert atDelete.mtimes - {key} == map k | k in atDelete.mtimes && k != key :: atDelete.mtimes[k];
  }

  /** Deleted is exactly an object that was found unreferenced, still existed at
      the re-stat and had by then reached a positive grace period, no step failing. */
  lemma DoomedExactly(w: World, key: string, listed: int, grace: int, now: int, t: Turn)
    requires grace > 0
    ensures Judge(w, key, listed, true, grace, now, t).1 == Doomed <==>
            var atLookup := ApplyAll(w, t.beforeLookup);
            var atStat := ApplyAll(atLookup, t.beforeStat);
            && !t.lookupFails && !t.statFails && !t.deleteFails
            && key !in atLookup.referenced && key in atStat.mtimes && now - atStat.mtimes[key] >= grace
  {
  }

  /** The object at position i is judged doomed when its turn comes. */
  predicate DoomedAt(w: World, infos: seq<Listed>, turns: seq<Turn>, canStat: bool, grace: int, now: int, i: nat)
    requires |turns| == |infos| && i < |infos|
  {
    var before := Swept(w, infos[..i], turns[..i], canStat, grace, now).0;
    Judge(before, infos[i].key, infos[i].mtime, canStat, grace, now, turns[i]).1 == Doomed
  }

  lemma DoomedAtPrefix(w: World, infos: seq<Listed>, turns: seq<Turn>, canStat: bool, grace: int, now: int, n: nat,
      i: nat)
    requires |turns| == |infos| && i < n <= |infos|
    ensures DoomedAt(w, infos[..n], turns[..n], canStat, grace, now, i)
            == DoomedAt(w, infos, turns, canStat, grace, now, i)
  {
    assert infos[..n][..i] == infos[..i] && turns[..n][..i] == turns[..i];
  }

  lemma SweptLast(w: World, infos: seq<Listed>, turns: seq<Turn>, canStat: bool, grace: int, now: int)
    requires |turns| == |infos| && infos != []
    ensures var n := |infos| - 1;
            Swept(w, infos, turns, canStat, grace, now).1
            == Swept(w, infos[..n], turns[..n], canStat, grace, now).1
               + if DoomedAt(w, infos, turns, canStat, grace, now, n) then [infos[n].key] else []
  {
  }

  /** The listed key at some position before n is judged doomed. */
  ghost predicate DoomedBefore(w: World, infos: seq<Listed>, turns: seq<Turn>, canStat: bool, grace: int, now: int,
      key: string, n: nat)
    requires |turns| == |infos| && n <= |infos|
  {
    exists i :: 0 <= i < n && infos[i].key == key && DoomedAt(w, infos, turns, canStat, grace, now, i)
  }

  lemma DoomedBeforePrefix(w: World, infos: seq<Listed>, turns: seq<Turn>, canStat: bool, grace: int, now: int,
      key: string, n: nat)
    requires |turns| == |infos| && n <= |infos|
    ensures DoomedBefore(w, infos[..n], turns[..n], canStat, grace, now, key, n) <==>
            DoomedBefore(w, infos, turns, canStat, grace, now, key, n)
  {
    forall i | 0 <= i < n
      ensures DoomedAt(w, infos[..n], turns[..n], canStat, grace, now, i)
              == DoomedAt(w, infos, turns, canStat, grace, now, i)
    {
      DoomedAtPrefix(w, infos, turns, canStat, grace, now, n, i);
    }
    if DoomedBefore(w, infos, turns, canStat, grace, now, key, n) {
      var i :| 0 <= i < n && infos[i].key == key && DoomedAt(w, infos, turns, canStat, grace, now, i);
      assert infos[..n][i].key == key && DoomedAt(w, infos[..n], turns[..n], canStat, grace, now, i);
    }
  }

  /** The sweep deletes exactly the listed keys that are judged doomed. */
  lemma {:induction false} SweptExactly(w: World, infos: seq<Listed>, turns: seq<Turn>, canStat: bool, grace: int,
      now: int, key: string)
    requires |turns| == |infos|
    ensures key in Swept(w, infos, turns, canStat, grace, now).1 <==>
            DoomedBefore(w, infos, turns, canStat, grace, now, key, |infos|)
  {
    if infos != [] {
      var n := |infos| - 1;
      SweptLast(w, infos, turns, canStat, grace, now);
      SweptExactly(w, infos[..n], turns[..n], canStat, grace, now, key);
      DoomedBeforePrefix(w, infos, turns, canStat, grace, now, key, n);
      assert DoomedBefore(w, infos, turns, canStat, grace, now, key, |infos|) <==>
             DoomedBefore(w, infos, turns, canStat, grace, now, key, n)
             || (infos[n].key == key && DoomedAt(w, infos, turns, canStat, grace, now, n));
    }
  }

  predicate ClockFrom(ops: seq<Op>, start: int) {
    forall i :: 0 <= i < |ops| ==> ops[i].at >= start
  }

  /** Once touched, a file that still exists is at least that fresh, whatever
      else happens later. */
  lemma {:induction false} FreshStays(w: World, ops: seq<Op>, key: string, start: int)
    requires ClockFrom(ops, start) && (key in w.mtimes ==> w.mtimes[key] >= start)
    ensures key in ApplyAll(w, ops).mtimes ==> ApplyAll(w, ops).mtimes[key] >= start
  {
    if ops != [] {
      FreshStays(w, ops[..|ops| - 1], key, start);
    }
  }

  /** A touch that comes before the re-stat, within the grace period of the
      sweep's clock, saves the file: before the lookup or between the two. */
  lemma TouchSaves(w: World, key: string, listed: int, grace: int, now: int, t: Turn, at: int, before: seq<Op>,
      later: seq<Op>)
    requires grace > 0 && now - at < grace && ClockFrom(later, at)
    requires t.beforeLookup + t.beforeStat == before + [Touch(key, at)] + later
    ensures Judge(w, key, listed, true, grace, now, t).1 == Kept
  {
    var all := t.beforeLookup + t.beforeStat;
    ApplyConcat(w, t.beforeLookup, t.beforeStat);
    ApplyConcat(w, before + [Touch(key, at)], later);
    ApplyConcat(w, before, [Touch(key, at)]);
    var touched := ApplyAll(w, before + [Touch(key, at)]);
    assert [Touch(key, at)][..0] == [];
    assert touched == Apply(ApplyAll(w, before), Touch(key, at));
    FreshStays(touched, later, key, at);
    assert ApplyAll(ApplyAll(w, t.beforeLookup), t.beforeStat) == ApplyAll(touched, later);
  }

  lemma {:induction false} ApplyConcat(w: World, a: seq<Op>, b: seq<Op>)
    ensures ApplyAll(w, a + b) == ApplyAll(ApplyAll(w, a), b)
  {
    if b == [] {
      assert a + b == a;
    } else {
      assert (a + b)[..|a + b| - 1] == a + b[..|b| - 1];
      ApplyConcat(w, a, b[..|b| - 1]);
    }
  }

  /** A touch after the re-stat comes too late: the file goes although it is fresh. */
  lemma LateTouchDoesNotSave(key: string, at: int)
    ensures var w := World(map[key := 0], {});
            var t := Turn([], false, [], false, [Touch(key, at)], false);
            Judge(w, key, 0, true, 10, 20, t) == (World(map[], {}), Doomed)
  {
    var w := World(map[key := 0], {});
    assert [Touch(key, at)][..0] == [];
    assert ApplyAll(w, [Touch(key, at)]) == Apply(w, Touch(key, at));
  }

  // ---------- references that come and go ----------

  predicate Withdraws(op: Op, key: string) {
    op.Unrefer? && op.key == key
  }

  /** Some operation refers to the key and none after it withdraws the reference. */
  ghost predicate EndsReferred(ops: seq<Op>, key: string) {
    exists i :: 0 <= i < |ops| && ops[i].Refer? && ops[i].key == key
                && forall j :: i < j < |ops| ==> !Withdraws(ops[j], key)
  }

  ghost predicate NeverWithdrawn(ops: seq<Op>, key: string) {
    forall j :: 0 <= j < |ops| ==> !Withdraws(ops[j], key)
  }

  lemma EndsReferredNext(ops: seq<Op>, key: string)
    requires ops != []
    ensures var n := |ops| - 1;
            EndsReferred(ops, key) <==>
            (ops[n].Refer? && ops[n].key == key) || (EndsReferred(ops[..n], key) && !Withdraws(ops[n], key))
  {
    var n := |ops| - 1;
    if EndsReferred(ops[..n], key) && !Withdraws(ops[n], key) {
      var i :| 0 <= i < n && ops[..n][i].Refer? && ops[..n][i].key == key
               && forall j :: i < j < n ==> !Withdraws(ops[..n][j], key);
      forall j | i < j < |ops| ensures !Withdraws(ops[j], key) {
        assert j < n ==> ops[..n][j] == ops[j];
      }
      assert ops[i].Refer? && ops[i].key == key;
    }
    if EndsReferred(ops, key) && !(ops[n].Refer? && ops[n].key == key) {
      var i :| 0 <= i < |ops| && ops[i].Refer? && ops[i].key == key
               && forall j :: i < j < |ops| ==> !Withdraws(ops[j], key);
      assert ops[..n][i].Refer?;
    }
  }

  /** A key is referenced in the end exactly when it was referred to and not withdrawn
      after, or was referenced all along. */
  lemma {:induction false} ReferencedExactly(w: World, ops: seq<Op>, key: string)
    ensures key in ApplyAll(w, ops).referenced <==>
            EndsReferred(ops, key) || (key in w.referenced && NeverWithdrawn(ops, key))
  {
    if ops != [] {
      var n := |ops| - 1;
      ReferencedExactly(w, ops[..n], key);
      EndsReferredNext(ops, key);
      assert NeverWithdrawn(ops, key) <==> NeverWithdrawn(ops[..n], key) && !Withdraws(ops[n], key) by {
        assert forall j :: 0 <= j < n ==> ops[..n][j] == ops[j];
      }
    }
  }

  /** A reference made before the lookup and not withdrawn saves the file, whatever
      its age and whether or not the store can re-stat. */
  lemma ReferenceSaves(w: World, key: string, listed: int, canStat: bool, grace: int, now: int, t: Turn)
    requires EndsReferred(t.beforeLookup, key)
    ensures Judge(w, key, listed, canStat, grace, now, t).1 == Kept
  {
    ReferencedExactly(w, t.beforeLookup, key);
  }

  /** The sweep leaves a product with a deleted image exactly when a reference comes
      after the lookup and stays, and nothing else keeps the file. */
  lemma DanglingExactly(w: World, key: string, listed: int, grace: int, now: int, t: Turn)
    requires grace > 0
    ensures var (after, verdict) := Judge(w, key, listed, true, grace, now, t);
            verdict == Doomed && key in after.referenced <==>
            var atLookup := ApplyAll(w, t.beforeLookup);
            var atStat := ApplyAll(atLookup, t.beforeStat);
            && !t.lookupFails && !t.statFails && !t.deleteFails
            && key !in atLookup.referenced && key in atStat.mtimes && now - atStat.mtimes[key] >= grace
            && EndsReferred(t.beforeStat + t.beforeDelete, key)
  {
    var atLookup := ApplyAll(w, t.beforeLookup);
    ApplyConcat(atLookup, t.beforeStat, t.beforeDelete);
    ReferencedExactly(atLookup, t.beforeStat + t.beforeDelete, key);
    DoomedExactly(w, key, listed, grace, now, t);
  }

  /** A reference made between the lookup and the re-stat comes too late. */
  lemma LateReferenceDoesNotSave(key: string, at: int)
    ensures var w := World(map[key := 0], {});
            var t := Turn([], false, [Refer(key, at)], false, [], false);
            Judge(w, key, 0, true, 10, 20, t) == (World(map[], {key}), Doomed)
  {
    var w := World(map[key := 0], {});
    assert [Refer(key, at)][..0] == [];
    assert ApplyAll(w, [Refer(key, at)]) == Apply(w, Refer(key, at)) == World(map[key := 0], {key});
    assert map[key := 0] - {key} == map[];
  }
}
