/** The capacity-bounded image volume (local_volume.go): uploads under the
    volume lock, deletions outside it. */
module ImageVolume {
  import opened Base

  /** One file of the directory. Temporary files are entries like any other. */
  datatype Entry = Entry(name: string, size: nat)

  function Used(dir: seq<Entry>): nat {
    if dir == [] then 0 else dir[0].size + Used(dir[1..])
  }

  predicate Has(dir: seq<Entry>, name: string) {
    exists i :: 0 <= i < |dir| && dir[i].name == name
  }

  function Without(dir: seq<Entry>, name: string): seq<Entry> {
    if dir == [] then []
    else if dir[0].name == name then Without(dir[1..], name)
    else [dir[0]] + Without(dir[1..], name)
  }

  lemma {:induction false} UsedAppend(dir: seq<Entry>, e: Entry)
    ensures Used(dir + [e]) == Used(dir) + e.size
  {
    if dir == [] {
      assert dir + [e] == [e];
    } else {
      assert (dir + [e])[1..] == dir[1..] + [e];
      UsedAppend(dir[1..], e);
    }
  }

  lemma {:induction false} WithoutFacts(dir: seq<Entry>, name: string)
    ensures !Has(Without(dir, name), name) && Used(Without(dir, name)) <= Used(dir)
    ensures !Has(dir, name) ==> Without(dir, name) == dir
    ensures forall other :: Has(Without(dir, name), other) ==> Has(dir, other)
  {
    if dir != [] {
      var rest := dir[1..];
      WithoutFacts(rest, name);
      forall other | Has(Without(dir, name), other) ensures Has(dir, other) && other != name {
        var i :| 0 <= i < |Without(dir, name)| && Without(dir, name)[i].name == other;
        if dir[0].name == name {
          assert Has(Without(rest, name), other);
          HasTail(dir, other);
        } else if i == 0 {
          assert dir[0].name == other;
        } else {
          assert Without(rest, name)[i - 1].name == other;
          HasTail(dir, other);
        }
      }
      if !Has(dir, name) {
        assert dir[0].name != name;
        if Has(rest, name) {
          HasTail(dir, name);
        }
        assert dir == [dir[0]] + rest;
      }
    }
  }

  lemma HasTail(dir: seq<Entry>, name: string)
    requires dir != [] && Has(dir[1..], name)
    ensures Has(dir, name)
  {
    var i :| 0 <= i < |dir[1..]| && dir[1..][i].name == name;
    assert dir[i + 1].name == name;
  }

  /** Taking away a named file and putting it back. */
  lemma {:induction false} WithoutLast(dir: seq<Entry>, e: Entry)
    requires !Has(dir, e.name)
    ensures Without(dir + [e], e.name) == dir
  {
    if dir == [] {
      assert dir + [e] == [e];
      assert [e][1..] == [];
    } else {
      assert (dir + [e])[1..] == dir[1..] + [e];
      assert dir[0].name != e.name;
      if Has(dir[1..], e.name) {
        HasTail(dir, e.name);
      }
      WithoutLast(dir[1..], e);
      assert dir == [dir[0]] + dir[1..];
    }
  }

  /** Entry by entry: those of the name are gone, every other is kept. */
  lemma {:induction false} WithoutExactly(dir: seq<Entry>, name: string)
    ensures forall e :: multiset(Without(dir, name))[e] == if e.name == name then 0 else multiset(dir)[e]
  {
    if dir != [] {
      WithoutExactly(dir[1..], name);
      assert dir == [dir[0]] + dir[1..];
    }
  }

  lemma AbsentExactly(dir: seq<Entry>, name: string)
    ensures !Has(dir, name) <==> forall e: Entry :: e.name == name ==> multiset(dir)[e] == 0
  {
    if !Has(dir, name) {
      forall e: Entry | e.name == name ensures multiset(dir)[e] == 0 {
        assert e !in dir;
      }
    } else {
      var i :| 0 <= i < |dir| && dir[i].name == name;
      assert dir[i] in multiset(dir);
    }
  }

  /** What a reading of the directory adds up to: an entry whose Info fails, here
      one named in `skipped`, is left out without a word. */
  function Counted(dir: seq<Entry>, skipped: set<string>): nat {
    if dir == [] then 0
    else (if dir[0].name in skipped then 0 else dir[0].size) + Counted(dir[1..], skipped)
  }

  /** A reading never counts too much, and counts everything exactly when the
      entries it skips are empty. */
  lemma {:induction false} CountedExactly(dir: seq<Entry>, skipped: set<string>)
    ensures Counted(dir, skipped) <= Used(dir)
    ensures Counted(dir, skipped) == Used(dir) <==>
            forall i :: 0 <= i < |dir| && dir[i].name in skipped ==> dir[i].size == 0
  {
    if dir != [] {
      CountedExactly(dir[1..], skipped);
      assert dir == [dir[0]] + dir[1..];
    }
  }

  /** Each entry counts with its size, unless it is skipped. */
  lemma {:induction false} CountedAppend(dir: seq<Entry>, e: Entry, skipped: set<string>)
    ensures Counted([], skipped) == 0 && Used([]) == 0
    ensures Counted(dir + [e], skipped) == Counted(dir, skipped) + if e.name in skipped then 0 else e.size
  {
    if dir == [] {
      assert dir + [e] == [e] && [e][1..] == [];
    } else {
      assert (dir + [e])[1..] == dir[1..] + [e];
      CountedAppend(dir[1..], e, skipped);
    }
  }

  /** usedBytesLocked: sums every file that can be read, temporary ones included. */
  method UsedBytesLocked(dir: seq<Entry>, skipped: set<string>) returns (total: nat)
    ensures total == Counted(dir, skipped)
  {
    total := 0;
    var i := 0;
    while i < |dir|
      invariant 0 <= i <= |dir|
      invariant total + Counted(dir[i..], skipped) == Counted(dir, skipped)
    {
      if dir[i].name !in skipped {
        total := total + dir[i].size;
      }
      assert dir[i..][1..] == dir[i + 1..];
      i := i + 1;
    }
  }

  // ---------- one upload, step by step ----------

  /** Where an upload stands while it holds the volume lock. */
  datatype Upload =
    | Free
    | Checked(key: string, size: nat)
    | Written(key: string, size: nat, temp: Entry)
    | Replaced(key: string, size: nat, temp: Entry)

  datatype Volume = Volume(dir: seq<Entry>, capacity: nat, upload: Upload)

  /** What can happen next. Any step of an upload can fail, and the deferred
      removal of its temporary file can fail too. */
  datatype Step =
    | Begin(key: string, size: nat, skipped: set<string>)
    | Copy(temp: string, written: nat)
    | CloseAndReplace
    | Publish
    | Fail(tempRemoved: bool)
    | Delete(name: string)

  /** The capacity check adds two int64 values. */
  predicate Admits(v: Volume, size: nat, skipped: set<string>) {
    Wrap64(Counted(v.dir, skipped) + size) <= v.capacity
  }

  /** The copy reads at most one byte more than declared, into a fresh file. */
  predicate Enabled(v: Volume, s: Step) {
    match s
    case Begin(key, size, skipped) => v.upload.Free? && Admits(v, size, skipped)
    case Copy(temp, written) =>
      v.upload.Checked? && !Has(v.dir, temp) && temp != v.upload.key && written <= v.upload.size + 1
    case CloseAndReplace => v.upload.Written? && v.upload.temp.size == v.upload.size
    case Publish => v.upload.Replaced?
    case Fail(_) => !v.upload.Free?
    // Deletions name objects, never a temporary file.
    case Delete(name) => (v.upload.Written? || v.upload.Replaced?) ==> name != v.upload.temp.name
  }

  function Next(v: Volume, s: Step): Volume
    requires Enabled(v, s)
  {
    match s
    case Begin(key, size, _) => v.(upload := Checked(key, size))
    case Copy(temp, written) =>
      v.(dir := v.dir + [Entry(temp, written)], upload := Written(v.upload.key, v.upload.size, Entry(temp, written)))
    case CloseAndReplace =>
      v.(dir := Without(v.dir, v.upload.key), upload := Replaced(v.upload.key, v.upload.size, v.upload.temp))
    case Publish =>
      v.(dir := Without(Without(v.dir, v.upload.temp.name), v.upload.key) + [Entry(v.upload.key, v.upload.temp.size)],
         upload := Free)
    case Fail(tempRemoved) =>
      var dir := if tempRemoved && (v.upload.Written? || v.upload.Replaced?)
                 then Without(v.dir, v.upload.temp.name) else v.dir;
      v.(dir := dir, upload := Free)
    case Delete(name) => v.(dir := Without(v.dir, name))
  }

  /** What each step does to the directory, entry by entry. A deletion takes that one
      name away, also while an upload is under way, and leaves the upload alone. */
  lemma DeleteExactly(v: Volume, name: string)
    requires (v.upload.Written? || v.upload.Replaced?) ==> name != v.upload.temp.name
    ensures Enabled(v, Delete(name))
    ensures Next(v, Delete(name)).capacity == v.capacity && Next(v, Delete(name)).upload == v.upload
    ensures forall e :: multiset(Next(v, Delete(name)).dir)[e] == if e.name == name then 0 else multiset(v.dir)[e]
  {
    WithoutExactly(v.dir, name);
  }

  /** Copying adds the temporary file; replacing takes the old object away; publishing
      renames the temporary file to the key; failing takes the temporary file away, if
      that succeeds; nothing else is touched. */
  lemma UploadStepsExactly(v: Volume, s: Step)
    requires Enabled(v, s) && !s.Delete?
    ensures Next(v, s).capacity == v.capacity
    ensures forall e ::
              multiset(Next(v, s).dir)[e] ==
              match s
              case Begin(_, _, _) => multiset(v.dir)[e]
              case Copy(temp, written) => multiset(v.dir)[e] + (if e == Entry(temp, written) then 1 else 0)
              case CloseAndReplace => if e.name == v.upload.key then 0 else multiset(v.dir)[e]
              case Publish =>
                (if e.name == v.upload.key || e.name == v.upload.temp.name then 0 else multiset(v.dir)[e])
                + (if e == Entry(v.upload.key, v.upload.temp.size) then 1 else 0)
              case Fail(tempRemoved) =>
                if tempRemoved && (v.upload.Written? || v.upload.Replaced?) && e.name == v.upload.temp.name then 0
                else multiset(v.dir)[e]
  {
    match s
    case CloseAndReplace => WithoutExactly(v.dir, v.upload.key);
    case Publish =>
      WithoutExactly(v.dir, v.upload.temp.name);
      WithoutExactly(Without(v.dir, v.upload.temp.name), v.upload.key);
    case Fail(_) =>
      if v.upload.Written? || v.upload.Replaced? {
        WithoutExactly(v.dir, v.upload.temp.name);
      }
    case _ =>
  }

  /** An over-long upload whose temporary file could not be removed either. */
  predicate LeaksLongTemp(v: Volume, s: Step) {
    s == Fail(false) && v.upload.Written? && v.upload.temp.size == v.upload.size + 1
  }

  /** A capacity check that has seen every byte. */
  predicate ReadsAll(v: Volume, s: Step) {
    s.Begin? ==> Counted(v.dir, s.skipped) == Used(v.dir)
  }

  ghost predicate IsRun(v: Volume, steps: seq<Step>)
    decreases |steps|
  {
    steps == [] || (Enabled(v, steps[0]) && IsRun(Next(v, steps[0]), steps[1..]))
  }

  ghost function EndOf(v: Volume, steps: seq<Step>): Volume
    requires IsRun(v, steps)
    decreases |steps|
  {
    if steps == [] then v else EndOf(Next(v, steps[0]), steps[1..])
  }

  /** Declared sizes that cannot wrap the capacity check. */
  predicate SizesFit(steps: seq<Step>, capacity: nat) {
    forall i :: 0 <= i < |steps| && steps[i].Begin? ==> steps[i].size + capacity + 1 <= MAX64
  }

  ghost predicate NoLongLeak(v: Volume, steps: seq<Step>)
    requires IsRun(v, steps)
    decreases |steps|
  {
    steps == [] || (!LeaksLongTemp(v, steps[0]) && NoLongLeak(Next(v, steps[0]), steps[1..]))
  }

  /** The temporary file is there, under a name of its own, beside files that
      leave room for the declared size. */
  ghost predicate Pending(v: Volume, key: string, size: nat, temp: Entry) {
    && temp.name != key
    && Used(v.dir) == Used(Without(v.dir, temp.name)) + temp.size
    && Used(Without(v.dir, temp.name)) + size <= v.capacity
  }

  ghost predicate EveryCheckReadsAll(v: Volume, steps: seq<Step>)
    requires IsRun(v, steps)
    decreases |steps|
  {
    steps == [] || (ReadsAll(v, steps[0]) && EveryCheckReadsAll(Next(v, steps[0]), steps[1..]))
  }

  /** `slack` is 0 or 1: the byte an over-long temporary file may leave behind.
      With the lock free usage is within the bound; during an upload the other
      files leave room for the declared size. */
  ghost predicate Bounded(v: Volume, slack: nat) {
    match v.upload
    case Free => Used(v.dir) <= v.capacity + slack
    case Checked(_, size) => Used(v.dir) + size <= v.capacity
    case Written(key, size, temp) => Pending(v, key, size, temp) && temp.size <= size + 1
    case Replaced(key, size, temp) => Pending(v, key, size, temp) && temp.size == size
  }

  /** Removing one file frees the same space whether or not another is ignored. */
  lemma {:induction false} WithoutShare(dir: seq<Entry>, name: string, temp: string)
    requires name != temp
    ensures Used(dir) - Used(Without(dir, temp))
            == Used(Without(dir, name)) - Used(Without(Without(dir, name), temp))
    ensures Used(Without(Without(dir, name), temp)) <= Used(Without(dir, temp))
  {
    if dir != [] {
      WithoutShare(dir[1..], name, temp);
      if dir[0].name != name {
        assert ([dir[0]] + Without(dir[1..], name))[1..] == Without(dir[1..], name);
      }
    }
  }

  lemma DeletionKeepsPending(v: Volume, name: string, key: string, size: nat, temp: Entry)
    requires Pending(v, key, size, temp) && name != temp.name
    ensures Pending(v.(dir := Without(v.dir, name)), key, size, temp)
  {
    WithoutShare(v.dir, name, temp.name);
  }

  lemma StepKeepsBound(v: Volume, s: Step, slack: nat)
    requires Bounded(v, slack) && Enabled(v, s) && slack <= 1 && ReadsAll(v, s)
    requires s.Begin? ==> s.size + v.capacity + 1 <= MAX64
    requires LeaksLongTemp(v, s) ==> slack == 1
    ensures Bounded(Next(v, s), slack) && Next(v, s).capacity == v.capacity
  {
    match s
    case Begin(key, size, _) =>
    case Copy(temp, written) =>
      WithoutLast(v.dir, Entry(temp, written));
      UsedAppend(v.dir, Entry(temp, written));
    case CloseAndReplace => DeletionKeepsPending(v, v.upload.key, v.upload.key, v.upload.size, v.upload.temp);
    case Publish =>
      var others := Without(v.dir, v.upload.temp.name);
      WithoutFacts(others, v.upload.key);
      UsedAppend(Without(others, v.upload.key), Entry(v.upload.key, v.upload.temp.size));
    case Fail(tempRemoved) =>
    case Delete(name) =>
      WithoutFacts(v.dir, name);
      if v.upload.Written? || v.upload.Replaced? {
        DeletionKeepsPending(v, name, v.upload.key, v.upload.size, v.upload.temp);
      }
  }

  /** For any mix of successful and failed uploads and unlocked deletions, usage
      is at most the capacity whenever the lock is free, as long as the capacity
      checks have read every entry; it can exceed it by one byte, and never more,
      only if an over-long temporary file was left behind. */
  lemma {:induction false} UsageBounded(v: Volume, steps: seq<Step>, slack: nat)
    requires IsRun(v, steps) && Bounded(v, slack) && slack <= 1 && SizesFit(steps, v.capacity)
    requires EveryCheckReadsAll(v, steps) && (slack == 0 ==> NoLongLeak(v, steps))
    ensures Bounded(EndOf(v, steps), slack)
    ensures EndOf(v, steps).upload.Free? ==> Used(EndOf(v, steps).dir) <= v.capacity + slack
    ensures EndOf(v, steps).capacity == v.capacity
    decreases |steps|
  {
    if steps != [] {
      var rest := steps[1..];
      assert forall i :: 0 <= i < |rest| ==> rest[i] == steps[i + 1];
      StepKeepsBound(v, steps[0], slack);
      UsageBounded(Next(v, steps[0]), rest, slack);
    }
  }

  /** The leak breaks the bound exactly when the declared size had filled the
      volume to the last byte. */
  lemma LeakExceedsExactly(v: Volume)
    requires Bounded(v, 0) && LeaksLongTemp(v, Fail(false))
    ensures Used(Next(v, Fail(false)).dir) > v.capacity
            <==> Used(Without(v.dir, v.upload.temp.name)) + v.upload.size == v.capacity
  {
  }

  /** Such a run exists for every volume and every upload that fills it. */
  lemma LeakOverfills(v: Volume, key: string, size: nat, temp: string)
    requires v.upload.Free? && Used(v.dir) + size == v.capacity <= MAX64
    requires temp != key && !Has(v.dir, temp)
    ensures var steps := [Begin(key, size, {}), Copy(temp, size + 1), Fail(false)];
            IsRun(v, steps) && Used(EndOf(v, steps).dir) == v.capacity + 1 && EndOf(v, steps).upload.Free?
  {
    var steps := [Begin(key, size, {}), Copy(temp, size + 1), Fail(false)];
    CountedExactly(v.dir, {});
    var v1 := Next(v, steps[0]);
    var v2 := Next(v1, steps[1]);
    var v3 := Next(v2, steps[2]);
    UsedAppend(v.dir, Entry(temp, size + 1));
    assert steps[1..] == [Copy(temp, size + 1), Fail(false)];
    assert steps[1..][1..] == [Fail(false)];
    assert steps[1..][1..][1..] == [];
    assert IsRun(v3, []) && EndOf(v3, []) == v3;
    assert IsRun(v2, [Fail(false)]) && EndOf(v2, [Fail(false)]) == v3;
    assert IsRun(v1, steps[1..]) && EndOf(v1, steps[1..]) == v3;
  }

  /** The check as a caller can foresee it: besides the sizes that fit, it admits
      exactly those whose sum with the usage leaves int64. */
  lemma AdmitsExactly(v: Volume, size: nat, skipped: set<string>)
    requires Counted(v.dir, skipped) <= MAX64 && size <= MAX64 && v.capacity <= MAX64
    ensures Admits(v, size, skipped) <==>
            Counted(v.dir, skipped) + size <= v.capacity || Counted(v.dir, skipped) + size > MAX64
  {
    var exact := Counted(v.dir, skipped) + size;
    var sum: int := Wrap64(exact);
    var k :| sum == exact - k * TWO64;
    assert exact > MAX64 ==> k == 1;
  }

  /** An upload that fills what a reading left free ends over the capacity by
      exactly the bytes the reading skipped. */
  lemma SkippedBytesOverfill(v: Volume, key: string, temp: string, skipped: set<string>)
    requires v.upload.Free? && Counted(v.dir, skipped) <= v.capacity <= MAX64
    requires temp != key && !Has(v.dir, temp) && !Has(v.dir, key)
    ensures var size := v.capacity - Counted(v.dir, skipped);
            var steps := [Begin(key, size, skipped), Copy(temp, size), CloseAndReplace, Publish];
            && IsRun(v, steps) && EndOf(v, steps).upload.Free?
            && Used(EndOf(v, steps).dir) == v.capacity + (Used(v.dir) - Counted(v.dir, skipped))
  {
    var size := v.capacity - Counted(v.dir, skipped);
    var steps := [Begin(key, size, skipped), Copy(temp, size), CloseAndReplace, Publish];
    var e := Entry(temp, size);
    ReplaceBeside(v.dir, key, e);
    UsedAppend(v.dir, Entry(key, size));
    var v1 := Next(v, steps[0]);
    var v2 := Next(v1, steps[1]);
    var v3 := Next(v2, steps[2]);
    var v4 := Next(v3, steps[3]);
    assert v4.dir == v.dir + [Entry(key, size)];
    assert steps[1..] == [steps[1], steps[2], steps[3]] && steps[1..][1..] == [steps[2], steps[3]];
    assert steps[1..][1..][1..] == [steps[3]] && steps[1..][1..][1..][1..] == [];
    assert IsRun(v4, []) && EndOf(v4, []) == v4;
    assert IsRun(v3, [steps[3]]) && EndOf(v3, [steps[3]]) == v4;
    assert IsRun(v2, [steps[2], steps[3]]) && EndOf(v2, [steps[2], steps[3]]) == v4;
    assert IsRun(v1, steps[1..]) && EndOf(v1, steps[1..]) == v4;
  }

  // ---------- the volume as an object ----------

  datatype PutError =
    | InvalidKey | NegativeSize | DirectoryUnread | CapacityExceeded | CreateFailed | CopyFailed | LengthMismatch
    | ChmodFailed | CloseFailed | ReplaceFailed | RenameFailed | DeleteFailed

  /** What the operating system answers during one upload. */
  datatype Io = Io(
    listFails: bool, skipped: set<string>, temp: string, createFails: bool, copyFails: bool, written: nat,
    chmodFails: bool, closeFails: bool, replaceFails: bool, renameFails: bool, tempRemoved: bool)

  /** The upload failed after its temporary file was made. */
  predicate HasTemp(r: Result<(), PutError>) {
    r.Err? && r.error in {CopyFailed, LengthMismatch, ChmodFailed, CloseFailed, ReplaceFailed, RenameFailed}
  }

  /** The directory after an upload that got as far as its temporary file, or not. */
  function Left(dir: seq<Entry>, key: string, temp: Entry, r: Result<(), PutError>, tempRemoved: bool): seq<Entry> {
    if r.Ok? then Without(dir, key) + [Entry(key, temp.size)]
    else (if r.error == RenameFailed then Without(dir, key) else dir)
         + if HasTemp(r) && !tempRemoved then [temp] else []
  }

  lemma LeftExactly(dir: seq<Entry>, key: string, temp: Entry, r: Result<(), PutError>, tempRemoved: bool)
    requires !Has(dir, temp.name) && temp.name != key
    ensures var left := multiset(Left(dir, key, temp, r, tempRemoved));
            && (forall e: Entry :: e.name != key && e.name != temp.name ==> left[e] == multiset(dir)[e])
            && (forall e: Entry :: e.name == key ==>
                  left[e] == if r.Ok? then (if e == Entry(key, temp.size) then 1 else 0)
                             else if r.error == RenameFailed then 0 else multiset(dir)[e])
            && forall e: Entry :: e.name == temp.name ==>
                 left[e] == if HasTemp(r) && !tempRemoved && e == temp then 1 else 0
  {
    WithoutExactly(dir, key);
    AbsentExactly(dir, temp.name);
  }

  class LocalVolume {
    var state: Volume
    const validKey: string -> bool

    /** `objectKey` is ValidObjectKey. */
    constructor (capacity: nat, objectKey: string -> bool)
      ensures state == Volume([], capacity, Free) && validKey == objectKey
    {
      state := Volume([], capacity, Free);
      validKey := objectKey;
    }

    /** Gives up: the deferred removal of the temporary file, then the lock. */
    method Abandon(tempRemoved: bool)
      requires !state.upload.Free?
      modifies this`state
      ensures state == Next(old(state), Fail(tempRemoved))
    {
      state := Next(state, Fail(tempRemoved));
    }

    /** The temporary file and everything after it, under the volume lock. */
    method WriteAndPublish(key: string, size: nat, io: Io) returns (r: Result<(), PutError>)
      requires state.upload == Checked(key, size) && !Has(state.dir, io.temp) && io.temp != key
      requires io.written <= size + 1
      modifies this`state
      ensures state.upload.Free? && state.capacity == old(state).capacity
      ensures r == if io.createFails then Err(CreateFailed)
                   else if io.copyFails then Err(CopyFailed)
                   else if io.written != size then Err(LengthMismatch)
                   else if io.chmodFails then Err(ChmodFailed)
                   else if io.closeFails then Err(CloseFailed)
                   else if Has(old(state).dir, key) && io.replaceFails then Err(ReplaceFailed)
                   else if io.renameFails then Err(RenameFailed)
                   else Ok(())
      ensures state.dir == Left(old(state).dir, key, Entry(io.temp, io.written), r, io.tempRemoved)
    {
      if io.createFails {
        Abandon(io.tempRemoved);
        return Err(CreateFailed);
      }
      var dir := state.dir;
      WithoutLast(dir, Entry(io.temp, io.written));
      state := Next(state, Copy(io.temp, io.written));
      if io.copyFails {
        Abandon(io.tempRemoved);
        return Err(CopyFailed);
      }
      if io.written != size {
        Abandon(io.tempRemoved);
        return Err(LengthMismatch);
      }
      if io.chmodFails {
        Abandon(io.tempRemoved);
        return Err(ChmodFailed);
      }
      if io.closeFails {
        Abandon(io.tempRemoved);
        return Err(CloseFailed);
      }
      if Has(dir, key) && io.replaceFails {
        Abandon(io.tempRemoved);
        return Err(ReplaceFailed);
      }
      ReplaceBeside(dir, key, Entry(io.temp, io.written));
      state := Next(state, CloseAndReplace);
      if io.renameFails {
        Abandon(io.tempRemoved);
        return Err(RenameFailed);
      }
      state := Next(state, Publish);
      return Ok(());
    }

    /** One upload with nothing else running: publishes exactly the declared bytes
        under the key, or leaves the other objects alone. Entry by entry: whatever has
        another name is kept on every path; the key has the new object, the old one, or
        none after a failed rename; the temporary file is left only if its removal
        fails. */
    method Put(key: string, size: int, io: Io) returns (r: Result<(), PutError>)
      requires state.upload.Free? && !Has(state.dir, io.temp) && io.temp != key && io.written <= size + 1
      modifies this`state
      ensures state.upload.Free? && state.capacity == old(state).capacity
      ensures r == if !validKey(key) then Err(InvalidKey)
                   else if size < 0 then Err(NegativeSize)
                   else if io.listFails then Err(DirectoryUnread)
                   else if Wrap64(Counted(old(state).dir, io.skipped) + size) > old(state).capacity
                     then Err(CapacityExceeded)
                   else if io.createFails then Err(CreateFailed)
                   else if io.copyFails then Err(CopyFailed)
                   else if io.written != size then Err(LengthMismatch)
                   else if io.chmodFails then Err(ChmodFailed)
                   else if io.closeFails then Err(CloseFailed)
                   else if Has(old(state).dir, key) && io.replaceFails then Err(ReplaceFailed)
                   else if io.renameFails then Err(RenameFailed)
                   else Ok(())
      ensures r.Ok? ==> state.dir == Without(old(state).dir, key) + [Entry(key, size)]
      ensures r.Err? && io.tempRemoved ==>
                state.dir == old(state).dir || (r.error == RenameFailed && state.dir == Without(old(state).dir, key))
      ensures forall e: Entry :: e.name != key && e.name != io.temp ==>
                multiset(state.dir)[e] == multiset(old(state).dir)[e]
      ensures forall e: Entry :: e.name == key ==>
                multiset(state.dir)[e] == if r.Ok? then (if e == Entry(key, size) then 1 else 0)
                                          else if r.error == RenameFailed then 0 else multiset(old(state).dir)[e]
      ensures forall e: Entry :: e.name == io.temp ==>
                multiset(state.dir)[e] == if HasTemp(r) && !io.tempRemoved && e == Entry(io.temp, io.written) then 1
                                          else 0
    {
      AbsentExactly(state.dir, io.temp);
      if !validKey(key) {
        return Err(InvalidKey);
      }
      if size < 0 {
        return Err(NegativeSize);
      }
      if io.listFails {
        return Err(DirectoryUnread);
      }
      var used := UsedBytesLocked(state.dir, io.skipped);
      if Wrap64(used + size) > state.capacity {
        return Err(CapacityExceeded);
      }
      ghost var dir := state.dir;
      state := Next(state, Begin(key, size, io.skipped));
      r := WriteAndPublish(key, size, io);
      LeftExactly(dir, key, Entry(io.temp, io.written), r, io.tempRemoved);
    }

    /** Not under the upload's lock; a missing object is no error. `fails` is any
        other answer of the operating system. */
    method Remove(key: string, fails: bool) returns (r: Result<(), PutError>)
      requires state.upload.Free?
      modifies this`state
      ensures r == if !validKey(key) then Err(InvalidKey)
                   else if Has(old(state).dir, key) && fails then Err(DeleteFailed) else Ok(())
      ensures state == if r.Ok? then Next(old(state), Delete(key)) else old(state)
      ensures r.Ok? ==> !Has(state.dir, key)
      ensures !Has(old(state).dir, key) ==> state == old(state)
      ensures forall e: Entry :: e.name != key ==> multiset(state.dir)[e] == multiset(old(state).dir)[e]
      ensures r.Err? ==> state == old(state)
    {
      if !validKey(key) {
        return Err(InvalidKey);
      }
      WithoutFacts(state.dir, key);
      WithoutExactly(state.dir, key);
      if Has(state.dir, key) && fails {
        return Err(DeleteFailed);
      }
      state := Next(state, Delete(key));
      return Ok(());
    }
  }

  /** Replacing the destination leaves the temporary file where it is. */
  lemma ReplaceBeside(dir: seq<Entry>, key: string, temp: Entry)
    requires !Has(dir, temp.name) && temp.name != key
    ensures Without(dir + [temp], key) == Without(dir, key) + [temp]
    ensures Without(Without(dir + [temp], key), temp.name) == Without(dir, key)
    ensures Without(Without(dir, key), key) == Without(dir, key)
    ensures !Has(dir, key) ==> Without(dir, key) == dir
  {
    WithoutAppend(dir, temp, key);
    WithoutFacts(dir, key);
    WithoutLast(Without(dir, key), temp);
    WithoutFacts(Without(dir, key), key);
  }

  lemma {:induction false} WithoutAppend(dir: seq<Entry>, e: Entry, name: string)
    requires e.name != name
    ensures Without(dir + [e], name) == Without(dir, name) + [e]
  {
    if dir == [] {
      assert dir + [e] == [e];
      assert [e][1..] == [];
    } else {
      assert (dir + [e])[1..] == dir[1..] + [e];
      WithoutAppend(dir[1..], e, name);
    }
  }
}
