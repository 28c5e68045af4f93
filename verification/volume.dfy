// A directory on a file system that survives crashes only as far as it was told to: file
// contents after fsync of the file, names after fsync of the directory. At a crash every
// directory operation since the last directory fsync may individually be lost.
module Volume {
  datatype DirOp<Name> = Link(name: Name, ino: nat) | Move(from: Name, to: Name) | Unlink(name: Name)

  // `dir` is durable, `log` holds the operations since, `dirty` the unsynced files.
  datatype Disk<Name, Data> =
    Disk(dir: map<Name, nat>, log: seq<DirOp<Name>>, inodes: map<nat, Data>, dirty: set<nat>, next: nat)

  function Apply<Name>(dir: map<Name, nat>, op: DirOp<Name>): map<Name, nat> {
    match op
    case Link(name, ino) => dir[name := ino]
    case Move(from, to) => if from in dir then (dir - {from})[to := dir[from]] else dir
    case Unlink(name) => dir - {name}
  }

  // The directory as running programs see it.
  function ApplyAll<Name>(dir: map<Name, nat>, log: seq<DirOp<Name>>): map<Name, nat> {
    if log == [] then dir else Apply(ApplyAll(dir, log[..|log| - 1]), log[|log| - 1])
  }

  function View<Name, Data>(d: Disk<Name, Data>): map<Name, nat> {
    ApplyAll(d.dir, d.log)
  }

  lemma OneMoreOp<Name>(dir: map<Name, nat>, log: seq<DirOp<Name>>, op: DirOp<Name>)
    ensures ApplyAll(dir, log + [op]) == Apply(ApplyAll(dir, log), op)
    ensures ApplyAll(dir, []) == dir
  {
    assert (log + [op])[..|log|] == log;
  }

  // The directory after a crash that kept only the operations marked in `kept`.
  function Kept<Name>(dir: map<Name, nat>, log: seq<DirOp<Name>>, kept: seq<bool>): map<Name, nat>
    requires |kept| == |log|
  {
    if log == [] then dir
    else
      var before := Kept(dir, log[..|log| - 1], kept[..|log| - 1]);
      if kept[|log| - 1] then Apply(before, log[|log| - 1]) else before
  }

  ghost predicate CrashesTo<Name, Data>(d: Disk<Name, Data>, e: Disk<Name, Data>) {
    && e.log == [] && e.dirty == {} && e.next == d.next
    && e.inodes.Keys == d.inodes.Keys
    && (forall i :: i in d.inodes && i !in d.dirty ==> e.inodes[i] == d.inodes[i])
    && exists kept: seq<bool> :: |kept| == |d.log| && e.dir == Kept(d.dir, d.log, kept)
  }

  lemma CrashWitness<Name, Data>(d: Disk<Name, Data>, e: Disk<Name, Data>, kept: seq<bool>)
    requires e.log == [] && e.dirty == {} && e.next == d.next && e.inodes.Keys == d.inodes.Keys
    requires forall i :: i in d.inodes && i !in d.dirty ==> e.inodes[i] == d.inodes[i]
    requires |kept| == |d.log| && e.dir == Kept(d.dir, d.log, kept)
    ensures CrashesTo(d, e)
  {
  }

  predicate Removes<Name(==)>(op: DirOp<Name>, name: Name) {
    (op.Unlink? && op.name == name) || (op.Move? && op.from == name)
  }

  predicate Adds<Name(==)>(op: DirOp<Name>, name: Name) {
    (op.Link? && op.name == name) || (op.Move? && op.to == name)
  }

  // A durable name stays through every crash unless an operation since could remove it.
  lemma {:induction false} NameStays<Name>(dir: map<Name, nat>, log: seq<DirOp<Name>>, kept: seq<bool>, name: Name)
    requires |kept| == |log| && name in dir
    requires forall k :: 0 <= k < |log| ==> !Removes(log[k], name)
    ensures name in Kept(dir, log, kept)
  {
    if log != [] { NameStays(dir, log[..|log| - 1], kept[..|log| - 1], name); }
  }

  // A name nobody added is missing after every crash.
  lemma {:induction false} NameMissing<Name>(dir: map<Name, nat>, log: seq<DirOp<Name>>, kept: seq<bool>, name: Name)
    requires |kept| == |log| && name !in dir
    requires forall k :: 0 <= k < |log| ==> !Adds(log[k], name)
    ensures name !in Kept(dir, log, kept)
  {
    if log != [] { NameMissing(dir, log[..|log| - 1], kept[..|log| - 1], name); }
  }

  // What an untouched name points to is not affected.
  lemma {:induction false} NamePointsTo<Name>(dir: map<Name, nat>, log: seq<DirOp<Name>>, kept: seq<bool>, name: Name)
    requires |kept| == |log| && name in dir
    requires forall k :: 0 <= k < |log| ==> !Removes(log[k], name) && !Adds(log[k], name)
    ensures name in Kept(dir, log, kept) && Kept(dir, log, kept)[name] == dir[name]
  {
    if log != [] { NamePointsTo(dir, log[..|log| - 1], kept[..|log| - 1], name); }
  }

  lemma {:induction false} AllKept<Name>(dir: map<Name, nat>, log: seq<DirOp<Name>>, kept: seq<bool>)
    requires |kept| == |log| && forall k :: 0 <= k < |log| ==> kept[k]
    ensures Kept(dir, log, kept) == ApplyAll(dir, log)
  {
    if log != [] { AllKept(dir, log[..|log| - 1], kept[..|log| - 1]); }
  }

  // ----- System calls. Each one may fail and then changes nothing durable. -----

  class Directory<Name(==), Data> {
    var disk: Disk<Name, Data>
    // Every disk state a crash could have interrupted.
    ghost var past: seq<Disk<Name, Data>>
    const calm: bool

    ghost predicate Valid()
      reads this
    {
      && past != [] && past[|past| - 1] == disk
      && (forall i :: i in disk.inodes ==> i < disk.next)
      && disk.dirty <= disk.inodes.Keys
      && (forall n :: n in disk.dir ==> disk.dir[n] in disk.inodes)
      && forall k :: 0 <= k < |disk.log| && disk.log[k].Link? ==> disk.log[k].ino in disk.inodes
    }

    constructor (calm: bool)
      ensures Valid() && disk == Disk(map[], [], map[], {}, 0) && this.calm == calm && past == [disk]
    {
      disk := Disk(map[], [], map[], {}, 0);
      past := [Disk(map[], [], map[], {}, 0)];
      this.calm := calm;
    }

    // open(O_CREAT|O_EXCL): refused if the name exists; the new file's contents are not durable.
    method Create(name: Name, blank: Data) returns (ok: bool, ino: nat)
      requires Valid()
      modifies this
      ensures Valid()
      ensures !ok ==> disk == old(disk) && past == old(past)
      ensures ok ==> name !in View(old(disk)) && ino == old(disk).next && ino !in old(disk).inodes
      ensures ok ==> disk == old(disk).(log := old(disk).log + [Link(name, ino)], inodes := old(disk).inodes[ino := blank],
                                         dirty := old(disk).dirty + {ino}, next := ino + 1)
      ensures ok ==> past == old(past) + [disk]
      ensures calm && name !in View(old(disk)) ==> ok
    {
      var fails: bool := *;
      ino := disk.next;
      if name in View(disk) || (fails && !calm) { return false, ino; }
      disk := disk.(log := disk.log + [Link(name, ino)], inodes := disk.inodes[ino := blank], dirty := disk.dirty + {ino}, next := ino + 1);
      past := past + [disk];
      ok := true;
    }

    // write and fsync of one file; a failure leaves anything in it, not durably.
    method WriteSync(ino: nat, data: Data) returns (ok: bool)
      requires Valid() && ino in disk.inodes && ino in disk.dirty
      modifies this
      ensures Valid()
      ensures ino in disk.inodes && disk == old(disk).(inodes := old(disk).inodes[ino := disk.inodes[ino]], dirty := disk.dirty)
      ensures ok ==> disk.inodes[ino] == data && disk.dirty == old(disk).dirty - {ino}
      ensures !ok ==> disk.dirty == old(disk).dirty
      ensures past == old(past) + [disk]
      ensures calm ==> ok
    {
      var fails: bool := *;
      ok := calm || !fails;
      if ok {
        disk := disk.(inodes := disk.inodes[ino := data], dirty := disk.dirty - {ino});
      } else {
        var torn: bool := *;
        if torn { disk := disk.(inodes := disk.inodes[ino := data]); }
      }
      past := past + [disk];
    }

    // A crash: any of the unsynced operations may be lost, and unsynced contents are arbitrary.
    method Restart()
      requires Valid()
      modifies this
      ensures Valid() && CrashesTo(old(disk), disk) && past == old(past) + [disk]
    {
      var kept: seq<bool> := *;
      if |kept| != |disk.log| { kept := seq(|disk.log|, _ => false); }
      var torn: map<nat, Data> := *;
      var inodes := map i | i in disk.inodes :: if i in disk.dirty && i in torn then torn[i] else disk.inodes[i];
      KeptPoints(disk.dir, disk.log, kept, disk.inodes.Keys);
      ghost var was := disk;
      disk := Disk(Kept(disk.dir, disk.log, kept), [], inodes, {}, disk.next);
      past := past + [disk];
      assert inodes.Keys == was.inodes.Keys;
      CrashWitness(was, disk, kept);
    }

    method SyncDir() returns (ok: bool)
      requires Valid()
      modifies this
      ensures Valid()
      ensures disk == if ok then old(disk).(dir := View(old(disk)), log := []) else old(disk)
      ensures past == if ok then old(past) + [disk] else old(past)
      ensures calm ==> ok
    {
      var fails: bool := *;
      ok := calm || !fails;
      if ok {
        ViewPoints(disk);
        disk := disk.(dir := View(disk), log := []);
        past := past + [disk];
      }
    }

    method Rename(from: Name, to: Name) returns (ok: bool)
      requires Valid()
      modifies this
      ensures Valid()
      ensures !ok ==> disk == old(disk) && past == old(past)
      ensures ok ==> from in View(old(disk)) && disk == old(disk).(log := old(disk).log + [Move(from, to)]) && past == old(past) + [disk]
      ensures calm && from in View(old(disk)) ==> ok
    {
      var fails: bool := *;
      if from !in View(disk) || (fails && !calm) { return false; }
      disk := disk.(log := disk.log + [Move(from, to)]);
      past := past + [disk];
      ok := true;
    }

    method Remove(name: Name) returns (ok: bool)
      requires Valid()
      modifies this
      ensures Valid()
      ensures !ok ==> disk == old(disk) && past == old(past)
      ensures ok ==> disk == old(disk).(log := old(disk).log + [Unlink(name)]) && past == old(past) + [disk]
      ensures calm && name in View(old(disk)) ==> ok
    {
      var fails: bool := *;
      if name !in View(disk) || (fails && !calm) { return false; }
      disk := disk.(log := disk.log + [Unlink(name)]);
      past := past + [disk];
      ok := true;
    }
  }

  lemma {:induction false} ViewPointsAll<Name>(dir: map<Name, nat>, log: seq<DirOp<Name>>, inodes: set<nat>)
    requires forall n :: n in dir ==> dir[n] in inodes
    requires forall k :: 0 <= k < |log| && log[k].Link? ==> log[k].ino in inodes
    ensures forall n :: n in ApplyAll(dir, log) ==> ApplyAll(dir, log)[n] in inodes
  {
    if log != [] { ViewPointsAll(dir, log[..|log| - 1], inodes); }
  }

  lemma {:induction false} KeptPoints<Name>(dir: map<Name, nat>, log: seq<DirOp<Name>>, kept: seq<bool>, inodes: set<nat>)
    requires |kept| == |log| && forall n :: n in dir ==> dir[n] in inodes
    requires forall k :: 0 <= k < |log| && log[k].Link? ==> log[k].ino in inodes
    ensures forall n :: n in Kept(dir, log, kept) ==> Kept(dir, log, kept)[n] in inodes
  {
    if log != [] { KeptPoints(dir, log[..|log| - 1], kept[..|log| - 1], inodes); }
  }

  lemma ViewPoints<Name, Data>(d: Disk<Name, Data>)
    requires forall n :: n in d.dir ==> d.dir[n] in d.inodes
    requires forall k :: 0 <= k < |d.log| && d.log[k].Link? ==> d.log[k].ino in d.inodes
    ensures forall n :: n in View(d) ==> View(d)[n] in d.inodes
  {
    ViewPointsAll(d.dir, d.log, d.inodes.Keys);
  }
}
