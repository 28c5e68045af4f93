// The recovery catalog: one signed watermark, published crash-safely. A pending marker is
// made durable before the record is replaced and removed only after the replacement is
// durable, so an interrupted publication is refused instead of being guessed at.
module Catalog {
  import opened Wrappers
  import opened Volume

  const UINT64_MAX: nat := 0xffff_ffff_ffff_ffff
  const INT64_MAX: nat := 0x7fff_ffff_ffff_ffff
  const CATALOG_MAX: nat := 16384

  // ----- Receipts and watermarks -----

  datatype Key = Key(id: nat) | BadKey

  // `created` is absent when the timestamp is missing, zero or not canonical.
  datatype Payload = Payload(version: int, source: string, sequence: nat, created: Option<int>,
                             cipher: string, bytes: int, recipient: string)

  // SHA-256 of a payload, taken as injective.
  datatype Hash = NoHash | HashOf(payload: Payload) | Malformed
  datatype Floor = Floor(sequence: nat, hash: Hash)

  // An ideal signature: only the holder of the key makes one that verifies.
  datatype Signature = Signed(signer: Key, payload: Payload) | Forged
  datatype Receipt = Receipt(payload: Payload, signature: Signature)

  datatype Pins = Pins(source: string, signer: Key, recipient: Option<string>)
  datatype Policy = Policy(signer: Key, source: string, now: Option<int>, maxAge: int, maxSkew: int, watermark: Floor)

  datatype Record = Record(version: int, source: string, signer: Key, recipient: string,
                           bootstrap: Floor, current: Floor, last: Option<Receipt>)

  predicate HexDigest(s: string) {
    |s| == 64 && forall i :: 0 <= i < |s| ==> '0' <= s[i] <= '9' || 'a' <= s[i] <= 'f'
  }

  predicate ValidPins(p: Pins) { HexDigest(p.source) && p.signer.Key? && p.recipient.Some? && HexDigest(p.recipient.value) }

  predicate ValidFloor(f: Floor) {
    f.sequence <= UINT64_MAX && if f.sequence == 0 then f.hash == NoHash else f.hash.HashOf?
  }

  // Sequences are unsigned and byte counts signed 64-bit numbers; times are nanoseconds.
  predicate ValidPayload(p: Payload) {
    && p.version == 1 && HexDigest(p.source) && HexDigest(p.cipher) && HexDigest(p.recipient)
    && 0 < p.sequence <= UINT64_MAX && 0 < p.bytes <= INT64_MAX && p.created.Some?
  }

  function FloorOf(p: Payload): Floor { Floor(p.sequence, HashOf(p)) }

  predicate Genuine(r: Receipt, signer: Key) {
    ValidPayload(r.payload) && r.signature == Signed(signer, r.payload)
  }

  // x is the same watermark as y or a later one.
  predicate AtLeast(x: Floor, y: Floor) { x.sequence > y.sequence || x == y }

  predicate ValidPolicy(p: Policy) {
    p.signer.Key? && HexDigest(p.source) && p.now.Some? && p.maxAge > 0 && p.maxSkew >= 0 && ValidFloor(p.watermark)
  }

  // VerifyReceipt, check by check in its order.
  method VerifyReceipt(r: Receipt, recipient: Option<string>, policy: Policy) returns (ok: bool)
    ensures ok <==> Acceptable(r, recipient, policy)
    ensures ok ==> AtLeast(FloorOf(r.payload), policy.watermark)
  {
    if !policy.signer.Key? || !HexDigest(policy.source) || policy.now.None? || policy.maxAge <= 0 || policy.maxSkew < 0 { return false; }
    if policy.watermark.sequence > UINT64_MAX || (policy.watermark.sequence == 0 && policy.watermark.hash != NoHash) { return false; }
    if policy.watermark.sequence > 0 && !policy.watermark.hash.HashOf? { return false; }
    var p := r.payload;
    if !ValidPayload(p) || r.signature != Signed(policy.signer, p) || recipient.None? { return false; }
    if p.source != policy.source || p.recipient != recipient.value { return false; }
    var now := policy.now.value;
    if p.created.value > now + policy.maxSkew || p.created.value < now - policy.maxAge { return false; }
    if p.sequence < policy.watermark.sequence { return false; }
    return p.sequence != policy.watermark.sequence || HashOf(p) == policy.watermark.hash;
  }

  // A receipt is accepted if it is genuine, meant for this deployment and key, fresh, and
  // no older than the watermark nor in conflict with it.
  predicate Acceptable(r: Receipt, recipient: Option<string>, policy: Policy) {
    && ValidPolicy(policy) && Genuine(r, policy.signer)
    && r.payload.source == policy.source && recipient == Some(r.payload.recipient)
    && policy.now.value - policy.maxAge <= r.payload.created.value <= policy.now.value + policy.maxSkew
    && AtLeast(FloorOf(r.payload), policy.watermark)
  }

  // ----- Records -----

  predicate ValidRecord(r: Record, pins: Pins) {
    && r.version == 1 && r.source == pins.source && r.signer == pins.signer && Some(r.recipient) == pins.recipient
    && ValidFloor(r.bootstrap) && ValidFloor(r.current) && r.current.sequence >= r.bootstrap.sequence
    && match r.last
       case None => r.current == r.bootstrap
       case Some(receipt) =>
         && Genuine(receipt, pins.signer)
         && receipt.payload.source == r.source && receipt.payload.recipient == r.recipient
         && r.current == FloorOf(receipt.payload)
         && (r.current.sequence == r.bootstrap.sequence ==> r.current == r.bootstrap)
  }

  // ----- The size of a record's text -----

  function DecimalLength(n: nat): (k: nat)
    ensures k > 0
  {
    if n < 10 then 1 else DecimalLength(n / 10) + 1
  }

  // The fraction of a second is written without trailing zeros, and not at all when zero.
  function FractionLength(n: nat, width: nat): nat
    decreases width
  {
    if width > 0 && n % 10 == 0 then FractionLength(n / 10, width - 1) else width
  }

  function StampLength(created: int): nat {
    var fraction: nat := created % 1_000_000_000;
    20 + if fraction == 0 then 0 else 1 + FractionLength(fraction, 9)
  }

  function HashLength(h: Hash): nat { if h.HashOf? then 64 else 0 }

  function FloorSize(f: Floor): nat {
    33 + DecimalLength(f.sequence) + HashLength(f.hash)
  }

  function ReceiptSize(r: Receipt): nat {
    var p := r.payload;
    141
    + |p.source| + DecimalLength(p.sequence) + (if p.created.Some? then StampLength(p.created.value) else 0)
    + |p.cipher| + DecimalLength(if p.bytes > 0 then p.bytes else 0) + |p.recipient| + 88
  }

  // The length of a record's canonical JSON text. The constants are the lengths of the
  // field names and punctuation of a record, a floor and a receipt; digests are 64 digits
  // and a signature is 88 characters of base64.
  function RecordSize(r: Record): nat {
    93
    + |r.source| + 64 + |r.recipient| + FloorSize(r.bootstrap) + FloorSize(r.current)
    + if r.last.Some? then 16 + ReceiptSize(r.last.value) else 0
  }

  lemma {:induction false} DecimalBound(n: nat, k: nat, bound: nat)
    requires k > 0 && bound > 0 && n < bound && bound <= Ten(k)
    ensures DecimalLength(n) <= k
    decreases k
  {
    if n >= 10 { DecimalBound(n / 10, k - 1, Ten(k - 1)); }
  }

  function Ten(k: nat): nat { if k == 0 then 1 else 10 * Ten(k - 1) }

  lemma {:induction false} FractionBound(n: nat, width: nat)
    ensures FractionLength(n, width) <= width
    decreases width
  {
    if width > 0 && n % 10 == 0 { FractionBound(n / 10, width - 1); }
  }

  lemma Ten20()
    ensures Ten(20) == 100_000_000_000_000_000_000
  {
    assert Ten(5) == 100000;
    assert Ten(8) == 1000 * Ten(5);
    assert Ten(11) == 1000 * Ten(8);
    assert Ten(14) == 1000 * Ten(11);
    assert Ten(17) == 1000 * Ten(14);
    assert Ten(20) == 1000 * Ten(17);
  }

  // No record the catalog accepts ever comes near its size limit.
  lemma ValidFits(r: Record, pins: Pins)
    requires ValidRecord(r, pins) && ValidPins(pins)
    ensures 0 < RecordSize(r) <= 2048
  {
    Ten20();
    DecimalBound(r.bootstrap.sequence, 20, UINT64_MAX + 1);
    DecimalBound(r.current.sequence, 20, UINT64_MAX + 1);
    if r.last.Some? {
      var p := r.last.value.payload;
      DecimalBound(p.sequence, 20, UINT64_MAX + 1);
      DecimalBound(p.bytes, 20, INT64_MAX + 1);
      FractionBound(p.created.value % 1_000_000_000, 9);
    }
  }

  // The later record keeps the catalog's identity and never lowers its watermark.
  predicate Advances(a: Record, b: Record) {
    && AtLeast(b.current, a.current)
    && b.bootstrap == a.bootstrap && b.source == a.source && b.signer == a.signer && b.recipient == a.recipient
  }

  predicate Follows(a: Option<Record>, b: Option<Record>) {
    a.None? || (b.Some? && Advances(a.value, b.value))
  }

  // ----- The catalog directory -----

  datatype Name = Lock | State | Pending | Next | Stray
  datatype Data = Blank | LockText | Intent(record: Record) | Saved(record: Record)

  // lockedCatalog: exactly the lock and the state file, both intact, under these pins.
  function Opened(dir: map<Name, nat>, inodes: map<nat, Data>, pins: Pins): Option<Record> {
    if ValidPins(pins) && dir.Keys == {Lock, State} && dir[Lock] in inodes && inodes[dir[Lock]] == LockText
       && dir[State] in inodes && inodes[dir[State]].Saved? && RecordSize(inodes[dir[State]].record) <= CATALOG_MAX
       && ValidRecord(inodes[dir[State]].record, pins)
    then Some(inodes[dir[State]].record) else None
  }

  ghost predicate NoState(d: Disk<Name, Data>) {
    State !in d.dir && forall k :: 0 <= k < |d.log| ==> !Adds(d.log[k], State)
  }

  // The pending marker is durable and nothing since could remove it.
  ghost predicate Marked(d: Disk<Name, Data>) {
    Pending in d.dir && forall k :: 0 <= k < |d.log| ==> !Removes(d.log[k], Pending)
  }

  // This record is durably in place and nothing since could replace it.
  ghost predicate Holds(d: Disk<Name, Data>, r: Record) {
    && State in d.dir && d.dir[State] in d.inodes && d.dir[State] !in d.dirty && d.inodes[d.dir[State]] == Saved(r)
    && forall k :: 0 <= k < |d.log| ==> !Adds(d.log[k], State) && !Removes(d.log[k], State)
  }

  ghost predicate Phase(d: Disk<Name, Data>, at: Option<Record>) {
    match at
    case None => NoState(d)
    case Some(r) => Marked(d) || Holds(d, r)
  }

  // Whatever a crash leaves, the catalog either refuses to open or opens with `at`.
  lemma PhaseServes(d: Disk<Name, Data>, at: Option<Record>, e: Disk<Name, Data>, pins: Pins)
    requires Phase(d, at) && CrashesTo(d, e)
    ensures Phase(e, at)
    ensures Opened(e.dir, e.inodes, pins).Some? ==> Opened(e.dir, e.inodes, pins) == at
  {
    var kept: seq<bool> :| |kept| == |d.log| && e.dir == Kept(d.dir, d.log, kept);
    if at.None? {
      NameMissing(d.dir, d.log, kept, State);
    } else if Marked(d) {
      NameStays(d.dir, d.log, kept, Pending);
      assert Pending in e.dir.Keys;
    } else {
      NamePointsTo(d.dir, d.log, kept, State);
    }
  }

  // The same without a crash: a record that opens is durably held.
  lemma PhaseOpens(d: Disk<Name, Data>, at: Option<Record>, pins: Pins)
    requires Phase(d, at) && Opened(View(d), d.inodes, pins).Some?
    ensures Opened(View(d), d.inodes, pins) == at && Holds(d, at.value)
  {
    var kept := seq(|d.log|, _ => true);
    AllKept(d.dir, d.log, kept);
    if at.None? {
      NameMissing(d.dir, d.log, kept, State);
    } else {
      if Marked(d) { NameStays(d.dir, d.log, kept, Pending); }
      NamePointsTo(d.dir, d.log, kept, State);
    }
  }

  // Creating any file but the state file, or writing to one not yet durable, changes nothing
  // a crash could serve.
  lemma CreateKeeps(d: Disk<Name, Data>, at: Option<Record>, name: Name, ino: nat, blank: Data)
    requires Phase(d, at) && name != State && ino !in d.inodes
    ensures Phase(d.(log := d.log + [Link(name, ino)], inodes := d.inodes[ino := blank], dirty := d.dirty + {ino}, next := ino + 1), at)
  {
  }

  lemma WriteKeeps(d: Disk<Name, Data>, at: Option<Record>, ino: nat, e: Disk<Name, Data>)
    requires Phase(d, at) && ino in d.dirty && ino in e.inodes
    requires e.dirty <= d.dirty && e == d.(inodes := d.inodes[ino := e.inodes[ino]], dirty := e.dirty)
    ensures Phase(e, at)
  {
  }

  lemma MarkedPhase(d: Disk<Name, Data>, r: Record)
    requires Marked(d)
    ensures Phase(d, Some(r))
  {
  }

  lemma MarkedView(d: Disk<Name, Data>)
    requires Marked(d)
    ensures Pending in View(d)
  {
    var kept := seq(|d.log|, _ => true);
    AllKept(d.dir, d.log, kept);
    NameStays(d.dir, d.log, kept, Pending);
  }

  lemma NowMarked(d: Disk<Name, Data>)
    requires d.log == [] && Pending in d.dir
    ensures Marked(d)
  {
  }

  lemma MarkedMove(d: Disk<Name, Data>)
    requires Marked(d)
    ensures Marked(d.(log := d.log + [Move(Next, State)]))
  {
  }

  lemma HeldUnmarked(d: Disk<Name, Data>, r: Record)
    requires Holds(d, r) && d.log == []
    ensures Holds(d.(log := d.log + [Unlink(Pending)]), r) && Holds(d.(dir := d.dir - {Pending}), r)
  {
  }

  lemma HeldPhase(d: Disk<Name, Data>, r: Record)
    requires Holds(d, r)
    ensures Phase(d, Some(r))
  {
  }

  lemma SteadySelf(a: seq<Option<Record>>)
    requires a != []
    ensures Steady(a, a)
  {
  }

  lemma SteadyPush(a: seq<Option<Record>>, b: seq<Option<Record>>)
    requires Steady(a, b)
    ensures Steady(a, b + [a[|a| - 1]]) && a != []
  {
  }

  lemma SteadyLast(a: seq<Option<Record>>, b: seq<Option<Record>>)
    requires Steady(a, b)
    ensures b[|b| - 1] == a[|a| - 1]
  {
  }

  lemma Unchanged(a: seq<Option<Record>>, r: Record)
    requires a != []
    ensures Extends(a, a, r)
  {
  }

  lemma StillSteady(a: seq<Option<Record>>, b: seq<Option<Record>>, c: seq<Option<Record>>)
    requires Steady(a, b) && Steady(b, c)
    ensures Steady(a, c)
  {
    assert b[|b| - 1] == a[|a| - 1];
  }

  lemma StillExtends(a: seq<Option<Record>>, b: seq<Option<Record>>, c: seq<Option<Record>>, r: Record)
    requires Extends(a, b, r) && b[|b| - 1] == Some(r) && Steady(b, c)
    ensures Extends(a, c, r)
  {
  }

  lemma FollowsSelf(a: Option<Record>)
    ensures Follows(a, a)
  {
  }

  // Nothing changed about what a crash could serve.
  ghost predicate Steady(before: seq<Option<Record>>, after: seq<Option<Record>>) {
    before != [] && before <= after && forall i :: |before| <= i < |after| ==> after[i] == before[|before| - 1]
  }

  // Until `record` may be served, everything that may is what was there before.
  ghost predicate Extends(before: seq<Option<Record>>, after: seq<Option<Record>>, record: Record) {
    && before != [] && before <= after
    && forall i :: |before| <= i < |after| ==> after[i] in {before[|before| - 1], Some(record)}
  }

  lemma NewPhase(d: Disk<Name, Data>)
    requires State !in d.dir && d.log == []
    ensures Phase(d, None)
  {
  }

  lemma EmptyIsNew(d: Disk<Name, Data>, at: Option<Record>)
    requires Phase(d, at) && View(d) == map[]
    ensures at.None?
  {
    var kept := seq(|d.log|, _ => true);
    AllKept(d.dir, d.log, kept);
    if at.Some? {
      if Marked(d) { NameStays(d.dir, d.log, kept, Pending); } else { NamePointsTo(d.dir, d.log, kept, State); }
    }
  }

  lemma FollowsNone(r: Record)
    ensures Follows(None, Some(r))
  {
  }

  // The caller's policy with the stored floor differs from it in the floor only.
  lemma StoredFloor(receipt: Receipt, recipient: Option<string>, policy: Policy, record: Record, pins: Pins)
    requires Acceptable(receipt, recipient, policy) && ValidRecord(record, pins)
    ensures Acceptable(receipt, recipient, policy.(watermark := record.current)) <==> AtLeast(FloorOf(receipt.payload), record.current)
  {
  }

  // Every record an advance writes passes the catalog's own validation.
  lemma AdvancedValid(receipt: Receipt, recipient: Option<string>, policy: Policy, record: Record, pins: Pins)
    requires Acceptable(receipt, recipient, policy) && ValidRecord(record, pins) && pins == Pins(policy.source, policy.signer, recipient)
    requires AtLeast(FloorOf(receipt.payload), record.current)
    ensures
      var advanced := record.(current := FloorOf(receipt.payload), last := Some(receipt));
      ValidRecord(advanced, pins) && Advances(record, advanced) && Follows(Some(record), Some(advanced))
  {
  }

  lemma OpenedNames(d: Disk<Name, Data>, pins: Pins)
    requires Opened(View(d), d.inodes, pins).Some?
    ensures Next !in View(d) && Pending !in View(d) && ValidPins(pins)
  {
    assert Next !in View(d).Keys && Pending !in View(d).Keys;
  }

  // After a publication the catalog opens with the published record.
  lemma Reopens(d: Disk<Name, Data>, e: Disk<Name, Data>, r: Record, pins: Pins)
    requires Opened(View(d), d.inodes, pins).Some? && ValidRecord(r, pins)
    requires RecordSize(r) <= CATALOG_MAX && e.log == [] && Holds(e, r) && State in e.dir && e.dir == View(d)[State := e.dir[State]]
    requires forall i :: i in d.inodes ==> i in e.inodes && e.inodes[i] == d.inodes[i]
    ensures Opened(View(e), e.inodes, pins) == Some(r)
  {
  }

  // ----- The catalog -----

  class Catalog {
    const files: Directory<Name, Data>
    // For every disk state so far, the only record a crash there can leave open.
    ghost var at: seq<Option<Record>>
    // Every watermark an advance has reported as accepted.
    ghost var acked: set<Floor>

    ghost predicate Valid()
      reads this, files
    {
      && files.Valid() && |at| == |files.past|
      && (forall i :: 0 <= i < |at| ==> Phase(files.past[i], at[i]))
      && (forall i, j :: 0 <= i <= j < |at| ==> Follows(at[i], at[j]))
      && (forall f :: f in acked ==> Current().Some? && AtLeast(Current().value.current, f))
    }

    ghost function Current(): Option<Record>
      reads this
    {
      if at == [] then None else at[|at| - 1]
    }

    constructor (files: Directory<Name, Data>)
      requires files.Valid() && files.disk == Disk(map[], [], map[], {}, 0) && files.past == [files.disk]
      ensures Valid() && this.files == files && acked == {} && fresh(this)
    {
      this.files, at, acked := files, [None], {};
    }

    // The disk reached a new state; `record` is what a crash there can leave.
    ghost method Reached(was: seq<Disk<Name, Data>>, record: Option<Record>)
      requires |at| == |was| > 0 && files.Valid() && files.past == was + [files.disk]
      requires forall i :: 0 <= i < |at| ==> Phase(was[i], at[i])
      requires forall i, j :: 0 <= i <= j < |at| ==> Follows(at[i], at[j])
      requires forall f :: f in acked ==> Current().Some? && AtLeast(Current().value.current, f)
      requires Phase(files.disk, record) && Follows(Current(), record)
      modifies this`at
      ensures Valid() && at == old(at) + [record]
    {
      ghost var before := at;
      at := at + [record];
      forall i, j | 0 <= i <= j < |at| ensures Follows(at[i], at[j]) {
        if j == |before| && i < j {
          assert Follows(before[i], before[j - 1]);
          FollowsOn(before[i], before[j - 1], record);
        }
      }
      assert Current() == record;
    }

    static lemma FollowsOn(a: Option<Record>, b: Option<Record>, c: Option<Record>)
      requires Follows(a, b) && Follows(b, c)
      ensures Follows(a, c)
    {
    }

    // The directory or its lock may turn out to have been replaced by someone else.
    method StillBound() returns (ok: bool)
      ensures files.calm ==> ok
    {
      var moved: bool := *;
      ok := files.calm || !moved;
    }

    // The machine stops here and starts again later.
    method Crash()
      requires Valid()
      modifies this, files
      ensures Valid() && acked == old(acked) && Current() == old(Current())
      ensures CrashesTo(old(files.disk), files.disk)
    {
      ghost var was, d, record := files.past, files.disk, Current();
      files.Restart();
      PhaseServes(d, record, files.disk, Pins("", BadKey, None));
      Reached(was, record);
    }

    // A new file with durable contents under a name that is not durable yet.
    method WriteNew(name: Name, data: Data) returns (ok: bool, ino: nat)
      requires Valid() && name != State
      modifies this`at, files
      ensures Valid() && Steady(old(at), at)
      ensures ok ==> name !in View(old(files.disk)) && ino == old(files.disk.next)
      ensures ok ==> files.disk == old(files.disk).(log := old(files.disk.log) + [Link(name, ino)],
        inodes := old(files.disk.inodes)[ino := data], dirty := old(files.disk.dirty), next := ino + 1)
      ensures files.calm && name !in View(old(files.disk)) ==> ok
    {
      hide Phase, Follows, Steady;
      ghost var labels := at;
      SteadySelf(labels);
      ghost var was, d, before := files.past, files.disk, Current();
      FollowsSelf(before);
      ok, ino := files.Create(name, Blank);
      if !ok { return; }
      CreateKeeps(d, before, name, ino, Blank);
      SteadyPush(labels, at);
      Reached(was, before);
      ghost var created, mid := files.past, files.disk;
      ok := files.WriteSync(ino, data);
      WriteKeeps(mid, before, ino, files.disk);
      SteadyPush(labels, at);
      Reached(created, before);
      if ok {
        assert mid.dirty == d.dirty + {ino} && ino !in d.dirty;
        assert files.disk.inodes == d.inodes[ino := data];
      }
    }

    // The marker, its contents and its name, all durable.
    method MarkIntent(record: Record) returns (ok: bool)
      requires Valid() && Follows(Current(), Some(record))
      modifies this`at, files
      ensures Valid() && Extends(old(at), at, record)
      ensures ok ==> Current() == Some(record) && Pending !in View(old(files.disk))
      ensures ok ==> files.disk == old(files.disk).(dir := View(old(files.disk))[Pending := old(files.disk.next)], log := [],
        inodes := old(files.disk.inodes)[old(files.disk.next) := Intent(record)], next := old(files.disk.next) + 1)
      ensures files.calm && Pending !in View(old(files.disk)) ==> ok
    {
      hide Phase, Follows;
      var ino;
      ok, ino := WriteNew(Pending, Intent(record));
      if !ok { return; }
      ghost var was := files.past;
      ok := files.SyncDir();
      if !ok { return; }
      MarkedPhase(files.disk, record);
      Reached(was, Some(record));
    }

    // Under the marker: the new record in a file of its own, then renamed over the old one.
    method Replace(record: Record) returns (ok: bool)
      requires Valid() && Current() == Some(record)
      requires files.disk.log == [] && Pending in files.disk.dir && Next !in files.disk.dir
      modifies this`at, files
      ensures Valid() && Steady(old(at), at)
      ensures ok ==>
        var ino := old(files.disk.next);
        files.disk == old(files.disk).(dir := old(files.disk.dir)[State := ino], inodes := old(files.disk.inodes)[ino := Saved(record)], next := ino + 1)
      ensures ok ==> Holds(files.disk, record)
      ensures files.calm ==> ok
    {
      hide Phase, Follows, ApplyAll, Steady;
      ghost var dir, labels := files.disk.dir, at;
      OneMoreOp(dir, [], Link(Next, files.disk.next));
      var ino;
      ok, ino := WriteNew(Next, Saved(record));
      if !ok { return; }
      ok := StillBound();
      if !ok { return; }
      ghost var between := at;
      SteadyLast(labels, between);
      assert files.disk.log == [Link(Next, ino)];
      OneMoreOp(dir, [Link(Next, ino)], Move(Next, State));
      assert (dir[Next := ino] - {Next})[State := ino] == dir[State := ino];
      ok := RenameOver(record);
      StillSteady(labels, between, at);
    }

    method RenameOver(record: Record) returns (ok: bool)
      requires Valid() && Current() == Some(record) && Marked(files.disk)
      modifies this`at, files
      ensures Valid() && Steady(old(at), at)
      ensures ok ==>
        files.disk == old(files.disk).(dir := ApplyAll(old(files.disk.dir), old(files.disk.log) + [Move(Next, State)]), log := [])
      ensures files.calm && Next in View(old(files.disk)) ==> ok
    {
      hide Phase, Follows, ApplyAll, Marked, Steady;
      ghost var labels := at;
      SteadySelf(labels);
      FollowsSelf(Some(record));
      MarkedMove(files.disk);
      ghost var was := files.past;
      ok := files.Rename(Next, State);
      if !ok { return; }
      MarkedPhase(files.disk, record);
      SteadyPush(labels, at);
      Reached(was, Some(record));
      ok := StillBound();
      if !ok { return; }
      OneMoreOp(old(files.disk.dir), old(files.disk.log), Move(Next, State));
      was := files.past;
      MarkedView(files.disk);
      ok := files.SyncDir();
      if !ok { return; }
      NowMarked(files.disk);
      MarkedPhase(files.disk, record);
      SteadyPush(labels, at);
      Reached(was, Some(record));
    }

    // Once the record is durably in place the marker goes.
    method Unmark(record: Record) returns (ok: bool)
      requires Valid() && Current() == Some(record) && files.disk.log == [] && Pending in files.disk.dir
      requires Holds(files.disk, record)
      modifies this`at, files
      ensures Valid() && Steady(old(at), at)
      ensures ok ==> files.disk == old(files.disk).(dir := old(files.disk.dir) - {Pending})
      ensures files.calm ==> ok
    {
      hide Phase, Follows, ApplyAll, Holds, Steady;
      ghost var labels := at;
      SteadySelf(labels);
      ghost var was := files.past;
      HeldUnmarked(files.disk, record);
      FollowsSelf(Some(record));
      OneMoreOp(files.disk.dir, [], Unlink(Pending));
      ok := files.Remove(Pending);
      if !ok { return; }
      HeldPhase(files.disk, record);
      SteadyPush(labels, at);
      Reached(was, Some(record));
      was := files.past;
      assert files.disk.log == [] + [Unlink(Pending)];
      ok := files.SyncDir();
      if !ok { return; }
      HeldPhase(files.disk, record);
      SteadyPush(labels, at);
      Reached(was, Some(record));
    }

    // commitCatalog. It succeeds only when exactly the new record is durable; when it stops
    // early, a crash leaves the old record, the new one, or a catalog that refuses to open.
    method Commit(record: Record) returns (ok: bool)
      requires Valid() && Follows(Current(), Some(record)) && Next !in View(files.disk)
      modifies this`at, files
      ensures Valid() && Extends(old(at), at, record)
      ensures ok ==> Current() == Some(record) && files.disk.log == [] && Holds(files.disk, record)
      ensures ok ==> files.disk.dir == View(old(files.disk))[State := old(files.disk.next) + 1]
      ensures ok ==> forall i :: i in old(files.disk.inodes) ==> i in files.disk.inodes && files.disk.inodes[i] == old(files.disk.inodes[i])
      ensures ok ==> RecordSize(record) <= CATALOG_MAX
      ensures files.calm && RecordSize(record) <= CATALOG_MAX && Pending !in View(old(files.disk)) ==> ok
    {
      hide Phase, Follows, ApplyAll, Steady, Extends, RecordSize;
      Unchanged(at, record);
      if RecordSize(record) > CATALOG_MAX { return false; }
      ok := StillBound();
      if !ok { return; }
      ghost var labels := at;
      ok := MarkIntent(record);
      if !ok { return; }
      ok := StillBound();
      if !ok { return; }
      ghost var marked := at;
      ok := Publish(record);
      StillExtends(labels, marked, at, record);
    }

    // From the durable marker to a catalog that opens again.
    method Publish(record: Record) returns (ok: bool)
      requires Valid() && Current() == Some(record)
      requires files.disk.log == [] && Pending in files.disk.dir && Next !in files.disk.dir
      modifies this`at, files
      ensures Valid() && Steady(old(at), at)
      ensures ok ==> Current() == Some(record) && files.disk.log == [] && Holds(files.disk, record)
      ensures ok ==> files.disk.dir == old(files.disk.dir)[State := old(files.disk.next)] - {Pending}
      ensures ok ==> files.disk.inodes == old(files.disk.inodes)[old(files.disk.next) := Saved(record)]
      ensures files.calm ==> ok
    {
      hide Phase, Follows, ApplyAll, Steady;
      ghost var labels := at;
      ok := Replace(record);
      if !ok { return; }
      ghost var replaced := at;
      SteadyLast(labels, replaced);
      SteadySelf(at);
      ok := StillBound();
      if !ok { return; }
      ok := Unmark(record);
      SteadyLast(replaced, at);
      StillSteady(labels, replaced, at);
      if !ok { return; }
      ok := StillBound();
    }

    // ----- Operations -----

    // lockedCatalog under the exclusive lock. A busy lock or an unreadable file refuses too.
    method Load(pins: Pins) returns (record: Option<Record>)
      requires Valid()
      ensures record.Some? ==> record == Opened(View(files.disk), files.disk.inodes, pins)
      ensures record.Some? ==> record == Current() && Holds(files.disk, record.value) && ValidRecord(record.value, pins)
      ensures files.calm ==> record == Opened(View(files.disk), files.disk.inodes, pins)
      // It is bound to these pins, and its floor is the bootstrap or that of a genuine receipt.
      ensures record.Some? ==>
        var r := record.value;
        && r.version == 1 && r.source == pins.source && r.signer == pins.signer && pins.recipient == Some(r.recipient)
        && r.current.sequence >= r.bootstrap.sequence
        && (r.last.None? ==> r.current == r.bootstrap)
        && (r.last.Some? ==>
            var p := r.last.value.payload;
            && r.last.value.signature == Signed(pins.signer, p) && p.source == pins.source && p.recipient == r.recipient
            && r.current == Floor(p.sequence, HashOf(p)))
    {
      var busy: bool := *;
      if busy && !files.calm { return None; }
      record := Opened(View(files.disk), files.disk.inodes, pins);
      if record.Some? { PhaseOpens(files.disk, Current(), pins); }
    }

    // CatalogWatermark: a floor it returns is at or above every acknowledged one.
    method Watermark(pins: Pins) returns (floor: Option<Floor>)
      requires Valid()
      ensures floor.Some? ==> forall f :: f in acked ==> AtLeast(floor.value, f)
    {
      var record := Load(pins);
      floor := if record.Some? then Some(record.value.current) else None;
    }

    // InitializeCatalog, in an empty directory only.
    method Initialize(pins: Pins, initial: Floor) returns (ok: bool)
      requires Valid()
      modifies this`at, files
      ensures Valid()
      ensures ok ==> ValidPins(pins) && ValidFloor(initial) && View(old(files.disk)) == map[]
      ensures ok ==>
        var record := Record(1, pins.source, pins.signer, pins.recipient.value, initial, initial, None);
        Current() == Some(record) && Opened(View(files.disk), files.disk.inodes, pins) == Some(record)
      ensures files.calm && ValidPins(pins) && ValidFloor(initial) && View(old(files.disk)) == map[] ==> ok
    {
      hide Phase, Follows, Steady, Extends, ApplyAll, RecordSize;
      if !ValidPins(pins) || !ValidFloor(initial) { return false; }
      ghost var was := files.disk;
      if View(files.disk) != map[] { return false; }
      var record := Record(1, pins.source, pins.signer, pins.recipient.value, initial, initial, None);
      ValidFits(record, pins);
      EmptyIsNew(files.disk, Current());
      ok := CreateLock();
      if !ok { return; }
      FollowsNone(record);
      OneMoreOp(files.disk.dir, [], Unlink(Stray));
      ok := Commit(record);
      OneMoreOp(files.disk.dir, [], Unlink(Stray));
    }

    // The lock file, durable before anything else.
    method CreateLock() returns (ok: bool)
      requires Valid() && Current().None? && View(files.disk) == map[]
      modifies this`at, files
      ensures Valid() && Current().None?
      ensures ok ==> files.disk.log == [] && files.disk.dir == map[Lock := old(files.disk.next)]
      ensures ok ==> old(files.disk.next) in files.disk.inodes && files.disk.inodes[old(files.disk.next)] == LockText
      ensures ok ==> files.disk.next == old(files.disk.next) + 1
      ensures files.calm ==> ok
    {
      hide Phase, Follows, ApplyAll, Steady;
      ghost var labels, log := at, files.disk.log;
      var ino;
      OneMoreOp(files.disk.dir, log, Link(Lock, files.disk.next));
      ok, ino := WriteNew(Lock, LockText);
      SteadyLast(labels, at);
      if !ok { return; }
      ghost var was := files.past;
      ok := files.SyncDir();
      if !ok { return; }
      NewPhase(files.disk);
      FollowsSelf(None);
      Reached(was, None);
    }

    // VerifyAndAdvanceCatalog. Success means the receipt passed both floors and its
    // watermark is durable.
    method VerifyAndAdvance(receipt: Receipt, recipient: Option<string>, policy: Policy) returns (ok: bool)
      requires Valid()
      modifies this, files
      ensures Valid()
      ensures acked == if ok then old(acked) + {FloorOf(receipt.payload)} else old(acked)
      ensures ok ==> Acceptable(receipt, recipient, policy) && old(Current()).Some?
      ensures ok ==> AtLeast(FloorOf(receipt.payload), old(Current()).value.current)
      ensures ok ==> Current().Some? && Current().value.current == FloorOf(receipt.payload)
      ensures ok ==> Current().value.current == Floor(receipt.payload.sequence, HashOf(receipt.payload))
      ensures ok ==> Current() == old(Current()) || Current().value.last == Some(receipt)
      ensures ok ==> Opened(View(files.disk), files.disk.inodes, Pins(policy.source, policy.signer, recipient)) == Current()
      ensures files.calm ==>
        var before := Opened(View(old(files.disk)), old(files.disk.inodes), Pins(policy.source, policy.signer, recipient));
        (ok <==> before.Some? && Acceptable(receipt, recipient, policy) && AtLeast(FloorOf(receipt.payload), before.value.current))
    {
      hide Phase, Follows, Steady, Extends, ApplyAll, Opened, Acceptable, ValidRecord;
      var pins := Pins(policy.source, policy.signer, recipient);
      var loaded := Load(pins);
      if loaded.None? { return false; }
      var record := loaded.value;
      ok := VerifyReceipt(receipt, recipient, policy);
      if !ok { return; }
      var floor := FloorOf(receipt.payload);
      StoredFloor(receipt, recipient, policy, record, pins);
      ok := VerifyReceipt(receipt, recipient, policy.(watermark := record.current));
      if !ok { return; }
      if record.current == floor && record.last.Some? {
        acked := acked + {floor};
        return;
      }
      var advanced := record.(current := floor, last := Some(receipt));
      AdvancedValid(receipt, recipient, policy, record, pins);
      ok := Store(advanced, pins);
      if !ok { return; }
      acked := acked + {floor};
    }

    // Publishes a valid record over the one that is open.
    method Store(record: Record, pins: Pins) returns (ok: bool)
      requires Valid() && Follows(Current(), Some(record)) && ValidRecord(record, pins)
      requires Opened(View(files.disk), files.disk.inodes, pins).Some?
      modifies this`at, files
      ensures Valid()
      ensures ok ==> Current() == Some(record) && Opened(View(files.disk), files.disk.inodes, pins) == Some(record)
      ensures files.calm ==> ok
    {
      hide Phase, Follows, Steady, Extends, Opened, ValidRecord, ApplyAll, RecordSize;
      OpenedNames(files.disk, pins);
      ValidFits(record, pins);
      ok := StillBound();
      if !ok { return; }
      ghost var was := files.disk;
      OpenedNames(was, pins);
      ok := Commit(record);
      if !ok { return; }
      OneMoreOp(files.disk.dir, [], Unlink(Stray));
      Reopens(was, files.disk, record, pins);
    }

    // ----- What holds at every crash point of every history -----

    // Whatever survives a crash now, a catalog that opens afterwards is at or above every
    // watermark ever acknowledged, and repeats none of them with another payload.
    lemma AcknowledgedSurvives(e: Disk<Name, Data>, pins: Pins, f: Floor)
      requires Valid() && CrashesTo(files.disk, e) && f in acked
      ensures
        var found := Opened(e.dir, e.inodes, pins);
        found.Some? ==> AtLeast(found.value.current, f) && (found.value.current.sequence == f.sequence ==> found.value.current == f)
    {
      PhaseServes(files.disk, Current(), e, pins);
    }

    // Compare any two crash points of the history: what the later one can serve is never
    // below what the earlier one could, and one sequence never stands for two payloads.
    lemma ServedNeverDecreases(i: nat, j: nat, d: Disk<Name, Data>, e: Disk<Name, Data>, pins: Pins, others: Pins)
      requires Valid() && i <= j < |files.past| && CrashesTo(files.past[i], d) && CrashesTo(files.past[j], e)
      requires Opened(d.dir, d.inodes, pins).Some? && Opened(e.dir, e.inodes, others).Some?
      ensures
        var first, second := Opened(d.dir, d.inodes, pins).value, Opened(e.dir, e.inodes, others).value;
        && first.current.sequence <= second.current.sequence
        && (first.current.sequence == second.current.sequence ==> first.current == second.current)
        && first.bootstrap == second.bootstrap && first.source == second.source && first.signer == second.signer
    {
      PhaseServes(files.past[i], at[i], d, pins);
      PhaseServes(files.past[j], at[j], e, others);
      assert Follows(at[i], at[j]);
    }
  }
}
