// Redis snapshots: what makes one valid, how a trailing marker is stripped, and how two
// generations are kept so that the model never falls back behind its best backup.
module Snapshot {
  import opened Wrappers
  import opened Crc64

  const MAGIC: Octets := [0x52, 0x45, 0x44, 0x49, 0x53]
  const MARKER_LENGTH := 40

  // An RDB file: header, end opcode and the checksum of everything before it.
  predicate ValidRdb(data: Octets) {
    && |data| >= 18 && data[..5] == MAGIC && data[|data| - 9] == 0xff
    && Checksum(data[..|data| - 8]) == Word(data[|data| - 8..])
  }

  predicate HexDigits(s: Octets) {
    forall i :: 0 <= i < |s| ==> 0x30 <= s[i] <= 0x39 || 0x61 <= s[i] <= 0x66 || 0x41 <= s[i] <= 0x46
  }

  predicate VersionDigits(data: Octets)
    requires |data| >= 9
  {
    forall i :: 5 <= i < 9 ==> 0x30 <= data[i] <= 0x39
  }

  method ValidateRdb(data: Octets) returns (ok: bool)
    ensures ok <==> ValidRdb(data)
  {
    if |data| < 18 || data[..5] != MAGIC || data[|data| - 9] != 0xff { return false; }
    var checksum := TableChecksum(data[..|data| - 8]);
    ok := checksum == Word(data[|data| - 8..]);
  }

  // The stricter validation of a fresh export; the caller may give up at any time.
  method ValidateFresh(data: Octets, cancelled: bool) returns (ok: bool)
    ensures ok <==> !cancelled && ValidRdb(data) && VersionDigits(data)
  {
    if cancelled || |data| < 18 || data[..5] != MAGIC || data[|data| - 9] != 0xff { return false; }
    if !VersionDigits(data) { return false; }
    var checksum := TableChecksum(data[..|data| - 8]);
    ok := checksum == Word(data[|data| - 8..]);
  }

  // The snapshot itself, or the snapshot in front of a 40-digit replication marker.
  method Payload(data: Octets) returns (payload: Option<Octets>)
    ensures ValidRdb(data) ==> payload == Some(data)
    ensures payload.Some? ==> ValidRdb(payload.value)
    ensures payload.Some? && payload.value != data ==>
      |data| == |payload.value| + MARKER_LENGTH && payload.value == data[..|payload.value|] && HexDigits(data[|payload.value|..])
    ensures payload.None? <==>
      !ValidRdb(data) && !(|data| >= 58 && HexDigits(data[|data| - MARKER_LENGTH..]) && ValidRdb(data[..|data| - MARKER_LENGTH]))
  {
    var ok := ValidateRdb(data);
    if ok { return Some(data); }
    if |data| >= 58 && HexDigits(data[|data| - MARKER_LENGTH..]) {
      ok := ValidateRdb(data[..|data| - MARKER_LENGTH]);
      if ok { return Some(data[..|data| - MARKER_LENGTH]); }
    }
    payload := None;
  }

  // ----- Corruption -----

  lemma {:induction false} StepsOfZero(n: nat)
    ensures Steps(0, n) == 0
    decreases n
  {
    if n > 0 {
      assert Step(0) == 0;
      StepsOfZero(n - 1);
    }
  }

  // A snapshot together with its checksum divides evenly.
  lemma ValidIsEven(data: Octets)
    requires |data| >= 8
    ensures Checksum(data[..|data| - 8]) == Word(data[|data| - 8..]) <==> Checksum(data) == 0
  {
    hide Xor, Steps, Word, Feed;
    var body, tail := data[..|data| - 8], data[|data| - 8..];
    assert data == body + tail;
    FeedConcat(0, body, tail);
    FeedWord(Checksum(body), tail);
    StepsOfZero(64);
    SameIsZero(Checksum(body), Word(tail));
    if Checksum(data) == 0 { StepsInjective(Xor(Checksum(body), Word(tail)), 0, 64); }
  }

  lemma SameIsZero(a: bv64, b: bv64)
    ensures a == b <==> Xor(a, b) == 0
  {
  }

  // No valid snapshot stays valid when bytes change within eight consecutive ones, be it
  // in the body, in the checksum or across the two.
  lemma CorruptionDetected(before: Octets, x: Octets, y: Octets, after: Octets)
    requires |x| == |y| <= 8 && x != y && ValidRdb(before + x + after)
    ensures !ValidRdb(before + y + after)
  {
    ValidIsEven(before + x + after);
    if |before + y + after| >= 18 { ValidIsEven(before + y + after); }
    BurstDetected(before, x, y, after);
  }

  // ----- Two generations -----

  // SHA-256 taken as injective: the digest is the bytes it was taken of.
  datatype Info = Info(spam: nat, ham: nat, digest: Octets, created: int)
  datatype Generation = Generation(rdb: Option<Octets>, meta: Option<Info>)
  datatype Slots = Slots(current: Option<Generation>, previous: Option<Generation>)
  datatype Outcome = Published | UpToDate | RolledBack | Failed

  const TWELVE_HOURS := 43200

  predicate Complete(g: Generation) {
    g.rdb.Some? && g.meta.Some? && g.meta.value.digest == g.rdb.value && ValidRdb(g.rdb.value)
  }

  // The generation a new backup is measured against.
  function Baseline(s: Slots): Option<Generation> {
    if s.current.None? then s.previous else s.current
  }

  // The current generation is whole, and so is the previous one while there is no current.
  predicate Sound(s: Slots) {
    Baseline(s).Some? ==> Complete(Baseline(s).value)
  }

  // b has a complete generation if a has, with revisions no lower than a's.
  predicate NotBelow(a: Slots, b: Slots) {
    Baseline(a).Some? && Baseline(a).value.meta.Some? ==>
      && Baseline(b).Some? && Complete(Baseline(b).value)
      && Baseline(a).value.meta.value.spam <= Baseline(b).value.meta.value.spam
      && Baseline(a).value.meta.value.ham <= Baseline(b).value.meta.value.ham
  }

  // The model has lost learning since that backup.
  predicate Behind(spam: nat, ham: nat, known: Info) { spam < known.spam || ham < known.ham }

  // The backup directory. `past` holds every state the process could have been killed in.
  class Backups {
    var slots: Slots
    ghost var past: seq<Slots>
    const calm: bool

    ghost predicate Valid()
      reads this
    {
      && past != [] && past[|past| - 1] == slots
      && (forall i :: 0 <= i < |past| ==> Sound(past[i]))
      && forall i, j :: 0 <= i <= j < |past| ==> NotBelow(past[i], past[j])
    }

    constructor (calm: bool)
      ensures Valid() && slots == Slots(None, None) && this.calm == calm
    {
      slots, past := Slots(None, None), [Slots(None, None)];
      this.calm := calm;
    }

    // One effect on the directory has happened.
    method Change(to: Slots)
      requires Valid() && Sound(to) && NotBelow(slots, to)
      modifies this
      ensures Valid() && slots == to && past == old(past) + [to]
    {
      ghost var before := past;
      slots, past := to, past + [to];
      forall i, j | 0 <= i <= j < |past| ensures NotBelow(past[i], past[j]) {
        if i < j == |before| { assert NotBelow(before[i], before[|before| - 1]); }
      }
    }

    // Removing a directory goes file by file and may stop in between.
    method RemovePrevious() returns (ok: bool)
      requires Valid() && slots.current.Some?
      modifies this
      ensures Valid() && slots.current == old(slots.current) && (ok ==> slots.previous.None?) && (calm ==> ok)
    {
      ok := true;
      if slots.previous.Some? {
        var fails: bool, first: bool := *, *;
        var g := slots.previous.value;
        Change(slots.(previous := Some(if first then g.(rdb := None) else g.(meta := None))));
        if fails && !calm { return false; }
        Change(slots.(previous := Some(Generation(None, None))));
        Change(slots.(previous := None));
      }
    }

    // The staged generation is complete; current steps back, then the stage takes its place.
    method Publish(payload: Octets, info: Info) returns (ok: bool)
      requires Valid()
      requires Baseline(slots).Some? ==>
        Baseline(slots).value.meta.value.spam <= info.spam && Baseline(slots).value.meta.value.ham <= info.ham
      modifies this
      ensures Valid()
      ensures ok ==> ValidRdb(payload) && info.digest == payload && slots.current == Some(Generation(Some(payload), Some(info)))
      ensures ok && old(slots.current).Some? ==> slots.previous == old(slots.current)
      ensures calm && ValidRdb(payload) && info.digest == payload ==> ok
    {
      ok := ValidateRdb(payload);
      if !ok || info.digest != payload { return false; }
      var staged := Generation(Some(payload), Some(info));
      var fails: bool := *;
      if fails && !calm { return false; }
      if slots.current.Some? {
        ok := RemovePrevious();
        if !ok { return; }
        fails := *;
        if fails && !calm { return false; }
        Change(Slots(None, slots.current));
      }
      fails := *;
      if fails && !calm { return false; }
      Change(slots.(current := Some(staged)));
      ok := true;
    }

    // One backup of a model with these revisions.
    method Backup(spam: nat, ham: nat, now: int, exported: Option<Octets>) returns (outcome: Outcome)
      requires Valid()
      modifies this
      ensures Valid()
      ensures outcome == RolledBack <==> (old(Baseline(slots)).Some? && Behind(spam, ham, old(Baseline(slots)).value.meta.value))
      ensures outcome in {RolledBack, UpToDate} ==> slots == old(slots) && past == old(past)
      ensures outcome == UpToDate ==> old(Baseline(slots)).Some? && spam == old(Baseline(slots)).value.meta.value.spam
      ensures outcome == UpToDate ==> ham == old(Baseline(slots)).value.meta.value.ham
      ensures outcome == Published ==> exported.Some? && slots.current == Some(Generation(exported, Some(Info(spam, ham, exported.value, now))))
      ensures outcome == Published && old(slots.current).Some? ==> slots.previous == old(slots.current)
      ensures calm && exported.Some? && ValidRdb(exported.value) ==> outcome != Failed
    {
      var baseline := Baseline(slots);
      if baseline.Some? && baseline.value.meta.Some? {
        var known := baseline.value.meta.value;
        if baseline.value.rdb.None? { return Failed; }
        var ok := ValidateRdb(baseline.value.rdb.value);
        if !ok || known.digest != baseline.value.rdb.value { return Failed; }
        if spam < known.spam || ham < known.ham { return RolledBack; }
        if spam == known.spam && ham == known.ham && now - known.created < TWELVE_HOURS { return UpToDate; }
      }
      if exported.None? { return Failed; }
      var ok := Publish(exported.value, Info(spam, ham, exported.value, now));
      outcome := if ok then Published else Failed;
    }

    // Kill the process at any two moments of any history: what was complete at the earlier
    // one has a complete successor at the later one, with revisions no lower.
    lemma FloorNeverLost(i: nat, j: nat)
      requires Valid() && i <= j < |past| && Baseline(past[i]).Some?
      ensures
        var a, b := Baseline(past[i]).value, Baseline(past[j]);
        && Complete(a) && b.Some? && Complete(b.value)
        && a.meta.value.spam <= b.value.meta.value.spam && a.meta.value.ham <= b.value.meta.value.ham
    {
      assert Sound(past[i]) && NotBelow(past[i], past[j]);
    }
  }
}
