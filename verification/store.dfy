// The `messages` table: its rows, the UPDATE statements as functions, the SELECTs the
// engine relies on, and the store object whose methods run them.
module Store {
  import opened Wrappers
  import opened Mailbox

  datatype Status =
    | Kept | Observed | Blocked | Errored
    | PendingLearn | PendingMove | MoveAmbiguous
    | Quarantined | Reviewed | Rescued
    | PendingRestore | Restored | Purged | Superseded

  datatype Action = Keep | ToQuarantine | ToReview | ToRescue | LearnSpam | LearnHam
  datatype Label = NoLabel | Ham | Spam

  // SHA-256 taken as injective. An unreadable or oversized message is recorded under
  // a hash of its location instead of its bytes.
  datatype Digest = Sha(content: Content) | ShaOfLocation(loc: Loc)

  // An archive file is named after its month and the hash of its bytes.
  datatype Path = Path(month: nat, content: Content)

  datatype Row = Row(at: Loc, hash: Digest, size: nat, action: Action, status: Status,
                     path: Option<Path>, until: Option<int>,
                     quarantinedAt: Option<int>, deleteAfter: Option<int>,
                     feedback: Label, intent: Label, scanned: int)

  datatype Table = Table(rows: map<nat, Row>, next: nat)

  const DAY := 86400

  // ----- SELECTs -----

  // The partial unique index over rows with UID > 0.
  ghost predicate UniqueLocations(t: Table) {
    forall i, j :: i in t.rows && j in t.rows && i != j && t.rows[i].at.uid > 0 ==> t.rows[i].at != t.rows[j].at
  }

  // HasHamFeedback: any row of this content carries a ham feedback or intent.
  ghost predicate HasHam(t: Table, hash: Digest) {
    exists i :: i in t.rows && t.rows[i].hash == hash && IsHam(t.rows[i])
  }

  predicate IsHam(r: Row) { r.feedback == Ham || r.intent == Ham }

  predicate IsSpam(r: Row) { r.feedback == Spam || r.intent == Spam }

  function Effective(r: Row): Label { if r.intent == NoLabel then r.feedback else r.intent }

  // LatestFeedback: the effective label of the newest labelled row of this content.
  ghost predicate Latest(t: Table, hash: Digest, tag: Label) {
    if tag == NoLabel then
      forall i :: i in t.rows && t.rows[i].hash == hash ==> Effective(t.rows[i]) == NoLabel
    else
      exists i :: i in t.rows && t.rows[i].hash == hash && Effective(t.rows[i]) == tag
        && forall j :: j in t.rows && j > i && t.rows[j].hash == hash ==> Effective(t.rows[j]) == NoLabel
  }

  // Statuses whose archive copy a cleanup must keep, and those it may expire.
  predicate Protected(s: Status) {
    s in {Quarantined, PendingMove, PendingLearn, PendingRestore, MoveAmbiguous, Errored}
  }

  predicate Expirable(s: Status) {
    s in {Purged, Rescued, Reviewed, Restored, Superseded}
  }

  predicate CleanupCandidate(t: Table, id: nat, path: Path, now: int) {
    && id in t.rows
    && t.rows[id].path == Some(path)
    && t.rows[id].until.Some? && t.rows[id].until.value <= now
    && Expirable(t.rows[id].status)
    && !HeldElsewhere(t, id, path, now)
  }

  predicate HeldElsewhere(t: Table, id: nat, path: Path, now: int) {
    exists other :: other in t.rows && other != id && t.rows[other].path == Some(path)
      && ((t.rows[other].until.Some? && t.rows[other].until.value > now) || Protected(t.rows[other].status))
  }

  predicate PurgeDue(r: Row, now: int) {
    r.status == Quarantined && r.deleteAfter.Some? && r.deleteAfter.value <= now
  }

  // ----- UPDATE and INSERT statements -----

  function WithRow(t: Table, id: nat, r: Row): Table {
    Table(t.rows[id := r], if id < t.next then t.next else id + 1)
  }

  // What UpsertMessage leaves in the row: given columns win, except that an absent
  // path, deadline, label or quarantine date keeps the stored one.
  function Merge(old': Row, new': Row): Row {
    new'.(path := if new'.path.None? then old'.path else new'.path,
          until := if new'.until.None? then old'.until else new'.until,
          quarantinedAt := if old'.quarantinedAt.None? then new'.quarantinedAt else old'.quarantinedAt,
          deleteAfter := if old'.deleteAfter.None? then new'.deleteAfter else old'.deleteAfter,
          feedback := if new'.feedback == NoLabel then old'.feedback else new'.feedback,
          intent := if new'.intent == NoLabel then old'.intent else new'.intent)
  }

  function Upsert(t: Table, id: nat, r: Row): Table {
    WithRow(t, id, if id in t.rows then Merge(t.rows[id], r) else r)
  }

  // The row UpsertMessage picks: the one already at that location, else a new id.
  ghost predicate UpsertTarget(t: Table, at: Loc, id: nat) {
    if id in t.rows then at.uid > 0 && t.rows[id].at == at
    else id == t.next && (at.uid > 0 ==> forall i :: i in t.rows ==> t.rows[i].at != at)
  }

  // `UPDATE ... WHERE id=?`: a missing row changes nothing.
  function Rewrite(t: Table, id: nat, r: Row): Table
    requires id in t.rows
  {
    t.(rows := t.rows[id := r])
  }

  function SetLocation(t: Table, id: nat, at: Loc, status: Status): Table {
    if id in t.rows then Rewrite(t, id, t.rows[id].(at := at, status := status)) else t
  }

  function Later(stored: Option<int>, offered: int): Option<int> {
    if stored.None? || stored.value < offered then Some(offered) else stored
  }

  function FinishedRow(r: Row, at: Loc, status: Status, now: int, quarantineDays: nat, archiveDays: nat): Row {
    var moved := r.(at := at, status := status, until := Later(r.until, now + archiveDays * DAY));
    if status == Quarantined then
      moved.(quarantinedAt := Some(now), deleteAfter := Some(now + quarantineDays * DAY))
    else moved
  }

  function SetFinished(t: Table, id: nat, at: Loc, status: Status, now: int, quarantineDays: nat, archiveDays: nat): Table {
    if id in t.rows then Rewrite(t, id, FinishedRow(t.rows[id], at, status, now, quarantineDays, archiveDays)) else t
  }

  function SetLearned(t: Table, id: nat, tag: Label): Table {
    if id in t.rows then
      Rewrite(t, id, t.rows[id].(status := PendingMove, feedback := tag, action := if tag == Ham then LearnHam else LearnSpam))
    else t
  }

  function SetIntent(t: Table, id: nat, tag: Label): Table {
    if id in t.rows then Rewrite(t, id, t.rows[id].(intent := tag)) else t
  }

  function SetStatus(t: Table, id: nat, status: Status): Table {
    if id in t.rows then Rewrite(t, id, t.rows[id].(status := status)) else t
  }

  function SetPurged(t: Table, id: nat): Table {
    if id in t.rows then Rewrite(t, id, t.rows[id].(status := Purged, at := t.rows[id].at.(folder := Nowhere))) else t
  }

  // A recorded location that MarkRestorePending accepts as lost.
  predicate Unresolvable(r: Row) { r.at.folder == Nowhere || r.at.uid == 0 || r.at.validity == 0 }

  predicate SurvivesSupersede(s: Status) { s in {Purged, Restored, PendingRestore, Superseded} }

  function SupersedeOthers(t: Table, hash: Digest, keep: nat): Table {
    t.(rows := map i | i in t.rows ::
         if i != keep && t.rows[i].hash == hash && !SurvivesSupersede(t.rows[i].status)
         then t.rows[i].(status := Superseded) else t.rows[i])
  }

  function ClearPath(t: Table, path: Path): Table {
    t.(rows := map i | i in t.rows ::
         if t.rows[i].path == Some(path) then t.rows[i].(path := None, until := None) else t.rows[i])
  }

  // FinalizeRestore finds a pending row, a complete location and no other row there.
  ghost predicate CanRestore(t: Table, id: nat, at: Loc) {
    && at.uid > 0 && at.validity > 0 && id in t.rows && t.rows[id].status == PendingRestore
    && UniqueLocations(SetLocation(t, id, at, Restored))
  }

  ghost predicate TableInv(t: Table) {
    && t.next > 0
    && UniqueLocations(t)
    && forall i :: i in t.rows ==> 0 < i < t.next
  }

  // ----- The store object -----

  class DB {
    var table: Table
    // A calm store never fails a write; otherwise any write may fail, changing nothing.
    const calm: bool

    constructor (calm: bool)
      ensures table == Table(map[], 1) && this.calm == calm
    {
      table := Table(map[], 1);
      this.calm := calm;
    }

    // LocationPending: an unresolved move is recorded at this location.
    predicate Pending(at: Loc)
      reads this
    {
      exists i :: i in table.rows && table.rows[i].at == at && table.rows[i].status in {PendingMove, MoveAmbiguous}
    }

    // TrainingLocationProcessed: nothing is left to do for the message at this location.
    predicate TrainingProcessed(at: Loc)
      reads this
    {
      exists i :: i in table.rows && table.rows[i].at == at
        && table.rows[i].status !in {Errored, Restored, PendingMove, PendingLearn, Observed, Blocked}
    }

    // LocationProcessedSince: only an automatic keep decision older than `before` expires.
    predicate Processed(at: Loc, active: bool, before: int)
      reads this
    {
      exists i :: i in table.rows && table.rows[i].at == at && Final(table.rows[i], active, before)
    }

    static predicate Final(r: Row, active: bool, before: int) {
      && r.status !in {Errored, Restored, PendingMove, PendingLearn}
      && (active ==> r.status != Observed)
      && !(r.action == Keep && r.status in {Observed, Kept} && r.feedback == NoLabel && r.intent == NoLabel && r.scanned < before)
    }

    // LatestFeedback, newest row first.
    method LatestFeedback(hash: Digest) returns (ok: bool, tag: Label)
      requires TableInv(table)
      ensures ok ==> Latest(table, hash, tag)
      ensures ok && tag == NoLabel ==> forall i :: i in table.rows && table.rows[i].hash == hash ==>
        table.rows[i].feedback == NoLabel && table.rows[i].intent == NoLabel
      ensures ok && tag != NoLabel ==> exists i ::
        && i in table.rows && table.rows[i].hash == hash
        && (table.rows[i].intent == tag || (table.rows[i].intent == NoLabel && table.rows[i].feedback == tag))
        && forall j :: j in table.rows && j > i && table.rows[j].hash == hash ==>
             table.rows[j].feedback == NoLabel && table.rows[j].intent == NoLabel
      ensures calm ==> ok
    {
      var fails: bool := *;
      if fails && !calm { return false, NoLabel; }
      ok, tag := true, NoLabel;
      for i := table.next downto 0
        invariant tag == NoLabel
        invariant forall j :: j in table.rows && j >= i && table.rows[j].hash == hash ==> Effective(table.rows[j]) == NoLabel
      {
        if i in table.rows && table.rows[i].hash == hash && Effective(table.rows[i]) != NoLabel {
          return true, Effective(table.rows[i]);
        }
      }
    }

    // HasHamFeedback.
    method HasHamFeedback(hash: Digest) returns (ok: bool, found: bool)
      ensures ok ==> (found <==> HasHam(table, hash))
      ensures ok ==> (found <==> exists i :: i in table.rows && table.rows[i].hash == hash && (table.rows[i].feedback == Ham || table.rows[i].intent == Ham))
      ensures calm ==> ok
    {
      ok, found := *, exists i :: i in table.rows && table.rows[i].hash == hash && IsHam(table.rows[i]);
      ok := ok || calm;
    }

    // An entry in the event log, which nothing reads back.
    method AddEvent() returns (ok: bool)
      ensures calm ==> ok
    {
      var fails: bool := *;
      ok := calm || !fails;
    }

    // One statement is one transaction: it happens whole or not at all, and the unique
    // index refuses it if two rows would own one location.
    method Commit(t: Table) returns (ok: bool)
      modifies this
      ensures ok ==> table == t && UniqueLocations(t)
      ensures !ok ==> table == old(table)
      ensures calm && UniqueLocations(t) ==> ok
    {
      var fails: bool := *;
      var conflict := exists i, j :: i in t.rows && j in t.rows && i != j && t.rows[i].at.uid > 0 && t.rows[i].at == t.rows[j].at;
      ok := !conflict && (calm || !fails);
      if ok { table := t; }
    }

    method UpsertMessage(givenId: nat, r: Row) returns (ok: bool, id: nat)
      requires TableInv(table)
      modifies this
      ensures !ok ==> table == old(table)
      ensures ok ==> table == (if givenId > 0 && givenId !in old(table).rows then old(table) else Upsert(old(table), id, r))
      // A new row is the given one; a stored one keeps what is absent in the given one, and
      // the dates of its quarantine.
      ensures ok && id in table.rows && id !in old(table).rows ==> table.rows == old(table).rows[id := r] && table.next == id + 1
      ensures ok && id in old(table).rows ==>
        && id in table.rows && table == old(table).(rows := old(table).rows[id := table.rows[id]])
        && var o, n := old(table).rows[id], table.rows[id];
        && n.at == r.at && n.hash == r.hash && n.size == r.size && n.action == r.action && n.status == r.status && n.scanned == r.scanned
        && n.path == (if r.path.Some? then r.path else o.path) && n.until == (if r.until.Some? then r.until else o.until)
        && n.quarantinedAt == (if o.quarantinedAt.Some? then o.quarantinedAt else r.quarantinedAt)
        && n.deleteAfter == (if o.deleteAfter.Some? then o.deleteAfter else r.deleteAfter)
        && n.feedback == (if r.feedback != NoLabel then r.feedback else o.feedback)
        && n.intent == (if r.intent != NoLabel then r.intent else o.intent)
      ensures ok ==> UniqueLocations(table)
      ensures ok && givenId > 0 ==> id == givenId
      ensures ok && givenId == 0 ==> UpsertTarget(old(table), r.at, id)
      ensures calm && givenId == 0 ==> ok
    {
      id := givenId;
      if id == 0 && r.at.uid > 0 {
        if found :| found in table.rows && table.rows[found].at == r.at {
          id := found;
        }
      }
      if id == 0 { id := table.next; } else if id !in table.rows { return true, id; }
      ok := Commit(Upsert(table, id, r));
    }

    method UpdateLocation(id: nat, at: Loc, status: Status) returns (ok: bool)
      modifies this
      ensures table == if ok then SetLocation(old(table), id, at, status) else old(table)
      ensures ok && id in old(table).rows ==>
        && id in table.rows && table == old(table).(rows := old(table).rows[id := table.rows[id]])
        && table.rows[id] == old(table).rows[id].(at := at, status := status)
      ensures ok ==> UniqueLocations(table)
      ensures calm && UniqueLocations(SetLocation(old(table), id, at, status)) ==> ok
    {
      ok := Commit(SetLocation(table, id, at, status));
    }

    method FinalizeMove(id: nat, at: Loc, status: Status, now: int, quarantineDays: nat, archiveDays: nat) returns (ok: bool)
      modifies this
      ensures table == if ok then SetFinished(old(table), id, at, status, now, quarantineDays, archiveDays) else old(table)
      // The archive deadline is set and never brought forward.
      ensures ok && id in old(table).rows ==>
        && id in table.rows && table.rows[id].until.Some?
        && table.rows[id].until.value >= now + archiveDays * DAY
        && (old(table).rows[id].until.Some? ==> table.rows[id].until.value >= old(table).rows[id].until.value)
        && table.rows[id].until in {old(table).rows[id].until, Some(now + archiveDays * DAY)}
      // Quarantine starts now or its dates stay.
      ensures ok && id in old(table).rows ==>
        && table.rows[id].quarantinedAt == (if status == Quarantined then Some(now) else old(table).rows[id].quarantinedAt)
        && table.rows[id].deleteAfter == (if status == Quarantined then Some(now + quarantineDays * DAY) else old(table).rows[id].deleteAfter)
      // Location and status are the given ones; nothing else changes.
      ensures ok && id in old(table).rows ==>
        var r, n := old(table).rows[id], table.rows[id];
        && n == r.(at := at, status := status, until := n.until, quarantinedAt := n.quarantinedAt, deleteAfter := n.deleteAfter)
        && table == old(table).(rows := old(table).rows[id := n])
      ensures ok ==> UniqueLocations(table)
      ensures calm && UniqueLocations(SetFinished(old(table), id, at, status, now, quarantineDays, archiveDays)) ==> ok
    {
      ok := Commit(SetFinished(table, id, at, status, now, quarantineDays, archiveDays));
    }

    method MarkLearned(id: nat, tag: Label) returns (ok: bool)
      modifies this
      ensures table == if ok then SetLearned(old(table), id, tag) else old(table)
      ensures ok && id in old(table).rows ==>
        && id in table.rows && table == old(table).(rows := old(table).rows[id := table.rows[id]])
        && (tag == Ham ==> table.rows[id] == old(table).rows[id].(status := PendingMove, feedback := Ham, action := LearnHam))
        && (tag == Spam ==> table.rows[id] == old(table).rows[id].(status := PendingMove, feedback := Spam, action := LearnSpam))
      ensures ok ==> tag in {Ham, Spam} && UniqueLocations(table)
      ensures calm && tag in {Ham, Spam} && UniqueLocations(SetLearned(old(table), id, tag)) ==> ok
    {
      if tag !in {Ham, Spam} { return false; }
      ok := Commit(SetLearned(table, id, tag));
    }

    method MarkFeedbackIntent(id: nat, tag: Label) returns (ok: bool)
      modifies this
      ensures table == if ok then SetIntent(old(table), id, tag) else old(table)
      ensures ok && id in old(table).rows ==>
        && id in table.rows && table == old(table).(rows := old(table).rows[id := table.rows[id]])
        && table.rows[id] == old(table).rows[id].(intent := tag)
      ensures ok ==> tag in {Ham, Spam} && UniqueLocations(table)
      ensures calm && tag in {Ham, Spam} && UniqueLocations(SetIntent(old(table), id, tag)) ==> ok
    {
      if tag !in {Ham, Spam} { return false; }
      ok := Commit(SetIntent(table, id, tag));
    }

    method MarkMoveUncertain(id: nat) returns (ok: bool)
      modifies this
      ensures table == if ok then SetStatus(old(table), id, PendingMove) else old(table)
      ensures ok && id in old(table).rows ==>
        && id in table.rows && table == old(table).(rows := old(table).rows[id := table.rows[id]])
        && table.rows[id] == old(table).rows[id].(status := PendingMove)
      ensures ok ==> UniqueLocations(table)
    {
      ok := Commit(SetStatus(table, id, PendingMove));
    }

    method MarkRestorePending(id: nat) returns (ok: bool)
      modifies this
      ensures table == if ok then SetStatus(old(table), id, PendingRestore) else old(table)
      ensures ok ==>
        && id in old(table).rows && id in table.rows && table == old(table).(rows := old(table).rows[id := table.rows[id]])
        && table.rows[id] == old(table).rows[id].(status := PendingRestore)
      ensures ok ==> UniqueLocations(table) && id in old(table).rows
      ensures ok ==> old(table).rows[id].status == PendingRestore || Unresolvable(old(table).rows[id])
      ensures calm && id in old(table).rows && Unresolvable(old(table).rows[id]) && UniqueLocations(SetStatus(old(table), id, PendingRestore)) ==> ok
    {
      if id !in table.rows || !(table.rows[id].status == PendingRestore || Unresolvable(table.rows[id])) { return false; }
      ok := Commit(SetStatus(table, id, PendingRestore));
    }

    method FinalizeRestore(id: nat, at: Loc) returns (ok: bool)
      modifies this
      ensures table == if ok then SetLocation(old(table), id, at, Restored) else old(table)
      ensures ok ==>
        && id in old(table).rows && id in table.rows && table == old(table).(rows := old(table).rows[id := table.rows[id]])
        && table.rows[id] == old(table).rows[id].(at := at, status := Restored)
      ensures ok ==> UniqueLocations(table) && at.uid > 0 && at.validity > 0
      ensures ok ==> id in old(table).rows && old(table).rows[id].status in {PendingRestore, Restored}
      ensures calm && CanRestore(old(table), id, at) ==> ok
    {
      if at.uid == 0 || at.validity == 0 { return false; }
      if id !in table.rows || table.rows[id].status !in {PendingRestore, Restored} { return false; }
      ok := Commit(SetLocation(table, id, at, Restored));
    }

    method MarkPurged(id: nat) returns (ok: bool)
      modifies this
      ensures table == if ok then SetPurged(old(table), id) else old(table)
      ensures ok && id in old(table).rows ==>
        && id in table.rows && table == old(table).(rows := old(table).rows[id := table.rows[id]])
        && table.rows[id] == old(table).rows[id].(status := Purged, at := old(table).rows[id].at.(folder := Nowhere))
      ensures ok ==> UniqueLocations(table)
      ensures calm && UniqueLocations(SetPurged(old(table), id)) ==> ok
    {
      ok := Commit(SetPurged(table, id));
    }

    method SupersedeOtherCopies(hash: Digest, keep: nat) returns (ok: bool)
      modifies this
      ensures table == if ok then SupersedeOthers(old(table), hash, keep) else old(table)
      ensures ok ==> table.rows.Keys == old(table).rows.Keys && table.next == old(table).next
      ensures ok ==> forall i :: i in table.rows ==>
        var r := old(table).rows[i];
        table.rows[i] ==
          if i == keep || r.hash != hash || r.status in {Purged, Restored, PendingRestore} then r else r.(status := Superseded)
      ensures ok ==> UniqueLocations(table)
      ensures calm && UniqueLocations(SupersedeOthers(old(table), hash, keep)) ==> ok
    {
      ok := Commit(SupersedeOthers(table, hash, keep));
    }

    method ClearArchivePath(path: Path) returns (ok: bool)
      modifies this
      ensures table == if ok then ClearPath(old(table), path) else old(table)
      ensures ok ==> table.rows.Keys == old(table).rows.Keys && table.next == old(table).next
      ensures ok ==> forall i :: i in table.rows ==>
        var r := old(table).rows[i];
        table.rows[i] == if r.path == Some(path) then r.(path := None, until := None) else r
      ensures ok ==> UniqueLocations(table)
      ensures calm && UniqueLocations(table) ==> ok
    {
      ok := Commit(ClearPath(table, path));
    }
  }
}
