// The engine: it scans folders, journals every intent before acting on it, moves mail,
// and reconciles, restores, purges and cleans up. Each method keeps `Valid`, so whatever
// it does is a legal run of the journal however the session and the store behave.
module Engine {
  import opened Wrappers
  import opened Mailbox
  import opened Store
  import opened Journal
  import opened MailClient
  import opened Classifier
  import opened Passes

  // The wall clock, and the calendar month that names today's archive directory.
  datatype Clock = Clock(now: int, month: nat)

  // What a scan of the two folders found: how many messages with the row's bytes, the
  // last such UID, and the UIDVALIDITY it was read under.
  datatype Found = Found(count: nat, uid: nat, validity: nat)

  datatype LearnReply = Accepted | Skipped | Refused
  datatype Correction = Failed | Unlearnt(id: nat) | Learnt(id: nat)

  datatype RestoreOutcome = RestoreRefused | StillThere | RestoreDone

  // How far one restore got: it resumes by listing the review folder, or starts by
  // marking the row, and then appends at most once.
  ghost predicate RestoreSteps(s: State, id: nat, at: Loc, did: seq<Event>) {
    && id in s.table.rows
    && var r := s.table.rows[id];
    if r.status == PendingRestore then
      did <= [ReviewListed(id), RestoreFinished(id, at)] || did <= [ReviewListed(id), Appended(id), RestoreFinished(id, at)]
    else
      r.status != Restored && Unresolvable(r) && did <= [RestoreMarked(id), Appended(id), RestoreFinished(id, at)]
  }

  // When a quiet restore succeeds: a row being restored needs an empty review folder or one
  // copy there that no other row has; any other row needs a lost location and its archive.
  ghost predicate Restorable(s: State, id: nat) {
    && id in s.table.rows
    && var r := s.table.rows[id];
    && r.hash.Sha?
    && if r.status == PendingRestore then
         Held(s.server, Review, r.hash.content) == {}
         || exists l :: Held(s.server, Review, r.hash.content) == {l} && !Owned(s.table, id, l)
       else r.status != Restored && (r.at.folder == Nowhere || r.at.uid == 0 || r.at.validity == 0) && Backed(s.files, r)
  }

  ghost predicate Counts(a: set<Loc>, count: nat, at: Loc) {
    (count == 0 ==> a == {}) && (count == 1 ==> a == {at}) && (count >= 2 ==> |a| >= 2)
  }

  ghost predicate Tallies(s: Server, validity: nat, c: Content, uids: seq<nat>, count: nat, at: Loc) {
    Counts(Among(s, Review, validity, c, uids), count, at)
  }

  ghost predicate HeldAs(s: Server, c: Content, count: nat, at: Loc) {
    Counts(Held(s, Review, c), count, at)
  }

  lemma NoneTallied(s: Server, validity: nat, c: Content)
    ensures forall at :: Tallies(s, validity, c, [], 0, at)
  {
    NoneAmong(s, Review, validity, c);
  }

  // What the count of copies says about a quiet restore under way.
  lemma ResumeDecided(s: State, id: nat, count: nat, at: Loc)
    requires id in s.table.rows && s.table.rows[id].status == PendingRestore && s.table.rows[id].hash.Sha?
    requires HeldAs(s.server, s.table.rows[id].hash.content, count, at)
    ensures Restorable(s, id) <==> (count == 0 || (count == 1 && !Owned(s.table, id, at)))
  {
    hide Held, Owned;
    var held := Held(s.server, Review, s.table.rows[id].hash.content);
    if l :| held == {l} { assert |held| == 1; }
  }

  ghost predicate IsRestored(s: State, id: nat) {
    && HasStatus(s, id, Restored)
    && s.table.rows[id].at.folder == Review && Confirmed(s.server, s.table.rows[id].at, s.table.rows[id].hash)
  }

  ghost predicate SameHam(t: Table, u: Table) {
    forall hash :: HasHam(t, hash) <==> HasHam(u, hash)
  }

  // The only rows that changed were due, vetoed by no correction, and are now purged.
  ghost predicate PurgedOnly(t: Table, u: Table, now: int) {
    && t.rows.Keys == u.rows.Keys
    && forall j :: j in t.rows && u.rows[j] != t.rows[j] ==>
         PurgeDue(t.rows[j], now) && !HasHam(t, t.rows[j].hash) && u.rows[j] == SetPurged(t, j).rows[j]
  }

  // What every check of a candidate comes down to.
  ghost predicate Purgeable(s: State, id: nat, now: int, quarantineDays: nat) {
    && id in s.table.rows
    && var r := s.table.rows[id];
    && r.status == Quarantined && r.deleteAfter.Some? && r.deleteAfter.value <= now
    && r.at in s.server.live && !HasHam(s.table, r.hash)
    && r.quarantinedAt.Some? && r.quarantinedAt.value + quarantineDays * DAY <= now
  }

  // The locations that a purge empties, except for candidates it has not come to yet.
  ghost function Goners(s: State, now: int, quarantineDays: nat, refused: set<nat>, todo: set<nat>): set<Loc> {
    set i | i in s.table.rows && i !in refused && i !in todo && Purgeable(s, i, now, quarantineDays) :: s.table.rows[i].at
  }

  lemma AllToGo(s: State, now: int, quarantineDays: nat, todo: set<nat>)
    requires todo == set i | i in s.table.rows && PurgeDue(s.table.rows[i], now)
    ensures Goners(s, now, quarantineDays, {}, todo) == {}
  {
  }

  lemma OneMoreGone(s: State, t: State, id: nat, now: int, quarantineDays: nat, refused: set<nat>, todo: set<nat>, held: bool)
    requires TableInv(s.table) && id in todo && id in s.table.rows && id in t.table.rows && t.table.rows[id] == s.table.rows[id]
    requires SameHam(s.table, t.table) && s.table.rows[id].at.uid > 0 && id !in refused
    requires t.server.live == s.server.live - Goners(s, now, quarantineDays, refused, todo)
    ensures
      var gone := if held || !Purgeable(t, id, now, quarantineDays) then t.server.live else Drop(t.server, s.table.rows[id].at).live;
      gone == s.server.live - Goners(s, now, quarantineDays, if held then refused + {id} else refused, todo - {id})
  {
    hide HasHam;
    var at := s.table.rows[id].at;
    var before := Goners(s, now, quarantineDays, refused, todo);
    var after := Goners(s, now, quarantineDays, if held then refused + {id} else refused, todo - {id});
    assert at !in before;
    assert Purgeable(t, id, now, quarantineDays) <==> Purgeable(s, id, now, quarantineDays);
    assert after == if held || !Purgeable(s, id, now, quarantineDays) then before else before + {at};
  }

  lemma NothingPurged(t: Table, now: int)
    ensures SameHam(t, t) && PurgedOnly(t, t, now)
  {
  }

  lemma PurgedOneMore(t: Table, u: Table, id: nat, now: int)
    requires SameHam(t, u) && PurgedOnly(t, u, now)
    requires id in t.rows && u.rows[id] == t.rows[id] && PurgeDue(t.rows[id], now) && !HasHam(u, t.rows[id].hash)
    ensures SameHam(t, SetPurged(u, id)) && PurgedOnly(t, SetPurged(u, id), now)
  {
    forall hash ensures HasHam(u, hash) <==> HasHam(SetPurged(u, id), hash) {
      if i :| i in u.rows && u.rows[i].hash == hash && IsHam(u.rows[i]) {
        assert SetPurged(u, id).rows[i].hash == hash && IsHam(SetPurged(u, id).rows[i]);
      }
    }
  }

  // Why a row's archive path has not been cleared: there is none, its time has not come, its
  // message is not done with, or another row still needs the file.
  ghost predicate StillKept(t: Table, id: nat, now: int)
    requires id in t.rows
  {
    var r := t.rows[id];
    || r.path.None? || r.until.None? || r.until.value > now
    || r.status !in {Purged, Rescued, Reviewed, Restored, Superseded}
    || exists j :: j in t.rows && j != id && t.rows[j].path == r.path && NeedsFile(t.rows[j], now)
  }

  predicate NeedsFile(r: Row, now: int) {
    || (r.until.Some? && r.until.value > now)
    || r.status in {Quarantined, PendingMove, PendingLearn, PendingRestore, MoveAmbiguous, Errored}
  }

  lemma NoCandidate(t: Table, id: nat, now: int)
    requires id in t.rows && forall p :: !CleanupCandidate(t, id, p, now)
    ensures StillKept(t, id, now)
  {
    if t.rows[id].path.Some? {
      var p := t.rows[id].path.value;
      assert !CleanupCandidate(t, id, p, now);
      if HeldElsewhere(t, id, p, now) {
        var j :| j in t.rows && j != id && t.rows[j].path == Some(p)
          && ((t.rows[j].until.Some? && t.rows[j].until.value > now) || Protected(t.rows[j].status));
        assert NeedsFile(t.rows[j], now);
      }
    }
  }

  // ArchiveCleanupCandidates: one entry per archive path.
  function Candidates(t: Table, now: int): (paths: set<Path>)
    ensures forall p :: p in paths <==> exists id :: CleanupCandidate(t, id, p, now)
  {
    set i | i in t.rows && t.rows[i].path.Some? && CleanupCandidate(t, i, t.rows[i].path.value, now) :: t.rows[i].path.value
  }

  lemma CandidateRow(t: Table, file: Path, now: int)
    requires exists id :: CleanupCandidate(t, id, file, now)
    ensures exists id :: id in t.rows && CleanupCandidate(t, id, file, now)
  {
  }

  // Clearing one path takes its rows out of the candidates and leaves the others alone.
  lemma ClearedCandidates(t: Table, file: Path, now: int)
    ensures forall id, p :: CleanupCandidate(ClearPath(t, file), id, p, now) <==> p != file && CleanupCandidate(t, id, p, now)
  {
    forall id, p ensures CleanupCandidate(ClearPath(t, file), id, p, now) <==> p != file && CleanupCandidate(t, id, p, now) {
      ClearedCandidate(t, file, now, id, p);
    }
  }

  lemma ClearedCandidate(t: Table, file: Path, now: int, id: nat, p: Path)
    ensures CleanupCandidate(ClearPath(t, file), id, p, now) <==> p != file && CleanupCandidate(t, id, p, now)
  {
    var u := ClearPath(t, file);
    assert forall i :: i in t.rows && t.rows[i].path != Some(file) ==> u.rows[i] == t.rows[i];
    assert forall i :: i in t.rows && t.rows[i].path == Some(file) ==> u.rows[i].path == None;
    if p != file {
      assert HeldElsewhere(u, id, p, now) <==> HeldElsewhere(t, id, p, now);
    }
  }

  lemma ClearingEnabled(s: State, id: nat, file: Path, now: int)
    requires CleanupCandidate(s.table, id, file, now) && file !in s.files
    ensures Enabled(s, PathCleared(file))
  {
    assert !HeldElsewhere(s.table, id, file, now);
  }

  predicate InDoubt(r: Row) { r.status in {PendingMove, MoveAmbiguous} }

  // The user asked for this move by correcting the message.
  predicate Explicit(r: Row) { IsHam(r) || IsSpam(r) }

  // An unresolved row stays unresolved or ends where its action leads.
  ghost predicate Settles(r: Row, n: Row) {
    n.status in {PendingMove, MoveAmbiguous} || (Destination(r.action).Some? && n.status == Destination(r.action).value.1)
  }

  ghost predicate SettledOnly(t: Table, u: Table, allowAutomatic: bool) {
    && t.rows.Keys == u.rows.Keys
    && forall j :: j in t.rows && u.rows[j] != t.rows[j] ==>
         InDoubt(t.rows[j]) && (allowAutomatic || Explicit(t.rows[j])) && Settles(t.rows[j], u.rows[j])
  }

  lemma NothingSettled(t: Table, s: Server, allowAutomatic: bool)
    ensures SettledOnly(t, t, allowAutomatic) && Remembers(s, s)
  {
  }

  lemma Unchanged(s: Server, did: seq<Event>)
    ensures Remembers(s, s) && OnlyBlocked(did, did)
  {
  }

  // How far the paged scan of one folder has come.
  class Progress {
    var cursor: nat
    var matches: nat
    var matchUid: nat
    var validity: nat
    var complete: bool

    constructor ()
      ensures cursor == 0 && matches == 0 && validity == 0
    {
      cursor, matches, matchUid, validity, complete := 0, 0, 0, 0, false;
    }
  }

  ghost function Below(s: Server, f: Folder, c: Content, bound: nat): set<Loc> {
    set l | l in Held(s, f, c) && l.uid <= bound
  }

  // A fresh scan has seen nothing; one begun under the present UIDVALIDITY has counted
  // exactly the copies up to its cursor.
  ghost predicate Exact(s: Server, f: Folder, c: Content, p: Progress)
    reads p
  {
    && (p.validity == 0 ==> p.cursor == 0 && p.matches == 0)
    && (p.validity == BoxOf(s, f).validity ==> p.matches == |Below(s, f, c, p.cursor)|)
  }

  // Between two passes the count survives everything other clients do, a renumbering of
  // the folder included, except taking away a copy that was already counted.
  lemma ExactSurvives(s: Server, act: ClientEvent, f: Folder, c: Content, p: Progress)
    requires ServerInv(s) && ClientEnabled(s, act) && Exact(s, f, c, p)
    requires p.validity <= BoxOf(s, f).validity && p.cursor < BoxOf(s, f).next
    requires (act.Expunge? || act.Shift?) && act.loc in Below(s, f, c, p.cursor) ==> p.validity != BoxOf(s, f).validity
    ensures Exact(ClientApply(s, act), f, c, p)
  {
    hide ServerInv, Below;
    var t := ClientApply(s, act);
    if p.validity == BoxOf(t, f).validity {
      match act
      case Deliver(g, x) => PutBelow(s, g, x, f, c, p.cursor);
      case Expunge(l) => DropBelow(s, l, f, c, p.cursor);
      case Shift(l, g) =>
        DropBelow(s, l, f, c, p.cursor);
        PutBelow(Drop(s, l), g, s.live[l], f, c, p.cursor);
      case Renumber(g, v, n, origin, moved) => RenumberBelow(s, act, f, c, p.cursor);
    }
  }

  lemma DropBelow(s: Server, l: Loc, f: Folder, c: Content, bound: nat)
    requires ServerInv(s)
    ensures ServerInv(Drop(s, l))
    ensures l !in Below(s, f, c, bound) ==> Below(Drop(s, l), f, c, bound) == Below(s, f, c, bound)
  {
  }

  lemma RenumberBelow(s: Server, act: ClientEvent, f: Folder, c: Content, bound: nat)
    requires act.Renumber? && ClientEnabled(s, act) && act.folder != f
    ensures Below(ClientApply(s, act), f, c, bound) == Below(s, f, c, bound)
  {
    hide ClientEnabled;
    RenumberedFolder(s, act);
  }

  lemma RenumberedFolder(s: Server, act: ClientEvent)
    requires act.Renumber? && ClientEnabled(s, act)
    ensures forall l :: l in act.origin.Values ==> l.folder == act.folder
    ensures forall l :: l in act.moved ==> l.folder == act.folder
  {
    forall l | l in act.origin.Values ensures l.folder == act.folder {
      var k :| k in act.origin && act.origin[k] == l;
      assert k in act.moved;
    }
  }

  lemma PutBelow(s: Server, g: Folder, x: Content, f: Folder, c: Content, bound: nat)
    requires ServerInv(s) && bound < BoxOf(s, f).next
    ensures Below(Put(s, g, x), f, c, bound) == Below(s, f, c, bound)
    ensures BoxOf(Put(s, g, x), f).validity == BoxOf(s, f).validity
  {
    var l, t := FreshLoc(s, g), Put(s, g, x);
    FreshAbove(s, g, x, f, bound);
    hide ServerInv, Put, FreshLoc, BoxOf;
    NewAbove(s.live, l, x, f, c, bound);
    assert t.live == s.live[l := x];
  }

  lemma FreshAbove(s: Server, g: Folder, x: Content, f: Folder, bound: nat)
    requires ServerInv(s) && bound < BoxOf(s, f).next
    ensures
      var l, t := FreshLoc(s, g), Put(s, g, x);
      && l !in s.live && (l.folder == f ==> l.uid > bound) && t.live == s.live[l := x]
      && BoxOf(t, f).validity == BoxOf(s, f).validity
  {
    assert !Assigned(s, FreshLoc(s, g));
  }

  lemma NewAbove(live: map<Loc, Content>, l: Loc, x: Content, f: Folder, c: Content, bound: nat)
    requires l !in live && (l.folder == f ==> l.uid > bound)
    ensures
      (set k | k in live[l := x] && k.folder == f && live[l := x][k] == c && k.uid <= bound)
        == (set k | k in live && k.folder == f && live[k] == c && k.uid <= bound)
  {
  }

  // What a page lists: ascending live UIDs above the cursor without gaps, and when it is
  // the last page, everything up to UIDNEXT.
  ghost predicate Page(s: Server, f: Folder, validity: nat, next: nat, cursor: nat, uids: seq<nat>, all: bool) {
    && (forall l :: l in s.live && l.folder == f ==> l.validity == validity)
    && (forall i, j :: 0 <= i < j < |uids| ==> uids[i] < uids[j])
    && (forall u :: u in uids ==> cursor < u < next && Loc(f, validity, u) in s.live)
    && (forall u, v :: v in uids && cursor < u <= v && Loc(f, validity, u) in s.live ==> u in uids)
    && (all ==> forall u :: cursor < u < next && Loc(f, validity, u) in s.live ==> u in uids)
  }

  ghost predicate NothingBetween(s: Server, f: Folder, cursor: nat, next: nat) {
    forall l :: l in s.live && l.folder == f ==> l.uid <= cursor || l.uid >= next
  }

  // A new scan of a folder that shows nothing in the one page below UIDNEXT.
  ghost predicate Untouched(s: Server, f: Folder, p: Progress, next: nat)
    reads p
  {
    p.validity == 0 && next <= p.cursor + 251 && NothingBetween(s, f, p.cursor, next)
  }

  lemma EmptyPage(s: Server, f: Folder, validity: nat, next: nat, cursor: nat, uids: seq<nat>, all: bool)
    requires Page(s, f, validity, next, cursor, uids, all)
    ensures NothingBetween(s, f, cursor, next) ==> uids == []
  {
    if uids != [] {
      assert uids[0] in uids && Loc(f, validity, uids[0]) in s.live;
    }
  }

  lemma NextBelow(s: Server, f: Folder, validity: nat, next: nat, cursor: nat, uids: seq<nat>, all: bool, i: nat, c: Content)
    requires Page(s, f, validity, next, cursor, uids, all) && i < |uids|
    ensures
      var from, l := if i == 0 then cursor else uids[i - 1], Loc(f, validity, uids[i]);
      |Below(s, f, c, uids[i])| == |Below(s, f, c, from)| + if s.live[l] == c then 1 else 0
  {
    var from, l := if i == 0 then cursor else uids[i - 1], Loc(f, validity, uids[i]);
    assert uids[i] in uids;
    assert i > 0 ==> uids[i - 1] in uids;
    forall k | k in s.live && k.folder == f && from < k.uid <= uids[i] ensures k == l {
      assert k == Loc(f, validity, k.uid) && k.uid in uids;
      var j :| 0 <= j < |uids| && uids[j] == k.uid;
    }
    assert l !in Below(s, f, c, from);
    assert Below(s, f, c, uids[i]) == Below(s, f, c, from) + if s.live[l] == c then {l} else {};
  }

  lemma PageDone(s: Server, f: Folder, validity: nat, next: nat, cursor: nat, uids: seq<nat>)
    requires Page(s, f, validity, next, cursor, uids, true)
    ensures
      var last := if uids == [] then cursor else uids[|uids| - 1];
      forall l :: l in s.live && l.folder == f ==> l.uid <= last || l.uid >= next
  {
    assert uids != [] ==> uids[|uids| - 1] in uids;
    forall l | l in s.live && l.folder == f && cursor < l.uid < next ensures uids != [] && l.uid <= uids[|uids| - 1] {
      assert l == Loc(f, validity, l.uid) && l.uid in uids;
    }
  }

  // A completed count misses exactly the copies at or beyond the UIDNEXT it paged under.
  lemma BelowAll(s: Server, f: Folder, c: Content, bound: nat, next: nat)
    requires forall l :: l in s.live && l.folder == f ==> l.uid <= bound || l.uid >= next
    ensures |Below(s, f, c, bound)| == |Held(s, f, c)| <==> NoneBeyond(s, f, c, bound, next)
  {
    var below, held := Below(s, f, c, bound), Held(s, f, c);
    assert |held - below| == |held| - |below|;
    if NoneBeyond(s, f, c, bound, next) {
      assert below == held;
    } else {
      var l :| l in held && l.uid > bound && l.uid >= next;
      assert l in held - below;
    }
  }

  // No copy lies past both the cursor and the UIDNEXT that the folder was selected with.
  ghost predicate NoneBeyond(s: Server, f: Folder, c: Content, cursor: nat, next: nat) {
    forall l :: l in Held(s, f, c) ==> l.uid <= cursor || l.uid < next
  }

  lemma ExactNow(s: Server, f: Folder, c: Content, p: Progress)
    requires p.validity == BoxOf(s, f).validity > 0 && p.matches == |Below(s, f, c, p.cursor)|
    ensures Exact(s, f, c, p)
  {
  }

  lemma NoneBelow(s: Server, f: Folder, c: Content)
    requires ServerInv(s)
    ensures Below(s, f, c, 0) == {}
  {
  }

  lemma StillAside(t: Table, u: Table, v: Table, id: nat, hash: Digest)
    requires Aside(t, u, id, hash) && Aside(u, v, id, hash)
    ensures Aside(t, v, id, hash)
  {
  }

  lemma EditAside(t: Table, id: nat, r: Row)
    requires id in t.rows
    ensures forall hash :: Aside(t, Rewrite(t, id, r), id, hash)
    ensures UniqueLocations(t) && r.at == t.rows[id].at ==> UniqueLocations(Rewrite(t, id, r))
  {
  }

  // Every other row of these bytes that may be superseded is.
  ghost predicate OthersSupersededBy(t: Table, u: Table, id: nat, hash: Digest) {
    forall j :: j in t.rows && j != id && t.rows[j].hash == hash && t.rows[j].status !in {Purged, Restored, PendingRestore} ==>
      j in u.rows && u.rows[j].status == Superseded
  }

  // What was superseded stays so, and what was not to be superseded before is none to be now.
  lemma StillSupersededBy(t: Table, u: Table, v: Table, id: nat, hash: Digest)
    requires Aside(t, u, id, hash) && OthersSupersededBy(u, v, id, hash)
    ensures OthersSupersededBy(t, v, id, hash)
  {
  }

  lemma SupersededStays(t: Table, u: Table, v: Table, id: nat, hash: Digest)
    requires OthersSupersededBy(t, u, id, hash) && Aside(u, v, id, hash)
    ensures OthersSupersededBy(t, v, id, hash)
  {
  }

  lemma SupersedeAside(t: Table, hash: Digest, id: nat)
    ensures Aside(t, SupersedeOthers(t, hash, id), id, hash) && OthersSupersededBy(t, SupersedeOthers(t, hash, id), id, hash)
    ensures UniqueLocations(t) ==> UniqueLocations(SupersedeOthers(t, hash, id))
  {
  }

  lemma UpsertAside(t: Table, id: nat, r: Row)
    ensures forall hash :: Aside(t, Upsert(t, id, r), id, hash)
  {
  }

  lemma SameAside(t: Table, id: nat)
    ensures forall hash :: Aside(t, t, id, hash)
  {
  }

  // Some row of these bytes carries the user's label.
  ghost predicate HasIntent(t: Table, c: Content, tag: Label) {
    exists j :: j in t.rows && t.rows[j].hash == Sha(c) && t.rows[j].intent == tag
  }

  ghost predicate AllWithin(s: Server, f: Folder, limit: nat) {
    forall l :: l in s.live && l.folder == f ==> 0 < |s.live[l]| <= limit
  }

  // New corrections only: nothing recorded in the folder yet, and every message readable
  // and within bounds.
  ghost predicate FreshFolder(s: State, f: Folder, limit: nat, perFolder: nat) {
    && NoRowsIn(s.table, f)
    && AllWithin(s.server, f, limit)
    && |set l | l in s.server.live && l.folder == f :: l.uid| <= perFolder
  }

  // One new correction: the message leaves for the folder the label calls for, the training
  // folder stays without rows, and the correction is recorded without losing another.
  ghost predicate FreshlyCorrected(s: State, t: State, at: Loc, tag: Label) {
    && at in s.server.live && t.server == Relocate(s.server, at, if tag == Ham then Inbox else Quarantine)
    && NoRowsIn(t.table, at.folder) && HasIntent(t.table, s.server.live[at], tag)
    && forall c :: HasIntent(s.table, c, tag) ==> HasIntent(t.table, c, tag)
  }

  ghost predicate ListsAll(s: Server, f: Folder, validity: nat, uids: seq<nat>) {
    forall l :: l in s.live && l.folder == f ==> exists j :: 0 <= j < |uids| && l == Loc(f, validity, uids[j])
  }

  // Every message that lay in the folder has a row with its bytes and the label.
  ghost predicate AllRecorded(s: Server, t: Table, f: Folder, tag: Label) {
    forall l :: l in s.live && l.folder == f ==> HasIntent(t, s.live[l], tag)
  }

  // After the first i listed messages have been corrected.
  ghost predicate Emptying(s0: Server, t: State, f: Folder, tag: Label, validity: nat, uids: seq<nat>, i: nat) {
    && NoRowsIn(t.table, f) && Left(s0, t.server, f, validity, uids, i)
    && forall j :: 0 <= j < i ==> Loc(f, validity, uids[j]) in s0.live && HasIntent(t.table, s0.live[Loc(f, validity, uids[j])], tag)
  }

  lemma EmptyingNext(s0: Server, s: State, t: State, f: Folder, tag: Label, validity: nat, uids: seq<nat>, i: nat)
    requires Emptying(s0, s, f, tag, validity, uids, i) && i < |uids| && f == TrainingFolder(tag) && tag in {Ham, Spam}
    requires forall j, k :: 0 <= j < k < |uids| ==> uids[j] < uids[k]
    requires FreshlyCorrected(s, t, Loc(f, validity, uids[i]), tag)
    ensures Emptying(s0, t, f, tag, validity, uids, i + 1)
  {
    hide HasIntent, Relocate;
    OneGone(s0, s.server, f, validity, uids, i, if tag == Ham then Inbox else Quarantine);
  }

  // What is left of the folder after its first i listed messages have gone.
  ghost predicate Left(s0: Server, s: Server, f: Folder, validity: nat, uids: seq<nat>, i: nat) {
    && i <= |uids| && BoxOf(s, f).validity == validity
    && (forall l :: l in s.live && l.folder == f ==> l.validity == validity && l.uid in uids[i..])
    && forall j :: i <= j < |uids| ==>
         var l := Loc(f, validity, uids[j]);
         l in s.live && l in s0.live && s.live[l] == s0.live[l]
  }

  lemma OneGone(s0: Server, s: Server, f: Folder, validity: nat, uids: seq<nat>, i: nat, destination: Folder)
    requires Left(s0, s, f, validity, uids, i) && i < |uids| && destination != f
    requires forall j, k :: 0 <= j < k < |uids| ==> uids[j] < uids[k]
    ensures Left(s0, Relocate(s, Loc(f, validity, uids[i]), destination), f, validity, uids, i + 1)
  {
    var t := Relocate(s, Loc(f, validity, uids[i]), destination);
    forall l | l in t.live && l.folder == f ensures l.validity == validity && l.uid in uids[i + 1..] {
      assert l in s.live && l.uid in uids[i..] && l.uid != uids[i];
    }
  }

  // A correction finished at row `id` leaves no row behind in the training folder.
  lemma CorrectionRecorded(t: Table, u: State, id: nat, m: Message, tag: Label)
    requires NoRowsIn(t, m.at.folder) && UpsertTarget(t, m.at, id) && Aside(t, u.table, id, Sha(m.raw))
    requires Corrected(u, id, m, tag) && FinalFolder(tag) != m.at.folder
    ensures NoRowsIn(u.table, m.at.folder) && HasIntent(u.table, m.raw, tag)
    ensures forall c :: HasIntent(t, c, tag) ==> HasIntent(u.table, c, tag)
  {
    forall c | HasIntent(t, c, tag) ensures HasIntent(u.table, c, tag) {
      var j :| j in t.rows && t.rows[j].hash == Sha(c) && t.rows[j].intent == tag;
      assert j != id;
    }
  }

  function LearnAction(tag: Label): Action { if tag == Ham then LearnHam else LearnSpam }
  function FinalAction(tag: Label): Action { if tag == Ham then ToRescue else ToQuarantine }
  function FinalFolder(tag: Label): Folder { if tag == Ham then Inbox else Quarantine }
  function FinalStatus(tag: Label): Status { if tag == Ham then Rescued else Quarantined }

  // A correction the user made by putting a message of acceptable size into a training folder.
  ghost predicate Learnable(s: State, m: Message, tag: Label, limit: nat) {
    tag in {Ham, Spam} && m.at.folder == TrainingFolder(tag) && Confirmed(s.server, m.at, Sha(m.raw)) && 0 < |m.raw| <= limit
  }

  // The correction is recorded and the message is confirmed where it belongs.
  ghost predicate Corrected(s: State, id: nat, m: Message, tag: Label) {
    && id in s.table.rows
    && var r := s.table.rows[id];
    && r.status == FinalStatus(tag) && r.intent == tag && r.hash == Sha(m.raw)
    && r.at.folder == FinalFolder(tag) && Confirmed(s.server, r.at, r.hash)
  }

  // Nothing was done but to record messages as too large.
  ghost predicate OnlyBlocked(before: seq<Event>, after: seq<Event>) {
    before <= after && forall k :: |before| <= k < |after| ==> after[k].UpsertedOversized?
  }

  lemma StillBlocked(a: seq<Event>, b: seq<Event>, c: seq<Event>)
    requires OnlyBlocked(a, b) && OnlyBlocked(b, c)
    ensures OnlyBlocked(a, c)
  {
  }

  function Restoring(t: Table): set<nat> {
    set i | i in t.rows && t.rows[i].status == PendingRestore
  }

  ghost predicate Empty(s: Server, f: Folder) {
    forall l :: l in s.live ==> l.folder != f
  }

  twostate predicate Onward(w: World)
    reads w, w.db
  {
    w.start == old(w.start) && old(w.run) <= w.run && Remembers(old(w.server), w.server)
  }

  twostate predicate OnlyRow(w: World, id: nat)
    reads w, w.db
  {
    && w.db.table.next == old(w.db.table.next) && w.db.table.rows.Keys == old(w.db.table.rows.Keys)
    && forall j :: j in w.db.table.rows && j != id ==> w.db.table.rows[j] == old(w.db.table.rows[j])
  }

  ghost predicate Owned(t: Table, id: nat, at: Loc) {
    exists j :: j in t.rows && j != id && t.rows[j].at == at
  }

  ghost predicate Movable(s: State, id: nat, m: Message, destination: Folder, final: Status) {
    && id in s.table.rows
    && var r := s.table.rows[id];
    && r.status == PendingMove && r.at == m.at && r.hash == Sha(m.raw)
    && Backed(s.files, r) && Confirmed(s.server, r.at, r.hash)
    && Destination(r.action) == Some((destination, final))
  }

  // The locations of a folder that hold these bytes.
  ghost function Held(s: Server, f: Folder, c: Content): set<Loc> {
    set l | l in s.live && l.folder == f && s.live[l] == c
  }

  ghost predicate SizeBounded(s: Server, f: Folder, size: nat) {
    |set l | l in s.live && l.folder == f && |s.live[l]| == size :: l.uid| <= 1000
  }

  // A duplicate-free list of a folder's UIDs of one size is as long as there are such messages.
  lemma CountedUids(s: Server, f: Folder, validity: nat, size: nat, uids: seq<nat>)
    requires forall i, j :: 0 <= i < j < |uids| ==> uids[i] < uids[j]
    requires forall l :: l in s.live && l.folder == f ==> l.validity == validity
    requires forall u :: u in uids <==> Loc(f, validity, u) in s.live && |s.live[Loc(f, validity, u)]| == size
    ensures SizeBounded(s, f, size) <==> |uids| <= 1000
  {
    var found := set l | l in s.live && l.folder == f && |s.live[l]| == size :: l.uid;
    assert forall u :: u in uids ==> Loc(f, validity, u).uid in found;
    Distinct(uids, found);
  }

  lemma HeldAt(s: Server, l: Loc, f: Folder, c: Content)
    ensures l in Held(s, f, c) <==> l in s.live && l.folder == f && s.live[l] == c
  {
  }

  // The listed locations that hold these bytes.
  ghost function Among(s: Server, f: Folder, validity: nat, c: Content, uids: seq<nat>): set<Loc> {
    set l | l in Held(s, f, c) && l.validity == validity && l.uid in uids
  }

  lemma NoneAmong(s: Server, f: Folder, validity: nat, c: Content)
    ensures Among(s, f, validity, c, []) == {}
  {
  }

  lemma OneMoreAmong(s: Server, f: Folder, validity: nat, c: Content, uids: seq<nat>, u: nat)
    requires u !in uids
    ensures
      var l, before, after := Loc(f, validity, u), Among(s, f, validity, c, uids), Among(s, f, validity, c, uids + [u]);
      if l in s.live && s.live[l] == c then after == before + {l} && |after| == |before| + 1 else after == before
  {
    var l, before, after := Loc(f, validity, u), Among(s, f, validity, c, uids), Among(s, f, validity, c, uids + [u]);
    assert forall x :: x in uids + [u] <==> x in uids || x == u;
    assert l !in before;
    if l in s.live && s.live[l] == c {
      assert after == before + {l};
    } else {
      assert after == before;
    }
  }

  lemma CountedAll(s: Server, f: Folder, validity: nat, c: Content, uids: seq<nat>)
    requires forall l :: l in s.live && l.folder == f ==> l.validity == validity
    requires forall u :: Loc(f, validity, u) in s.live && |s.live[Loc(f, validity, u)]| == |c| ==> u in uids
    ensures Among(s, f, validity, c, uids) == Held(s, f, c)
    ensures forall l :: l in Held(s, f, c) && |Held(s, f, c)| == 1 ==> Held(s, f, c) == {l}
  {
    forall l | l in Held(s, f, c) ensures l.uid in uids {
      assert l == Loc(f, validity, l.uid);
    }
    forall l | l in Held(s, f, c) && |Held(s, f, c)| == 1 ensures Held(s, f, c) == {l} {
      assert |Held(s, f, c) - {l}| == 0;
    }
  }

  lemma {:induction false} Distinct(uids: seq<nat>, members: set<nat>)
    requires forall i, j :: 0 <= i < j < |uids| ==> uids[i] < uids[j]
    requires forall u :: u in uids <==> u in members
    ensures |uids| == |members|
  {
    if uids != [] {
      var front, last := uids[..|uids| - 1], uids[|uids| - 1];
      assert forall u :: u in uids <==> u in front || u == last;
      assert last !in front;
      Distinct(front, members - {last});
    } else {
      assert members == {};
    }
  }

  lemma UniqueIff(t: Table, id: nat, n: Row)
    requires UniqueLocations(t) && id in t.rows && n.at.uid > 0
    ensures UniqueLocations(Rewrite(t, id, n)) <==> !Owned(t, id, n.at)
  {
    var u := Rewrite(t, id, n);
    if j :| j in t.rows && j != id && t.rows[j].at == n.at {
      assert u.rows[j].at == u.rows[id].at;
    }
  }

  // No row can already own a location the server has yet to hand out.
  lemma FreshUnowned(s: State, id: nat, f: Folder)
    requires Inv(s) && f != Nowhere
    ensures !Owned(s.table, id, FreshLoc(s.server, f))
  {
    PutKeeps(s.server, f, []);
    forall j | j in s.table.rows && j != id ensures s.table.rows[j].at != FreshLoc(s.server, f) {
      assert TruthfulRow(s, s.table.rows[j]);
    }
  }

  // A row whose move is journalled but not confirmed.
  ghost predicate Unresolved(s: State, id: nat, destination: Folder, final: Status) {
    && id in s.table.rows
    && var r := s.table.rows[id];
    && r.status in {PendingMove, MoveAmbiguous} && r.at.folder != Nowhere && Backed(s.files, r)
    && Destination(r.action) == Some((destination, final))
  }

  function Decide(f: Folder, verdict: Verdict, active: bool): Action {
    if f == Inbox then (if active && verdict == SpamVerdict then ToQuarantine else Keep)
    else if !active then ToReview
    else if verdict == SpamVerdict then ToQuarantine
    else if verdict == HamVerdict then ToRescue
    else ToReview
  }

  // The message is confirmed where its action sends it.
  ghost predicate Arrived(s: State, id: nat, m: Message, action: Action) {
    && id in s.table.rows
    && var r := s.table.rows[id];
    && r.hash == Sha(m.raw) && Destination(action) == Some((r.at.folder, r.status)) && Confirmed(s.server, r.at, r.hash)
  }

  // A message the engine may act on: read in full, within bounds, and allowed to move.
  ghost predicate Preparable(s: State, m: Message, action: Action, status: Status, active: bool) {
    && Confirmed(s.server, m.at, Sha(m.raw)) && |m.raw| <= ABSOLUTE_LIMIT
    && (status == PendingMove || (status == PendingLearn && Training(m.at.folder)))
    && AllowedDecision(s.table, m.at.folder, m.raw, action, active)
  }

  // The intent is durable and its bytes are safe in the archive.
  ghost predicate Journalled(s: State, id: nat, m: Message, action: Action, status: Status) {
    && id in s.table.rows
    && var r := s.table.rows[id];
    && r.at == m.at && r.hash == Sha(m.raw) && r.action == action && r.status == status
    && Backed(s.files, r) && Confirmed(s.server, r.at, r.hash)
  }

  // The folder currently shows the row's bytes under this UID.
  ghost predicate CopyAt(s: State, id: nat, f: Folder, uid: nat) {
    var l := Loc(f, BoxOf(s.server, f).validity, uid);
    id in s.table.rows && l in s.server.live && Sha(s.server.live[l]) == s.table.rows[id].hash
  }

  // No other row has that location.
  ghost predicate Unowned(s: State, id: nat, f: Folder, uid: nat) {
    !Owned(s.table, id, Loc(f, BoxOf(s.server, f).validity, uid))
  }

  // All copies of the row's bytes in the two folders its move is between.
  ghost function BothSides(s: State, id: nat, destination: Folder): set<Loc> {
    if id in s.table.rows && s.table.rows[id].hash.Sha? then
      var r := s.table.rows[id];
      Held(s.server, r.at.folder, r.hash.content) + Held(s.server, destination, r.hash.content)
    else {}
  }

  // One copy is left on both sides together, and no other row has its location.
  ghost predicate OneUnowned(s: State, id: nat, destination: Folder) {
    exists l :: BothSides(s, id, destination) == {l} && !Owned(s.table, id, l)
  }

  // What the two counts say about the one copy that may be left.
  ghost predicate Decisive(s: State, id: nat, destination: Folder, source: Found, arrived: Found) {
    && id in s.table.rows
    && var folder := s.table.rows[id].at.folder;
    && (source.count == 1 && arrived.count == 0 ==>
        CopyAt(s, id, folder, source.uid) && (Unowned(s, id, folder, source.uid) <==> OneUnowned(s, id, destination)))
    && (source.count == 0 && arrived.count == 1 ==>
        CopyAt(s, id, destination, arrived.uid) && (Unowned(s, id, destination, arrived.uid) <==> OneUnowned(s, id, destination)))
    && (source.count + arrived.count != 1 ==> !OneUnowned(s, id, destination))
  }

  // Neither search finds more than a thousand messages of the row's size.
  ghost predicate Searchable(s: State, id: nat, destination: Folder) {
    && id in s.table.rows
    && SizeBounded(s.server, s.table.rows[id].at.folder, s.table.rows[id].size)
    && SizeBounded(s.server, destination, s.table.rows[id].size)
  }

  // ----- Rows whose passes do not touch each other -----

  // Where the code promises each action to end.
  predicate Goal(a: Action, f: Folder, status: Status) {
    && a != Keep
    && (a in {ToQuarantine, LearnSpam} ==> f == Quarantine && status == Quarantined)
    && (a == ToReview ==> f == Review && status == Reviewed)
    && (a in {ToRescue, LearnHam} ==> f == Inbox && status == Rescued)
  }

  predicate Eligible(r: Row, allowAutomatic: bool) {
    InDoubt(r) && (allowAutomatic || Explicit(r))
  }

  ghost predicate NoneEligible(t: Table, allowAutomatic: bool) {
    forall i :: i in t.rows ==> !Eligible(t.rows[i], allowAutomatic)
  }

  // No correction is waiting, neither in a training folder nor half done.
  ghost predicate OnlyUndecided(s: State) {
    NoneEligible(s.table, false) && Empty(s.server, TrainSpam) && Empty(s.server, TrainHam)
  }

  // No other row that is due for reconciliation stands for a message of that size.
  ghost predicate AloneOfSize(t: Table, id: nat, allowAutomatic: bool) {
    && id in t.rows && Eligible(t.rows[id], allowAutomatic)
    && forall j :: j in t.rows && j != id && Eligible(t.rows[j], allowAutomatic) ==> t.rows[j].size != t.rows[id].size
  }

  // What decides whether one pass settles the row.
  ghost predicate Decidable(s: State, id: nat, destination: Folder) {
    Searchable(s, id, destination) && OneUnowned(s, id, destination)
  }

  // Both servers show the same messages of that size.
  ghost predicate AgreeOnSize(s: Server, t: Server, size: nat) {
    forall x :: (x in s.live && |s.live[x]| == size) || (x in t.live && |t.live[x]| == size) ==>
      x in s.live && x in t.live && t.live[x] == s.live[x]
  }

  lemma SameHeld(s: Server, t: Server, f: Folder, c: Content)
    requires AgreeOnSize(s, t, |c|)
    ensures Held(t, f, c) == Held(s, f, c)
  {
  }

  lemma SameBound(s: Server, t: Server, f: Folder, size: nat)
    requires AgreeOnSize(s, t, size)
    ensures SizeBounded(t, f, size) <==> SizeBounded(s, f, size)
  {
    var a := set x | x in s.live && x.folder == f && |s.live[x]| == size :: x.uid;
    var b := set x | x in t.live && x.folder == f && |t.live[x]| == size :: x.uid;
    UidsOf(s, t, f, size);
    UidsOf(t, s, f, size);
    assert a == b;
  }

  lemma UidsOf(s: Server, t: Server, f: Folder, size: nat)
    requires AgreeOnSize(s, t, size)
    ensures
      var a := set x | x in s.live && x.folder == f && |s.live[x]| == size :: x.uid;
      var b := set x | x in t.live && x.folder == f && |t.live[x]| == size :: x.uid;
      forall u :: u in a ==> u in b
  {
    var a := set x | x in s.live && x.folder == f && |s.live[x]| == size :: x.uid;
    var b := set x | x in t.live && x.folder == f && |t.live[x]| == size :: x.uid;
    forall u | u in a ensures u in b {
      var x :| x in s.live && x.folder == f && |s.live[x]| == size && x.uid == u;
      assert x in t.live;
    }
  }

  lemma SettlingAgrees(s: State, t: State, j: nat, from: Folder, final: Status, size: nat)
    requires Inv(s) && Settling(s, t, j, from, final) && from != Nowhere
    requires s.table.rows[j].hash.Sha? && s.table.rows[j].size != size
    ensures AgreeOnSize(s.server, t.server, size)
  {
    SizeOfRow(s, j);
    var q := s.table.rows[j];
    if t.server != s.server {
      var l: Loc :| l.folder == q.at.folder && LiveAs(s.server, l, q.hash) && MovedOut(s.server, t, j, l, from);
      OthersOfSize(s.server, l, from, size);
    }
  }

  lemma OthersOfSize(s: Server, l: Loc, g: Folder, size: nat)
    requires ServerInv(s) && l in s.live && |s.live[l]| != size && g != Nowhere
    ensures AgreeOnSize(s, Relocate(s, l, g), size)
  {
    PutKeeps(s, g, s.live[l]);
    FreshDead(s, FreshLoc(s, g));
  }

  lemma SameSides(s: State, t: State, j: nat, id: nat, from: Folder, final: Status, destination: Folder)
    requires Inv(s) && Settling(s, t, j, from, final) && from != Nowhere && j != id
    requires id in s.table.rows && id in t.table.rows && t.table.rows[id] == s.table.rows[id]
    requires s.table.rows[id].hash.Sha? && s.table.rows[j].hash.Sha? && s.table.rows[j].size != s.table.rows[id].size
    ensures BothSides(t, id, destination) == BothSides(s, id, destination)
    ensures Searchable(t, id, destination) <==> Searchable(s, id, destination)
  {
    var r := s.table.rows[id];
    SizeOfRow(s, id);
    SettlingAgrees(s, t, j, from, final, r.size);
    hide Held, SizeBounded, Inv, Settling, AgreeOnSize;
    SameHeld(s.server, t.server, r.at.folder, r.hash.content);
    SameHeld(s.server, t.server, destination, r.hash.content);
    SameBound(s.server, t.server, r.at.folder, r.size);
    SameBound(s.server, t.server, destination, r.size);
  }

  lemma SizeOfRow(s: State, id: nat)
    requires Inv(s) && id in s.table.rows && s.table.rows[id].hash.Sha?
    ensures s.table.rows[id].size == |s.table.rows[id].hash.content| && ServerInv(s.server)
  {
    assert TruthfulRow(s, s.table.rows[id]);
  }

  lemma StillOwned(s: State, t: State, j: nat, id: nat, from: Folder, final: Status, l: Loc)
    requires Inv(s) && Settling(s, t, j, from, final) && from != Nowhere && j != id
    requires id in s.table.rows && s.table.rows[id].hash.Sha?
    requires t.table.rows.Keys == s.table.rows.Keys && forall i :: i in s.table.rows && i != j ==> t.table.rows[i] == s.table.rows[i]
    requires s.table.rows[j].hash.Sha? && s.table.rows[j].size != s.table.rows[id].size
    requires l in s.server.live && s.server.live[l] == s.table.rows[id].hash.content
    ensures Owned(t.table, id, l) <==> Owned(s.table, id, l)
  {
    var r, q := s.table.rows[id], s.table.rows[j];
    assert TruthfulRow(s, r) && TruthfulRow(s, q);
    assert q.at != l;
    if t.server != s.server {
      var k: Loc :| k.folder == q.at.folder && LiveAs(s.server, k, q.hash) && MovedOut(s.server, t, j, k, from);
      MovedEnds(s.server, t, j, k, from);
    }
    assert t.table.rows[j].at != l;
    if Owned(s.table, id, l) {
      var i :| i in s.table.rows && i != id && s.table.rows[i].at == l;
      assert i != j && t.table.rows[i].at == l;
    }
  }

  lemma Independent(s: State, t: State, j: nat, id: nat, from: Folder, final: Status, destination: Folder)
    requires Inv(s) && Settling(s, t, j, from, final) && from != Nowhere && j != id
    requires id in s.table.rows && s.table.rows[id].hash.Sha?
    requires t.table.rows.Keys == s.table.rows.Keys && forall i :: i in s.table.rows && i != j ==> t.table.rows[i] == s.table.rows[i]
    requires s.table.rows[j].hash.Sha? && s.table.rows[j].size != s.table.rows[id].size
    ensures Decidable(t, id, destination) <==> Decidable(s, id, destination)
  {
    hide Inv, Settling, Searchable, Owned;
    SameSides(s, t, j, id, from, final, destination);
    forall l | BothSides(s, id, destination) == {l} ensures Owned(t.table, id, l) <==> Owned(s.table, id, l) {
      assert l in BothSides(s, id, destination);
      StillOwned(s, t, j, id, from, final, l);
    }
  }

  // The row is in doubt, and what the invariant says about it.
  ghost predicate Doubtful(s: State, id: nat) {
    Inv(s) && id in s.table.rows && InDoubt(s.table.rows[id]) && s.table.rows[id].hash.Sha?
  }

  // One pass over row `id` in a quiet mailbox.
  ghost predicate Reconciled(s: State, t: State, id: nat) {
    && OneRowOnly(s.table, t.table, id) && t.table.rows[id].hash == s.table.rows[id].hash
    && Passed(s, t) && IntentsKept(s.table, t.table) && SparesCorrections(s, t)
    && (exists f, status :: f != Nowhere && Settling(s, t, id, f, status))
    && forall f, status :: Goal(s.table.rows[id].action, f, status) ==> (t.table.rows[id].status == status <==> Decidable(s, id, f))
  }

  lemma MarkedSettles(s: State, t: State, id: nat)
    requires id in s.table.rows && t.server == s.server
    requires t.table in {s.table, SetLocation(s.table, id, s.table.rows[id].at, MoveAmbiguous)}
    ensures Settling(s, t, id, Quarantine, Quarantined)
  {
  }

  lemma OnlyMarked(s: State, t: State, id: nat)
    requires Doubtful(s, id) && t.server == s.server
    requires t.table in {s.table, SetLocation(s.table, id, s.table.rows[id].at, MoveAmbiguous)}
    requires Destination(s.table.rows[id].action).None?
    ensures Reconciled(s, t, id)
  {
    MarkedSettles(s, t, id);
    hide Passed, IntentsKept, SparesCorrections, Decidable, Settling, UniqueLocations, LabelledRow, TruthfulRow;
    SettlingPasses(s, t, id, Quarantine, Quarantined);
  }

  lemma ReachedGoal(s: State, t: State, id: nat)
    requires Doubtful(s, id) && OneRowOnly(s.table, t.table, id) && Destination(s.table.rows[id].action).Some?
    requires
      var goal := Destination(s.table.rows[id].action).value;
      && Settling(s, t, id, goal.0, goal.1)
      && (t.table.rows[id].status == goal.1 <==> Decidable(s, id, goal.0))
    ensures Reconciled(s, t, id)
  {
    hide Passed, IntentsKept, UniqueLocations, LabelledRow, TruthfulRow, SparesCorrections, Decidable, Searchable, OneUnowned, ServerInv, TableInv, MovedOut, LiveAs;
    var goal := Destination(s.table.rows[id].action).value;
    SettlingPasses(s, t, id, goal.0, goal.1);
  }

  lemma NothingReconciled(s: State)
    ensures Passed(s, s) && IntentsKept(s.table, s.table) && SparesCorrections(s, s)
  {
    NothingPassed(s);
    NothingSpared(s);
  }

  lemma OneMoreReconciled(s: State, u: State, t: State, id: nat)
    requires Passed(s, u) && IntentsKept(s.table, u.table) && SparesCorrections(s, u) && Reconciled(u, t, id)
    ensures Passed(s, t) && IntentsKept(s.table, t.table) && SparesCorrections(s, t)
  {
    hide Passed, IntentsKept, SparesCorrections;
    StillPassed(s, u, t);
    StillIntents(s.table, u.table, t.table);
    StillSpares(s, u, t);
  }

  // Every eligible row that is alone of its size has been decided, or is still to come and
  // sees the mailbox as it was for it.
  ghost predicate AllDecided(s: State, t: State, allowAutomatic: bool, todo: set<nat>) {
    && (forall id, f, status ::
         AloneOfSize(s.table, id, allowAutomatic) && Goal(s.table.rows[id].action, f, status) && id !in todo ==>
           && id in t.table.rows && t.table.rows[id].hash == s.table.rows[id].hash
           && (t.table.rows[id].status == status <==> Decidable(s, id, f)))
    && forall id, f :: AloneOfSize(s.table, id, allowAutomatic) && id in todo ==> (Decidable(t, id, f) <==> Decidable(s, id, f))
  }

  lemma NoneDecided(s: State, allowAutomatic: bool, todo: set<nat>)
    requires forall i :: i in s.table.rows && Eligible(s.table.rows[i], allowAutomatic) ==> i in todo
    ensures AllDecided(s, s, allowAutomatic, todo)
  {
  }

  lemma OneMoreDecided(s: State, u: State, t: State, id: nat, allowAutomatic: bool, todo: set<nat>)
    requires AllDecided(s, u, allowAutomatic, todo) && id in todo && Doubtful(u, id) && Reconciled(u, t, id)
    requires forall i :: i in todo ==> i in s.table.rows && i in u.table.rows && u.table.rows[i] == s.table.rows[i]
    requires forall i :: i in todo ==> Eligible(s.table.rows[i], allowAutomatic)
    ensures AllDecided(s, t, allowAutomatic, todo - {id})
  {
    hide Settling, Passed, IntentsKept, SparesCorrections, Decidable, Goal, ServerInv, TableInv, LabelledRow;
    var from, final :| from != Nowhere && Settling(u, t, id, from, final);
    forall i, f | AloneOfSize(s.table, i, allowAutomatic) && i in todo - {id} ensures Decidable(t, i, f) <==> Decidable(s, i, f) {
      assert TruthfulRow(u, u.table.rows[i]);
      Independent(u, t, id, i, from, final, f);
    }
  }

  ghost predicate CorrectedSoFar(s: State, t: State, f: Folder, limit: nat, validity: nat) {
    && CorrectionStep(s, t, f) && (AllWithin(s.server, f, limit) ==> IntentsKept(s.table, t.table))
    && BoxOf(t.server, f).validity == validity
  }

  lemma OneMoreCorrected(s: State, u: State, t: State, f: Folder, limit: nat, at: Loc)
    requires Training(f) && at.folder == f && CorrectedSoFar(s, u, f, limit, at.validity) && CorrectionStep(u, t, f)
    requires at in u.server.live && 0 < |u.server.live[at]| <= limit ==> IntentsKept(u.table, t.table)
    requires at !in u.server.live ==> t.table == u.table
    ensures CorrectedSoFar(s, t, f, limit, at.validity)
  {
    hide SparesFolder, IntentsKept;
    StillCorrecting(s, u, t, f);
    if AllWithin(s.server, f, limit) {
      if at !in u.server.live { NothingPassed(u); }
      StillIntents(s.table, u.table, t.table);
    }
  }

  // Both training folders are empty, and every correction in them is recorded.
  ghost predicate Trained(s: State, t: State) {
    && Empty(t.server, TrainSpam) && Empty(t.server, TrainHam)
    && AllRecorded(s.server, t.table, TrainSpam, Spam) && AllRecorded(s.server, t.table, TrainHam, Ham)
  }

  // Undisturbed, a training folder without rows is as new as it was.
  lemma StillFresh(s: State, t: State, f: Folder, limit: nat, perFolder: nat)
    requires FreshFolder(s, f, limit, perFolder) && Undisturbed(s.server, t.server, f) && NoRowsIn(t.table, f)
    ensures FreshFolder(t, f, limit, perFolder)
    ensures forall u, tag :: AllRecorded(t.server, u, f, tag) ==> AllRecorded(s.server, u, f, tag)
  {
    hide HasIntent;
    var a := set l | l in s.server.live && l.folder == f :: l.uid;
    var b := set l | l in t.server.live && l.folder == f :: l.uid;
    forall u ensures u in a <==> u in b {
      if u in a { var l :| l in s.server.live && l.folder == f && l.uid == u; assert l in t.server.live; }
      if u in b { var l :| l in t.server.live && l.folder == f && l.uid == u; assert l in s.server.live; }
    }
    assert a == b;
  }

  lemma StillRecorded(s: Server, t: Table, u: Table, f: Folder, tag: Label)
    requires AllRecorded(s, t, f, tag) && IntentsKept(t, u) && tag != NoLabel
    ensures AllRecorded(s, u, f, tag)
  {
    forall l | l in s.live && l.folder == f ensures HasIntent(u, s.live[l], tag) {
      var j :| j in t.rows && t.rows[j].hash == Sha(s.live[l]) && t.rows[j].intent == tag;
      assert u.rows[j].hash == Sha(s.live[l]) && u.rows[j].intent == tag;
    }
  }

  lemma StillEmpty(s: State, t: State, f: Folder)
    requires Training(f) && Empty(s.server, f) && Passed(s, t)
    ensures Empty(t.server, f)
  {
  }

  // First the spam folder, then the ham folder.
  lemma TrainedBoth(s: State, u: State, t: State, limit: nat, perFolder: nat)
    requires CorrectionStep(s, u, TrainSpam) && CorrectionStep(u, t, TrainHam)
    requires FreshFolder(s, TrainSpam, limit, perFolder) ==> Empty(u.server, TrainSpam) && AllRecorded(s.server, u.table, TrainSpam, Spam)
    requires FreshFolder(u, TrainHam, limit, perFolder) ==> Empty(t.server, TrainHam) && AllRecorded(u.server, t.table, TrainHam, Ham)
    requires AllWithin(u.server, TrainHam, limit) ==> IntentsKept(u.table, t.table)
    ensures Passed(s, t)
    ensures FreshFolder(s, TrainSpam, limit, perFolder) && FreshFolder(s, TrainHam, limit, perFolder) ==> Trained(s, t)
  {
    hide Passed, Empty, AllRecorded, IntentsKept, Undisturbed, NoRowsIn, AllWithin;
    StillPassed(s, u, t);
    if FreshFolder(s, TrainSpam, limit, perFolder) && FreshFolder(s, TrainHam, limit, perFolder) {
      assert SparesFolder(s, u, TrainHam);
      StillFresh(s, u, TrainHam, limit, perFolder);
      StillEmpty(u, t, TrainSpam);
      StillRecorded(s.server, u.table, t.table, TrainSpam, Spam);
    }
  }

  // No message on the server has the bytes of the row being restored.
  ghost predicate Missing(s: State, id: nat) {
    id in s.table.rows && s.table.rows[id].hash.Sha? && s.table.rows[id].hash.content !in s.server.live.Values
  }

  // Of the rows to restore, those no longer to come are restored; nothing else has changed.
  ghost predicate RestoredSoFar(s: State, t: State, all: set<nat>, todo: set<nat>) {
    && (forall i :: i in all - todo ==> IsRestored(t, i))
    && (forall i :: i in s.table.rows && i !in all - todo ==> i in t.table.rows && t.table.rows[i] == s.table.rows[i])
    && (todo == all ==> t == s)
  }

  lemma NoneRestored(s: State, all: set<nat>)
    ensures RestoredSoFar(s, s, all, all)
  {
    hide IsRestored;
    assert all - all == {};
  }

  lemma NextRestore(s: State, u: State, all: set<nat>, todo: set<nat>, id: nat)
    requires RestoredSoFar(s, u, all, todo) && id in todo && todo <= all && id in s.table.rows
    ensures id in u.table.rows && u.table.rows[id] == s.table.rows[id]
    ensures forall i :: all == {i} ==> i == id && u == s && todo - {id} == {}
  {
    hide IsRestored;
    forall i | all == {i} ensures i == id && todo == all { assert id in all; assert todo == {id}; }
  }

  lemma OneMoreRestored(s: State, u: State, t: State, all: set<nat>, todo: set<nat>, id: nat)
    requires RestoredSoFar(s, u, all, todo) && id in todo && todo <= all && IsRestored(t, id) && Remembers(u.server, t.server)
    requires t.table.rows.Keys == u.table.rows.Keys && forall j :: j in u.table.rows && j != id ==> t.table.rows[j] == u.table.rows[j]
    ensures RestoredSoFar(s, t, all, todo - {id})
  {
  }

  lemma RestoringStopped(s: State, u: State, t: State, all: set<nat>, todo: set<nat>, id: nat)
    requires RestoredSoFar(s, u, all, todo) && id in todo && todo <= all
    requires t.table.rows.Keys == u.table.rows.Keys && forall j :: j in u.table.rows && j != id ==> t.table.rows[j] == u.table.rows[j]
    ensures forall i :: i in s.table.rows && i !in all ==> i in t.table.rows && t.table.rows[i] == s.table.rows[i]
  {
    hide IsRestored;
  }

  lemma AllRestored(s: State, t: State, all: set<nat>)
    requires RestoredSoFar(s, t, all, {})
    ensures forall i :: i in all ==> IsRestored(t, i)
    ensures forall i :: i in s.table.rows && i !in all ==> i in t.table.rows && t.table.rows[i] == s.table.rows[i]
  {
    hide IsRestored;
    assert all - {} == all;
  }

  // ----- What the end of a run still shows of its stages -----

  // The first stage: interrupted moves.
  ghost predicate FirstStage(s: State, t: State, allowAutomatic: bool) {
    Passed(s, t) && IntentsKept(s.table, t.table) && SparesCorrections(s, t) && AllDecided(s, t, allowAutomatic, {})
  }

  // Every row that one pass could settle is settled, or superseded as a copy of bytes that
  // have been corrected since.
  ghost predicate DecidedEnds(s: State, t: State, allowAutomatic: bool) {
    forall id, f, status :: AloneOfSize(s.table, id, allowAutomatic) && Goal(s.table.rows[id].action, f, status) && Decidable(s, id, f) ==>
      && id in t.table.rows
      && (t.table.rows[id].status == status
          || (t.table.rows[id].status == Superseded && CorrectionFor(s.server, s.table.rows[id].hash)))
  }

  lemma DecidedStays(s: State, u: State, t: State, allowAutomatic: bool)
    requires FirstStage(s, u, allowAutomatic) && LeftAlone(u, t)
    ensures DecidedEnds(s, t, allowAutomatic)
  {
    hide Decidable, IntentsKept, SparesCorrections, Handles, GoneStay, RestoresKept, SameMail;
    forall id, f, status | AloneOfSize(s.table, id, allowAutomatic) && Goal(s.table.rows[id].action, f, status) && Decidable(s, id, f)
      ensures id in t.table.rows
      ensures t.table.rows[id].status == status || (t.table.rows[id].status == Superseded && CorrectionFor(s.server, s.table.rows[id].hash))
    {
      assert Resting(u.table.rows[id].status);
      assert RestedRow(u.server, u.table.rows[id], t.table.rows[id]);
    }
  }

  ghost predicate BothFresh(s: State, limit: nat, perFolder: nat) {
    FreshFolder(s, TrainSpam, limit, perFolder) && FreshFolder(s, TrainHam, limit, perFolder)
  }

  // Every correction has left its training folder and is recorded under its label.
  ghost predicate CorrectionsDone(s: State, t: State) {
    forall l: Loc :: l in s.server.live && l.folder in {TrainSpam, TrainHam} ==>
      l !in t.server.live && HasIntent(t.table, s.server.live[l], if l.folder == TrainHam then Ham else Spam)
  }

  lemma FreshAfter(s: State, u: State, limit: nat, perFolder: nat)
    requires BothFresh(s, limit, perFolder) && SparesCorrections(s, u)
    ensures BothFresh(u, limit, perFolder)
  {
    hide AllRecorded;
    StillFresh(s, u, TrainSpam, limit, perFolder);
    StillFresh(s, u, TrainHam, limit, perFolder);
  }

  lemma CorrectionsStay(s: State, u: State, v: State, t: State, limit: nat, perFolder: nat)
    requires ServerInv(s.server) && BothFresh(s, limit, perFolder) && SparesCorrections(s, u) && Trained(u, v)
    requires Passed(s, u) && Passed(u, v) && LeftAlone(v, t) && IntentsKept(v.table, t.table)
    ensures CorrectionsDone(s, t)
  {
    hide HasIntent, AllWithin, RestKept, Handles, RestoresKept, SameMail;
    StillRecorded(u.server, v.table, t.table, TrainSpam, Spam);
    StillRecorded(u.server, v.table, t.table, TrainHam, Ham);
  }

  lemma DealtStays(s: State, v: State, w: State, t: State, recent: Loc -> bool)
    requires Passed(s, v) && AllDealt(v, w, recent) && LeftAlone(w, t) && Remembers(v.server, w.server)
    ensures forall l :: Scannable(s.server, l) && recent(l) && Unrecorded(s, l) ==> Dealt(t, l)
  {
    hide Unrecorded, Dealt, RestKept, RestoresKept, NoNewCorrections;
    forall l | Scannable(s.server, l) && recent(l) && Unrecorded(s, l) ensures Dealt(t, l) {
      assert Scannable(v.server, l) && Scannable(w.server, l);
    }
  }

  lemma RestoresStay(s: State, w: State)
    requires Passed(s, w)
    ensures Restoring(w.table) == Restoring(s.table)
    ensures forall i :: Restoring(s.table) == {i} && Missing(s, i) ==> Restorable(w, i)
  {
    hide LeftAlone;
    forall i | Restoring(s.table) == {i} && Missing(s, i) ensures Restorable(w, i) {
      assert i in Restoring(s.table);
      var c := s.table.rows[i].hash.content;
      assert forall l :: l in w.server.live ==> w.server.live[l] in w.server.live.Values;
      assert Held(w.server, Review, c) == {};
    }
  }

  lemma StagesDone(s: State, u: State, v: State, t: State, allowAutomatic: bool, limit: nat, perFolder: nat)
    requires ServerInv(s.server) && FirstStage(s, u, allowAutomatic) && Passed(u, v) && (BothFresh(u, limit, perFolder) ==> Trained(u, v))
    requires LeftAlone(v, t) && IntentsKept(v.table, t.table)
    ensures DecidedEnds(s, t, allowAutomatic) && (BothFresh(s, limit, perFolder) ==> CorrectionsDone(s, t))
  {
    hide LeftAlone, RestoresKept, SameMail, Trained, AllDecided, IntentsKept, DecidedEnds, CorrectionsDone, ServerInv, FreshFolder;
    StillLeftAlone(u, v, t);
    DecidedStays(s, u, t, allowAutomatic);
    if BothFresh(s, limit, perFolder) {
      FreshAfter(s, u, limit, perFolder);
      CorrectionsStay(s, u, v, t, limit, perFolder);
    }
  }

  lemma BeforeRestores(s: State, u: State, v: State, w: State)
    requires Passed(s, u) && Passed(u, v) && Passed(v, w)
    ensures Restoring(w.table) == Restoring(s.table)
    ensures forall i :: Restoring(s.table) == {i} && Missing(s, i) ==> Restorable(w, i)
  {
    hide Passed;
    StillPassed(s, u, v);
    StillPassed(s, v, w);
    RestoresStay(s, w);
  }

  lemma AllStagesDone(s: State, u: State, v: State, w: State, t: State, allowAutomatic: bool, limit: nat, perFolder: nat, recent: Loc -> bool)
    requires ServerInv(s.server) && FirstStage(s, u, allowAutomatic) && Passed(u, v) && (BothFresh(u, limit, perFolder) ==> Trained(u, v))
    requires Passed(v, w) && IntentsKept(v.table, w.table) && (|v.server.live| <= perFolder ==> AllDealt(v, w, recent))
    requires LeftAlone(w, t) && IntentsKept(w.table, t.table)
    ensures DecidedEnds(s, t, allowAutomatic) && (BothFresh(s, limit, perFolder) ==> CorrectionsDone(s, t))
    ensures |s.server.live| <= perFolder ==> forall l :: Scannable(s.server, l) && recent(l) && Unrecorded(s, l) ==> Dealt(t, l)
  {
    hide LeftAlone, RestoresKept, Trained, AllDecided, IntentsKept, DecidedEnds, CorrectionsDone, ServerInv, FreshFolder, AllDealt, Scannable, Unrecorded, Dealt, Remembers;
    StillPassed(s, u, v);
    StillLeftAlone(v, w, t);
    StillIntents(v.table, w.table, t.table);
    StagesDone(s, u, v, t, allowAutomatic, limit, perFolder);
    if |s.server.live| <= perFolder {
      PassedRemembers(v, w);
      DealtStays(s, v, w, t, recent);
    }
  }

  lemma PassedRemembers(s: State, t: State)
    requires Passed(s, t)
    ensures Remembers(s.server, t.server)
  {
  }

  class Engine {
    const world: World
    const mail: Client
    const active: bool
    const limit: nat
    const perFolder: nat
    const quarantineDays: nat
    const archiveDays: nat

    ghost predicate Valid()
      reads this, world, world.db, mail
    {
      mail.world == world && mail.Valid() && ConfiguredLimit(limit)
    }

    constructor (mail: Client, active: bool, limit: nat, perFolder: nat, quarantineDays: nat, archiveDays: nat)
      requires mail.Valid() && ConfiguredLimit(limit)
      ensures Valid() && this.mail == mail && this.limit == limit && this.active == active
    {
      this.world, this.mail, this.active := mail.world, mail, active;
      this.limit, this.perFolder := limit, perFolder;
      this.quarantineDays, this.archiveDays := quarantineDays, archiveDays;
    }

    // Nobody else acts, and neither the session nor the store fails.
    ghost predicate Quiet()
      reads this
    {
      mail.calm && mail.nativeMove && world.db.calm
    }

    // ----- One write of the store and its entry in the run -----

    method StoreLocation(id: nat, at: Loc, status: Status) returns (ok: bool)
      requires Valid() && Relocatable(world.Now(), id, at, status)
      modifies world`run, world.db
      ensures Valid() && Onward(world)
      ensures world.db.table == if ok then SetLocation(old(world.db.table), id, at, status) else old(world.db.table)
      ensures Own(world.run) == if ok then old(Own(world.run)) + [Relocated(id, at, status)] else old(Own(world.run))
      ensures world.db.calm ==> (ok <==> UniqueLocations(SetLocation(old(world.db.table), id, at, status)))
    {
      hide Own, Legal, After;
      ghost var was := world.Now();
      ok := world.db.UpdateLocation(id, at, status);
      if ok { world.Note(Relocated(id, at, status), was); }
    }

    method StoreFinish(id: nat, at: Loc, final: Status, now: int) returns (ok: bool)
      requires Valid() && Finishable(world.Now(), id, at, final)
      modifies world`run, world.db
      ensures Valid() && Onward(world)
      ensures world.db.table == if ok then SetFinished(old(world.db.table), id, at, final, now, quarantineDays, archiveDays) else old(world.db.table)
      ensures ok ==> forall p, later :: later < now + archiveDays * DAY ==> !CleanupCandidate(world.db.table, id, p, later)
      ensures ok ==> forall later :: later < now + quarantineDays * DAY ==> !PurgeDue(world.db.table.rows[id], later)
      ensures Own(world.run) ==
        if ok then old(Own(world.run)) + [Finished(id, at, final, now, quarantineDays, archiveDays)] else old(Own(world.run))
      ensures world.db.calm ==> (ok <==> UniqueLocations(SetFinished(old(world.db.table), id, at, final, now, quarantineDays, archiveDays)))
    {
      hide Own, Legal, After;
      ghost var was := world.Now();
      ok := world.db.FinalizeMove(id, at, final, now, quarantineDays, archiveDays);
      if ok { world.Note(Finished(id, at, final, now, quarantineDays, archiveDays), was); }
    }

    // Marking an already pending move as uncertain leaves it pending.
    method KeepUncertain(id: nat)
      requires HasStatus(world.Now(), id, PendingMove)
      modifies world.db
      ensures world.db.table == old(world.db.table)
    {
      ghost var was := world.db.table;
      var ok := world.db.MarkMoveUncertain(id);
      assert world.db.table.rows == was.rows;
    }

    // ----- MOVE of a journalled message -----

    // MOVE, then the row takes the confirmed location; otherwise it stays pending.
    method MovePending(id: nat, m: Message, destination: Folder, final: Status, markUnread: bool, now: int)
      returns (ok: bool, ghost did: seq<Event>)
      requires Valid() && Movable(world.Now(), id, m, destination, final)
      requires m.at.folder != Nowhere
      modifies world, world.db, mail
      ensures Valid() && Onward(world) && OnlyRow(world, id) && world.files == old(world.files) && world.clear == old(world.clear)
      ensures Own(world.run) == old(Own(world.run)) + did
      ensures |did| <= 2 && (ok ==> |did| == 2)
      ensures did == [Moved(id, destination), Finished(id, world.db.table.rows[id].at, final, now, quarantineDays, archiveDays)][..|did|]
      ensures |did| < 2 ==> world.db.table.rows[id] == old(world.db.table.rows[id])
      ensures |did| == 2 ==>
        var at := world.db.table.rows[id].at;
        && Confirmed(world.server, at, Sha(m.raw)) && at.folder == destination
        && world.db.table.rows[id] == FinishedRow(old(world.db.table.rows[id]), at, final, now, quarantineDays, archiveDays)
      ensures |did| == 2 ==> forall p, later :: later < now + archiveDays * DAY ==> !CleanupCandidate(world.db.table, id, p, later)
      ensures |did| == 2 ==> forall later :: later < now + quarantineDays * DAY ==> !PurgeDue(world.db.table.rows[id], later)
      ensures Quiet() && old(m.at in world.server.live) ==> ok && |did| == 2 && MovedOut(old(world.server), world.Now(), id, m.at, destination)
    {
      hide Own, Legal, After, ServerInv, Enabled, Backed, Inv, UniqueLocations, Owned, TableInv;
      ghost var first := world.Now();
      MovableEnabled(first, id, m, destination, final);
      FinishFits(id, destination, final, now);
      world.Sane();
      FreshPositive(world.server, destination);
      var moved, result := mail.Move(id, m.at, destination, markUnread, m.raw);
      did := if Own(world.run) == old(Own(world.run)) then [] else [Moved(id, destination)];
      var to := Loc(destination, result.validity, result.uid);
      if result.uid == 0 || result.validity == 0 {
        KeepUncertain(id);
        return false, did;
      }
      ok := StoreFinish(id, to, final, now);
      if !ok { return; }
      did := did + [Finished(id, to, final, now, quarantineDays, archiveDays)];
      var noted := world.db.AddEvent();
      ok := !moved || noted;
    }

    // Storing a location the server has yet to hand out never meets the unique index.
    lemma FinishFits(id: nat, destination: Folder, final: Status, now: int)
      requires Valid() && id in world.db.table.rows && destination != Nowhere
      ensures
        UniqueLocations(SetFinished(world.db.table, id, FreshLoc(world.server, destination), final, now, quarantineDays, archiveDays))
    {
      hide Legal, After, ServerInv;
      RunKeeps(world.start, world.run);
      FreshUnowned(world.Now(), id, destination);
      var r := world.db.table.rows[id];
      world.Sane();
      FreshPositive(world.server, destination);
      UniqueIff(world.db.table, id, FinishedRow(r, FreshLoc(world.server, destination), final, now, quarantineDays, archiveDays));
    }

    static lemma FreshPositive(s: Server, f: Folder)
      requires ServerInv(s)
      ensures FreshLoc(s, f).uid > 0 && FreshLoc(s, f).validity > 0
    {
    }

    static lemma MovableEnabled(s: State, id: nat, m: Message, destination: Folder, final: Status)
      requires Movable(s, id, m, destination, final)
      ensures Enabled(s, Moved(id, destination)) && destination != Nowhere && HasStatus(s, id, PendingMove)
    {
    }

    // ----- Reconciliation -----

    // Searches a folder by exact size and reads every hit. A failed or over-long search
    // proves nothing, so it reports failure instead of a count.
    method CountMatches(f: Folder, c: Content, size: nat) returns (ok: bool, found: Found)
      requires Valid() && f != Nowhere
      modifies world, mail
      ensures Valid() && OnlyOthers(world)
      ensures ok && found.count > 0 ==> Confirmed(world.server, Loc(f, found.validity, found.uid), Sha(c))
      ensures mail.calm ==> world.server == old(world.server)
      ensures mail.calm && size == |c| > 0 ==> (ok <==> SizeBounded(world.server, f, size))
      ensures mail.calm && size == |c| && ok ==>
        && found.count == |Held(world.server, f, c)|
        && (found.count == 1 ==> Held(world.server, f, c) == {Loc(f, found.validity, found.uid)})
    {
      hide Own, Legal, After, ServerInv, Held, SizeBounded;
      found := Found(0, 0, 0);
      var uids;
      ok, uids := mail.SearchExactSize(f, size);
      if !ok { return; }
      world.Current();
      CountedUids(world.server, f, mail.uidValidity, size, uids);
      if mail.uidValidity == 0 || |uids| > 1000 { return false, found; }
      ok, found := ReadMatches(f, mail.uidValidity, c, uids);
      if ok && mail.calm && size == |c| { CountedAll(world.server, f, found.validity, c, uids); }
    }

    // Reads each listed message in full and counts those with exactly these bytes.
    method ReadMatches(f: Folder, validity: nat, c: Content, uids: seq<nat>) returns (ok: bool, found: Found)
      requires Valid() && f != Nowhere && mail.selected == f && mail.uidValidity == validity > 0
      requires forall i, j :: 0 <= i < j < |uids| ==> uids[i] < uids[j]
      modifies world, mail
      ensures Valid() && OnlyOthers(world)
      ensures found.count > 0 ==> Confirmed(world.server, Loc(f, validity, found.uid), Sha(c))
      ensures found.validity == validity
      ensures mail.calm ==> world.server == old(world.server)
      ensures mail.calm && (forall u :: u in uids ==> Loc(f, validity, u) in old(world.server.live)) ==> ok
      ensures mail.calm && ok ==> found.count == |Among(world.server, f, validity, c, uids)|
      ensures mail.calm && ok && found.count > 0 ==> Loc(f, validity, found.uid) in Among(world.server, f, validity, c, uids)
    {
      hide Own, Legal, After, ServerInv, Among;
      ok, found := true, Found(0, 0, validity);
      world.Current();
      NoneAmong(world.server, f, validity, c);
      for i := 0 to |uids|
        invariant Valid() && OnlyOthers(world) && ok
        invariant mail.calm ==> world.server == old(world.server)
        invariant mail.selected == f && mail.uidValidity == validity && found.validity == validity
        invariant found.count > 0 ==> Confirmed(world.server, Loc(f, validity, found.uid), Sha(c))
        invariant mail.calm ==> found.count == |Among(world.server, f, validity, c, uids[..i])|
        invariant mail.calm && found.count > 0 ==> Loc(f, validity, found.uid) in Among(world.server, f, validity, c, uids[..i])
      {
        var late: bool := *;
        if late && !mail.calm { return false, found; }
        var m;
        ok, m := mail.Fetch(f, uids[i]);
        if !ok { return; }
        OneMoreAmong(world.server, f, validity, c, uids[..i], uids[i]);
        assert uids[..i + 1] == uids[..i] + [uids[i]];
        if m.raw == c {
          found := found.(count := found.count + 1, uid := uids[i]);
        }
      }
      assert uids[..|uids|] == uids;
    }

    // One source copy and no other: confirm it again, journal where it is, move it again.
    method RetryMove(id: nat, uid: nat, destination: Folder, final: Status, now: int) returns (ok: bool, ghost did: seq<Event>)
      requires Valid() && Unresolved(world.Now(), id, destination, final)
      modifies world, world.db, mail
      ensures Valid() && Onward(world) && OnlyRow(world, id) && world.files == old(world.files) && world.clear == old(world.clear)
      ensures Own(world.run) == old(Own(world.run)) + did
      ensures |did| <= 3 && (ok ==> |did| == 3)
      ensures did == [] ==> world.db.table == old(world.db.table)
      ensures did != [] ==> did[0].Relocated? && did[0].id == id && did[0].status == PendingMove
      ensures did != [] ==>
        did[1..] == [Moved(id, destination), Finished(id, world.db.table.rows[id].at, final, now, quarantineDays, archiveDays)][..|did| - 1]
      ensures world.db.table.rows[id].status == (if |did| == 3 then final else if did == [] then old(world.db.table.rows[id].status) else PendingMove)
      ensures |did| == 3 ==> Confirmed(world.server, world.db.table.rows[id].at, world.db.table.rows[id].hash)
      ensures Quiet() && CopyAt(old(world.Now()), id, old(world.db.table.rows[id].at.folder), uid) ==>
        (|did| == 3 <==> Unowned(old(world.Now()), id, old(world.db.table.rows[id].at.folder), uid))
      ensures Quiet() ==> Settling(old(world.Now()), world.Now(), id, destination, final)
    {
      hide Own, Legal, After, ServerInv, Enabled, Backed, UniqueLocations, Remembers, Movable, CopyAt, Unowned;
      did := [];
      ghost var before := world.server;
      var toInbox := Destination(world.db.table.rows[id].action) == Some((Inbox, Rescued));
      var m;
      ok, m := Reconfirm(id, uid, destination, final);
      if !ok { return; }
      ghost var between := world.server;
      ok, did := MovePending(id, m, destination, final, toInbox, now);
      StillRemembers(before, between, world.server);
      did := [Relocated(id, m.at, PendingMove)] + did;
      if ok { ok := world.db.AddEvent(); }
    }

    // The source copy, read once more and journalled where it is now.
    method Reconfirm(id: nat, uid: nat, destination: Folder, final: Status) returns (ok: bool, m: Message)
      requires Valid() && Unresolved(world.Now(), id, destination, final)
      modifies world, world.db, mail
      ensures Valid() && Onward(world) && OnlyRow(world, id) && world.files == old(world.files) && world.clear == old(world.clear)
      ensures Own(world.run) == if ok then old(Own(world.run)) + [Relocated(id, m.at, PendingMove)] else old(Own(world.run))
      ensures !ok ==> world.db.table == old(world.db.table)
      ensures ok ==> Movable(world.Now(), id, m, destination, final) && m.at.folder != Nowhere
      ensures ok && mail.calm ==> m.at in world.server.live
      ensures ok ==>
        world.db.table.rows[id] == old(world.db.table.rows[id]).(at := m.at, status := PendingMove) && world.db.table.rows[id].hash == Sha(m.raw)
      ensures Quiet() && CopyAt(old(world.Now()), id, old(world.db.table.rows[id].at.folder), uid) ==>
        (ok <==> Unowned(old(world.Now()), id, old(world.db.table.rows[id].at.folder), uid))
      ensures mail.calm ==> world.server == old(world.server)
      ensures ok && mail.calm ==> m.at.folder == old(world.db.table.rows[id].at.folder) && LiveAs(world.server, m.at, Sha(m.raw))
    {
      hide Own, Legal, After, ServerInv, Enabled, Backed, Owned, UniqueLocations, Remembers;
      ghost var first := world.Now();
      var record := world.db.table.rows[id];
      UnresolvedBacked(first, id, destination, final);
      ok, m := mail.Fetch(record.at.folder, uid);
      if !ok || Sha(m.raw) != record.hash { return false, m; }
      ghost var fetched := world.Now();
      LocationFits(id, m.at);
      ok := StoreLocation(id, m.at, PendingMove);
      if !ok { return; }
      RetryMovable(fetched, world.Now(), id, m, destination, final);
      StillRemembers(first.server, fetched.server, world.server);
    }

    lemma LocationFits(id: nat, at: Loc)
      requires Valid() && id in world.db.table.rows && at.uid > 0
      ensures UniqueLocations(SetLocation(world.db.table, id, at, PendingMove)) <==> !Owned(world.db.table, id, at)
    {
      hide Legal, After;
      world.SaneRow(id);
      UniqueIff(world.db.table, id, world.db.table.rows[id].(at := at, status := PendingMove));
    }

    lemma ArrivalFits(id: nat, at: Loc, final: Status, now: int)
      requires Valid() && id in world.db.table.rows && at.uid > 0
      ensures UniqueLocations(SetFinished(world.db.table, id, at, final, now, quarantineDays, archiveDays)) <==> !Owned(world.db.table, id, at)
    {
      hide Legal, After;
      world.SaneRow(id);
      UniqueIff(world.db.table, id, FinishedRow(world.db.table.rows[id], at, final, now, quarantineDays, archiveDays));
    }

    // One destination copy and no other: confirm it again and store its location.
    method ConfirmArrival(id: nat, uid: nat, destination: Folder, final: Status, now: int) returns (ok: bool, ghost did: seq<Event>)
      requires Valid() && Unresolved(world.Now(), id, destination, final)
      modifies world, world.db, mail
      ensures Valid() && Onward(world) && OnlyRow(world, id) && world.files == old(world.files) && world.clear == old(world.clear)
      ensures Own(world.run) == old(Own(world.run)) + did
      ensures |did| <= 1 && (ok ==> |did| == 1)
      ensures did == [] ==> world.db.table == old(world.db.table)
      ensures did != [] ==> did[0] == Finished(id, world.db.table.rows[id].at, final, now, quarantineDays, archiveDays)
      ensures did != [] ==>
        world.db.table.rows[id].status == final && Confirmed(world.server, world.db.table.rows[id].at, world.db.table.rows[id].hash)
      ensures Quiet() && CopyAt(old(world.Now()), id, destination, uid) ==> (|did| == 1 <==> Unowned(old(world.Now()), id, destination, uid))
      ensures Quiet() ==> Settling(old(world.Now()), world.Now(), id, destination, final)
    {
      hide Own, Legal, After, ServerInv, Enabled, Backed, Owned, UniqueLocations, Remembers, Settling, CleanupCandidate, PurgeDue;
      ghost var before, first := world.server, world.Now();
      Unsettled(first, id, destination, final);
      ok, did := false, [];
      var record := world.db.table.rows[id];
      var m;
      ok, m := mail.Fetch(destination, uid);
      if !ok || Sha(m.raw) != record.hash { return false, did; }
      if Destination(record.action) == Some((Inbox, Rescued)) {
        ghost var between := world.server;
        var unread := mail.MarkUnread(destination, m.at.validity);
        StillRemembers(before, between, world.server);
        RememberedConfirmed(between, world.server, m.at, m.raw);
      }
      ArrivalFits(id, m.at, final, now);
      ok := StoreFinish(id, m.at, final, now);
      if ok {
        did := [Finished(id, m.at, final, now, quarantineDays, archiveDays)];
        ok := world.db.AddEvent();
      }
      if Quiet() { ArrivalSettles(first, world.Now(), id, m.at, destination, final, now); }
    }

    lemma ArrivalSettles(s: State, t: State, id: nat, at: Loc, destination: Folder, final: Status, now: int)
      requires id in s.table.rows && at.folder == destination && LiveAs(s.server, at, s.table.rows[id].hash) && t.server == s.server
      requires t.table in {s.table, SetFinished(s.table, id, at, final, now, quarantineDays, archiveDays)}
      ensures Settling(s, t, id, destination, final)
    {
    }

    static lemma RememberedConfirmed(s: Server, t: Server, at: Loc, c: Content)
      requires Remembers(s, t) && at in s.ledger && s.ledger[at] == c
      ensures at in t.ledger && t.ledger[at] == c
    {
    }

    static lemma RetryMovable(s: State, t: State, id: nat, m: Message, destination: Folder, final: Status)
      requires Unresolved(s, id, destination, final) && Sha(m.raw) == s.table.rows[id].hash
      requires Confirmed(s.server, m.at, Sha(m.raw))
      requires t == s.(table := SetLocation(s.table, id, m.at, PendingMove))
      ensures Movable(t, id, m, destination, final)
    {
    }

    static lemma UnresolvedBacked(s: State, id: nat, destination: Folder, final: Status)
      requires Unresolved(s, id, destination, final)
      ensures Backed(s.files, s.table.rows[id]) && s.table.rows[id].hash.Sha?
    {
    }

    // Neither side is decisive: the row becomes ambiguous and forgets its UID.
    method GiveUp(id: nat, destination: Folder, final: Status) returns (ghost did: seq<Event>)
      requires Valid() && Unresolved(world.Now(), id, destination, final)
      modifies world`run, world.db
      ensures Valid() && Onward(world) && OnlyRow(world, id)
      ensures Own(world.run) == old(Own(world.run)) + did
      ensures forall e :: e in did ==> e.Relocated? && e.status == MoveAmbiguous
      ensures world.db.table.rows[id].status in {PendingMove, MoveAmbiguous}
      ensures Settling(old(world.Now()), world.Now(), id, destination, final)
    {
      hide Own, Legal, After, ServerInv, Enabled, Backed, UniqueLocations;
      did := [];
      var at := Loc(world.db.table.rows[id].at.folder, 0, 0);
      var ok := StoreLocation(id, at, MoveAmbiguous);
      if ok { did := [Relocated(id, at, MoveAmbiguous)]; }
    }

    // The decision table. Only a single source copy without a destination copy is moved
    // again; only a single copy on one side settles the row.
    method FinishReconciliation(id: nat, destination: Folder, final: Status, source: Found, arrived: Found, now: int)
      returns (ghost did: seq<Event>)
      requires Valid() && Unresolved(world.Now(), id, destination, final)
      modifies world, world.db, mail
      ensures Valid() && Onward(world) && OnlyRow(world, id) && world.files == old(world.files) && world.clear == old(world.clear)
      ensures Own(world.run) == old(Own(world.run)) + did
      ensures !(source.count == 1 && arrived.count == 0) ==> forall e :: e in did ==> !e.Moved?
      ensures source.count + arrived.count != 1 ==> forall e :: e in did ==> e.Relocated? && e.status == MoveAmbiguous
      ensures world.db.table.rows[id].status in {final, PendingMove, MoveAmbiguous}
      ensures world.db.table.rows[id].status == final ==>
        source.count + arrived.count == 1 && Confirmed(world.server, world.db.table.rows[id].at, world.db.table.rows[id].hash)
      ensures Quiet() && source.count == 1 && arrived.count == 0 && CopyAt(old(world.Now()), id, old(world.db.table.rows[id].at.folder), source.uid) ==>
        (world.db.table.rows[id].status == final <==> Unowned(old(world.Now()), id, old(world.db.table.rows[id].at.folder), source.uid))
      ensures Quiet() && source.count == 0 && arrived.count == 1 && CopyAt(old(world.Now()), id, destination, arrived.uid) ==>
        (world.db.table.rows[id].status == final <==> Unowned(old(world.Now()), id, destination, arrived.uid))
      ensures Quiet() ==> Settling(old(world.Now()), world.Now(), id, destination, final)
    {
      hide Own, Legal, After, ServerInv, Enabled, Backed, CopyAt, Unowned, Remembers, Confirmed, Settling;
      if source.count > 1 || arrived.count > 1 || (source.count == 1 && arrived.count == 1) {
        did := GiveUp(id, destination, final);
      } else if source.count == 1 && arrived.count == 0 {
        var ok;
        ok, did := RetryMove(id, source.uid, destination, final, now);
      } else if source.count == 0 && arrived.count == 1 {
        var ok;
        ok, did := ConfirmArrival(id, arrived.uid, destination, final, now);
      } else {
        did := GiveUp(id, destination, final);
      }
    }

    // One pass over one unresolved row. In a quiet mailbox it settles the row exactly when
    // one copy is left on both sides together and no other row has taken its location.
    method ReconcileBySize(id: nat, destination: Folder, final: Status, now: int)
      requires Valid() && Unresolved(world.Now(), id, destination, final)
      modifies world, world.db, mail
      ensures Valid() && Onward(world) && OnlyRow(world, id) && world.files == old(world.files) && world.clear == old(world.clear)
      ensures world.db.table.rows[id].status in {final, PendingMove, MoveAmbiguous}
      ensures Quiet() ==>
        (world.db.table.rows[id].status == final <==> Searchable(old(world.Now()), id, destination) && OneUnowned(old(world.Now()), id, destination))
      ensures Quiet() ==> Settling(old(world.Now()), world.Now(), id, destination, final)
    {
      hide Own, Legal, After, ServerInv, Enabled, Backed, CopyAt, Unowned, OneUnowned, Remembers, Confirmed, Searchable, Settling;
      ghost var before := world.server;
      Unsettled(world.Now(), id, destination, final);
      UnresolvedRow(id, destination, final);
      var ok, source, arrived := CountBoth(id, destination, final);
      if !ok { return; }
      ghost var counted := world.server;
      var did := FinishReconciliation(id, destination, final, source, arrived, now);
      StillRemembers(before, counted, world.server);
    }

    // Source first, then destination. In a quiet mailbox the two counts decide whether a
    // single copy is left, and where.
    method CountBoth(id: nat, destination: Folder, final: Status) returns (ok: bool, source: Found, arrived: Found)
      requires Valid() && Unresolved(world.Now(), id, destination, final)
      modifies world, mail
      ensures Valid() && OnlyOthers(world) && Unresolved(world.Now(), id, destination, final)
      ensures mail.calm ==> world.server == old(world.server) && (ok <==> Searchable(world.Now(), id, destination))
      ensures mail.calm && ok ==> Decisive(world.Now(), id, destination, source, arrived)
    {
      hide Own, Legal, After, ServerInv, Enabled, Backed, Remembers, Confirmed, Held, SizeBounded, Decisive;
      ghost var before := world.server;
      var r := world.db.table.rows[id];
      UnresolvedRow(id, destination, final);
      arrived := Found(0, 0, 0);
      ok, source := CountMatches(r.at.folder, r.hash.content, r.size);
      if !ok { return; }
      ghost var between := world.server;
      ok, arrived := CountMatches(destination, r.hash.content, r.size);
      StillRemembers(before, between, world.server);
      if ok && mail.calm { Sides(id, destination, final, source, arrived); }
    }

    lemma UnresolvedRow(id: nat, destination: Folder, final: Status)
      requires Valid() && Unresolved(world.Now(), id, destination, final)
      ensures
        var r := world.db.table.rows[id];
        && r.hash.Sha? && r.size == |r.hash.content| > 0 && r.at.folder != destination
        && r.at.folder != Nowhere && destination != Nowhere && final !in {PendingMove, MoveAmbiguous}
    {
      hide Legal, After;
      world.SaneRow(id);
      world.SaneFiles();
    }

    lemma Sides(id: nat, destination: Folder, final: Status, source: Found, arrived: Found)
      requires Valid() && Unresolved(world.Now(), id, destination, final)
      requires
        var r := world.db.table.rows[id];
        && r.hash.Sha?
        && source.count == |Held(world.server, r.at.folder, r.hash.content)|
        && arrived.count == |Held(world.server, destination, r.hash.content)|
        && (source.count == 1 ==> Held(world.server, r.at.folder, r.hash.content) == {Loc(r.at.folder, source.validity, source.uid)})
        && (arrived.count == 1 ==> Held(world.server, destination, r.hash.content) == {Loc(destination, arrived.validity, arrived.uid)})
      ensures Decisive(world.Now(), id, destination, source, arrived)
    {
      hide Legal, After, Backed, Owned;
      UnresolvedRow(id, destination, final);
      world.Current();
      var r := world.db.table.rows[id];
      var a, b := Held(world.server, r.at.folder, r.hash.content), Held(world.server, destination, r.hash.content);
      assert a !! b;
      assert |a + b| == source.count + arrived.count;
      if source.count == 1 {
        HeldAt(world.server, Loc(r.at.folder, source.validity, source.uid), r.at.folder, r.hash.content);
      }
      if arrived.count == 1 {
        HeldAt(world.server, Loc(destination, arrived.validity, arrived.uid), destination, r.hash.content);
      }
      if l :| a + b == {l} { assert |{l}| == 1; }
    }

    // ----- Archive -----

    // Writes the encrypted copy, or finds and verifies the one already there.
    method SaveCopy(raw: Content, month: nat) returns (ok: bool, file: Path)
      requires Valid()
      modifies world`run, world`files
      ensures Valid() && Onward(world)
      ensures file == Path(month, raw)
      ensures ok ==> raw != [] && file in world.files && world.files[file] == raw
      ensures Own(world.run) == if world.files == old(world.files) then old(Own(world.run)) else old(Own(world.run)) + [FileSaved(file)]
      ensures world.files == old(world.files) || world.files == old(world.files)[file := raw]
      ensures world.db.calm && raw != [] ==> ok
    {
      hide Own, Legal, After;
      file := Path(month, raw);
      if raw == [] { return false, file; }
      world.SaneFiles();
      var fails: bool := *;
      if fails && !world.db.calm { return false, file; }
      ok := true;
      if file !in world.files {
        ghost var was := world.Now();
        world.files := world.files[file := raw];
        world.Note(FileSaved(file), was);
      }
    }

    // Decrypts the copy and compares it with the row's hash.
    method CheckCopy(file: Path, hash: Digest) returns (ok: bool, raw: Content)
      ensures ok ==> file in world.files && world.files[file] == raw && Sha(raw) == hash
      ensures world.db.calm && file in world.files && Sha(world.files[file]) == hash ==> ok
    {
      var fails: bool := *;
      if file !in world.files || (fails && !world.db.calm) { return false, []; }
      raw := world.files[file];
      ok := Sha(raw) == hash;
    }

    // ----- Journalled intents -----

    // Archive first, then the pending row.
    method PreparePending(m: Message, action: Action, status: Status, clock: Clock) returns (ok: bool, id: nat)
      requires Valid() && Preparable(world.Now(), m, action, status, active)
      modifies world`run, world`files, world.db
      ensures Valid() && Onward(world)
      ensures !ok ==> world.db.table == old(world.db.table)
      ensures ok ==> UpsertTarget(old(world.db.table), m.at, id)
      ensures ok ==> world.db.table == Upsert(old(world.db.table), id,
        PendingRow(m.at, m.raw, action, status, Path(clock.month, m.raw), clock.now + archiveDays * DAY, clock.now))
      ensures ok ==> Journalled(world.Now(), id, m, action, status) && m.raw != []
      ensures ok ==>
        var r := world.db.table.rows[id];
        && r.path == Some(Path(clock.month, m.raw)) && r.until == Some(clock.now + archiveDays * DAY)
        && r.size == |m.raw| && r.scanned == clock.now
      ensures world.db.calm && m.raw != [] ==> ok
    {
      hide Own, Legal, After, UpsertTarget, UniqueLocations, AllowedDecision;
      var file;
      id := 0;
      ok, file := SaveCopy(m.raw, clock.month);
      if ok { ok, id := StorePending(m, action, status, file, clock); }
    }

    method StorePending(m: Message, action: Action, status: Status, file: Path, clock: Clock) returns (ok: bool, id: nat)
      requires Valid() && Preparable(world.Now(), m, action, status, active)
      requires m.raw != [] && file.content == m.raw && file in world.files && world.files[file] == m.raw
      modifies world`run, world.db
      ensures Valid() && Onward(world)
      ensures !ok ==> world.db.table == old(world.db.table)
      ensures ok ==> UpsertTarget(old(world.db.table), m.at, id)
      ensures ok ==> world.db.table == Upsert(old(world.db.table), id,
        PendingRow(m.at, m.raw, action, status, file, clock.now + archiveDays * DAY, clock.now))
      ensures ok ==> Journalled(world.Now(), id, m, action, status)
      ensures world.db.calm ==> ok
    {
      hide Own, Legal, After, UpsertTarget, UniqueLocations, AllowedDecision, Enabled, Effect, ServerInv;
      var until := clock.now + archiveDays * DAY;
      SaneTable();
      ghost var was := world.Now();
      ok, id := world.db.UpsertMessage(0, PendingRow(m.at, m.raw, action, status, file, until, clock.now));
      if !ok { return; }
      PendingEnabled(was, m, UpsertedPending(id, m.at, action, status, file, until, active, clock.now));
      world.Note(UpsertedPending(id, m.at, action, status, file, until, active, clock.now), was);
    }

    static lemma PendingEnabled(s: State, m: Message, e: Event)
      requires e.UpsertedPending? && UpsertTarget(s.table, e.at, e.id) && e.at == m.at && e.file.content == m.raw
      requires Preparable(s, m, e.action, e.status, e.active) && m.raw != [] && e.file in s.files && s.files[e.file] == m.raw
      ensures Enabled(s, e)
      ensures Effect(s, e) == s.(table := Upsert(s.table, e.id, PendingRow(e.at, m.raw, e.action, e.status, e.file, e.until, e.now)))
    {
    }

    lemma SaneTable()
      requires Valid()
      ensures TableInv(world.db.table)
    {
      hide Legal, After;
      RunKeeps(world.start, world.run);
    }

    // ----- Corrections: messages the user put into a training folder -----

    method StoreIntent(id: nat, tag: Label) returns (ok: bool)
      requires Valid() && Enabled(world.Now(), IntentMarked(id, tag, limit))
      modifies world`run, world.db
      ensures Valid() && Onward(world)
      ensures world.db.table == if ok then SetIntent(old(world.db.table), id, tag) else old(world.db.table)
      ensures forall hash :: Aside(old(world.db.table), world.db.table, id, hash)
      ensures world.db.calm ==> ok
    {
      hide Own, Legal, After, Enabled, UniqueLocations, Aside;
      IntentTarget(world.Now(), id, tag, limit);
      SaneTable();
      SameAside(world.db.table, id);
      EditAside(world.db.table, id, world.db.table.rows[id].(intent := tag));
      ghost var was := world.Now();
      ok := world.db.MarkFeedbackIntent(id, tag);
      if ok { world.Note(IntentMarked(id, tag, limit), was); }
    }

    method StoreLearned(id: nat, tag: Label) returns (ok: bool)
      requires Valid() && Enabled(world.Now(), LearnMarked(id, tag))
      modifies world`run, world.db
      ensures Valid() && Onward(world)
      ensures world.db.table == if ok then SetLearned(old(world.db.table), id, tag) else old(world.db.table)
      ensures forall hash :: Aside(old(world.db.table), world.db.table, id, hash)
      ensures world.db.calm ==> ok
    {
      hide Own, Legal, After, Enabled, UniqueLocations, Aside;
      LearnTarget(world.Now(), id, tag);
      SaneTable();
      SameAside(world.db.table, id);
      EditAside(world.db.table, id, SetLearned(world.db.table, id, tag).rows[id]);
      ghost var was := world.Now();
      ok := world.db.MarkLearned(id, tag);
      if ok { world.Note(LearnMarked(id, tag), was); }
    }

    static lemma IntentTarget(s: State, id: nat, tag: Label, limit: nat)
      requires Enabled(s, IntentMarked(id, tag, limit))
      ensures id in s.table.rows && tag in {Ham, Spam}
    {
    }

    static lemma LearnTarget(s: State, id: nat, tag: Label)
      requires Enabled(s, LearnMarked(id, tag))
      ensures id in s.table.rows && tag in {Ham, Spam}
    {
    }

    method StoreSuperseded(id: nat) returns (ok: bool)
      requires Valid() && id in world.db.table.rows && world.db.table.rows[id].hash.Sha?
      modifies world`run, world.db
      ensures Valid() && Onward(world)
      ensures id in world.db.table.rows && world.db.table.rows[id] == old(world.db.table.rows[id])
      ensures Aside(old(world.db.table), world.db.table, id, world.db.table.rows[id].hash) && (world.db.calm ==> ok)
      ensures ok ==> OthersSupersededBy(old(world.db.table), world.db.table, id, world.db.table.rows[id].hash)
    {
      hide Own, Legal, After, UniqueLocations, Aside, OthersSupersededBy;
      SaneTable();
      SameAside(world.db.table, id);
      SupersedeAside(world.db.table, world.db.table.rows[id].hash, id);
      ghost var was := world.Now();
      ok := world.db.SupersedeOtherCopies(world.db.table.rows[id].hash, id);
      if ok { world.Note(OthersSuperseded(id), was); }
    }

    // A failed learning request leaves the row, with its intent, open for a retry.
    method StoreLearnError(id: nat, now: int)
      requires Valid() && HasStatus(world.Now(), id, PendingLearn)
      modifies world`run, world.db
      ensures Valid() && Onward(world)
    {
      hide Own, Legal, After;
      SaneTable();
      ghost var was := world.Now();
      var ok, stored := world.db.UpsertMessage(id, world.db.table.rows[id].(status := Errored, scanned := now));
      if ok { world.Note(UpsertedLearnError(id, now), was); }
    }

    // The external classifier. It is asked only when the correction and the archive copy
    // are already durable, and its answer may be lost.
    method Learn(id: nat, m: Message, tag: Label) returns (reply: LearnReply)
      requires Journalled(world.Now(), id, m, LearnAction(tag), PendingLearn) && world.db.table.rows[id].intent == tag
      ensures mail.calm ==> reply != Refused
    {
      reply := *;
      if mail.calm && reply == Refused { reply := Skipped; }
    }

    // Archive copy, pending row and the user's correction, all durable.
    method Intend(m: Message, action: Action, status: Status, tag: Label, clock: Clock) returns (ok: bool, id: nat)
      requires Valid() && Learnable(world.Now(), m, tag, limit)
      requires action in {LearnAction(tag), FinalAction(tag)} && status in {PendingLearn, PendingMove}
      modifies world`run, world`files, world.db
      ensures Valid() && Onward(world)
      ensures ok ==> Journalled(world.Now(), id, m, action, status) && world.db.table.rows[id].intent == tag
      ensures ok ==> UpsertTarget(old(world.db.table), m.at, id) && Aside(old(world.db.table), world.db.table, id, Sha(m.raw))
      ensures world.db.calm ==> ok
    {
      hide Own, Legal, After, Enabled, ServerInv, UpsertTarget, UniqueLocations, Aside;
      ghost var before := world.db.table;
      LearnableAllowed(world.Now(), m, tag, limit, active);
      ok, id := PreparePending(m, action, status, clock);
      if !ok { return; }
      UpsertAside(before, id, PendingRow(m.at, m.raw, action, status, Path(clock.month, m.raw), clock.now + archiveDays * DAY, clock.now));
      ghost var prepared := world.db.table;
      IntentAllowed(world.Now(), id, m, action, tag, limit);
      ok := StoreIntent(id, tag);
      StillAside(before, prepared, world.db.table, id, Sha(m.raw));
    }

    method ArchiveLearnAndMove(m: Message, tag: Label, clock: Clock) returns (outcome: Correction)
      requires Valid() && Learnable(world.Now(), m, tag, limit)
      modifies world, world.db, mail
      ensures Valid() && Onward(world)
      ensures outcome.Learnt? ==> Corrected(world.Now(), outcome.id, m, tag) && world.db.table.rows[outcome.id].feedback == tag
      ensures outcome.Unlearnt? ==> Corrected(world.Now(), outcome.id, m, tag)
      ensures outcome != Failed ==> UpsertTarget(old(world.db.table), m.at, outcome.id) && Aside(old(world.db.table), world.db.table, outcome.id, Sha(m.raw))
      ensures Quiet() && old(m.at in world.server.live) ==> outcome != Failed && MovedOut(old(world.server), world.Now(), outcome.id, m.at, FinalFolder(tag))
      ensures outcome != Failed ==> OthersSupersededBy(old(world.db.table), world.db.table, outcome.id, Sha(m.raw))
    {
      hide Own, Legal, After, Enabled, ServerInv, UpsertTarget, UniqueLocations, Aside, Relocate, OthersSupersededBy;
      ghost var before := world.db.table;
      var ok, id := Intend(m, LearnAction(tag), PendingLearn, tag, clock);
      if !ok { return Failed; }
      ghost var intended := world.db.table;
      var reply := Learn(id, m, tag);
      match reply
      case Refused =>
        StoreLearnError(id, clock.now);
        outcome := Failed;
      case Skipped =>
        ok := FinishUnlearned(id, m, LearnAction(tag), tag, clock.now);
        StillAside(before, intended, world.db.table, id, Sha(m.raw));
        if ok { StillSupersededBy(before, intended, world.db.table, id, Sha(m.raw)); }
        outcome := if ok then Unlearnt(id) else Failed;
      case Accepted =>
        ok := FinishLearned(id, m, tag, clock.now);
        StillAside(before, intended, world.db.table, id, Sha(m.raw));
        if ok { StillSupersededBy(before, intended, world.db.table, id, Sha(m.raw)); }
        outcome := if ok then Learnt(id) else Failed;
    }

    method FinishLearned(id: nat, m: Message, tag: Label, now: int) returns (ok: bool)
      requires Valid() && Journalled(world.Now(), id, m, LearnAction(tag), PendingLearn) && world.db.table.rows[id].intent == tag
      requires tag in {Ham, Spam} && m.at.folder == TrainingFolder(tag)
      modifies world, world.db, mail
      ensures Valid() && Onward(world)
      ensures ok ==> Corrected(world.Now(), id, m, tag) && world.db.table.rows[id].feedback == tag
      ensures Aside(old(world.db.table), world.db.table, id, Sha(m.raw))
      ensures Quiet() && old(m.at in world.server.live) ==> ok && MovedOut(old(world.server), world.Now(), id, m.at, FinalFolder(tag))
      ensures ok ==> OthersSupersededBy(old(world.db.table), world.db.table, id, Sha(m.raw))
    {
      hide Own, Legal, After, ServerInv, Remembers, UniqueLocations, Aside, Relocate, Enabled, OthersSupersededBy;
      ghost var before := world.db.table;
      LearnAllowed(world.Now(), id, m, tag);
      ok := StoreLearned(id, tag);
      if !ok { return; }
      ok := SupersedeAndMove(id, m, tag, now);
      StillAside(before, SetLearned(before, id, tag), world.db.table, id, Sha(m.raw));
      if ok { StillSupersededBy(before, SetLearned(before, id, tag), world.db.table, id, Sha(m.raw)); }
    }

    // The correction counts, and the message moves, although nothing was learned from it.
    method FinishUnlearned(id: nat, m: Message, action: Action, tag: Label, now: int) returns (ok: bool)
      requires Valid() && Journalled(world.Now(), id, m, action, PendingLearn) && world.db.table.rows[id].intent == tag
      requires tag in {Ham, Spam} && m.at.folder == TrainingFolder(tag) && action in {LearnAction(tag), FinalAction(tag)}
      modifies world, world.db, mail
      ensures Valid() && Onward(world)
      ensures ok ==> Corrected(world.Now(), id, m, tag)
      ensures Aside(old(world.db.table), world.db.table, id, Sha(m.raw))
      ensures Quiet() && old(m.at in world.server.live) ==> ok && MovedOut(old(world.server), world.Now(), id, m.at, FinalFolder(tag))
      ensures ok ==> OthersSupersededBy(old(world.db.table), world.db.table, id, Sha(m.raw))
    {
      hide Own, Legal, After, Enabled, ServerInv, Remembers, UniqueLocations, Aside, Relocate, OthersSupersededBy;
      ghost var before := world.db.table;
      SameAside(before, id);
      SaneTable();
      EditAside(before, id, before.rows[id].(at := m.at, status := PendingMove));
      ok := StoreLocation(id, m.at, PendingMove);
      if !ok { return; }
      ok := world.db.AddEvent();
      if !ok { return; }
      ghost var stored := world.db.table;
      ok := SupersedeAndMove(id, m, tag, now);
      StillAside(before, stored, world.db.table, id, Sha(m.raw));
      if ok { StillSupersededBy(before, stored, world.db.table, id, Sha(m.raw)); }
    }

    method SupersedeAndMove(id: nat, m: Message, tag: Label, now: int) returns (ok: bool)
      requires Valid() && Movable(world.Now(), id, m, FinalFolder(tag), FinalStatus(tag)) && m.at.folder != Nowhere
      requires world.db.table.rows[id].intent == tag
      modifies world, world.db, mail
      ensures Valid() && Onward(world)
      ensures ok ==> Corrected(world.Now(), id, m, tag) && world.db.table.rows[id].feedback == old(world.db.table.rows[id].feedback)
      ensures Aside(old(world.db.table), world.db.table, id, Sha(m.raw))
      ensures Quiet() && old(m.at in world.server.live) ==> ok && MovedOut(old(world.server), world.Now(), id, m.at, FinalFolder(tag))
      ensures ok ==> OthersSupersededBy(old(world.db.table), world.db.table, id, Sha(m.raw))
    {
      hide Own, Legal, After, Enabled, ServerInv, Remembers, UniqueLocations, Aside, Relocate, Backed, OthersSupersededBy;
      ghost var before := world.db.table;
      ok := StoreSuperseded(id);
      if !ok { return; }
      ghost var superseded := world.db.table;
      ok := MoveCorrected(id, m, tag, now);
      StillAside(before, superseded, world.db.table, id, Sha(m.raw));
      SupersededStays(before, superseded, world.db.table, id, Sha(m.raw));
    }

    static lemma LearnAllowed(s: State, id: nat, m: Message, tag: Label)
      requires Journalled(s, id, m, LearnAction(tag), PendingLearn) && s.table.rows[id].intent == tag
      requires tag in {Ham, Spam} && m.at.folder == TrainingFolder(tag)
      ensures Enabled(s, LearnMarked(id, tag))
    {
    }

    // A malformed message is never sent to the learner.
    method ArchiveUnlearnableAndMove(m: Message, tag: Label, clock: Clock) returns (outcome: Correction)
      requires Valid() && Learnable(world.Now(), m, tag, limit)
      modifies world, world.db, mail
      ensures Valid() && Onward(world)
      ensures !outcome.Learnt?
      ensures outcome.Unlearnt? ==> Corrected(world.Now(), outcome.id, m, tag)
      ensures outcome != Failed ==> UpsertTarget(old(world.db.table), m.at, outcome.id) && Aside(old(world.db.table), world.db.table, outcome.id, Sha(m.raw))
      ensures Quiet() && old(m.at in world.server.live) ==> outcome != Failed && MovedOut(old(world.server), world.Now(), outcome.id, m.at, FinalFolder(tag))
      ensures outcome != Failed ==> OthersSupersededBy(old(world.db.table), world.db.table, outcome.id, Sha(m.raw))
    {
      hide Own, Legal, After, Enabled, ServerInv, UpsertTarget, UniqueLocations, Aside, Relocate, OthersSupersededBy;
      ghost var before := world.db.table;
      var ok, id := Intend(m, FinalAction(tag), PendingLearn, tag, clock);
      if !ok { return Failed; }
      ghost var intended := world.db.table;
      ok := FinishUnlearned(id, m, FinalAction(tag), tag, clock.now);
      StillAside(before, intended, world.db.table, id, Sha(m.raw));
      if ok { StillSupersededBy(before, intended, world.db.table, id, Sha(m.raw)); }
      outcome := if ok then Unlearnt(id) else Failed;
    }

    // The same bytes were already learned under this label: move without learning again.
    method ArchiveKnownAndMove(m: Message, tag: Label, clock: Clock) returns (outcome: Correction)
      requires Valid() && Learnable(world.Now(), m, tag, limit)
      modifies world, world.db, mail
      ensures Valid() && Onward(world)
      ensures !outcome.Learnt?
      ensures outcome.Unlearnt? ==> Corrected(world.Now(), outcome.id, m, tag)
      ensures outcome != Failed ==> UpsertTarget(old(world.db.table), m.at, outcome.id) && Aside(old(world.db.table), world.db.table, outcome.id, Sha(m.raw))
      ensures Quiet() && old(m.at in world.server.live) ==> outcome != Failed && MovedOut(old(world.server), world.Now(), outcome.id, m.at, FinalFolder(tag))
      ensures outcome != Failed ==> OthersSupersededBy(old(world.db.table), world.db.table, outcome.id, Sha(m.raw))
    {
      hide Own, Legal, After, Enabled, ServerInv, UpsertTarget, UniqueLocations, Aside, Relocate, OthersSupersededBy;
      ghost var before := world.db.table;
      var ok, id := Intend(m, FinalAction(tag), PendingMove, tag, clock);
      if !ok { return Failed; }
      ghost var intended := world.db.table;
      ok := SupersedeAndMove(id, m, tag, clock.now);
      StillAside(before, intended, world.db.table, id, Sha(m.raw));
      if ok { StillSupersededBy(before, intended, world.db.table, id, Sha(m.raw)); }
      outcome := if ok then Unlearnt(id) else Failed;
    }

    static lemma LearnableAllowed(s: State, m: Message, tag: Label, limit: nat, active: bool)
      requires Learnable(s, m, tag, limit) && ConfiguredLimit(limit)
      ensures Preparable(s, m, LearnAction(tag), PendingLearn, active)
      ensures Preparable(s, m, FinalAction(tag), PendingLearn, active)
      ensures Preparable(s, m, FinalAction(tag), PendingMove, active)
    {
    }

    static lemma IntentAllowed(s: State, id: nat, m: Message, action: Action, tag: Label, limit: nat)
      requires Learnable(s, m, tag, limit) && ConfiguredLimit(limit)
      requires exists status :: status in {PendingLearn, PendingMove} && Journalled(s, id, m, action, status)
      ensures Enabled(s, IntentMarked(id, tag, limit))
    {
    }

    method MoveCorrected(id: nat, m: Message, tag: Label, now: int) returns (ok: bool)
      requires Valid() && Movable(world.Now(), id, m, FinalFolder(tag), FinalStatus(tag)) && m.at.folder != Nowhere
      requires world.db.table.rows[id].intent == tag
      modifies world, world.db, mail
      ensures Valid() && Onward(world) && world.files == old(world.files)
      ensures ok ==> Corrected(world.Now(), id, m, tag) && world.db.table.rows[id].feedback == old(world.db.table.rows[id].feedback)
      ensures Aside(old(world.db.table), world.db.table, id, Sha(m.raw))
      ensures Quiet() && old(m.at in world.server.live) ==> ok && MovedOut(old(world.server), world.Now(), id, m.at, FinalFolder(tag))
    {
      hide Own, Legal, After, Enabled, ServerInv, Backed, Remembers, UniqueLocations;
      ghost var did;
      ok, did := MovePending(id, m, FinalFolder(tag), FinalStatus(tag), tag == Ham, now);
    }

    // Empty or oversized: recorded under a hash of its location, without its bytes. This
    // happens even in a dry run.
    method RecordOversized(m: Message, now: int) returns (ghost id: nat)
      requires Valid() && m.at.uid > 0 && m.at in world.server.ledger && world.server.ledger[m.at] == m.raw
      requires if Training(m.at.folder) then |m.raw| == 0 || |m.raw| > limit
               else m.at.folder in {Inbox, ServerSpam} && |m.raw| > ABSOLUTE_LIMIT
      modifies world`run, world.db
      ensures Valid() && Onward(world) && OnlyBlocked(old(Own(world.run)), Own(world.run))
      ensures world.db.calm ==> RecordedBlocked(old(world.Now()), world.Now(), id, m.at)
    {
      hide Own, Legal, After, UpsertTarget, UniqueLocations;
      SaneTable();
      ghost var was := world.Now();
      var ok, target := world.db.UpsertMessage(0, KeptRow(m.at, ShaOfLocation(m.at), |m.raw|, Blocked, now));
      id := target;
      if ok { world.Note(UpsertedOversized(id, m.at, limit, now), was); }
    }

    method RecordKept(m: Message, status: Status, now: int) returns (ghost id: nat)
      requires Valid() && Confirmed(world.server, m.at, Sha(m.raw)) && |m.raw| <= ABSOLUTE_LIMIT
      requires m.at.folder == Inbox && status in {Kept, Observed, Errored}
      modifies world`run, world.db
      ensures Valid() && Onward(world)
      ensures m.raw == [] ==> world.db.table == old(world.db.table)
      ensures world.db.calm && m.raw != [] ==>
        SortStep(old(world.Now()), world.Now(), m.at, m.raw, id) && RecordedAt(world.db.table.rows[id], m.at, m.raw, status)
        && world.db.table.rows[id].size == |m.raw| && world.db.table.rows[id].scanned == now
    {
      hide Own, Legal, After, UpsertTarget, UniqueLocations;
      id := 0;
      if m.raw == [] { return; }
      SaneTable();
      ghost var was := world.Now();
      var ok, target := world.db.UpsertMessage(0, KeptRow(m.at, Sha(m.raw), |m.raw|, status, now));
      id := target;
      if ok { world.Note(UpsertedKept(id, m.at, status, now), was); }
    }

    // One pass over a training folder.
    method ProcessTraining(tag: Label, dryRun: bool, clock: Clock) returns (ok: bool)
      requires Valid() && tag in {Ham, Spam}
      modifies world, world.db, mail
      ensures Valid() && Onward(world)
      ensures dryRun ==> OnlyBlocked(old(Own(world.run)), Own(world.run))
      ensures Quiet() && !dryRun && FreshFolder(old(world.Now()), TrainingFolder(tag), limit, perFolder) ==>
        ok && Empty(world.server, TrainingFolder(tag)) && AllRecorded(old(world.server), world.db.table, TrainingFolder(tag), tag)
      ensures mail.calm && !dryRun ==> ok
      ensures Quiet() && !dryRun ==> CorrectionStep(old(world.Now()), world.Now(), TrainingFolder(tag))
      ensures Quiet() && !dryRun && AllWithin(old(world.server), TrainingFolder(tag), limit) ==> IntentsKept(old(world.db.table), world.db.table)
      ensures Quiet() && !dryRun && Empty(old(world.server), TrainingFolder(tag)) ==> world.Now() == old(world.Now())
    {
      hide Own, Legal, After, ServerInv, Remembers, Confirmed, Emptying, FreshlyCorrected, NoRowsIn, HasIntent, CorrectionStep, IntentsKept, OpenCorrection, ListsAll, Empty, AllRecorded;
      ghost var first, start := Own(world.run), world.Now();
      var folder := TrainingFolder(tag);
      ghost var quiet := Quiet() && !dryRun && FreshFolder(start, folder, limit, perFolder);
      NothingCorrected(start, folder);
      var uids;
      ok, uids := mail.SearchSince(folder, true);
      if !ok { return dryRun; }
      var validity, handled := mail.uidValidity, 0;
      if mail.calm {
        StartTraining(start, tag, validity, uids);
        NothingListed(start.server, folder, validity, uids);
      }
      for i := 0 to |uids|
        invariant Valid() && Onward(world)
        invariant dryRun ==> OnlyBlocked(first, Own(world.run))
        invariant quiet ==> handled == i && Emptying(start.server, world.Now(), folder, tag, validity, uids, i)
        invariant Quiet() && !dryRun ==> CorrectedSoFar(start, world.Now(), folder, limit, validity)
        invariant mail.calm && uids == [] ==> world.Now() == start
      {
        var at := Loc(folder, validity, uids[i]);
        OpenIff(at);
        if quiet { StillOpen(start.server, world.Now(), tag, validity, uids, i, limit); }
        if !dryRun && world.db.TrainingProcessed(at) { continue; }
        if handled >= perFolder { break; }
        handled := handled + 1;
        ghost var s, did := world.Now(), Own(world.run);
        Correct(folder, uids[i], tag, dryRun, clock);
        StillRemembers(start.server, s.server, world.server);
        if dryRun { StillBlocked(first, did, Own(world.run)); }
        if Quiet() && !dryRun { CorrectedNext(start, s, world.Now(), tag, limit, validity, uids, i, quiet); }
      }
      if quiet { AllCorrected(start, world.Now(), tag, validity, uids); }
    }

    lemma OpenIff(at: Loc)
      ensures OpenCorrection(world.db.table, at) <==> !world.db.TrainingProcessed(at)
    {
    }

    lemma StartTraining(start: State, tag: Label, validity: nat, uids: seq<nat>)
      requires Valid() && world.Now() == start && validity == BoxOf(start.server, TrainingFolder(tag)).validity
      requires forall u :: u in uids ==> Loc(TrainingFolder(tag), validity, u) in start.server.live
      requires forall l :: l in start.server.live && l.folder == TrainingFolder(tag) ==> l.uid in uids
      requires forall i, j :: 0 <= i < j < |uids| ==> uids[i] < uids[j]
      ensures ListsAll(start.server, TrainingFolder(tag), validity, uids)
      ensures CorrectedSoFar(start, start, TrainingFolder(tag), limit, validity)
      ensures FreshFolder(start, TrainingFolder(tag), limit, perFolder) ==>
        |uids| <= perFolder && Emptying(start.server, start, TrainingFolder(tag), tag, validity, uids, 0)
    {
      hide Legal, After;
      world.Current();
      AllLeft(start.server, TrainingFolder(tag), validity, uids);
      NothingCorrected(start, TrainingFolder(tag));
    }

    static lemma NothingListed(s: Server, f: Folder, validity: nat, uids: seq<nat>)
      requires forall u :: u in uids ==> Loc(f, validity, u) in s.live
      ensures Empty(s, f) ==> uids == []
    {
      if uids != [] { assert uids[0] in uids && Loc(f, validity, uids[0]).folder == f; }
    }

    static lemma StillOpen(s0: Server, t: State, tag: Label, validity: nat, uids: seq<nat>, i: nat, limit: nat)
      requires Emptying(s0, t, TrainingFolder(tag), tag, validity, uids, i) && i < |uids|
      ensures OpenCorrection(t.table, Loc(TrainingFolder(tag), validity, uids[i]))
    {
    }

    static lemma CorrectedNext(s: State, u: State, t: State, tag: Label, limit: nat, validity: nat, uids: seq<nat>, i: nat, anew: bool)
      requires tag in {Ham, Spam} && i < |uids|
      requires forall j, k :: 0 <= j < k < |uids| ==> uids[j] < uids[k]
      requires anew ==>
        && AllWithin(s.server, TrainingFolder(tag), limit)
        && Emptying(s.server, u, TrainingFolder(tag), tag, validity, uids, i)
      requires CorrectedSoFar(s, u, TrainingFolder(tag), limit, validity)
      requires
        var at := Loc(TrainingFolder(tag), validity, uids[i]);
        && CorrectionStep(u, t, TrainingFolder(tag))
        && (at in u.server.live && 0 < |u.server.live[at]| <= limit ==> IntentsKept(u.table, t.table))
        && (at !in u.server.live ==> t.table == u.table)
        && (at in u.server.live && 0 < |u.server.live[at]| <= limit && NoRowsIn(u.table, at.folder) ==> FreshlyCorrected(u, t, at, tag))
      ensures CorrectedSoFar(s, t, TrainingFolder(tag), limit, validity)
      ensures anew ==> Emptying(s.server, t, TrainingFolder(tag), tag, validity, uids, i + 1)
    {
      hide CorrectionStep, IntentsKept, FreshlyCorrected, HasIntent, NoRowsIn;
      OneMoreCorrected(s, u, t, TrainingFolder(tag), limit, Loc(TrainingFolder(tag), validity, uids[i]));
      if anew { EmptyingNext(s.server, u, t, TrainingFolder(tag), tag, validity, uids, i); }
    }

    static lemma AllCorrected(s: State, t: State, tag: Label, validity: nat, uids: seq<nat>)
      requires ListsAll(s.server, TrainingFolder(tag), validity, uids)
      requires Emptying(s.server, t, TrainingFolder(tag), tag, validity, uids, |uids|)
      ensures Empty(t.server, TrainingFolder(tag)) && AllRecorded(s.server, t.table, TrainingFolder(tag), tag)
    {
      hide HasIntent;
      NothingLeft(s.server, t.server, TrainingFolder(tag), validity, uids);
    }

    static lemma AllLeft(s: Server, f: Folder, validity: nat, uids: seq<nat>)
      requires validity == BoxOf(s, f).validity && forall l :: l in s.live ==> l.validity == BoxOf(s, l.folder).validity
      requires forall u :: u in uids ==> Loc(f, validity, u) in s.live
      requires forall l :: l in s.live && l.folder == f ==> l.uid in uids
      requires forall i, j :: 0 <= i < j < |uids| ==> uids[i] < uids[j]
      ensures Left(s, s, f, validity, uids, 0)
      ensures forall l :: l in s.live && l.folder == f ==> exists j :: 0 <= j < |uids| && l == Loc(f, validity, uids[j])
      ensures |uids| == |set l | l in s.live && l.folder == f :: l.uid|
    {
      var found := set l | l in s.live && l.folder == f :: l.uid;
      assert forall u :: u in uids ==> Loc(f, validity, u).uid in found;
      Distinct(uids, found);
      assert uids[0..] == uids;
    }


    static lemma NothingLeft(s0: Server, s: Server, f: Folder, validity: nat, uids: seq<nat>)
      requires Left(s0, s, f, validity, uids, |uids|)
      ensures forall l :: l in s.live ==> l.folder != f
    {
      assert uids[|uids|..] == [];
    }

    // What the pass does with one message of the folder.
    method Correct(folder: Folder, uid: nat, tag: Label, dryRun: bool, clock: Clock)
      requires Valid() && tag in {Ham, Spam} && folder == TrainingFolder(tag)
      modifies world, world.db, mail
      ensures Valid() && Onward(world)
      ensures dryRun ==> OnlyBlocked(old(Own(world.run)), Own(world.run))
      ensures
        var at := Loc(folder, BoxOf(old(world.server), folder).validity, uid);
        Quiet() && !dryRun && at in old(world.server.live) && 0 < |old(world.server.live)[at]| <= limit && NoRowsIn(old(world.db.table), folder) ==>
          FreshlyCorrected(old(world.Now()), world.Now(), at, tag)
      ensures
        var at := Loc(folder, BoxOf(old(world.server), folder).validity, uid);
        Quiet() && !dryRun && OpenCorrection(old(world.db.table), at) ==>
          && CorrectionStep(old(world.Now()), world.Now(), folder)
          && (at in old(world.server.live) && 0 < |old(world.server.live)[at]| <= limit ==> IntentsKept(old(world.db.table), world.db.table))
          && (at !in old(world.server.live) ==> world.db.table == old(world.db.table))
    {
      hide Own, Legal, After, ServerInv, Remembers, Relocate, NoRowsIn, HasIntent, UpsertTarget, Aside, Corrected, MovedOut, CorrectionStep, OpenCorrection, IntentsKept;
      ghost var before, table, first := world.server, world.db.table, world.Now();
      NothingCorrected(first, folder);
      SaneState();
      var ok, m := mail.Fetch(folder, uid);
      if !ok { return; }
      ghost var s := world.server;
      if |m.raw| == 0 || |m.raw| > limit {
        ghost var id := RecordOversized(m, clock.now);
        if Quiet() && OpenCorrection(table, m.at) { BlockedCorrectionPasses(first, world.Now(), id, m.at); }
      } else if !dryRun {
        var outcome := CorrectAcceptable(m, tag, clock);
        if Quiet() { MovedServer(s, world.Now(), outcome.id, m.at, FinalFolder(tag)); }
        if outcome != Failed && NoRowsIn(table, folder) { CorrectionRecorded(table, world.Now(), outcome.id, m, tag); }
      }
      StillRemembers(before, s, world.server);
    }

    static lemma LiveBytes(s: Server, l: Loc, c: Content)
      requires ServerInv(s) && Confirmed(s, l, Sha(c)) && l in s.live
      ensures s.live[l] == c
    {
    }

    static lemma MovedServer(s: Server, t: State, id: nat, l: Loc, f: Folder)
      requires MovedOut(s, t, id, l, f)
      ensures t.server == Relocate(s, l, f)
    {
    }

    // Already learned, malformed, or new: each kind of correction has its own way to the
    // same end.
    method CorrectAcceptable(m: Message, tag: Label, clock: Clock) returns (outcome: Correction)
      requires Valid() && Learnable(world.Now(), m, tag, limit)
      modifies world, world.db, mail
      ensures Valid() && Onward(world)
      ensures outcome != Failed ==> Corrected(world.Now(), outcome.id, m, tag)
      ensures outcome != Failed ==> UpsertTarget(old(world.db.table), m.at, outcome.id) && Aside(old(world.db.table), world.db.table, outcome.id, Sha(m.raw))
      ensures Quiet() && old(m.at in world.server.live) ==> outcome != Failed && MovedOut(old(world.server), world.Now(), outcome.id, m.at, FinalFolder(tag))
      ensures Quiet() && old(m.at in world.server.live) && OpenCorrection(old(world.db.table), m.at) ==>
        CorrectionStep(old(world.Now()), world.Now(), m.at.folder) && IntentsKept(old(world.db.table), world.db.table)
      ensures outcome != Failed ==> OthersSupersededBy(old(world.db.table), world.db.table, outcome.id, Sha(m.raw))
    {
      hide Own, Legal, After, ServerInv, Remembers, Relocate, UpsertTarget, Aside, MovedOut, CorrectionStep, OpenCorrection, IntentsKept, OthersSupersededBy;
      ghost var first := world.Now();
      SaneState();
      world.Sane();
      var known: bool, invalidMime: bool := *, *;
      if known {
        outcome := ArchiveKnownAndMove(m, tag, clock);
      } else if invalidMime {
        outcome := ArchiveUnlearnableAndMove(m, tag, clock);
      } else {
        outcome := ArchiveLearnAndMove(m, tag, clock);
      }
      if Quiet() && m.at in first.server.live && OpenCorrection(first.table, m.at) {
        LiveBytes(first.server, m.at, m.raw);
        CorrectedPasses(first, world.Now(), outcome.id, m.at, FinalFolder(tag));
      }
    }

    lemma SaneState()
      requires Valid()
      ensures Inv(world.Now())
    {
      hide Legal, After;
      RunKeeps(world.start, world.run);
    }

    // ----- Automatic decisions -----

    method ArchiveAndMove(m: Message, action: Action, dryRun: bool, clock: Clock) returns (ok: bool, ghost id: nat)
      requires Valid() && Preparable(world.Now(), m, action, PendingMove, active)
      requires m.at.folder in {Inbox, ServerSpam} && Destination(action).Some?
      modifies world, world.db, mail
      ensures Valid() && Onward(world)
      ensures dryRun ==> ok && Own(world.run) == old(Own(world.run)) && world.db.table == old(world.db.table)
      ensures ok && !dryRun ==> Arrived(world.Now(), id, m, action)
      ensures Quiet() && !dryRun && m.raw == [] ==> world.db.table == old(world.db.table) && world.server == old(world.server)
      ensures Quiet() && !dryRun && old(m.at in world.server.live) && m.raw != [] ==>
        && ok && SortStep(old(world.Now()), world.Now(), m.at, m.raw, id)
        && MovedOut(old(world.server), world.Now(), id, m.at, Destination(action).value.0)
    {
      hide Own, Legal, After, Enabled, ServerInv, UpsertTarget, UniqueLocations, AllowedDecision, Preparable, Journalled, Movable, MovedOut, SortStep, Upsert, CleanupCandidate, PurgeDue;
      id := 0;
      if dryRun { return true, id; }
      ghost var first := world.Now();
      world.Sane();
      if m.at.folder == Inbox { InboxOnlyQuarantines(first, m, action, PendingMove, active); }
      var row;
      ok, row := PreparePending(m, action, PendingMove, clock);
      id := row;
      if !ok { return ok, id; }
      ghost var prepared := world.Now();
      var goal := Destination(action).value;
      JournalledMovable(prepared, id, m, action);
      ghost var did;
      ok, did := MovePending(row, m, goal.0, goal.1, action == ToRescue, clock.now);
      assert ok ==> Arrived(world.Now(), id, m, action);
      if Quiet() && m.at in first.server.live {
        MoveSteps(first, prepared, world.Now(), id, m, action, goal.1, clock, quarantineDays, archiveDays);
      }
    }

    static lemma InboxOnlyQuarantines(s: State, m: Message, action: Action, status: Status, active: bool)
      requires Preparable(s, m, action, status, active) && m.at.folder == Inbox
      ensures action == ToQuarantine
    {
    }

    static lemma MoveSteps(s: State, u: State, t: State, id: nat, m: Message, action: Action, final: Status, clock: Clock, quarantineDays: nat, archiveDays: nat)
      requires ServerInv(s.server) && u.server == s.server && m.at in s.server.live && m.at.folder in {Inbox, ServerSpam}
      requires UpsertTarget(s.table, m.at, id) && Arrived(t, id, m, action)
      requires u.table == Upsert(s.table, id, PendingRow(m.at, m.raw, action, PendingMove, Path(clock.month, m.raw), clock.now + archiveDays * DAY, clock.now))
      requires Destination(action).Some? && MovedOut(s.server, t, id, m.at, Destination(action).value.0)
      requires t.table.rows.Keys == u.table.rows.Keys && forall j :: j in u.table.rows && j != id ==> t.table.rows[j] == u.table.rows[j]
      requires id in u.table.rows && t.table.rows[id] == FinishedRow(u.table.rows[id], t.table.rows[id].at, final, clock.now, quarantineDays, archiveDays)
      requires m.at.folder == Inbox ==> action == ToQuarantine
      ensures SortStep(s, t, m.at, m.raw, id)
    {
      MovedEnds(s.server, t, id, m.at, Destination(action).value.0);
    }

    static lemma JournalledMovable(s: State, id: nat, m: Message, action: Action)
      requires Journalled(s, id, m, action, PendingMove) && Destination(action).Some?
      ensures Movable(s, id, m, Destination(action).value.0, Destination(action).value.1)
      ensures s.table.rows[id].hash == Sha(m.raw)
    {
    }

    // applyFeedbackGuard: a verdict never overrules the latest correction of these bytes.
    method Guarded(m: Message, verdict: Verdict) returns (guarded: Verdict)
      requires Valid()
      ensures guarded in {verdict, Uncertain, Unknown}
      ensures world.db.calm && verdict == SpamVerdict ==> (guarded == SpamVerdict <==> !Latest(world.db.table, Sha(m.raw), Ham))
      ensures world.db.calm && verdict == HamVerdict ==> (guarded == HamVerdict <==> !Latest(world.db.table, Sha(m.raw), Spam))
      ensures guarded == SpamVerdict ==> !Latest(world.db.table, Sha(m.raw), Ham)
      ensures guarded == HamVerdict ==> !Latest(world.db.table, Sha(m.raw), Spam)
    {
      hide Legal, After;
      SaneTable();
      var ok, tag := world.db.LatestFeedback(Sha(m.raw));
      if !ok { return Unknown; }
      OneLatest(world.db.table, Sha(m.raw), tag);
      var overruled := (verdict == SpamVerdict && tag == Ham) || (verdict == HamVerdict && tag == Spam);
      guarded := if overruled then Uncertain else verdict;
    }

    static lemma OneLatest(t: Table, hash: Digest, tag: Label)
      requires Latest(t, hash, tag)
      ensures forall other :: Latest(t, hash, other) ==> other == tag
    {
      forall other | Latest(t, hash, other) ensures other == tag {
        if tag != NoLabel && other != NoLabel {
          var i :| i in t.rows && t.rows[i].hash == hash && Effective(t.rows[i]) == tag
                   && forall j :: j in t.rows && j > i && t.rows[j].hash == hash ==> Effective(t.rows[j]) == NoLabel;
          var k :| k in t.rows && t.rows[k].hash == hash && Effective(t.rows[k]) == other
                   && forall j :: j in t.rows && j > k && t.rows[j].hash == hash ==> Effective(t.rows[j]) == NoLabel;
          assert i == k;
        }
      }
    }

    static lemma DecisionAllowed(t: Table, f: Folder, raw: Content, verdict: Verdict, active: bool)
      requires f in {Inbox, ServerSpam}
      requires verdict == SpamVerdict ==> !Latest(t, Sha(raw), Ham)
      requires verdict == HamVerdict ==> !Latest(t, Sha(raw), Spam)
      ensures Decide(f, verdict, active) != Keep ==> AllowedDecision(t, f, raw, Decide(f, verdict, active), active)
      ensures Decide(f, verdict, active) == Keep ==> f == Inbox
    {
    }

    // One pass over the Inbox or the provider's spam folder. In a quiet session every due
    // message that has its turn within the limit of messages ends as the decision table says.
    method ProcessFolder(f: Folder, dryRun: bool, rescanBefore: int, scan: Loc -> Scanned, clock: Clock) returns (ok: bool)
      requires Valid() && f in {Inbox, ServerSpam}
      modifies world, world.db, mail
      ensures Valid() && Onward(world)
      ensures dryRun ==> OnlyBlocked(old(Own(world.run)), Own(world.run))
      ensures mail.calm ==> ok
      ensures Quiet() && !dryRun ==> Passed(old(world.Now()), world.Now()) && IntentsKept(old(world.db.table), world.db.table)
      ensures Quiet() && !dryRun ==>
        AllSorted(old(world.Now()), world.Now(), f, mail.recent, Treatment(scan, limit, active, rescanBefore), perFolder)
    {
      hide Own, Legal, After, ServerInv, Remembers, Confirmed, Passed, IntentsKept, SortedOne, Progressing, AllSorted, Waiting;
      ghost var first, start, how := Own(world.run), world.Now(), Treatment(scan, limit, active, rescanBefore);
      ghost var quiet := Quiet() && !dryRun;
      world.Sane();
      var uids;
      ok, uids := mail.SearchSince(f, false);
      if !ok { return; }
      var validity, handled := mail.uidValidity, 0;
      if quiet { StartSorting(start, f, validity, uids, how); }
      for i := 0 to |uids|
        invariant Valid() && Onward(world) && ok
        invariant dryRun ==> OnlyBlocked(first, Own(world.run))
        invariant quiet ==> Progressing(start, world.Now(), f, mail.recent, validity, uids, i, how, handled)
      {
        var at := Loc(f, validity, uids[i]);
        WaitingIff(at, rescanBefore);
        if quiet { ProgressSkips(start, world.Now(), f, mail.recent, validity, uids, i, how, handled); }
        if !dryRun && (world.db.Pending(at) || world.db.Processed(at, active, rescanBefore)) { continue; }
        if handled >= perFolder {
          if quiet { ProgressEnds(start, world.Now(), f, mail.recent, validity, uids, i, how, handled, perFolder); }
          return;
        }
        ghost var s, did := world.Now(), Own(world.run);
        Sort(f, uids[i], dryRun, rescanBefore, scan, clock);
        StillRemembers(start.server, s.server, world.server);
        if dryRun { StillBlocked(first, did, Own(world.run)); }
        if quiet { ProgressSorts(start, s, world.Now(), f, mail.recent, validity, uids, i, how, handled); }
        handled := handled + 1;
      }
      if quiet { ProgressEnds(start, world.Now(), f, mail.recent, validity, uids, |uids|, how, handled, perFolder); }
    }

    // What a location's rows say about it, in the store's terms and in the decision's.
    lemma WaitingIff(at: Loc, before: int)
      ensures Waiting(world.db.table, at, active, before) <==> !world.db.Pending(at) && !world.db.Processed(at, active, before)
    {
    }

    // What the pass does with one message: the size is known before the body is read.
    method Sort(f: Folder, uid: nat, dryRun: bool, ghost before: int, scan: Loc -> Scanned, clock: Clock)
      requires Valid() && f in {Inbox, ServerSpam}
      modifies world, world.db, mail
      ensures Valid() && Onward(world)
      ensures dryRun ==> OnlyBlocked(old(Own(world.run)), Own(world.run))
      ensures
        var at := Loc(f, BoxOf(old(world.server), f).validity, uid);
        Quiet() && !dryRun && at in old(world.server.live) && Waiting(old(world.db.table), at, active, before) ==>
          SortedOne(old(world.Now()), world.Now(), at, scan(at), limit, active)
    {
      hide Own, Legal, After, ServerInv, Remembers, AllowedDecision, SortedOne, Waiting;
      ghost var first := world.Now();
      var ok, m := mail.Fetch(f, uid);
      if !ok { return; }
      ghost var s := world.server;
      if |m.raw| > ABSOLUTE_LIMIT {
        SortTooLarge(m, dryRun, before, scan(m.at), clock);
        StillRemembers(first.server, s, world.server);
        return;
      }
      ok, m := mail.Fetch(f, uid);
      StillRemembers(first.server, s, world.server);
      if !ok { return; }
      s := world.server;
      if |m.raw| > ABSOLUTE_LIMIT {
        SortTooLarge(m, dryRun, before, scan(m.at), clock);
      } else {
        SortReadable(m, dryRun, before, scan(m.at), clock);
      }
      StillRemembers(first.server, s, world.server);
    }

    method SortTooLarge(m: Message, dryRun: bool, ghost before: int, ghost scanned: Scanned, clock: Clock)
      requires Valid() && m.at.folder in {Inbox, ServerSpam} && Confirmed(world.server, m.at, Sha(m.raw)) && |m.raw| > ABSOLUTE_LIMIT
      modifies world`run, world.db
      ensures Valid() && Onward(world) && OnlyBlocked(old(Own(world.run)), Own(world.run))
      ensures Quiet() && m.at in world.server.live && Waiting(old(world.db.table), m.at, active, before) ==>
        SortedOne(old(world.Now()), world.Now(), m.at, scanned, limit, active)
    {
      hide Own, Legal, After, ServerInv, SortedOne, Waiting;
      ghost var first := world.Now();
      SaneState();
      world.Sane();
      ghost var id := RecordOversized(m, clock.now);
      if Quiet() && m.at in world.server.live && Waiting(first.table, m.at, active, before) {
        LiveBytes(first.server, m.at, m.raw);
        BlockedDone(first, world.Now(), m.at, id, scanned, limit, active, before);
      }
    }

    method SortReadable(m: Message, dryRun: bool, ghost before: int, scanned: Scanned, clock: Clock)
      requires Valid() && m.at.folder in {Inbox, ServerSpam} && Confirmed(world.server, m.at, Sha(m.raw)) && |m.raw| <= ABSOLUTE_LIMIT
      modifies world, world.db, mail
      ensures Valid() && Onward(world)
      ensures dryRun ==> Own(world.run) == old(Own(world.run))
      ensures Quiet() && !dryRun && m.at in old(world.server.live) && Waiting(old(world.db.table), m.at, active, before) ==>
        SortedOne(old(world.Now()), world.Now(), m.at, scanned, limit, active)
    {
      hide Own, Legal, After, ServerInv, SortedOne, Waiting, SortStep, EndedAs, Remembers;
      ghost var first := world.Now();
      SaneState();
      world.Sane();
      ghost var id := SortMessage(m, scanned, dryRun, clock);
      if Quiet() && !dryRun && m.at in first.server.live && Waiting(first.table, m.at, active, before) {
        LiveBytes(first.server, m.at, m.raw);
        if m.raw == [] {
          NothingSorted(first, world.Now(), m.at, scanned, limit, active);
        } else {
          SortStepDone(first, world.Now(), m.at, id, scanned, limit, active, before);
        }
      }
    }

    lemma StartSorting(start: State, f: Folder, validity: nat, uids: seq<nat>, how: Treatment)
      requires Valid() && world.Now() == start && validity == BoxOf(start.server, f).validity
      requires forall u :: u in uids ==> Loc(f, validity, u) in start.server.live && mail.recent(Loc(f, validity, u))
      requires forall l :: l in start.server.live && l.folder == f && mail.recent(l) ==> l.uid in uids
      requires forall i, j :: 0 <= i < j < |uids| ==> uids[i] < uids[j]
      ensures Progressing(start, start, f, mail.recent, validity, uids, 0, how, 0)
    {
      hide Legal, After, Progressing;
      world.Current();
      ProgressStarts(start, f, mail.recent, validity, uids, how);
    }

    // Oversized for scanning, malformed, unscannable or classified: in a quiet session the
    // decision table says where the message ends, and nothing else changes.
    method SortMessage(m: Message, scanned: Scanned, dryRun: bool, clock: Clock) returns (ghost id: nat)
      requires Valid() && m.at.folder in {Inbox, ServerSpam} && Confirmed(world.server, m.at, Sha(m.raw)) && |m.raw| <= ABSOLUTE_LIMIT
      modifies world, world.db, mail
      ensures Valid() && Onward(world)
      ensures dryRun ==> Own(world.run) == old(Own(world.run))
      ensures Quiet() && !dryRun && m.raw == [] ==> world.db.table == old(world.db.table) && world.server == old(world.server)
      ensures Quiet() && !dryRun && m.raw != [] && old(m.at in world.server.live) ==>
        && SortStep(old(world.Now()), world.Now(), m.at, m.raw, id)
        && EndedAs(world.Now(), old(world.db.table), m.at, m.raw, scanned, limit, active)
    {
      hide Own, Legal, After, ServerInv, Latest, SortStep, MovedTo, StaysAs, MovedOut, Arrived, Confirmed;
      id := 0;
      ghost var first := world.Now();
      world.Sane();
      var status := if |m.raw| > limit then Kept else if scanned.Unscannable? then Errored else if active && !dryRun then Kept else Observed;
      var action := if m.at.folder == Inbox then Keep else ToReview;
      if |m.raw| <= limit && scanned.Classified? {
        var verdict := Guarded(m, scanned.verdict);
        DecisionAllowed(world.db.table, m.at.folder, m.raw, verdict, active);
        action := Decide(m.at.folder, verdict, active);
      }
      if action != Keep {
        var ok;
        ok, id := ArchiveAndMove(m, action, dryRun, clock);
        if Quiet() && !dryRun && m.raw != [] && m.at in first.server.live { ArrivedEnds(first, world.Now(), id, m, action); }
      } else if !dryRun {
        id := RecordKept(m, status, clock.now);
        if Quiet() && m.raw != [] && m.at in first.server.live { KeptStays(first, world.Now(), id, m, status); }
      }
    }

    static lemma KeptStays(s: State, t: State, id: nat, m: Message, status: Status)
      requires SortStep(s, t, m.at, m.raw, id) && RecordedAt(t.table.rows[id], m.at, m.raw, status)
      requires m.at in s.server.live && t.server == s.server
      ensures StaysAs(t, m.at, m.raw, status)
    {
    }

    static lemma ArrivedEnds(s: State, t: State, id: nat, m: Message, action: Action)
      requires ServerInv(s.server) && m.at in s.server.live && Confirmed(s.server, m.at, Sha(m.raw))
      requires Arrived(t, id, m, action) && MovedOut(s.server, t, id, m.at, Destination(action).value.0)
      ensures MovedTo(t, m.at, m.raw, Destination(action).value.0, Destination(action).value.1)
    {
      MovedEnds(s.server, t, id, m.at, Destination(action).value.0);
      assert EndsAt(t, t.table.rows[id], m.raw, Destination(action).value.0, Destination(action).value.1);
    }

    // ----- Restore -----

    // Looks for the row's bytes in the review folder.
    method FindInReview(id: nat, r: Row) returns (ok: bool, count: nat, at: Loc, ghost did: seq<Event>)
      requires Valid() && HasStatus(world.Now(), id, PendingRestore) && r == world.db.table.rows[id]
      modifies world, mail
      ensures Valid() && Onward(world) && world.db.table == old(world.db.table) && world.files == old(world.files)
      ensures Own(world.run) == old(Own(world.run)) + did && did <= [ReviewListed(id)] && (ok ==> did != [])
      ensures r.hash.Sha?
      ensures ok && count == 0 ==> id in world.clear
      ensures count == 1 ==> at.folder == Review && Confirmed(world.server, at, r.hash)
      ensures mail.calm ==> ok && world.server == old(world.server) && HeldAs(world.server, r.hash.content, count, at)
    {
      hide Own, Legal, After, ServerInv, Enabled, InReview, Remembers, Confirmed, Backed, Held, Among;
      ghost var before := world.server;
      PendingRestoreRow(id);
      count, at, did := 0, Loc(Review, 0, 0), [];
      var uids;
      ok, uids := mail.SearchSince(Review, true);
      if !ok { return; }
      ghost var listed := world.Now();
      world.Current();
      world.Listable(mail.uidValidity);
      world.clear := if InReview(listed, r.hash.content) then world.clear - {id} else world.clear + {id};
      ListingEnabled(listed, id);
      world.Note(ReviewListed(id), listed);
      did := [ReviewListed(id)];
      ghost var validity := mail.uidValidity;
      ok, count, at := ScanReview(uids, r.size, r.hash.content);
      StillRemembers(before, listed.server, world.server);
      if mail.calm { CountedAll(world.server, Review, validity, r.hash.content, uids); }
      if ok && count == 0 { AbsentFromReview(listed, validity, uids, r.hash.content); }
    }

    static lemma ListingEnabled(s: State, id: nat)
      requires HasStatus(s, id, PendingRestore) && s.table.rows[id].hash.Sha?
      ensures Enabled(s, ReviewListed(id))
    {
    }

    lemma PendingRestoreRow(id: nat)
      requires Valid() && HasStatus(world.Now(), id, PendingRestore)
      ensures
        var r := world.db.table.rows[id];
        Backed(world.files, r) && r.hash.Sha? && r.size == |r.hash.content| > 0
    {
      hide Legal, After;
      world.SaneRow(id);
      world.SaneFiles();
    }

    static lemma AbsentFromReview(s: State, validity: nat, uids: seq<nat>, c: Content)
      requires LiveInv(s.server)
      requires forall l :: l in s.server.live && l.folder == Review ==> l.validity == validity && l.uid in uids
      requires forall u :: u in uids ==> Loc(Review, validity, u) in s.server.ledger && s.server.ledger[Loc(Review, validity, u)] != c
      ensures !InReview(s, c)
    {
      forall l | l in s.server.live && l.folder == Review ensures s.server.live[l] != c {
        assert l == Loc(Review, validity, l.uid) && l.uid in uids;
      }
    }

    static lemma TallyOne(s: Server, validity: nat, c: Content, uids: seq<nat>, i: nat, count: nat, at: Loc)
      requires i < |uids| && forall j, k :: 0 <= j < k < |uids| ==> uids[j] < uids[k]
      ensures
        var l := Loc(Review, validity, uids[i]);
        Tallies(s, validity, c, uids[..i], count, at) ==>
          if l in s.live && s.live[l] == c then
            (count == 0 ==> Tallies(s, validity, c, uids[..i + 1], 1, l)) && (count == 1 ==> Tallies(s, validity, c, uids, 2, at))
          else Tallies(s, validity, c, uids[..i + 1], count, at)
    {
      hide Held;
      var front, l := uids[..i], Loc(Review, validity, uids[i]);
      OneMoreAmong(s, Review, validity, c, front, uids[i]);
      assert uids[..i + 1] == front + [uids[i]];
      AmongGrows(s, Review, validity, c, uids[..i + 1], uids);
    }

    static lemma AmongGrows(s: Server, f: Folder, validity: nat, c: Content, some: seq<nat>, more: seq<nat>)
      requires forall u :: u in some ==> u in more
      ensures |Among(s, f, validity, c, some)| <= |Among(s, f, validity, c, more)|
    {
      var a, b := Among(s, f, validity, c, some), Among(s, f, validity, c, more);
      assert a <= b;
      assert |b - a| == |b| - |a|;
    }

    // Reads the listed messages; one match more than one is enough to stop.
    method ScanReview(uids: seq<nat>, size: nat, c: Content) returns (ok: bool, count: nat, at: Loc)
      requires Valid() && mail.selected == Review && mail.uidValidity > 0 && size == |c| > 0
      requires forall u :: u in uids ==> Loc(Review, mail.uidValidity, u) in world.server.ledger
      requires forall i, j :: 0 <= i < j < |uids| ==> uids[i] < uids[j]
      modifies world, mail
      ensures Valid() && OnlyOthers(world)
      ensures count == 1 ==> at.folder == Review && Confirmed(world.server, at, Sha(c))
      ensures mail.calm ==> world.server == old(world.server)
      ensures mail.calm && (forall u :: u in uids ==> Loc(Review, old(mail.uidValidity), u) in old(world.server.live)) ==>
        ok && Tallies(world.server, old(mail.uidValidity), c, uids, count, at)
      ensures ok && count == 0 ==> forall u :: u in uids ==> old(world.server.ledger)[Loc(Review, old(mail.uidValidity), u)] != c
    {
      hide Own, Legal, After, ServerInv, Remembers, Tallies, Among;
      NoneTallied(world.server, mail.uidValidity, c);
      NothingSettled(world.db.table, world.server, true);
      ok, count, at := true, 0, Loc(Review, 0, 0);
      ghost var first, ledger := world.server, world.server.ledger;
      var validity := mail.uidValidity;
      for i := 0 to |uids|
        invariant Valid() && OnlyOthers(world) && ok
        invariant mail.selected == Review && mail.uidValidity == validity
        invariant mail.calm ==> world.server == first && Tallies(first, validity, c, uids[..i], count, at)
        invariant count <= 1 && (count == 1 ==> at.folder == Review && Confirmed(world.server, at, Sha(c)))
        invariant count == 0 ==> forall j :: 0 <= j < i ==> ledger[Loc(Review, validity, uids[j])] != c
      {
        var m;
        ghost var s, l := world.server, Loc(Review, validity, uids[i]);
        assert uids[i] in uids;
        assert validity == BoxOf(s, Review).validity;
        ok, m := mail.Fetch(Review, uids[i]);
        StillRemembers(first, s, world.server);
        if count == 1 { RememberedConfirmed(s, world.server, at, c); }
        if !ok { return; }
        assert m.at == l && (mail.calm ==> l in first.live && first.live[l] == m.raw);
        RememberedConfirmed(first, world.server, Loc(Review, validity, uids[i]), ledger[Loc(Review, validity, uids[i])]);
        TallyOne(first, validity, c, uids, i, count, at);
        assert m.raw == ledger[Loc(Review, validity, uids[i])];
        if |m.raw| == size && m.raw == c {
          if count == 1 { return ok, 2, at; }
          count, at := count + 1, m.at;
        }
      }
      assert uids[..|uids|] == uids;
    }

    method StoreRestoreMark(id: nat) returns (ok: bool)
      requires Valid() && id in world.db.table.rows && world.db.table.rows[id].status != PendingRestore
      requires Backed(world.files, world.db.table.rows[id])
      modifies world`run, world`clear, world.db
      ensures Valid() && Onward(world)
      ensures Own(world.run) == if ok then old(Own(world.run)) + [RestoreMarked(id)] else old(Own(world.run))
      ensures ok ==> id in world.clear
      ensures world.db.table == if ok then SetStatus(old(world.db.table), id, PendingRestore) else old(world.db.table)
      ensures world.db.calm && Unresolvable(old(world.db.table.rows[id])) ==> ok
    {
      hide Own, Legal, After, Backed, UniqueLocations;
      SaneTable();
      EditAside(world.db.table, id, world.db.table.rows[id].(status := PendingRestore));
      ghost var was := world.Now();
      ok := world.db.MarkRestorePending(id);
      if ok {
        world.clear := world.clear + {id};
        world.Note(RestoreMarked(id), was);
      }
    }

    method StoreRestored(id: nat, at: Loc) returns (ok: bool)
      requires Valid() && RestoreFinishable(world.Now(), id, at)
      modifies world`run, world.db
      ensures Valid() && Onward(world)
      ensures Own(world.run) == if ok then old(Own(world.run)) + [RestoreFinished(id, at)] else old(Own(world.run))
      ensures world.db.calm ==> (ok <==> !Owned(old(world.db.table), id, at))
      ensures world.db.table == if ok then SetLocation(old(world.db.table), id, at, Restored) else old(world.db.table)
    {
      hide Own, Legal, After, UniqueLocations, Owned;
      RestoreFits(id, at);
      ghost var was := world.Now();
      ok := world.db.FinalizeRestore(id, at);
      if ok { world.Note(RestoreFinished(id, at), was); }
    }

    lemma RestoreFits(id: nat, at: Loc)
      requires Valid() && RestoreFinishable(world.Now(), id, at)
      ensures at.validity > 0 && (UniqueLocations(SetLocation(world.db.table, id, at, Restored)) <==> !Owned(world.db.table, id, at))
    {
      hide Legal, After;
      world.Sane();
      world.SaneRow(id);
      UniqueIff(world.db.table, id, world.db.table.rows[id].(at := at, status := Restored));
    }

    // APPEND, then the row takes the location the server reported, if it did.
    method AppendAndFinish(id: nat, raw: Content) returns (outcome: RestoreOutcome, ghost did: seq<Event>)
      requires Valid() && Enabled(world.Now(), Appended(id)) && world.db.table.rows[id].hash == Sha(raw)
      modifies world, world.db, mail
      ensures Valid() && Onward(world) && OnlyRow(world, id)
      ensures id in world.db.table.rows
      ensures Own(world.run) == old(Own(world.run)) + did
      ensures did <= [Appended(id), RestoreFinished(id, world.db.table.rows[id].at)]
      ensures outcome == RestoreDone ==> |did| == 2 && IsRestored(world.Now(), id)
      ensures Quiet() && |raw| > 0 ==> outcome == RestoreDone
      ensures Quiet() ==> RestoreStep(old(world.Now()), world.Now(), id)
    {
      hide Own, Legal, After, ServerInv, Remembers, Enabled, Owned;
      outcome, did := RestoreRefused, [];
      AppendFacts(world.Now(), id);
      NextUnowned(id, Review);
      ghost var before := world.server;
      var ok, result := mail.AppendUnread(id, raw);
      if Own(world.run) != old(Own(world.run)) { did := [Appended(id)]; }
      if !ok || result.uid == 0 || result.validity == 0 { return; }
      var at := Loc(Review, result.validity, result.uid);
      ok := StoreRestored(id, at);
      if !ok { return; }
      did := did + [RestoreFinished(id, at)];
      ok := world.db.AddEvent();
      if ok { outcome := RestoreDone; }
    }

    lemma NextUnowned(id: nat, f: Folder)
      requires Valid() && f != Nowhere
      ensures !Owned(world.db.table, id, FreshLoc(world.server, f))
    {
      hide Legal, After;
      RunKeeps(world.start, world.run);
      FreshUnowned(world.Now(), id, f);
    }

    static lemma AppendFacts(s: State, id: nat)
      requires Enabled(s, Appended(id))
      ensures HasStatus(s, id, PendingRestore)
    {
    }

    static lemma AppendReady(s: State, id: nat)
      requires HasStatus(s, id, PendingRestore) && Backed(s.files, s.table.rows[id]) && id in s.clear
      ensures Enabled(s, Appended(id))
    {
    }

    // A restored row, or one whose recorded location is complete, is only checked.
    method Restore(id: nat) returns (outcome: RestoreOutcome, ghost did: seq<Event>)
      requires Valid()
      modifies world, world.db, mail
      ensures Valid() && Onward(world) && OnlyRow(world, id)
      ensures Own(world.run) == old(Own(world.run)) + did
      ensures did != [] ==> id in world.db.table.rows && RestoreSteps(old(world.Now()), id, world.db.table.rows[id].at, did)
      ensures outcome == RestoreDone ==> did != [] && IsRestored(world.Now(), id)
      ensures Quiet() ==> (outcome == RestoreDone <==> Restorable(old(world.Now()), id))
      ensures Quiet() && id in old(world.db.table.rows) && old(world.db.table.rows[id].status) == PendingRestore ==>
        RestoreStep(old(world.Now()), world.Now(), id)
    {
      hide Own, Legal, After, ServerInv, Enabled, Backed, Confirmed;
      outcome, did := RestoreRefused, [];
      if id !in world.db.table.rows { return; }
      var r := world.db.table.rows[id];
      if r.status == PendingRestore {
        outcome, did := ResumeRestore(id);
      } else if r.status == Restored || !Unresolvable(r) {
        if r.at.folder == Nowhere { return; }
        var ok, m := mail.Fetch(r.at.folder, r.at.uid);
        if ok && m.at == r.at && Sha(m.raw) == r.hash { outcome := StillThere; }
      } else {
        outcome, did := StartRestore(id);
      }
    }

    lemma StartableRow(id: nat)
      requires Valid() && id in world.db.table.rows && world.db.table.rows[id].status != PendingRestore
      ensures Restorable(world.Now(), id) ==> |world.db.table.rows[id].hash.content| > 0
    {
      hide Legal, After;
      world.SaneFiles();
    }

    method StartRestore(id: nat) returns (outcome: RestoreOutcome, ghost did: seq<Event>)
      requires Valid() && id in world.db.table.rows && world.db.table.rows[id].status !in {PendingRestore, Restored}
      requires Unresolvable(world.db.table.rows[id])
      modifies world, world.db, mail
      ensures Valid() && Onward(world) && OnlyRow(world, id)
      ensures Own(world.run) == old(Own(world.run)) + did
      ensures did != [] ==> id in world.db.table.rows && RestoreSteps(old(world.Now()), id, world.db.table.rows[id].at, did)
      ensures outcome == RestoreDone ==> did != [] && IsRestored(world.Now(), id)
      ensures Quiet() ==> (outcome == RestoreDone <==> Restorable(old(world.Now()), id))
    {
      hide Own, Legal, After, ServerInv, Enabled, Confirmed;
      outcome, did := RestoreRefused, [];
      var r := world.db.table.rows[id];
      StartableRow(id);
      if r.path.None? { return; }
      var ok, raw := CheckCopy(r.path.value, r.hash);
      if !ok { return; }
      ok := StoreRestoreMark(id);
      if !ok { return; }
      AppendReady(world.Now(), id);
      outcome, did := AppendAndFinish(id, raw);
      did := [RestoreMarked(id)] + did;
    }

    method ResumeRestore(id: nat) returns (outcome: RestoreOutcome, ghost did: seq<Event>)
      requires Valid() && HasStatus(world.Now(), id, PendingRestore)
      modifies world, world.db, mail
      ensures Valid() && Onward(world) && OnlyRow(world, id)
      ensures Own(world.run) == old(Own(world.run)) + did
      ensures did != [] ==> id in world.db.table.rows && RestoreSteps(old(world.Now()), id, world.db.table.rows[id].at, did)
      ensures outcome == RestoreDone ==> did != [] && IsRestored(world.Now(), id)
      ensures Quiet() ==> (outcome == RestoreDone <==> Restorable(old(world.Now()), id))
      ensures Quiet() ==> RestoreStep(old(world.Now()), world.Now(), id)
    {
      hide Own, Legal, After, ServerInv, Remembers, Enabled, Owned, Restorable, HeldAs;
      outcome := RestoreRefused;
      ghost var before, first := world.server, world.Now();
      var r := world.db.table.rows[id];
      PendingRestoreRow(id);
      var ok, count, at;
      ok, count, at, did := FindInReview(id, r);
      ghost var between := world.server;
      if Quiet() { ResumeDecided(first, id, count, at); }
      if !ok || count > 1 { return; }
      if count == 1 {
        ok := StoreRestored(id, at);
        if !ok { return; }
        did := did + [RestoreFinished(id, at)];
        ok := world.db.AddEvent();
        return if ok then RestoreDone else RestoreRefused, did;
      }
      ghost var appended;
      outcome, appended := AppendCopy(id);
      StillRemembers(before, between, world.server);
      did := did + appended;
    }

    // The review folder was seen without the bytes: append the archive copy.
    method AppendCopy(id: nat) returns (outcome: RestoreOutcome, ghost did: seq<Event>)
      requires Valid() && HasStatus(world.Now(), id, PendingRestore) && id in world.clear
      modifies world, world.db, mail
      ensures Valid() && Onward(world) && OnlyRow(world, id)
      ensures Own(world.run) == old(Own(world.run)) + did
      ensures did <= [Appended(id), RestoreFinished(id, world.db.table.rows[id].at)]
      ensures outcome == RestoreDone ==> |did| == 2 && IsRestored(world.Now(), id)
      ensures Quiet() ==> outcome == RestoreDone
      ensures Quiet() ==> RestoreStep(old(world.Now()), world.Now(), id)
    {
      hide Own, Legal, After, ServerInv, Remembers, Enabled;
      outcome, did := RestoreRefused, [];
      var r := world.db.table.rows[id];
      PendingRestoreRow(id);
      NothingSettled(world.db.table, world.server, true);
      var ok, raw := CheckCopy(r.path.value, r.hash);
      if !ok { return; }
      AppendReady(world.Now(), id);
      outcome, did := AppendAndFinish(id, raw);
    }

    // ----- Permanent deletion -----

    method StorePurged(id: nat) returns (ok: bool)
      requires Valid() && HasStatus(world.Now(), id, Quarantined)
      modifies world`run, world.db
      ensures Valid() && Onward(world)
      ensures Own(world.run) == if ok then old(Own(world.run)) + [PurgeMarked(id)] else old(Own(world.run))
      ensures world.db.table == if ok then SetPurged(old(world.db.table), id) else old(world.db.table)
      ensures world.db.calm && world.db.table.rows[id].at.uid > 0 ==> (ok <==> !Owned(old(world.db.table), id, old(world.db.table.rows[id].at).(folder := Nowhere)))
    {
      hide Own, Legal, After, Owned;
      SaneTable();
      ghost var r := world.db.table.rows[id];
      if r.at.uid > 0 { UniqueIff(world.db.table, id, r.(status := Purged, at := r.at.(folder := Nowhere))); }
      ghost var was := world.Now();
      ok := world.db.MarkPurged(id);
      if ok { world.Note(PurgeMarked(id), was); }
    }

    // The message is still there, untouched and not marked important.
    method StillPurgeable(r: Row) returns (ok: bool, important: bool)
      requires Valid()
      modifies world, mail
      ensures Valid() && OnlyOthers(world)
      ensures ok ==> !important && r.at.folder == Quarantine && r.at.uid > 0
      ensures ok ==> Confirmed(world.server, r.at, r.hash) && LiveAs(world.server, r.at, r.hash)
      ensures mail.calm ==> world.server == old(world.server)
      ensures mail.calm && r.at.folder == Quarantine && r.at.uid > 0 && LiveAs(old(world.server), r.at, r.hash) ==> ok || important
    {
      hide Own, Legal, After, ServerInv;
      world.Current();
      important := false;
      if r.at.folder != Quarantine || r.at.uid == 0 || r.at.validity == 0 { return false, false; }
      var m;
      ok, m := mail.Fetch(Quarantine, r.at.uid);
      ok := ok && m.at == r.at && Sha(m.raw) == r.hash;
      important := ok && m.important;
      ok := ok && !important;
    }

    // Every check of one candidate, in order, and the deletion if all of them pass.
    // `refused`: the second scan did not confirm spam, or the user marked the message.
    // In a quiet session nothing else decides but the correction veto, the retention
    // period and whether the message is still there.
    method PurgeOne(id: nat, dryRun: bool, now: int) returns (ok: bool, refused: bool, ghost did: seq<Event>)
      requires Valid() && id in world.db.table.rows && PurgeDue(world.db.table.rows[id], now)
      modifies world, world.db, mail
      ensures Valid() && Onward(world) && OnlyRow(world, id) && world.files == old(world.files)
      ensures Own(world.run) == old(Own(world.run)) + did
      ensures did <= [Deleted(id, now, quarantineDays), PurgeMarked(id)]
      ensures did != [] ==> !dryRun && !HasHam(old(world.db.table), old(world.db.table.rows[id].hash))
      ensures world.db.table == if |did| == 2 then SetPurged(old(world.db.table), id) else old(world.db.table)
      ensures Quiet() ==> ok
      ensures Quiet() && mail.uidPlus ==> world.server == if did == [] then old(world.server) else Drop(old(world.server), old(world.db.table.rows[id].at))
      ensures Quiet() && mail.uidPlus && !dryRun ==> (did != [] <==> !refused && Purgeable(old(world.Now()), id, now, quarantineDays))
      ensures Quiet() && mail.uidPlus && did != [] ==> (|did| == 2 <==> !Owned(old(world.db.table), id, old(world.db.table.rows[id].at).(folder := Nowhere)))
    {
      hide Own, Legal, After, ServerInv, Enabled, HasHam, Confirmed, Backed, Owned;
      did, refused := [], false;
      var r := world.db.table.rows[id];
      QuarantinedRow(id, now);
      var allowed;
      ok, allowed := PurgeAllowed(r, now);
      if !allowed { return; }
      var there, spam: bool := false, *;
      there, refused := StillPurgeable(r);
      if !there || !spam || dryRun { return ok, refused || (there && !spam), did; }
      refused, did := Expunge(id, now);
    }

    // What the invariant says about a candidate: its archive is there, and what is live at
    // its location are its bytes.
    lemma QuarantinedRow(id: nat, now: int)
      requires Valid() && id in world.db.table.rows && PurgeDue(world.db.table.rows[id], now)
      ensures
        var r := world.db.table.rows[id];
        && r.at.folder == Quarantine && r.at.uid > 0 && Backed(world.files, r)
        && (r.at in world.server.live ==> LiveAs(world.server, r.at, r.hash))
    {
      hide Legal, After;
      world.SaneRow(id);
      world.Sane();
    }

    // What the store and the archive say about a candidate.
    method PurgeAllowed(r: Row, now: int) returns (ok: bool, allowed: bool)
      ensures allowed ==> ok && !HasHam(world.db.table, r.hash) && Backed(world.files, r)
      ensures allowed ==> r.quarantinedAt.Some? && r.quarantinedAt.value + quarantineDays * DAY <= now
      ensures world.db.calm ==> ok
      ensures world.db.calm && Backed(world.files, r) && !HasHam(world.db.table, r.hash) ==>
        (allowed <==> r.quarantinedAt.Some? && r.quarantinedAt.value + quarantineDays * DAY <= now)
    {
      var ham;
      allowed := false;
      ok, ham := world.db.HasHamFeedback(r.hash);
      if !ok || ham || r.path.None? { return; }
      var intact, raw := CheckCopy(r.path.value, r.hash);
      allowed := intact && r.quarantinedAt.Some? && r.quarantinedAt.value + quarantineDays * DAY <= now;
    }

    // Scanning took time: look once more, then delete exactly that UID.
    method Expunge(id: nat, now: int) returns (refused: bool, ghost did: seq<Event>)
      requires Valid() && id in world.db.table.rows && PurgeDue(world.db.table.rows[id], now)
      requires !HasHam(world.db.table, world.db.table.rows[id].hash) && Backed(world.files, world.db.table.rows[id])
      requires
        var r := world.db.table.rows[id];
        r.quarantinedAt.Some? && r.quarantinedAt.value + quarantineDays * DAY <= now
      modifies world, world.db, mail
      ensures Valid() && Onward(world) && OnlyRow(world, id) && world.files == old(world.files)
      ensures Own(world.run) == old(Own(world.run)) + did
      ensures did <= [Deleted(id, now, quarantineDays), PurgeMarked(id)]
      ensures world.db.table == if |did| == 2 then SetPurged(old(world.db.table), id) else old(world.db.table)
      ensures
        var at := old(world.db.table.rows[id].at);
        Quiet() && mail.uidPlus && at.folder == Quarantine && at.uid > 0 && old(LiveAs(world.server, world.db.table.rows[id].at, world.db.table.rows[id].hash)) ==>
          && (did != [] <==> !refused)
          && world.server == (if refused then old(world.server) else Drop(old(world.server), at))
          && (did != [] ==> (|did| == 2 <==> !Owned(old(world.db.table), id, at.(folder := Nowhere))))
    {
      hide Own, Legal, After, ServerInv, Enabled, HasHam, Confirmed, Backed, Owned;
      did := [];
      var r := world.db.table.rows[id];
      var ok;
      ok, refused := StillPurgeable(r);
      if !ok { return; }
      PurgeReady(world.Now(), id, now, quarantineDays);
      ok := mail.DeleteUID(id, r.at, now, quarantineDays);
      if Own(world.run) != old(Own(world.run)) { did := [Deleted(id, now, quarantineDays)]; }
      if !ok { return; }
      assert Own(world.run) == old(Own(world.run)) + did;
      ok := StorePurged(id);
      if ok { did := did + [PurgeMarked(id)]; }
    }

    static lemma PurgeReady(s: State, id: nat, now: int, quarantineDays: nat)
      requires id in s.table.rows
      requires
        var r := s.table.rows[id];
        && PurgeDue(r, now) && r.quarantinedAt.Some? && r.quarantinedAt.value + quarantineDays * DAY <= now
        && r.at.folder == Quarantine && Confirmed(s.server, r.at, r.hash) && Backed(s.files, r) && !HasHam(s.table, r.hash)
      ensures Enabled(s, Deleted(id, now, quarantineDays))
    {
    }

    // Nothing is deleted without permission, outside active mode, or while a correction is
    // waiting in the ham training folder. A quiet purge deletes exactly the messages that
    // may go and that neither the second scan nor a mark of the user holds back.
    method Purge(dryRun: bool, authorized: bool, enabled: bool, quality: bool, now: int) returns (ok: bool, ghost refused: set<nat>)
      requires Valid()
      modifies world, world.db, mail
      ensures Valid() && Onward(world)
      ensures dryRun ==> Own(world.run) == old(Own(world.run))
      ensures (!dryRun && (!authorized || !enabled)) || !active || !quality || !mail.uidPlus ==> !ok && world.run == old(world.run)
      ensures mail.calm && !Empty(old(world.server), TrainHam) ==> !ok && Own(world.run) == old(Own(world.run))
      ensures SameHam(old(world.db.table), world.db.table) && PurgedOnly(old(world.db.table), world.db.table, now)
      ensures Quiet() && !dryRun && authorized && enabled && active && quality && mail.uidPlus && Empty(old(world.server), TrainHam) ==>
        ok && world.server.live == old(world.server.live) - Goners(old(world.Now()), now, quarantineDays, refused, {})
    {
      hide Own, Legal, After, ServerInv, Remembers, HasHam, SameHam, PurgedOnly, Purgeable, Goners;
      ghost var before := world.server;
      refused := {};
      NothingPurged(world.db.table, now);
      NothingSettled(world.db.table, before, true);
      if !dryRun && (!authorized || !enabled) { return false, refused; }
      if !active || !quality || !mail.uidPlus { return false, refused; }
      var uids;
      ok, uids := mail.SearchSince(TrainHam, true);
      ghost var between := world.server;
      if !ok || uids != [] {
        assert uids != [] ==> uids[0] in uids;
        return false, refused;
      }
      ok, refused := PurgeCandidates(dryRun, now);
      StillRemembers(before, between, world.server);
    }

    // Every candidate in turn.
    method PurgeCandidates(dryRun: bool, now: int) returns (ok: bool, ghost refused: set<nat>)
      requires Valid()
      modifies world, world.db, mail
      ensures Valid() && Onward(world)
      ensures dryRun ==> Own(world.run) == old(Own(world.run))
      ensures SameHam(old(world.db.table), world.db.table) && PurgedOnly(old(world.db.table), world.db.table, now)
      ensures Quiet() && !dryRun && mail.uidPlus ==>
        ok && world.server.live == old(world.server.live) - Goners(old(world.Now()), now, quarantineDays, refused, {})
    {
      hide Own, Legal, After, ServerInv, Remembers, HasHam, SameHam, Purgeable, Goners;
      ghost var start := world.Now();
      NothingPurged(start.table, now);
      NothingSettled(start.table, start.server, true);
      SaneTable();
      ok, refused := true, {};
      var todo := set i | i in world.db.table.rows && PurgeDue(world.db.table.rows[i], now);
      AllToGo(start, now, quarantineDays, todo);
      while todo != {}
        invariant Valid() && Onward(world) && ok
        invariant dryRun ==> Own(world.run) == old(Own(world.run))
        invariant SameHam(start.table, world.db.table) && PurgedOnly(start.table, world.db.table, now)
        invariant forall i :: i in todo ==> i in start.table.rows && i in world.db.table.rows && world.db.table.rows[i] == start.table.rows[i]
        invariant forall i :: i in todo ==> PurgeDue(world.db.table.rows[i], now)
        invariant refused !! todo
        invariant Quiet() && mail.uidPlus && !dryRun ==>
          world.server.live == start.server.live - Goners(start, now, quarantineDays, refused, todo)
        decreases todo
      {
        var id :| id in todo;
        ghost var s := world.Now();
        QuarantinedRow(id, now);
        var held;
        ghost var did;
        ok, held, did := PurgeOne(id, dryRun, now);
        if Quiet() && mail.uidPlus && !dryRun { OneMoreGone(start, s, id, now, quarantineDays, refused, todo, held); }
        if held { refused := refused + {id}; }
        todo := todo - {id};
        StillRemembers(start.server, s.server, world.server);
        if |did| == 2 { PurgedOneMore(start.table, s.table, id, now); }
        if !ok { return; }
      }
    }

    // ----- Archive cleanup -----

    method StoreCleared(file: Path) returns (ok: bool)
      requires Valid() && Enabled(world.Now(), PathCleared(file))
      modifies world`run, world.db
      ensures Valid() && Onward(world)
      ensures world.db.table == if ok then ClearPath(old(world.db.table), file) else old(world.db.table)
      ensures world.db.calm ==> ok
    {
      hide Own, Legal, After, Enabled;
      SaneTable();
      ghost var was := world.Now();
      ok := world.db.ClearArchivePath(file);
      if ok { world.Note(PathCleared(file), was); }
    }

    // Verifies the copy against the row's hash before removing it; a copy that is already
    // gone is no obstacle.
    method DeleteCopy(id: nat, file: Path, now: int) returns (ok: bool)
      requires Valid() && CleanupCandidate(world.db.table, id, file, now)
      modifies world`run, world`files
      ensures Valid() && Onward(world)
      ensures ok ==> world.files == old(world.files) - {file}
      ensures !ok ==> world.files == old(world.files)
      ensures world.db.calm ==> ok
    {
      hide Own, Legal, After, Enabled;
      CandidateNamed(id, file, now);
      if file !in world.files { return true; }
      var raw;
      ok, raw := CheckCopy(file, world.db.table.rows[id].hash);
      if !ok { return; }
      RemovalEnabled(world.Now(), id, file, now);
      ghost var was := world.Now();
      world.files := world.files - {file};
      world.Note(FileRemoved(file, now), was);
    }

    static lemma RemovalEnabled(s: State, id: nat, file: Path, now: int)
      requires CleanupCandidate(s.table, id, file, now)
      ensures Enabled(s, FileRemoved(file, now))
    {
    }

    lemma CandidateNamed(id: nat, file: Path, now: int)
      requires Valid() && CleanupCandidate(world.db.table, id, file, now)
      ensures world.db.table.rows[id].hash == Sha(file.content)
      ensures file in world.files ==> world.files[file] == file.content
    {
      hide Legal, After;
      world.SaneRow(id);
      world.SaneFiles();
    }

    // Deletes exactly the expired copies nobody else needs; when nothing fails, none is left.
    method CleanupExpiredArchives(now: int) returns (ok: bool)
      requires Valid()
      modifies world, world.db
      ensures Valid() && Onward(world) && world.server == old(world.server)
      ensures world.files.Keys <= old(world.files.Keys)
      ensures forall p :: p in old(world.files) && p !in world.files ==> exists id :: CleanupCandidate(old(world.db.table), id, p, now)
      ensures world.db.calm ==> ok
      ensures ok ==> forall id, p :: !CleanupCandidate(world.db.table, id, p, now)
      ensures ok ==> forall i :: i in world.db.table.rows ==> StillKept(world.db.table, i, now)
    {
      hide Own, Legal, After, ServerInv, Enabled, CleanupCandidate;
      ghost var first := world.db.table;
      var todo := Candidates(world.db.table, now);
      while todo != {}
        invariant Valid() && Onward(world) && world.server == old(world.server)
        invariant world.files.Keys <= old(world.files.Keys)
        invariant forall p :: p in old(world.files) && p !in world.files ==> exists id :: CleanupCandidate(first, id, p, now)
        invariant forall p :: p in todo <==> exists id :: CleanupCandidate(world.db.table, id, p, now)
        invariant forall id, p :: CleanupCandidate(world.db.table, id, p, now) ==> CleanupCandidate(first, id, p, now)
        decreases todo
      {
        var file :| file in todo;
        CandidateRow(world.db.table, file, now);
        var id :| id in world.db.table.rows && CleanupCandidate(world.db.table, id, file, now);
        ok := DeleteCopy(id, file, now);
        if !ok { return; }
        ClearingEnabled(world.Now(), id, file, now);
        ghost var t := world.db.table;
        ok := StoreCleared(file);
        if !ok { return; }
        ClearedCandidates(t, file, now);
        todo := todo - {file};
      }
      ok := true;
      forall id, p ensures !CleanupCandidate(world.db.table, id, p, now) { assert p !in todo; }
      forall i | i in world.db.table.rows ensures StillKept(world.db.table, i, now) { NoCandidate(world.db.table, i, now); }
    }

    // ----- Whole runs -----

    // One unresolved row: an action without a destination is only marked ambiguous. In a
    // quiet session the row reaches its goal exactly when one unowned copy is left.
    method ReconcileRow(id: nat, now: int)
      requires Valid() && id in world.db.table.rows && InDoubt(world.db.table.rows[id])
      modifies world, world.db, mail
      ensures Valid() && Onward(world) && OnlyRow(world, id) && world.files == old(world.files)
      ensures Settles(old(world.db.table.rows[id]), world.db.table.rows[id])
      ensures Quiet() ==> Reconciled(old(world.Now()), world.Now(), id)
    {
      hide Own, Legal, After, ServerInv, Enabled, UniqueLocations, Settling, Reconciled, Searchable, OneUnowned;
      world.SaneRow(id);
      var r := world.db.table.rows[id];
      ghost var first := world.Now();
      DoubtfulRow(id);
      if Destination(r.action).None? {
        var stored := StoreLocation(id, r.at, MoveAmbiguous);
        OnlyMarked(first, world.Now(), id);
      } else {
        var goal := Destination(r.action).value;
        ReconcileBySize(id, goal.0, goal.1, now);
        if Quiet() { ReachedGoal(first, world.Now(), id); }
      }
    }

    // What the invariant says about a row in doubt.
    lemma DoubtfulRow(id: nat)
      requires Valid() && id in world.db.table.rows && InDoubt(world.db.table.rows[id])
      ensures Doubtful(world.Now(), id)
    {
      hide Legal, After;
      world.SaneRow(id);
      RunKeeps(world.start, world.run);
    }

    // Every unresolved row once. Without the quality gate only explicit corrections count.
    // In a quiet session a row that is alone of its size reaches its goal exactly when one
    // unowned copy of its bytes was left at the start.
    method ReconcilePending(allowAutomatic: bool, now: int)
      requires Valid()
      modifies world, world.db, mail
      ensures Valid() && Onward(world) && world.files == old(world.files)
      ensures SettledOnly(old(world.db.table), world.db.table, allowAutomatic)
      ensures Quiet() ==> Passed(old(world.Now()), world.Now()) && IntentsKept(old(world.db.table), world.db.table)
      ensures Quiet() ==> SparesCorrections(old(world.Now()), world.Now())
      ensures Quiet() ==> AllDecided(old(world.Now()), world.Now(), allowAutomatic, {})
      ensures NoneEligible(old(world.db.table), allowAutomatic) ==> world.Now() == old(world.Now())
    {
      hide Own, Legal, After, ServerInv, Remembers, Enabled, Settles, Passed, IntentsKept, SparesCorrections, Reconciled, AllDecided, Doubtful;
      ghost var before, first := world.server, world.Now();
      NothingSettled(first.table, before, allowAutomatic);
      NothingReconciled(first);
      var todo := set i | i in world.db.table.rows && InDoubt(world.db.table.rows[i]) && (allowAutomatic || Explicit(world.db.table.rows[i]));
      NoneDecided(first, allowAutomatic, todo);
      while todo != {}
        invariant Valid() && Onward(world) && world.files == old(world.files)
        invariant SettledOnly(first.table, world.db.table, allowAutomatic)
        invariant forall i :: i in todo ==> i in first.table.rows && i in world.db.table.rows && world.db.table.rows[i] == first.table.rows[i]
        invariant forall i :: i in todo ==> InDoubt(first.table.rows[i]) && (allowAutomatic || Explicit(first.table.rows[i]))
        invariant Quiet() ==> Passed(first, world.Now()) && IntentsKept(first.table, world.db.table) && SparesCorrections(first, world.Now())
        invariant Quiet() ==> AllDecided(first, world.Now(), allowAutomatic, todo)
        invariant NoneEligible(first.table, allowAutomatic) ==> todo == {} && world.Now() == first
        decreases todo
      {
        var late: bool := *;
        if late && !mail.calm { break; }
        var id :| id in todo;
        ghost var s := world.Now();
        DoubtfulRow(id);
        ReconcileRow(id, now);
        if Quiet() {
          OneMoreDecided(first, s, world.Now(), id, allowAutomatic, todo);
          OneMoreReconciled(first, s, world.Now(), id);
        }
        todo := todo - {id};
        StillRemembers(before, s.server, world.server);
      }
    }

    // Every row being restored in turn, up to the first that fails. In a quiet session a
    // single one is restored exactly when it can be.
    method ReconcileRestores() returns (ok: bool)
      requires Valid()
      modifies world, world.db, mail
      ensures Valid() && Onward(world)
      ensures ok ==> forall i :: i in Restoring(old(world.db.table)) ==> IsRestored(world.Now(), i)
      ensures forall i :: i in old(world.db.table.rows) && i !in Restoring(old(world.db.table)) ==>
        i in world.db.table.rows && world.db.table.rows[i] == old(world.db.table.rows[i])
      ensures Quiet() ==> LeftAlone(old(world.Now()), world.Now()) && IntentsKept(old(world.db.table), world.db.table)
      ensures Restoring(old(world.db.table)) == {} ==> ok
      ensures forall i :: Quiet() && Restoring(old(world.db.table)) == {i} ==> (ok <==> Restorable(old(world.Now()), i))
    {
      hide Own, Legal, After, ServerInv, Remembers, Enabled, IsRestored, LeftAlone, IntentsKept, RestoreStep, Restorable, RestoredSoFar, UniqueLocations;
      ghost var first := world.Now();
      NothingSettled(first.table, first.server, true);
      NothingLeftAlone(first);
      var todo := Restoring(world.db.table);
      ghost var all := todo;
      NoneRestored(first, all);
      while todo != {}
        invariant Valid() && Onward(world) && todo <= all
        invariant RestoredSoFar(first, world.Now(), all, todo)
        invariant Quiet() ==> LeftAlone(first, world.Now()) && IntentsKept(first.table, world.db.table)
        invariant Quiet() ==> forall i :: all == {i} && todo == {} ==> Restorable(first, i)
        decreases todo
      {
        var id :| id in todo;
        ghost var s := world.Now();
        SaneState();
        var outcome, did := Restore(id);
        StillRemembers(first.server, s.server, world.server);
        NextRestore(first, s, all, todo, id);
        if Quiet() { RestoredNext(first, s, id); }
        if outcome != RestoreDone {
          RestoringStopped(first, s, world.Now(), all, todo, id);
          return false;
        }
        OneMoreRestored(first, s, world.Now(), all, todo, id);
        todo := todo - {id};
      }
      ok := true;
      AllRestored(first, world.Now(), all);
    }

    lemma RestoredNext(first: State, s: State, id: nat)
      requires Valid() && Inv(s) && LeftAlone(first, s) && IntentsKept(first.table, s.table)
      requires RestoreStep(s, world.Now(), id) && s.table.rows[id].status == PendingRestore
      ensures LeftAlone(first, world.Now()) && IntentsKept(first.table, world.db.table)
    {
      hide Legal, After, LeftAlone, IntentsKept, RestoreStep;
      RestorePasses(s, world.Now(), id);
      StillLeftAlone(first, s, world.Now());
      StillIntents(first.table, s.table, world.db.table);
    }

    // One run of the program. Without authorization a live run does nothing at all, and
    // a dry run records messages as too large at most. A quiet live run goes through every
    // stage: interrupted moves, both training folders, and, past the quality gate, the spam
    // folder, the Inbox and the interrupted restores.
    method Run(dryRun: bool, authorized: bool, quality: bool, rescanBefore: int, scan: Loc -> Scanned, clock: Clock) returns (ok: bool)
      requires Valid()
      modifies world, world.db, mail
      ensures Valid() && Onward(world)
      ensures dryRun ==> OnlyBlocked(old(Own(world.run)), Own(world.run))
      ensures !dryRun && (!authorized || !mail.nativeMove) ==> !ok && world.run == old(world.run) && world.server == old(world.server)
      ensures !dryRun && active && !quality ==> !ok
      // Without the quality gate no message of the spam folder or the Inbox is decided.
      ensures Quiet() && !dryRun && authorized && active && !quality && OnlyUndecided(old(world.Now())) ==> world.Now() == old(world.Now())
      // A row that one pass can settle is settled, or is a copy of bytes corrected since.
      ensures Quiet() && !dryRun && authorized ==> DecidedEnds(old(world.Now()), world.Now(), !active || quality)
      // New corrections leave both training folders and are recorded.
      ensures Quiet() && !dryRun && authorized && BothFresh(old(world.Now()), limit, perFolder) ==> CorrectionsDone(old(world.Now()), world.Now())
      // New mail leaves the spam folder, and leaves the Inbox or is recorded in it.
      ensures Quiet() && !dryRun && authorized && (active ==> quality) && |old(world.server.live)| <= perFolder ==>
        forall l :: Scannable(old(world.server), l) && mail.recent(l) && Unrecorded(old(world.Now()), l) ==> Dealt(world.Now(), l)
      // Interrupted restores are completed, or the run reports failure.
      ensures Quiet() && ok && !dryRun ==> forall i :: i in Restoring(old(world.db.table)) ==> IsRestored(world.Now(), i)
      ensures Quiet() && !dryRun && authorized && (active ==> quality) && Restoring(old(world.db.table)) == {} ==> ok
      ensures Quiet() && !dryRun && authorized && (active ==> quality) ==>
        forall i :: Restoring(old(world.db.table)) == {i} && Missing(old(world.Now()), i) ==> ok
    {
      hide Own, Legal, After, ServerInv, Remembers, Enabled, OnlyBlocked, SettledOnly, Passed, IntentsKept, SparesCorrections, AllDecided, Trained, FreshFolder, AllDealt, LeftAlone, IsRestored, Restorable, Scannable, Dealt, Unrecorded, Missing, HasIntent, Decidable, Goal, AloneOfSize, CorrectionFor, Restoring, Empty, NoneEligible;
      ghost var s, first, quiet := world.Now(), Own(world.run), Quiet() && !dryRun;
      Unchanged(s.server, first);
      world.Sane();
      if !dryRun {
        if !authorized || !mail.nativeMove { return false; }
        ReconcilePending(!active || quality, clock.now);
      }
      ghost var u := world.Now();
      if quiet && BothFresh(s, limit, perFolder) { FreshAfter(s, u, limit, perFolder); }
      ok := Train(dryRun, clock, s.server, first);
      ghost var v := world.Now();
      if !ok || (!dryRun && active && !quality) {
        if quiet {
          NothingLeftAlone(v);
          StagesDone(s, u, v, v, !active || quality, limit, perFolder);
        }
        return false;
      }
      ok := Scan(dryRun, rescanBefore, scan, clock, s.server, first);
      if !ok || dryRun { return; }
      ghost var w := world.Now();
      if quiet { BeforeRestores(s, u, v, w); }
      ok := ReconcileRestores();
      StillRemembers(s.server, w.server, world.server);
      if quiet { AllStagesDone(s, u, v, w, world.Now(), !active || quality, limit, perFolder, mail.recent); }
    }

    method Train(dryRun: bool, clock: Clock, ghost before: Server, ghost first: seq<Event>) returns (ok: bool)
      requires Valid() && Remembers(before, world.server) && (dryRun ==> OnlyBlocked(first, Own(world.run)))
      modifies world, world.db, mail
      ensures Valid() && Onward(world)
      ensures Remembers(before, world.server) && (dryRun ==> OnlyBlocked(first, Own(world.run)))
      ensures mail.calm && !dryRun ==> ok
      ensures Quiet() && !dryRun ==> Passed(old(world.Now()), world.Now())
      ensures Quiet() && !dryRun && FreshFolder(old(world.Now()), TrainSpam, limit, perFolder) && FreshFolder(old(world.Now()), TrainHam, limit, perFolder) ==>
        Trained(old(world.Now()), world.Now())
      ensures Quiet() && !dryRun && Empty(old(world.server), TrainSpam) && Empty(old(world.server), TrainHam) ==> world.Now() == old(world.Now())
    {
      hide Own, Legal, After, ServerInv, Remembers, Enabled, OnlyBlocked, Passed, CorrectionStep, Trained, FreshFolder, AllRecorded, Empty, IntentsKept, AllWithin;
      ghost var s, did := world.Now(), Own(world.run);
      ok := ProcessTraining(Spam, dryRun, clock);
      StillRemembers(before, s.server, world.server);
      if dryRun { StillBlocked(first, did, Own(world.run)); }
      if !ok { return; }
      ghost var u, next := world.Now(), Own(world.run);
      ok := ProcessTraining(Ham, dryRun, clock);
      StillRemembers(before, u.server, world.server);
      StillRemembers(s.server, u.server, world.server);
      if dryRun { StillBlocked(first, next, Own(world.run)); }
      if Quiet() && !dryRun { TrainedBoth(s, u, world.Now(), limit, perFolder); }
    }

    method Scan(dryRun: bool, rescanBefore: int, scan: Loc -> Scanned, clock: Clock, ghost before: Server, ghost first: seq<Event>) returns (ok: bool)
      requires Valid() && Remembers(before, world.server) && (dryRun ==> OnlyBlocked(first, Own(world.run)))
      modifies world, world.db, mail
      ensures Valid() && Onward(world)
      ensures Remembers(before, world.server) && (dryRun ==> OnlyBlocked(first, Own(world.run)))
      ensures mail.calm && !dryRun ==> ok
      ensures Quiet() && !dryRun ==> Passed(old(world.Now()), world.Now()) && IntentsKept(old(world.db.table), world.db.table)
      ensures Quiet() && !dryRun && |old(world.server.live)| <= perFolder ==> AllDealt(old(world.Now()), world.Now(), mail.recent)
    {
      hide Own, Legal, After, ServerInv, Remembers, Enabled, OnlyBlocked, Passed, IntentsKept, AllSorted, AllDealt;
      ghost var s, did := world.Now(), Own(world.run);
      world.Sane();
      ok := ProcessFolder(ServerSpam, dryRun, rescanBefore, scan, clock);
      StillRemembers(before, s.server, world.server);
      if dryRun { StillBlocked(first, did, Own(world.run)); }
      if !ok { return; }
      ghost var u, next := world.Now(), Own(world.run);
      world.Sane();
      ok := ProcessFolder(Inbox, dryRun, rescanBefore, scan, clock);
      StillRemembers(before, u.server, world.server);
      StillRemembers(s.server, u.server, world.server);
      if dryRun { StillBlocked(first, next, Own(world.run)); }
      if Quiet() && !dryRun {
        StillPassed(s, u, world.Now());
        StillIntents(s.table, u.table, world.db.table);
        if |s.server.live| <= perFolder { BothDealt(s, u, world.Now(), mail.recent, Treatment(scan, limit, active, rescanBefore), perFolder); }
      }
    }

    // ----- Paged reconciliation, for clients without a size search -----

    // One page: it resumes at the cursor, or starts over when the folder has a new
    // UIDVALIDITY. The count stays exact up to the cursor. A page that claims to complete
    // the folder does so under the UIDNEXT of the last SELECT, so the count is exact for the
    // folder if and only if no copy has appeared at or past that UIDNEXT.
    method ScanPage(f: Folder, size: nat, c: Content, p: Progress) returns (ok: bool)
      requires Valid() && f != Nowhere && size == |c|
      modifies world, mail, p
      ensures Valid() && OnlyOthers(world)
      ensures mail.calm && old(Exact(world.server, f, c, p)) ==> ok && Exact(world.server, f, c, p)
      ensures mail.calm && old(Exact(world.server, f, c, p)) ==> p.validity == BoxOf(world.server, f).validity
      ensures mail.calm && old(Exact(world.server, f, c, p)) && p.complete ==>
        (p.matches == |Held(world.server, f, c)| <==> NoneBeyond(world.server, f, c, p.cursor, mail.uidNext))
      ensures mail.calm ==> world.server == old(world.server)
      ensures old(mail.selected) == f && old(mail.uidValidity) != 0 ==> mail.uidNext == old(mail.uidNext)
      ensures ok && mail.calm && old(mail.selected == f && mail.uidValidity != 0 && Untouched(world.server, f, p, mail.uidNext)) ==>
        p.complete && p.cursor == old(p.cursor)
    {
      hide Own, Legal, After, ServerInv, Below, Held, NoneBeyond, Page, Remembers, NothingBetween, Exact;
      var uids, complete;
      ghost var first, exact := world.server, mail.calm && Exact(world.server, f, c, p);
      ok, uids, complete := ListPage(f, c, p, exact);
      if !ok { return; }
      if mail.calm { EmptyPage(first, f, mail.uidValidity, mail.uidNext, p.cursor, uids, complete); }
      ghost var between := world.server;
      ok, complete := CountPage(f, size, c, uids, complete, p, exact);
      StillRemembers(first, between, world.server);
      if !ok { return; }
      world.Current();
      p.validity, p.complete := mail.uidValidity, complete;
      if exact {
        ExactNow(world.server, f, c, p);
        if complete { BelowAll(world.server, f, c, p.cursor, mail.uidNext); }
      }
    }

    // The page after the cursor, or the first one if the folder was renumbered.
    method ListPage(f: Folder, c: Content, p: Progress, ghost exact: bool) returns (ok: bool, uids: seq<nat>, all: bool)
      requires Valid() && f != Nowhere && (exact ==> mail.calm && Exact(world.server, f, c, p))
      modifies world, mail, p
      ensures Valid() && OnlyOthers(world)
      ensures exact ==> ok && world.server == old(world.server) && p.matches == |Below(world.server, f, c, p.cursor)|
      ensures ok ==> mail.selected == f && Page(world.server, f, mail.uidValidity, mail.uidNext, p.cursor, uids, all)
      ensures mail.calm ==> world.server == old(world.server)
      ensures old(mail.selected) == f && old(mail.uidValidity) != 0 ==> mail.uidNext == old(mail.uidNext)
      ensures ok && old(p.validity) == 0 ==> p.cursor == old(p.cursor) && (mail.uidNext <= p.cursor + 251 ==> all)
    {
      hide Own, Legal, After, ServerInv, Below, Page, Remembers;
      ghost var first := world.server;
      ok, uids, all := OnePage(f, p.cursor);
      if !ok { return; }
      world.Sane();
      NoneBelow(world.server, f, c);
      if p.validity != 0 && p.validity != mail.uidValidity {
        ghost var between := world.server;
        ok, uids, all := OnePage(f, 0);
        StillRemembers(first, between, world.server);
        if !ok { return; }
        p.cursor, p.matches, p.matchUid := 0, 0, 0;
      }
    }

    method OnePage(f: Folder, after: nat) returns (ok: bool, uids: seq<nat>, all: bool)
      requires Valid() && f != Nowhere
      modifies world, mail
      ensures Valid() && OnlyOthers(world)
      ensures ok ==> mail.selected == f && Page(world.server, f, mail.uidValidity, mail.uidNext, after, uids, all)
      ensures ok ==> mail.uidValidity == BoxOf(world.server, f).validity && (mail.uidNext <= after + 251 ==> all)
      ensures old(mail.selected) == f && old(mail.uidValidity) != 0 ==> mail.uidNext == old(mail.uidNext) && mail.uidValidity == old(mail.uidValidity)
      ensures mail.calm ==> ok && world.server == old(world.server)
    {
      hide Own, Legal, After, ServerInv;
      ok, uids, all := mail.SearchUIDPage(f, after, 250);
      world.Current();
    }

    // Reads the page in ascending order; the deadline may cut it short anywhere.
    method CountPage(f: Folder, size: nat, c: Content, uids: seq<nat>, all: bool, p: Progress, ghost exact: bool) returns (ok: bool, done: bool)
      requires Valid() && f != Nowhere && mail.selected == f && mail.uidValidity == BoxOf(world.server, f).validity && size == |c|
      requires Page(world.server, f, mail.uidValidity, mail.uidNext, p.cursor, uids, all)
      requires exact ==> mail.calm && p.matches == |Below(world.server, f, c, p.cursor)|
      modifies world, mail, p
      ensures Valid() && OnlyOthers(world)
      ensures mail.uidNext == old(mail.uidNext) && mail.uidValidity == old(mail.uidValidity) && (ok ==> mail.selected == f)
      ensures exact ==> ok && world.server == old(world.server) && p.matches == |Below(world.server, f, c, p.cursor)|
      ensures exact && done ==> forall l :: l in world.server.live && l.folder == f ==> l.uid <= p.cursor || l.uid >= mail.uidNext
      ensures mail.calm ==> world.server == old(world.server)
      ensures uids == [] ==> ok && done == all && p.cursor == old(p.cursor)
    {
      hide Own, Legal, After, ServerInv, Below, Remembers;
      ok, done := true, all;
      ghost var start, next, first := p.cursor, mail.uidNext, world.server;
      world.Current();
      NothingSettled(world.db.table, first, true);
      for i := 0 to |uids|
        invariant Valid() && OnlyOthers(world) && ok && done == all
        invariant mail.selected == f && mail.uidNext == next && mail.uidValidity == old(mail.uidValidity)
        invariant p.cursor == if i == 0 then start else uids[i - 1]
        invariant exact ==> world.server == first && p.matches == |Below(first, f, c, p.cursor)|
        invariant mail.calm ==> world.server == first
      {
        var late: bool := *;
        if late { return true, false; }
        ghost var s := world.server;
        var m;
        ok, m := mail.Fetch(f, uids[i]);
        StillRemembers(first, s, world.server);
        if !ok { return false, false; }
        var matched := false;
        if |m.raw| == size {
          ghost var u := world.server;
          ok, m := mail.Fetch(f, uids[i]);
          StillRemembers(first, u, world.server);
          if !ok { return false, false; }
          matched := m.raw == c;
        }
        if exact { NextBelow(first, f, mail.uidValidity, next, start, uids, all, i, c); }
        p.cursor := uids[i];
        if matched {
          p.matches := p.matches + 1;
          if p.matchUid == 0 { p.matchUid := uids[i]; }
        }
      }
      if exact && all { PageDone(first, f, mail.uidValidity, next, start, uids); }
    }
  }

  // The case the condition excludes. A folder without messages is selected, one message
  // arrives, and the scan pages under the UIDNEXT it remembers: it reports the folder
  // complete and has missed the only copy.
  method StaleUidNextMisses(server: Server, f: Folder, c: Content) returns (complete: bool, matches: nat, ghost copies: nat)
    requires ServerInv(server) && f != Nowhere && BoxOf(server, f).next <= 251
    requires forall l :: l in server.live ==> l.folder != f
    ensures complete && matches == 0 && copies == 1
  {
    hide Legal, After, Own, Page;
    var db := new DB(true);
    var world := new World(server, db);
    var mail := new Client(world, true, true, true, _ => true);
    var engine := new Engine(mail, true, MIB, 1, 0, 0);
    var selected := mail.SelectFresh(f);
    world.Current();
    world.ActOnce(Deliver(f, c));
    var p := new Progress();
    var ok := engine.ScanPage(f, |c|, c, p);
    OneArrived(server, f, c);
    complete, matches, copies := p.complete, p.matches, |Held(world.server, f, c)|;
  }

  lemma OneArrived(s: Server, f: Folder, c: Content)
    requires forall l :: l in s.live ==> l.folder != f
    ensures Held(Put(s, f, c), f, c) == {FreshLoc(s, f)}
    ensures NothingBetween(Put(s, f, c), f, 0, BoxOf(s, f).next)
  {
  }
}
