// The move / learn / restore / purge protocol as a step system. A state is everything
// that survives a crash: the server, the message table and the archive. Each event is
// one durable effect, so a crash is a run that simply stops between two events.
module Journal {
  import opened Wrappers
  import opened Mailbox
  import opened Store

  // `clear` is bookkeeping for restores: the rows whose content was seen to be absent
  // from the review folder since their last APPEND (or that were only just marked).
  datatype State = State(server: Server, table: Table, files: map<Path, Content>, clear: set<nat>)

  datatype Event =
    | Client(act: ClientEvent)
    | Moved(id: nat, folder: Folder)
    | Appended(id: nat)
    | Deleted(id: nat, now: int, quarantineDays: nat)
    | FileSaved(file: Path)
    | FileRemoved(file: Path, now: int)
    | UpsertedPending(id: nat, at: Loc, action: Action, status: Status, file: Path, until: int, active: bool, now: int)
    | UpsertedKept(id: nat, at: Loc, status: Status, now: int)
    | UpsertedOversized(id: nat, at: Loc, limit: nat, now: int)
    | UpsertedLearnError(id: nat, now: int)
    | IntentMarked(id: nat, tag: Label, limit: nat)
    | LearnMarked(id: nat, tag: Label)
    | OthersSuperseded(id: nat)
    | Relocated(id: nat, at: Loc, status: Status)
    | Finished(id: nat, at: Loc, status: Status, now: int, quarantineDays: nat, archiveDays: nat)
    | RestoreMarked(id: nat)
    | ReviewListed(id: nat)
    | RestoreFinished(id: nat, at: Loc)
    | PurgeMarked(id: nat)
    | PathCleared(file: Path)

  const ABSOLUTE_LIMIT: nat := 104857600
  const MIB: nat := 1048576

  // MaxMessageMiB is a whole number from 1 to 100.
  predicate ConfiguredLimit(limit: nat) {
    limit % MIB == 0 && MIB <= limit <= 100 * MIB
  }

  // pendingDestination: where a pending action ends and the status it ends in.
  function Destination(a: Action): Option<(Folder, Status)> {
    match a
    case ToQuarantine => Some((Quarantine, Quarantined))
    case LearnSpam => Some((Quarantine, Quarantined))
    case ToReview => Some((Review, Reviewed))
    case ToRescue => Some((Inbox, Rescued))
    case LearnHam => Some((Inbox, Rescued))
    case Keep => None
  }

  predicate Training(f: Folder) { f == TrainSpam || f == TrainHam }

  function TrainingFolder(tag: Label): Folder { if tag == Ham then TrainHam else TrainSpam }

  // The server confirmed these bytes at this location at some moment.
  ghost predicate Confirmed(s: Server, at: Loc, hash: Digest) {
    at.uid > 0 && at in s.ledger && Sha(s.ledger[at]) == hash
  }

  // The recorded hash stands for these bytes.
  ghost predicate Names(s: Server, hash: Digest, c: Content) {
    match hash
    case Sha(content) => content == c
    case ShaOfLocation(l) => l in s.ledger && s.ledger[l] == c
  }

  // The row's archive file exists and decrypts to exactly the row's bytes.
  ghost predicate Backed(files: map<Path, Content>, r: Row) {
    r.hash.Sha? && r.path.Some? && r.path.value in files && files[r.path.value] == r.hash.content
  }

  predicate InFlight(st: Status) { st in {PendingLearn, PendingMove, MoveAmbiguous} }

  predicate NeedsBackup(st: Status) {
    st in {PendingLearn, PendingMove, MoveAmbiguous, Quarantined, PendingRestore}
  }

  ghost predicate InReview(s: State, c: Content) {
    exists l :: l in s.server.live && l.folder == Review && s.server.live[l] == c
  }

  function PendingRow(at: Loc, c: Content, action: Action, status: Status, file: Path, until: int, now: int): Row {
    Row(at, Sha(c), |c|, action, status, Some(file), Some(until), None, None, NoLabel, NoLabel, now)
  }

  function KeptRow(at: Loc, hash: Digest, size: nat, status: Status, now: int): Row {
    Row(at, hash, size, Keep, status, None, None, None, None, NoLabel, NoLabel, now)
  }

  // ----- When each effect may happen -----

  // Automatic decisions act only in the Inbox and the provider's spam folder, and never
  // against the user's latest correction of the same bytes.
  ghost predicate AllowedDecision(t: Table, f: Folder, c: Content, action: Action, active: bool) {
    match f
    case TrainHam => action in {ToRescue, LearnHam}
    case TrainSpam => action in {ToQuarantine, LearnSpam}
    case Inbox => action == ToQuarantine && active && !Latest(t, Sha(c), Ham)
    case ServerSpam =>
      || action == ToReview
      || (action == ToQuarantine && active && !Latest(t, Sha(c), Ham))
      || (action == ToRescue && active && !Latest(t, Sha(c), Spam))
    case _ => false
  }

  ghost predicate EnabledPending(s: State, e: Event)
    requires e.UpsertedPending?
  {
    && UpsertTarget(s.table, e.at, e.id)
    && e.at.uid > 0 && e.at in s.server.ledger
    && var c := s.server.ledger[e.at];
    && 0 < |c| <= ABSOLUTE_LIMIT
    && e.file in s.files && s.files[e.file] == c && e.file.content == c
    && (e.status == PendingMove || (e.status == PendingLearn && Training(e.at.folder)))
    && AllowedDecision(s.table, e.at.folder, c, e.action, e.active)
  }

  ghost predicate EnabledOversized(s: State, e: Event)
    requires e.UpsertedOversized?
  {
    && UpsertTarget(s.table, e.at, e.id)
    && e.at.uid > 0 && e.at in s.server.ledger && ConfiguredLimit(e.limit)
    && var size := |s.server.ledger[e.at]|;
    if Training(e.at.folder) then size == 0 || size > e.limit
    else e.at.folder in {Inbox, ServerSpam} && size > ABSOLUTE_LIMIT
  }

  ghost predicate EnabledIntent(s: State, e: Event)
    requires e.IntentMarked?
  {
    && e.tag in {Ham, Spam}
    && e.id in s.table.rows && ConfiguredLimit(e.limit)
    && var r := s.table.rows[e.id];
    && r.status in {PendingLearn, PendingMove}
    && r.at.uid > 0 && r.at.folder == TrainingFolder(e.tag)
    && r.hash.Sha? && 0 < |r.hash.content| <= e.limit
  }

  ghost predicate Relocatable(s: State, id: nat, at: Loc, status: Status) {
    && id in s.table.rows
    && var r := s.table.rows[id];
    && InFlight(r.status)
    && at.folder == r.at.folder
    && (if at == Loc(r.at.folder, 0, 0) then status == MoveAmbiguous
        else if at == r.at then status in {PendingMove, MoveAmbiguous}
        else status == PendingMove && Confirmed(s.server, at, r.hash))
  }

  ghost predicate Finishable(s: State, id: nat, at: Loc, status: Status) {
    && id in s.table.rows
    && var r := s.table.rows[id];
    && r.status in {PendingMove, MoveAmbiguous}
    && Confirmed(s.server, at, r.hash)
    && Destination(r.action) == Some((at.folder, status))
  }

  ghost predicate EnabledRelocated(s: State, e: Event)
    requires e.Relocated?
  {
    Relocatable(s, e.id, e.at, e.status) && UniqueLocations(SetLocation(s.table, e.id, e.at, e.status))
  }

  ghost predicate EnabledFinished(s: State, e: Event)
    requires e.Finished?
  {
    && Finishable(s, e.id, e.at, e.status)
    && UniqueLocations(SetFinished(s.table, e.id, e.at, e.status, e.now, e.quarantineDays, e.archiveDays))
  }

  ghost predicate EnabledDeleted(s: State, e: Event)
    requires e.Deleted?
  {
    && e.id in s.table.rows
    && var r := s.table.rows[e.id];
    && PurgeDue(r, e.now)
    && r.quarantinedAt.Some? && r.quarantinedAt.value + e.quarantineDays * DAY <= e.now
    && r.at.folder == Quarantine && Confirmed(s.server, r.at, r.hash)
    && Backed(s.files, r)
    && !HasHam(s.table, r.hash)
  }

  ghost predicate RestoreFinishable(s: State, id: nat, at: Loc) {
    && id in s.table.rows
    && s.table.rows[id].status == PendingRestore
    && at.folder == Review && Confirmed(s.server, at, s.table.rows[id].hash)
  }

  ghost predicate EnabledRestoreFinished(s: State, e: Event)
    requires e.RestoreFinished?
  {
    RestoreFinishable(s, e.id, e.at) && UniqueLocations(SetLocation(s.table, e.id, e.at, Restored))
  }

  ghost predicate EnabledMoved(s: State, id: nat, folder: Folder) {
    && id in s.table.rows
    && var r := s.table.rows[id];
    && r.status == PendingMove && Backed(s.files, r) && Confirmed(s.server, r.at, r.hash)
    && Destination(r.action).Some? && Destination(r.action).value.0 == folder
  }

  ghost predicate EnabledAppended(s: State, id: nat) {
    id in s.table.rows && id in s.clear && s.table.rows[id].status == PendingRestore && Backed(s.files, s.table.rows[id])
  }

  ghost predicate EnabledRemoval(s: State, file: Path, now: int) {
    exists id :: CleanupCandidate(s.table, id, file, now)
  }

  ghost predicate EnabledKept(s: State, id: nat, at: Loc, status: Status) {
    && UpsertTarget(s.table, at, id)
    && at.uid > 0 && at in s.server.ledger && at.folder == Inbox
    && 0 < |s.server.ledger[at]| <= ABSOLUTE_LIMIT
    && status in {Kept, Observed, Errored}
  }

  ghost predicate EnabledLearned(s: State, id: nat, tag: Label) {
    && tag in {Ham, Spam} && id in s.table.rows
    && var r := s.table.rows[id];
    r.status == PendingLearn && r.intent == tag && r.at.uid > 0 && r.at.folder == TrainingFolder(tag)
  }

  ghost predicate HasStatus(s: State, id: nat, status: Status) {
    id in s.table.rows && s.table.rows[id].status == status
  }

  ghost predicate EnabledRestore(s: State, id: nat) {
    && id in s.table.rows
    && var r := s.table.rows[id];
    r.status != PendingRestore && Unresolvable(r) && Backed(s.files, r)
  }

  ghost predicate EnabledClearing(s: State, file: Path) {
    && file !in s.files
    && forall i :: i in s.table.rows && s.table.rows[i].path == Some(file) ==> !NeedsBackup(s.table.rows[i].status)
  }

  ghost predicate Enabled(s: State, e: Event) {
    match e
    case Client(act) => ClientEnabled(s.server, act)
    case Moved(id, folder) => EnabledMoved(s, id, folder)
    case Appended(id) => EnabledAppended(s, id)
    case Deleted(_, _, _) => EnabledDeleted(s, e)
    case FileSaved(file) => file.content != []
    case FileRemoved(file, now) => EnabledRemoval(s, file, now)
    case UpsertedPending(_, _, _, _, _, _, _, _) => EnabledPending(s, e)
    case UpsertedKept(id, at, status, _) => EnabledKept(s, id, at, status)
    case UpsertedOversized(_, _, _, _) => EnabledOversized(s, e)
    case UpsertedLearnError(id, _) => HasStatus(s, id, PendingLearn)
    case IntentMarked(_, _, _) => EnabledIntent(s, e)
    case LearnMarked(id, tag) => EnabledLearned(s, id, tag)
    case OthersSuperseded(id) => id in s.table.rows && s.table.rows[id].hash.Sha?
    case Relocated(_, _, _) => EnabledRelocated(s, e)
    case Finished(_, _, _, _, _, _) => EnabledFinished(s, e)
    case RestoreMarked(id) => EnabledRestore(s, id)
    case ReviewListed(id) => HasStatus(s, id, PendingRestore) && s.table.rows[id].hash.Sha?
    case RestoreFinished(_, _) => EnabledRestoreFinished(s, e)
    case PurgeMarked(id) => HasStatus(s, id, Quarantined) && UniqueLocations(SetPurged(s.table, id))
    case PathCleared(file) => EnabledClearing(s, file)
  }

  // ----- What each effect does -----

  function RowAt(s: State, id: nat): Row
    requires id in s.table.rows
  {
    s.table.rows[id]
  }

  ghost function Effect(s: State, e: Event): State {
    match e
    case Client(act) => s.(server := ClientApply(s.server, act))
    case Moved(id, folder) => if id in s.table.rows then s.(server := Relocate(s.server, RowAt(s, id).at, folder)) else s
    case Appended(id) =>
      if id in s.table.rows && RowAt(s, id).hash.Sha? then
        s.(server := Put(s.server, Review, RowAt(s, id).hash.content), clear := s.clear - {id})
      else s
    case Deleted(id, _, _) => if id in s.table.rows then s.(server := Drop(s.server, RowAt(s, id).at)) else s
    case FileSaved(file) => s.(files := s.files[file := file.content])
    case FileRemoved(file, _) => s.(files := s.files - {file})
    case UpsertedPending(id, at, action, status, file, until, _, now) =>
      if at in s.server.ledger then
        s.(table := Upsert(s.table, id, PendingRow(at, s.server.ledger[at], action, status, file, until, now)))
      else s
    case UpsertedKept(id, at, status, now) =>
      if at in s.server.ledger then
        s.(table := Upsert(s.table, id, KeptRow(at, Sha(s.server.ledger[at]), |s.server.ledger[at]|, status, now)))
      else s
    case UpsertedOversized(id, at, _, now) =>
      if at in s.server.ledger then
        s.(table := Upsert(s.table, id, KeptRow(at, ShaOfLocation(at), |s.server.ledger[at]|, Blocked, now)))
      else s
    case UpsertedLearnError(id, now) =>
      if id in s.table.rows then s.(table := Upsert(s.table, id, RowAt(s, id).(status := Errored, scanned := now))) else s
    case IntentMarked(id, tag, _) => s.(table := SetIntent(s.table, id, tag))
    case LearnMarked(id, tag) => s.(table := SetLearned(s.table, id, tag))
    case OthersSuperseded(id) => if id in s.table.rows then s.(table := SupersedeOthers(s.table, RowAt(s, id).hash, id)) else s
    case Relocated(id, at, status) => s.(table := SetLocation(s.table, id, at, status))
    case Finished(id, at, status, now, qd, ad) => s.(table := SetFinished(s.table, id, at, status, now, qd, ad))
    case RestoreMarked(id) => s.(table := SetStatus(s.table, id, PendingRestore), clear := s.clear + {id})
    case ReviewListed(id) =>
      if id in s.table.rows && RowAt(s, id).hash.Sha? then
        s.(clear := if InReview(s, RowAt(s, id).hash.content) then s.clear - {id} else s.clear + {id})
      else s
    case RestoreFinished(id, at) => s.(table := SetLocation(s.table, id, at, Restored))
    case PurgeMarked(id) => s.(table := SetPurged(s.table, id))
    case PathCleared(file) => s.(table := ClearPath(s.table, file))
  }

  // ----- Runs -----

  ghost function After(s: State, run: seq<Event>): State {
    if run == [] then s else Effect(After(s, run[..|run| - 1]), run[|run| - 1])
  }

  // Every event of the run was enabled when it happened.
  ghost predicate Legal(s: State, run: seq<Event>) {
    run == [] || (Legal(s, run[..|run| - 1]) && Enabled(After(s, run[..|run| - 1]), run[|run| - 1]))
  }

  ghost predicate Installed(s: State) {
    s.table == Table(map[], 1) && s.files == map[] && s.clear == {} && ServerInv(s.server)
  }

  // ----- The invariant -----

  predicate FinalIn(st: Status, f: Folder) {
    && (st == Quarantined ==> f == Quarantine)
    && (st == Reviewed ==> f == Review)
    && (st == Rescued ==> f == Inbox)
    && (st == Restored ==> f == Review)
  }

  predicate Settled(st: Status) { st in {Quarantined, Reviewed, Rescued, Restored} }

  ghost predicate TruthfulRow(s: State, r: Row) {
    && (r.at.uid > 0 && r.at.folder != Nowhere ==>
        r.at in s.server.ledger && r.hash in {Sha(s.server.ledger[r.at]), ShaOfLocation(r.at)})
    && (r.hash.ShaOfLocation? && r.at.uid > 0 && r.at.folder in {Inbox, ServerSpam} ==> |s.server.ledger[r.at]| > ABSOLUTE_LIMIT)
    && (r.hash.Sha? ==> r.size == |r.hash.content|)
    && (Settled(r.status) ==> r.hash.Sha? && r.at.uid > 0 && FinalIn(r.status, r.at.folder))
    && (r.status == PendingRestore ==> Unresolvable(r))
    && (NeedsBackup(r.status) ==> Backed(s.files, r))
    && (Expirable(r.status) ==> r.hash.Sha?)
    && (r.path.Some? ==> Names(s.server, r.hash, r.path.value.content))
    && (InFlight(r.status) ==> r.at.folder in {Inbox, ServerSpam, TrainSpam, TrainHam})
    && (InFlight(r.status) && r.at.folder == Inbox ==> r.action == ToQuarantine)
  }

  predicate LabelledRow(r: Row) {
    && (IsHam(r) ==> r.at.folder != TrainSpam)
    && (IsSpam(r) ==> r.at.folder != TrainHam)
    && ((IsHam(r) || IsSpam(r)) && r.hash.Sha? ==> 0 < |r.hash.content| <= ABSOLUTE_LIMIT)
  }

  ghost predicate Inv(s: State) {
    && ServerInv(s.server)
    && TableInv(s.table)
    && (forall p :: p in s.files ==> s.files[p] == p.content && p.content != [])
    && (forall i :: i in s.table.rows ==> TruthfulRow(s, s.table.rows[i]) && LabelledRow(s.table.rows[i]))
  }

  // ----- Every event keeps the invariant -----

  lemma RowCarries(s: State, t: State, r: Row)
    requires TruthfulRow(s, r) && Remembers(s.server, t.server)
    requires NeedsBackup(r.status) ==> Backed(t.files, r)
    ensures TruthfulRow(t, r)
  {
  }

  lemma ServerStepKeeps(s: State, t: State)
    requires Inv(s) && ServerInv(t.server) && Remembers(s.server, t.server)
    requires t.table == s.table && t.files == s.files
    ensures Inv(t)
  {
    forall i | i in t.table.rows ensures TruthfulRow(t, t.table.rows[i]) && LabelledRow(t.table.rows[i]) {
      RowCarries(s, t, s.table.rows[i]);
    }
  }

  lemma FilesStepKeeps(s: State, t: State)
    requires Inv(s) && t.server == s.server && t.table == s.table
    requires forall p :: p in t.files ==> t.files[p] == p.content && p.content != []
    requires forall i :: i in s.table.rows && NeedsBackup(s.table.rows[i].status) && s.table.rows[i].path.Some? ==>
      s.table.rows[i].path.value in t.files
    ensures Inv(t)
  {
    forall i | i in t.table.rows ensures TruthfulRow(t, t.table.rows[i]) && LabelledRow(t.table.rows[i]) {
      RowCarries(s, t, s.table.rows[i]);
    }
  }

  lemma RowsStepKeeps(s: State, t: State)
    requires Inv(s) && t.server == s.server && t.files == s.files && TableInv(t.table)
    requires forall i :: i in t.table.rows ==>
      (i in s.table.rows && t.table.rows[i] == s.table.rows[i]) || (TruthfulRow(t, t.table.rows[i]) && LabelledRow(t.table.rows[i]))
    ensures Inv(t)
  {
    forall i | i in t.table.rows ensures TruthfulRow(t, t.table.rows[i]) && LabelledRow(t.table.rows[i]) {
      if i in s.table.rows && t.table.rows[i] == s.table.rows[i] { RowCarries(s, t, s.table.rows[i]); }
    }
  }

  lemma UpsertUnique(t: Table, id: nat, r: Row)
    requires TableInv(t) && UpsertTarget(t, r.at, id)
    ensures TableInv(Upsert(t, id, r))
  {
  }

  ghost predicate UpsertEvent(e: Event) { e.UpsertedPending? || e.UpsertedKept? || e.UpsertedOversized? }

  ghost function UpsertRow(e: Event, c: Content): Row
    requires UpsertEvent(e)
  {
    match e
    case UpsertedPending(_, at, action, status, file, until, _, now) => PendingRow(at, c, action, status, file, until, now)
    case UpsertedKept(_, at, status, now) => KeptRow(at, Sha(c), |c|, status, now)
    case UpsertedOversized(_, at, _, now) => KeptRow(at, ShaOfLocation(at), |c|, Blocked, now)
  }

  lemma UpsertKeepsRow(s: State, e: Event)
    requires UpsertEvent(e) && Enabled(s, e)
    requires e.id in s.table.rows ==> LabelledRow(s.table.rows[e.id]) && TruthfulRow(s, s.table.rows[e.id])
    ensures e.id in Effect(s, e).table.rows
    ensures TruthfulRow(s, Effect(s, e).table.rows[e.id]) && LabelledRow(Effect(s, e).table.rows[e.id])
  {
    var r := UpsertRow(e, s.server.ledger[e.at]);
    var n := if e.id in s.table.rows then Merge(s.table.rows[e.id], r) else r;
    assert Effect(s, e).table.rows[e.id] == n;
  }

  lemma UpsertTable(s: State, e: Event)
    requires UpsertEvent(e) && e.at in s.server.ledger
    ensures Effect(s, e) == s.(table := Upsert(s.table, e.id, UpsertRow(e, s.server.ledger[e.at])))
    ensures UpsertRow(e, s.server.ledger[e.at]).at == e.at
  {
  }

  lemma UpsertAllowed(s: State, e: Event)
    requires UpsertEvent(e) && Enabled(s, e)
    ensures UpsertTarget(s.table, e.at, e.id) && e.at in s.server.ledger
  {
  }

  lemma UpsertStepKeeps(s: State, e: Event)
    requires Inv(s) && Enabled(s, e) && UpsertEvent(e)
    ensures Inv(Effect(s, e))
  {
    hide Enabled, Effect, UpsertTarget, ServerInv;
    UpsertAllowed(s, e);
    UpsertTable(s, e);
    var t := Effect(s, e);
    UpsertUnique(s.table, e.id, UpsertRow(e, s.server.ledger[e.at]));
    UpsertKeepsRow(s, e);
    RowCarries(s, t, t.table.rows[e.id]);
    RowsStepKeeps(s, t);
  }

  lemma OneRowKeeps(s: State, t: State, id: nat, n: Row)
    requires Inv(s) && id in s.table.rows
    requires t.server == s.server && t.files == s.files
    requires t.table == Rewrite(s.table, id, n) && UniqueLocations(t.table)
    requires TruthfulRow(s, n) && LabelledRow(n)
    ensures Inv(t)
  {
    RowCarries(s, t, n);
    RowsStepKeeps(s, t);
  }

  lemma SameLocationsUnique(t: Table, id: nat, n: Row)
    requires UniqueLocations(t) && id in t.rows && n.at == t.rows[id].at
    ensures UniqueLocations(Rewrite(t, id, n))
  {
  }

  ghost predicate EditEvent(e: Event) {
    e.UpsertedLearnError? || e.IntentMarked? || e.LearnMarked? || e.RestoreMarked?
  }

  ghost function EditedRow(r: Row, e: Event): Row
    requires EditEvent(e)
  {
    match e
    case UpsertedLearnError(_, now) => Merge(r, r.(status := Errored, scanned := now))
    case IntentMarked(_, tag, _) => r.(intent := tag)
    case LearnMarked(_, tag) => r.(status := PendingMove, feedback := tag, action := if tag == Ham then LearnHam else LearnSpam)
    case RestoreMarked(_) => r.(status := PendingRestore)
  }

  lemma EditKeepsRow(s: State, e: Event, r: Row)
    requires EditEvent(e) && e.id in s.table.rows && r == s.table.rows[e.id]
    requires TruthfulRow(s, r) && LabelledRow(r) && Enabled(s, e)
    ensures TruthfulRow(s, EditedRow(r, e)) && LabelledRow(EditedRow(r, e))
  {
  }

  lemma EditTable(s: State, e: Event)
    requires EditEvent(e) && e.id in s.table.rows && 0 < e.id < s.table.next
    ensures Effect(s, e).table == Rewrite(s.table, e.id, EditedRow(s.table.rows[e.id], e))
  {
  }

  lemma EditStepKeeps(s: State, e: Event)
    requires Inv(s) && Enabled(s, e) && EditEvent(e)
    ensures Inv(Effect(s, e))
  {
    var r := s.table.rows[e.id];
    EditKeepsRow(s, e, r);
    SameLocationsUnique(s.table, e.id, EditedRow(r, e));
    EditTable(s, e);
    OneRowKeeps(s, Effect(s, e), e.id, EditedRow(r, e));
  }

  ghost predicate MoveEvent(e: Event) {
    e.Relocated? || e.Finished? || e.RestoreFinished? || e.PurgeMarked?
  }

  ghost function MovedRow(r: Row, e: Event): Row
    requires MoveEvent(e)
  {
    match e
    case Relocated(_, at, status) => r.(at := at, status := status)
    case Finished(_, at, status, now, qd, ad) => FinishedRow(r, at, status, now, qd, ad)
    case RestoreFinished(_, at) => r.(at := at, status := Restored)
    case PurgeMarked(_) => r.(status := Purged, at := r.at.(folder := Nowhere))
  }

  lemma FinishKeepsRow(s: State, e: Event, r: Row)
    requires e.Finished? && Confirmed(s.server, e.at, r.hash) && NeedsBackup(r.status)
    requires Destination(r.action) == Some((e.at.folder, e.status))
    requires TruthfulRow(s, r) && LabelledRow(r)
    ensures TruthfulRow(s, MovedRow(r, e)) && LabelledRow(MovedRow(r, e))
  {
  }

  lemma MoveKeepsRow(s: State, e: Event, r: Row)
    requires MoveEvent(e) && e.id in s.table.rows && r == s.table.rows[e.id]
    requires LedgerInv(s.server) && TruthfulRow(s, r) && LabelledRow(r) && Enabled(s, e)
    ensures TruthfulRow(s, MovedRow(r, e)) && LabelledRow(MovedRow(r, e))
  {
    if e.Finished? {
      FinishKeepsRow(s, e, r);
    } else if e.Relocated? {
      assert TruthfulRow(s, r.(at := e.at, status := e.status));
    }
  }

  lemma MoveTable(s: State, e: Event)
    requires MoveEvent(e) && e.id in s.table.rows
    ensures Effect(s, e).table == Rewrite(s.table, e.id, MovedRow(s.table.rows[e.id], e))
  {
  }

  lemma MoveStepKeeps(s: State, e: Event)
    requires Inv(s) && Enabled(s, e) && MoveEvent(e)
    ensures Inv(Effect(s, e))
  {
    var r := s.table.rows[e.id];
    MoveKeepsRow(s, e, r);
    MoveTable(s, e);
    OneRowKeeps(s, Effect(s, e), e.id, MovedRow(r, e));
  }

  lemma SweptRow(s: State, e: Event, i: nat)
    requires e.OthersSuperseded? || e.PathCleared?
    requires Enabled(s, e) && i in s.table.rows && TruthfulRow(s, s.table.rows[i]) && LabelledRow(s.table.rows[i])
    ensures i in Effect(s, e).table.rows
    ensures TruthfulRow(s, Effect(s, e).table.rows[i]) && LabelledRow(Effect(s, e).table.rows[i])
    ensures Effect(s, e).table.rows[i].at == s.table.rows[i].at
  {
  }

  lemma SweepStepKeeps(s: State, e: Event)
    requires Inv(s) && Enabled(s, e)
    requires e.OthersSuperseded? || e.PathCleared?
    ensures Inv(Effect(s, e))
  {
    var t := Effect(s, e);
    assert t.server == s.server && t.files == s.files && t.table.next == s.table.next && t.table.rows.Keys == s.table.rows.Keys;
    forall i | i in t.table.rows
      ensures TruthfulRow(t, t.table.rows[i]) && LabelledRow(t.table.rows[i]) && t.table.rows[i].at == s.table.rows[i].at
    {
      SweptRow(s, e, i);
      RowCarries(s, t, t.table.rows[i]);
    }
  }

  lemma SweepTable(s: State, e: Event, i: nat)
    requires (e.OthersSuperseded? && e.id in s.table.rows) || e.PathCleared?
    requires i in s.table.rows
    ensures i in Effect(s, e).table.rows
    ensures var r, n := s.table.rows[i], Effect(s, e).table.rows[i];
      n == r || n == r.(path := None, until := None) || (n == r.(status := Superseded) && !SurvivesSupersede(r.status))
  {
  }

  // Rows are touched only by these four groups of events, and each names an existing row.
  lemma SameTable(s: State, e: Event)
    requires !UpsertEvent(e) && !EditEvent(e) && !MoveEvent(e) && !e.OthersSuperseded? && !e.PathCleared?
    ensures Effect(s, e).table == s.table
  {
  }

  lemma Targets(s: State, e: Event)
    requires Enabled(s, e)
    ensures EditEvent(e) || MoveEvent(e) || e.OthersSuperseded? ==> e.id in s.table.rows
    ensures UpsertEvent(e) ==> e.at in s.server.ledger
  {
  }

  lemma ServerEffectKeeps(s: State, e: Event)
    requires Inv(s) && Enabled(s, e)
    requires e.Client? || e.Moved? || e.Appended? || e.Deleted?
    ensures ServerInv(Effect(s, e).server) && Remembers(s.server, Effect(s, e).server)
  {
    hide LiveInv, LedgerInv;
    match e
    case Client(act) => ClientKeeps(s.server, act);
    case Moved(id, folder) => RelocateKeeps(s.server, s.table.rows[id].at, folder);
    case Appended(id) => PutKeeps(s.server, Review, s.table.rows[id].hash.content);
    case Deleted(_, _, _) => DropKeeps(s.server, s.table.rows[e.id].at);
  }

  // No event breaks the invariant.
  lemma StepKeeps(s: State, e: Event)
    requires Inv(s) && Enabled(s, e)
    ensures Inv(Effect(s, e))
  {
    if e.Client? || e.Moved? || e.Appended? || e.Deleted? {
      ServerEffectKeeps(s, e);
      ServerStepKeeps(s, Effect(s, e));
    } else if e.FileSaved? || e.FileRemoved? {
      FilesStepKeeps(s, Effect(s, e));
    } else if UpsertEvent(e) {
      UpsertStepKeeps(s, e);
    } else if MoveEvent(e) {
      MoveStepKeeps(s, e);
    } else if e.OthersSuperseded? || e.PathCleared? {
      SweepStepKeeps(s, e);
    } else if e.ReviewListed? {
      ServerStepKeeps(s, Effect(s, e));
    } else {
      EditStepKeeps(s, e);
    }
  }

  // Every state of every run satisfies the invariant.
  lemma {:induction false} RunKeeps(s: State, run: seq<Event>)
    requires Inv(s) && Legal(s, run)
    ensures Inv(After(s, run))
  {
    if run != [] {
      RunKeeps(s, run[..|run| - 1]);
      StepKeeps(After(s, run[..|run| - 1]), run[|run| - 1]);
    }
  }
}
