// What holds over every run of the journal, whatever the crashes, lost replies and
// other clients in it.
module JournalSafety {
  import opened Wrappers
  import opened Mailbox
  import opened Store
  import opened Journal

  ghost predicate Reached(s: State, run: seq<Event>) {
    Installed(s) && Legal(s, run)
  }

  // The state before event `k` of the run.
  ghost function At(s: State, run: seq<Event>, k: nat): State
    requires k <= |run|
  {
    After(s, run[..k])
  }

  lemma {:induction false} PrefixLegal(s: State, run: seq<Event>, k: nat)
    requires Legal(s, run) && k <= |run|
    ensures Legal(s, run[..k])
    ensures k < |run| ==> Enabled(At(s, run, k), run[k]) && At(s, run, k + 1) == Effect(At(s, run, k), run[k])
    decreases |run|
  {
    if k < |run| {
      var front := run[..|run| - 1];
      if k == |run| - 1 {
        assert run[..k + 1] == run;
      } else {
        PrefixLegal(s, front, k);
        assert front[..k] == run[..k] && front[..k + 1] == run[..k + 1];
      }
    } else {
      assert run[..k] == run;
    }
  }

  lemma ReachedInv(s: State, run: seq<Event>, k: nat)
    requires Reached(s, run) && k <= |run|
    ensures Inv(At(s, run, k))
  {
    PrefixLegal(s, run, k);
    RunKeeps(s, run[..k]);
  }

  // ----- Finished rows tell the truth, at every crash point -----

  lemma FinishedRowsConfirmed(s: State, run: seq<Event>, k: nat, id: nat)
    requires Reached(s, run) && k <= |run|
    requires id in At(s, run, k).table.rows && Settled(At(s, run, k).table.rows[id].status)
    ensures
      var t := At(s, run, k);
      var r := t.table.rows[id];
      && Confirmed(t.server, r.at, r.hash) && r.at.validity > 0 && FinalIn(r.status, r.at.folder)
      && forall j :: j in t.table.rows && j != id ==> t.table.rows[j].at != r.at
  {
    ReachedInv(s, run, k);
    var t := At(s, run, k);
    assert TruthfulRow(t, t.table.rows[id]);
    assert t.table.rows[id].at in t.server.ledger;
  }

  // Whatever a MOVE takes away is in the archive, byte for byte, under a row already
  // stored as pending.
  lemma ArchivedBeforeMove(s: State, run: seq<Event>, k: nat)
    requires Reached(s, run) && k < |run| && run[k].Moved?
    ensures
      var t := At(s, run, k);
      && run[k].id in t.table.rows
      && var r := t.table.rows[run[k].id];
      && r.status == PendingMove && r.path.Some? && r.path.value in t.files
      && (r.at in t.server.live ==> t.server.live[r.at] == t.files[r.path.value])
  {
    ReachedInv(s, run, k);
    PrefixLegal(s, run, k);
  }

  // ----- The ham veto -----

  // The one step that can forget the last ham correction of some bytes.
  ghost predicate ForgetsHam(s: State, e: Event, c: Content) {
    && e.UpsertedOversized? && e.id in s.table.rows
    && s.table.rows[e.id].hash == Sha(c) && IsHam(s.table.rows[e.id])
    && forall j :: j in s.table.rows && j != e.id && s.table.rows[j].hash == Sha(c) ==> !IsHam(s.table.rows[j])
  }

  lemma RowKeepsHam(s: State, e: Event, i: nat)
    requires Inv(s) && Enabled(s, e) && i in s.table.rows
    requires IsHam(s.table.rows[i]) && s.table.rows[i].hash.Sha?
    requires !(e.UpsertedOversized? && e.id == i)
    ensures i in Effect(s, e).table.rows
    ensures Effect(s, e).table.rows[i].hash == s.table.rows[i].hash && IsHam(Effect(s, e).table.rows[i])
  {
    hide Enabled, Effect;
    var r := s.table.rows[i];
    assert TruthfulRow(s, r) && LabelledRow(r);
    Targets(s, e);
    if EditEvent(e) {
      EditTable(s, e);
      if e.id == i { EditKeepsHam(s, e, r); }
    } else if MoveEvent(e) {
      MoveTable(s, e);
    } else if UpsertEvent(e) {
      UpsertTable(s, e);
      if e.id == i { UpsertKeepsHam(s, e, r); }
    } else if e.OthersSuperseded? || e.PathCleared? {
      SweepTable(s, e, i);
    } else {
      SameTable(s, e);
    }
  }

  lemma EditKeepsHam(s: State, e: Event, r: Row)
    requires EditEvent(e) && Enabled(s, e) && r == s.table.rows[e.id]
    requires TruthfulRow(s, r) && LabelledRow(r) && IsHam(r)
    ensures EditedRow(r, e).hash == r.hash && IsHam(EditedRow(r, e))
  {
  }

  lemma UpsertKeepsHam(s: State, e: Event, r: Row)
    requires UpsertEvent(e) && !e.UpsertedOversized? && Enabled(s, e) && e.id in s.table.rows && r == s.table.rows[e.id]
    requires TruthfulRow(s, r) && LabelledRow(r) && IsHam(r) && r.hash.Sha?
    ensures e.id in Effect(s, e).table.rows
    ensures Effect(s, e).table.rows[e.id].hash == r.hash && IsHam(Effect(s, e).table.rows[e.id])
  {
  }

  lemma ForgettingIsOversized(s: State, e: Event, c: Content)
    requires Inv(s) && Enabled(s, e) && ForgetsHam(s, e, c)
    ensures e.at.folder == TrainHam && e.limit < |c| && s.table.rows[e.id].at == e.at
    ensures !HasHam(Effect(s, e).table, Sha(c))
  {
    var r := s.table.rows[e.id];
    assert TruthfulRow(s, r) && LabelledRow(r);
    assert r.at == e.at && s.server.ledger[e.at] == c;
    var t := Effect(s, e).table;
    forall j | j in t.rows && t.rows[j].hash == Sha(c) ensures !IsHam(t.rows[j]) {
      if j != e.id { assert t.rows[j] == s.table.rows[j]; }
    }
  }

  // A ham correction survives a step if and only if the step is not that one. Before the
  // call it shows as: a corrected message in the ham folder above the size limit.
  lemma VetoLostExactly(s: State, e: Event, c: Content)
    requires Inv(s) && Enabled(s, e) && HasHam(s.table, Sha(c))
    ensures !HasHam(Effect(s, e).table, Sha(c)) <==> ForgetsHam(s, e, c)
    ensures ForgetsHam(s, e, c) ==> e.at.folder == TrainHam && e.limit < |c|
  {
    if ForgetsHam(s, e, c) {
      ForgettingIsOversized(s, e, c);
    } else {
      var i :| i in s.table.rows && s.table.rows[i].hash == Sha(c) && IsHam(s.table.rows[i])
               && !(e.UpsertedOversized? && e.id == i);
      RowKeepsHam(s, e, i);
    }
  }

  // The configured size limit is never lowered along the run.
  ghost predicate LimitNeverLowered(run: seq<Event>) {
    forall i, j :: 0 <= i < j < |run| && run[i].IntentMarked? && run[j].UpsertedOversized? ==> run[i].limit <= run[j].limit
  }

  ghost predicate HamBounded(t: Table, run: seq<Event>) {
    forall i :: i in t.rows && IsHam(t.rows[i]) ==> t.rows[i].hash.Sha? && WithinSomeLimit(|t.rows[i].hash.content|, run)
  }

  ghost predicate WithinSomeLimit(size: nat, run: seq<Event>) {
    exists k :: 0 <= k < |run| && run[k].IntentMarked? && size <= run[k].limit
  }

  lemma WithinExtends(size: nat, run: seq<Event>, more: Event)
    requires WithinSomeLimit(size, run)
    ensures WithinSomeLimit(size, run + [more])
  {
    var k :| 0 <= k < |run| && run[k].IntentMarked? && size <= run[k].limit;
    assert (run + [more])[k] == run[k];
  }

  lemma LimitCovers(size: nat, run: seq<Event>, e: Event)
    requires WithinSomeLimit(size, run) && LimitNeverLowered(run + [e]) && e.UpsertedOversized?
    ensures size <= e.limit
  {
    var k :| 0 <= k < |run| && run[k].IntentMarked? && size <= run[k].limit;
    assert (run + [e])[k] == run[k] && (run + [e])[|run|] == e;
  }

  // Only a message above the limit is recorded without its bytes.
  lemma OversizedExceeds(s: State, e: Event)
    requires Inv(s) && Enabled(s, e) && e.UpsertedOversized? && e.id in s.table.rows
    requires IsHam(s.table.rows[e.id]) && s.table.rows[e.id].hash.Sha?
    ensures e.limit < |s.table.rows[e.id].hash.content| && e.at.folder == TrainHam
  {
    var r := s.table.rows[e.id];
    assert TruthfulRow(s, r) && LabelledRow(r);
  }

  lemma HamBoundedStep(s: State, run: seq<Event>, e: Event, i: nat)
    requires Inv(s) && Enabled(s, e) && HamBounded(s.table, run) && LimitNeverLowered(run + [e])
    requires i in Effect(s, e).table.rows && IsHam(Effect(s, e).table.rows[i])
    ensures Effect(s, e).table.rows[i].hash.Sha?
    ensures WithinSomeLimit(|Effect(s, e).table.rows[i].hash.content|, run + [e])
  {
    assert TableInv(s.table);
    hide Enabled, Effect, Inv;
    HamComesFrom(s, e, i);
    if e.IntentMarked? && e.id == i {
      assert (run + [e])[|run|] == e;
    } else {
      var r := s.table.rows[i];
      WithinExtends(|r.hash.content|, run, e);
      if e.UpsertedOversized? && e.id == i {
        LimitCovers(|r.hash.content|, run, e);
        OversizedExceeds(s, e);
        assert false;
      }
      RowKeepsHam(s, e, i);
    }
  }

  // A row is labelled ham because it just got that intent, or because it was before.
  lemma HamComesFrom(s: State, e: Event, i: nat)
    requires TableInv(s.table) && Enabled(s, e) && i in Effect(s, e).table.rows && IsHam(Effect(s, e).table.rows[i])
    ensures
      if e.IntentMarked? && e.id == i then
        Effect(s, e).table.rows[i].hash.Sha? && |Effect(s, e).table.rows[i].hash.content| <= e.limit
      else i in s.table.rows && IsHam(s.table.rows[i])
  {
    hide Enabled, Effect;
    Targets(s, e);
    if EditEvent(e) {
      EditTable(s, e);
      if e.id == i { EditedHam(s, e); }
    } else if MoveEvent(e) {
      MoveTable(s, e);
    } else if UpsertEvent(e) {
      UpsertTable(s, e);
    } else if e.OthersSuperseded? || e.PathCleared? {
      SweptKeys(s, e);
      SweepTable(s, e, i);
    } else {
      SameTable(s, e);
    }
  }

  lemma SweptKeys(s: State, e: Event)
    requires e.OthersSuperseded? || e.PathCleared?
    ensures Effect(s, e).table.rows.Keys == s.table.rows.Keys
  {
  }

  lemma EditedHam(s: State, e: Event)
    requires EditEvent(e) && Enabled(s, e) && e.id in s.table.rows && IsHam(EditedRow(s.table.rows[e.id], e))
    ensures
      if e.IntentMarked? then s.table.rows[e.id].hash.Sha? && |s.table.rows[e.id].hash.content| <= e.limit
      else IsHam(s.table.rows[e.id])
  {
  }

  lemma {:induction false} HamAlwaysBounded(s: State, run: seq<Event>)
    requires Reached(s, run) && LimitNeverLowered(run)
    ensures HamBounded(After(s, run).table, run)
  {
    if run != [] {
      var front, e := run[..|run| - 1], run[|run| - 1];
      assert run == front + [e];
      ShorterNeverLowered(front, [e]);
      HamAlwaysBounded(s, front);
      RunKeeps(s, front);
      forall i | i in After(s, run).table.rows && IsHam(After(s, run).table.rows[i])
        ensures After(s, run).table.rows[i].hash.Sha? && WithinSomeLimit(|After(s, run).table.rows[i].hash.content|, run)
      {
        HamBoundedStep(After(s, front), front, e, i);
      }
    }
  }

  lemma NeverForgets(s: State, run: seq<Event>, k: nat, c: Content)
    requires Reached(s, run) && LimitNeverLowered(run) && k < |run|
    ensures Inv(At(s, run, k)) && Enabled(At(s, run, k), run[k])
    ensures !ForgetsHam(At(s, run, k), run[k], c)
  {
    ReachedInv(s, run, k);
    PrefixLegal(s, run, k);
    HamBoundedPrefix(s, run, k);
    BoundedNeverForgets(At(s, run, k), run[k], run[..k], c);
  }

  lemma HamBoundedPrefix(s: State, run: seq<Event>, k: nat)
    requires Reached(s, run) && LimitNeverLowered(run) && k < |run|
    ensures HamBounded(At(s, run, k).table, run[..k])
    ensures LimitNeverLowered(run[..k] + [run[k]])
  {
    var front := run[..k];
    assert (front + [run[k]]) + run[k + 1..] == run;
    ShorterNeverLowered(front + [run[k]], run[k + 1..]);
    ShorterNeverLowered(front, [run[k]]);
    PrefixLegal(s, run, k);
    HamAlwaysBounded(s, front);
  }

  lemma BoundedNeverForgets(t: State, e: Event, front: seq<Event>, c: Content)
    requires Inv(t) && Enabled(t, e) && HamBounded(t.table, front) && LimitNeverLowered(front + [e])
    ensures !ForgetsHam(t, e, c)
  {
    if ForgetsHam(t, e, c) {
      LimitCovers(|c|, front, e);
      OversizedExceeds(t, e);
      assert false;
    }
  }

  lemma ShorterNeverLowered(run: seq<Event>, rest: seq<Event>)
    requires LimitNeverLowered(run + rest)
    ensures LimitNeverLowered(run)
  {
    forall i, j | 0 <= i < j < |run| && run[i].IntentMarked? && run[j].UpsertedOversized?
      ensures run[i].limit <= run[j].limit
    { assert (run + rest)[i] == run[i] && (run + rest)[j] == run[j]; }
  }

  lemma VetoStep(s: State, run: seq<Event>, k: nat, c: Content)
    requires Reached(s, run) && LimitNeverLowered(run) && k < |run|
    requires HasHam(At(s, run, k).table, Sha(c))
    ensures HasHam(At(s, run, k + 1).table, Sha(c))
  {
    NeverForgets(s, run, k, c);
    PrefixLegal(s, run, k);
    VetoLostExactly(At(s, run, k), run[k], c);
  }

  // Once some row carries a ham correction of these bytes, some row always does.
  lemma {:induction false} VetoPermanent(s: State, run: seq<Event>, i: nat, j: nat, c: Content)
    requires Reached(s, run) && LimitNeverLowered(run) && i <= j <= |run|
    requires HasHam(At(s, run, i).table, Sha(c))
    ensures HasHam(At(s, run, j).table, Sha(c))
    decreases j - i
  {
    if i < j {
      VetoPermanent(s, run, i, j - 1, c);
      VetoStep(s, run, j - 1, c);
    }
  }

  // Permanent deletion never removes bytes that any earlier state had corrected as ham,
  // removes nothing but the row's own bytes, and only after the full quarantine period.
  lemma PurgeRespectsVeto(s: State, run: seq<Event>, i: nat, k: nat)
    requires Reached(s, run) && LimitNeverLowered(run) && i <= k < |run| && run[k].Deleted?
    ensures
      var t := At(s, run, k);
      && run[k].id in t.table.rows
      && var r := t.table.rows[run[k].id];
      && r.hash.Sha?
      && !HasHam(At(s, run, i).table, r.hash)
      && (r.at in t.server.live ==> t.server.live[r.at] == r.hash.content)
      && r.quarantinedAt.Some? && r.quarantinedAt.value + run[k].quarantineDays * DAY <= run[k].now
  {
    PrefixLegal(s, run, k);
    ReachedInv(s, run, k);
    var t := At(s, run, k);
    var r := t.table.rows[run[k].id];
    if HasHam(At(s, run, i).table, r.hash) {
      VetoPermanent(s, run, i, k, r.hash.content);
      assert false;
    }
  }

  // The limit really matters, for every pair of configurable limits and every message
  // between them: the user corrects it under the higher one, learning fails, the limit is
  // lowered, and the next run records the message without its bytes.
  lemma LoweredLimitForgets(s: State, c: Content, high: nat, low: nat) returns (run: seq<Event>)
    requires Installed(s) && ConfiguredLimit(high) && ConfiguredLimit(low) && low < |c| <= high
    ensures Legal(s, run) && !LimitNeverLowered(run)
    ensures HasHam(At(s, run, |run| - 1).table, Sha(c)) && !HasHam(After(s, run).table, Sha(c))
  {
    var at := FreshLoc(s.server, TrainHam);
    var setup := CorrectedMessage(s, c, at);
    var e0, e1, e2 := IntentMarked(1, Ham, high), UpsertedLearnError(1, 0), UpsertedOversized(1, at, low, 0);
    ForgettingTail(After(s, setup), at, c, high, low);
    Extend(s, setup, e0);
    Extend(s, setup + [e0], e1);
    Extend(s, setup + [e0] + [e1], e2);
    run := setup + [e0] + [e1] + [e2];
    assert run[..|run| - 1] == setup + [e0] + [e1];
    assert run[|setup|] == e0 && run[|setup| + 2] == e2;
  }

  lemma ForgettingTail(t: State, at: Loc, c: Content, high: nat, low: nat)
    requires ConfiguredLimit(high) && ConfiguredLimit(low) && low < |c| <= high
    requires at in t.server.ledger && t.server.ledger[at] == c && at.uid > 0 && at.folder == TrainHam
    requires t.table == Table(map[1 := PendingRow(at, c, LearnHam, PendingLearn, Path(0, c), 0, 0)], 2)
    ensures
      var u := Effect(t, IntentMarked(1, Ham, high));
      var v := Effect(u, UpsertedLearnError(1, 0));
      var w := UpsertedOversized(1, at, low, 0);
      && Enabled(t, IntentMarked(1, Ham, high)) && Enabled(u, UpsertedLearnError(1, 0)) && Enabled(v, w)
      && HasHam(v.table, Sha(c)) && !HasHam(Effect(v, w).table, Sha(c))
  {
    var u := Effect(t, IntentMarked(1, Ham, high));
    var v := Effect(u, UpsertedLearnError(1, 0));
    assert v.table.rows[1].hash == Sha(c) && IsHam(v.table.rows[1]);
    assert Effect(v, UpsertedOversized(1, at, low, 0)).table.rows.Keys == {1};
  }

  lemma CorrectedMessage(s: State, c: Content, at: Loc) returns (run: seq<Event>)
    requires Installed(s) && 0 < |c| <= ABSOLUTE_LIMIT && at == FreshLoc(s.server, TrainHam)
    ensures Legal(s, run)
    ensures at in After(s, run).server.ledger && After(s, run).server.ledger[at] == c && at.uid > 0
    ensures After(s, run).table == Table(map[1 := PendingRow(at, c, LearnHam, PendingLearn, Path(0, c), 0, 0)], 2)
  {
    var e0, e1 := Client(Deliver(TrainHam, c)), FileSaved(Path(0, c));
    var e2 := UpsertedPending(1, at, LearnHam, PendingLearn, Path(0, c), 0, false, 0);
    Extend(s, [], e0);
    Extend(s, [] + [e0], e1);
    var t := After(s, [] + [e0] + [e1]);
    assert t.server == Put(s.server, TrainHam, c) && t.table == s.table;
    Extend(s, [] + [e0] + [e1], e2);
    run := [] + [e0] + [e1] + [e2];
  }

  lemma Extend(s: State, run: seq<Event>, e: Event)
    requires Legal(s, run) && Enabled(After(s, run), e)
    ensures Legal(s, run + [e]) && After(s, run + [e]) == Effect(After(s, run), e)
  {
    assert (run + [e])[..|run + [e]| - 1] == run;
  }

  // ----- Restores append at most once -----

  // Somebody takes a copy of these bytes out of the review folder.
  ghost predicate TakesFromReview(s: State, e: Event, c: Content) {
    e.Client? && match e.act
      case Expunge(l) => l.folder == Review && l in s.server.live && s.server.live[l] == c
      case Shift(l, f) => l.folder == Review && f != Review && l in s.server.live && s.server.live[l] == c
      case _ => false
  }

  // Where row `id` stands after its APPEND took effect.
  ghost predicate AlreadyAppended(s: State, id: nat, c: Content) {
    && id in s.table.rows && s.table.rows[id].hash == Sha(c)
    && s.table.rows[id].status in {PendingRestore, Restored}
    && id !in s.clear
    && InReview(s, c)
  }

  lemma PutRemembers(s: Server, f: Folder, x: Content, l: Loc)
    requires LiveInv(s) && LedgerInv(s) && l in s.live
    ensures l in Put(s, f, x).live && Put(s, f, x).live[l] == s.live[l]
  {
    assert Assigned(s, l) && !Assigned(s, FreshLoc(s, f));
  }

  lemma RelocateRemembers(s: Server, m: Loc, f: Folder, l: Loc)
    requires LiveInv(s) && LedgerInv(s) && l in s.live && l != m
    ensures l in Relocate(s, m, f).live && Relocate(s, m, f).live[l] == s.live[l]
  {
    if m in s.live {
      assert LiveInv(Drop(s, m)) && LedgerInv(Drop(s, m));
      PutRemembers(Drop(s, m), f, s.live[m], l);
    }
  }

  lemma ClientKeepsReview(s: Server, act: ClientEvent, l: Loc) returns (k: Loc)
    requires ServerInv(s) && ClientEnabled(s, act) && l in s.live && l.folder == Review
    requires !(act.Expunge? && act.loc == l) && !(act.Shift? && act.loc == l && act.folder != Review)
    ensures k in ClientApply(s, act).live && k.folder == Review && ClientApply(s, act).live[k] == s.live[l]
  {
    k := l;
    match act
    case Deliver(f, x) => PutRemembers(s, f, x, l);
    case Expunge(m) =>
    case Shift(m, f) => if m == l { k := FreshLoc(Drop(s, m), f); } else { RelocateRemembers(s, m, f, l); }
    case Renumber(f, v, n, origin, moved) =>
      if f == Review { k :| k in origin && origin[k] == l; }
  }

  lemma ReviewKept(s: State, e: Event, c: Content)
    requires Inv(s) && Enabled(s, e) && InReview(s, c) && !TakesFromReview(s, e, c)
    ensures InReview(Effect(s, e), c)
  {
    var t := Effect(s, e);
    var l :| l in s.server.live && l.folder == Review && s.server.live[l] == c;
    if e.Client? {
      var k := ClientKeepsReview(s.server, e.act, l);
    } else if e.Moved? {
      assert TruthfulRow(s, s.table.rows[e.id]);
      RelocateRemembers(s.server, s.table.rows[e.id].at, e.folder, l);
    } else if e.Appended? {
      PutRemembers(s.server, Review, s.table.rows[e.id].hash.content, l);
    } else if e.Deleted? {
      assert l in t.server.live;
    } else {
      assert t.server == s.server;
    }
  }

  lemma AppendSettles(s: State, id: nat)
    requires Inv(s) && Enabled(s, Appended(id))
    ensures s.table.rows[id].hash.Sha?
    ensures AlreadyAppended(Effect(s, Appended(id)), id, s.table.rows[id].hash.content)
  {
    var t := Effect(s, Appended(id));
    assert FreshLoc(s.server, Review) in t.server.live;
  }

  // Status and hash of a row being restored, or restored, change only by being restored.
  lemma RestoringRowStays(s: State, e: Event, id: nat)
    requires Inv(s) && Enabled(s, e) && id in s.table.rows
    requires s.table.rows[id].status in {PendingRestore, Restored}
    ensures id in Effect(s, e).table.rows && Effect(s, e).table.rows[id].hash == s.table.rows[id].hash
    ensures Effect(s, e).table.rows[id].status == s.table.rows[id].status || e.RestoreFinished?
    ensures Effect(s, e).table.rows[id].status in {PendingRestore, Restored}
    ensures s.table.rows[id].status == Restored ==> Effect(s, e).table.rows[id].status == Restored
    ensures e != RestoreMarked(id)
  {
    hide Enabled, Effect;
    assert TruthfulRow(s, s.table.rows[id]);
    Targets(s, e);
    if UpsertEvent(e) {
      UpsertSparesRestores(s, e, id);
    } else if EditEvent(e) || MoveEvent(e) {
      EditsSpareRestores(s, e, id);
    } else if e.OthersSuperseded? || e.PathCleared? {
      SweepTable(s, e, id);
    } else {
      SameTable(s, e);
    }
  }

  lemma EditsSpareRestores(s: State, e: Event, id: nat)
    requires Inv(s) && Enabled(s, e) && (EditEvent(e) || MoveEvent(e))
    requires id in s.table.rows && TruthfulRow(s, s.table.rows[id])
    requires s.table.rows[id].status in {PendingRestore, Restored}
    ensures e.id == id ==> e.RestoreFinished? && s.table.rows[id].status == PendingRestore
    ensures id in Effect(s, e).table.rows
    ensures Effect(s, e).table.rows[id] == if e.id == id then s.table.rows[id].(at := e.at, status := Restored) else s.table.rows[id]
  {
    hide Enabled, Effect;
    Targets(s, e);
    if EditEvent(e) {
      EditTable(s, e);
      EditsActive(s, e);
    } else {
      MoveTable(s, e);
      MovesActive(s, e);
    }
  }

  lemma EditsActive(s: State, e: Event)
    requires LedgerInv(s.server) && EditEvent(e) && Enabled(s, e)
    ensures e.id in s.table.rows
    ensures TruthfulRow(s, s.table.rows[e.id]) ==> s.table.rows[e.id].status !in {PendingRestore, Restored}
  {
  }

  lemma MovesActive(s: State, e: Event)
    requires MoveEvent(e) && Enabled(s, e)
    ensures e.id in s.table.rows && s.table.rows[e.id].status != Restored
    ensures s.table.rows[e.id].status == PendingRestore ==>
      e.RestoreFinished? && MovedRow(s.table.rows[e.id], e) == s.table.rows[e.id].(at := e.at, status := Restored)
  {
  }

  // Messages are only ever recorded in folders that no restored row lives in.
  lemma UpsertSparesRestores(s: State, e: Event, id: nat)
    requires LedgerInv(s.server) && UpsertEvent(e) && Enabled(s, e)
    requires id in s.table.rows && TruthfulRow(s, s.table.rows[id])
    requires s.table.rows[id].status in {PendingRestore, Restored}
    ensures e.id != id && id in Effect(s, e).table.rows && Effect(s, e).table.rows[id] == s.table.rows[id]
  {
    assert e.at in s.server.ledger && e.at.folder in {Inbox, ServerSpam, TrainSpam, TrainHam};
  }

  lemma AppendedStays(s: State, e: Event, id: nat, c: Content)
    requires Inv(s) && Enabled(s, e) && AlreadyAppended(s, id, c) && !TakesFromReview(s, e, c)
    ensures AlreadyAppended(Effect(s, e), id, c)
    ensures e != Appended(id)
  {
    RestoringRowStays(s, e, id);
    ReviewKept(s, e, c);
  }

  lemma {:induction false} AppendedPersists(s: State, run: seq<Event>, k: nat, j: nat, c: Content)
    requires Reached(s, run) && k < j <= |run| && run[k].Appended?
    requires run[k].id in At(s, run, k).table.rows && At(s, run, k).table.rows[run[k].id].hash == Sha(c)
    requires forall m :: k < m < j ==> !TakesFromReview(At(s, run, m), run[m], c)
    ensures AlreadyAppended(At(s, run, j), run[k].id, c)
    decreases j
  {
    PrefixLegal(s, run, j - 1);
    ReachedInv(s, run, j - 1);
    if j - 1 == k {
      AppendSettles(At(s, run, k), run[k].id);
    } else {
      AppendedPersists(s, run, k, j - 1, c);
      AppendedStays(At(s, run, j - 1), run[j - 1], run[k].id, c);
    }
  }

  // After one effective APPEND for a row, no later attempt appends again, as long as
  // nobody takes a copy of its bytes out of the review folder.
  lemma NoSecondAppend(s: State, run: seq<Event>, k: nat, j: nat, c: Content)
    requires Reached(s, run) && k < j < |run| && run[k].Appended?
    requires run[k].id in At(s, run, k).table.rows && At(s, run, k).table.rows[run[k].id].hash == Sha(c)
    requires forall m :: k < m < j ==> !TakesFromReview(At(s, run, m), run[m], c)
    ensures run[j] != run[k]
  {
    AppendedPersists(s, run, k, j, c);
    PrefixLegal(s, run, j);
  }

  lemma AppendsPending(s: State, id: nat)
    requires Enabled(s, Appended(id))
    ensures id in s.table.rows && s.table.rows[id].status == PendingRestore
  {
  }

  // A restored row stays restored and is never appended again, whoever touches the folder.
  lemma {:induction false} RestoredIsFinal(s: State, run: seq<Event>, k: nat, j: nat, id: nat)
    requires Reached(s, run) && k <= j <= |run|
    requires id in At(s, run, k).table.rows && At(s, run, k).table.rows[id].status == Restored
    ensures id in At(s, run, j).table.rows && At(s, run, j).table.rows[id].status == Restored
    ensures At(s, run, j).table.rows[id].hash == At(s, run, k).table.rows[id].hash
    ensures j < |run| ==> run[j] != Appended(id)
    decreases j
  {
    hide Enabled, Effect, Inv;
    PrefixLegal(s, run, j);
    if j < |run| && run[j] == Appended(id) { AppendsPending(At(s, run, j), id); }
    if k < j {
      RestoredIsFinal(s, run, k, j - 1, id);
      PrefixLegal(s, run, j - 1);
      ReachedInv(s, run, j - 1);
      RestoringRowStays(At(s, run, j - 1), run[j - 1], id);
    }
  }

  // ----- Conservation of copies -----

  datatype Tally = Tally(added: nat, removed: nat, restored: nat, purged: nat)

  ghost function Counted(s: State, e: Event, c: Content, n: Tally): Tally {
    match e
    case Client(Deliver(_, x)) => if x == c then n.(added := n.added + 1) else n
    case Client(Expunge(l)) => if l in s.server.live && s.server.live[l] == c then n.(removed := n.removed + 1) else n
    case Appended(id) =>
      if id in s.table.rows && RowAt(s, id).hash == Sha(c) then n.(restored := n.restored + 1) else n
    case Deleted(id, _, _) =>
      if id in s.table.rows && RowAt(s, id).at in s.server.live && s.server.live[RowAt(s, id).at] == c
      then n.(purged := n.purged + 1) else n
    case _ => n
  }

  ghost function Total(s: State, run: seq<Event>, c: Content): Tally {
    if run == [] then Tally(0, 0, 0, 0)
    else Counted(After(s, run[..|run| - 1]), run[|run| - 1], c, Total(s, run[..|run| - 1], c))
  }

  lemma CopiesStep(s: State, e: Event, c: Content, n: Tally, start: int)
    requires Inv(s) && Enabled(s, e)
    requires Copies(s.server, c) == start + n.added + n.restored - n.removed - n.purged
    ensures
      var m := Counted(s, e, c, n);
      Copies(Effect(s, e).server, c) == start + m.added + m.restored - m.removed - m.purged
  {
    if e.Client? {
      match e.act {
        case Deliver(f, x) => CopiesPut(s.server, f, x, c);
        case Expunge(l) => CopiesDrop(s.server, l, c);
        case Shift(l, f) => CopiesRelocate(s.server, l, f, c);
        case Renumber(f, v, next, origin, moved) => CopiesRebuilt(s.server, f, v, next, origin, moved, c);
      }
    } else if e.Moved? {
      CopiesRelocate(s.server, s.table.rows[e.id].at, e.folder, c);
    } else if e.Appended? {
      CopiesPut(s.server, Review, s.table.rows[e.id].hash.content, c);
    } else if e.Deleted? {
      CopiesDrop(s.server, s.table.rows[e.id].at, c);
    } else {
      assert Effect(s, e).server == s.server;
    }
  }

  // At every crash point the server holds the initial copies, plus deliveries by others
  // and effective restores, minus removals by others and purges: no move loses a copy.
  lemma {:induction false} CopiesConserved(s: State, run: seq<Event>, c: Content)
    requires Reached(s, run)
    ensures
      var n := Total(s, run, c);
      Copies(After(s, run).server, c) == Copies(s.server, c) + n.added + n.restored - n.removed - n.purged
  {
    if run != [] {
      var front := run[..|run| - 1];
      CopiesConserved(s, front, c);
      RunKeeps(s, front);
      CopiesStep(After(s, front), run[|run| - 1], c, Total(s, front, c), Copies(s.server, c));
    }
  }

  // ----- Archive cleanup -----

  // A deleted archive file is referenced by no row that still needs it.
  lemma CleanupSpares(s: State, file: Path, now: int, i: nat)
    requires Enabled(s, FileRemoved(file, now)) && i in s.table.rows && s.table.rows[i].path == Some(file)
    ensures !Protected(s.table.rows[i].status)
    ensures s.table.rows[i].until.Some? ==> s.table.rows[i].until.value <= now
  {
    var id :| CleanupCandidate(s.table, id, file, now);
    if i != id {
      assert !HeldElsewhere(s.table, id, file, now);
    }
  }

  // A crash between deleting the file and clearing the path leaves a reference that any
  // later cleanup selects again and may clear.
  lemma InterruptedCleanupResumes(s: State, file: Path, now: int, later: int)
    requires Enabled(s, FileRemoved(file, now)) && now <= later
    ensures
      var t := Effect(s, FileRemoved(file, now));
      && Enabled(t, FileRemoved(file, later)) && Enabled(t, PathCleared(file))
      && forall i :: i in t.table.rows ==> Effect(t, PathCleared(file)).table.rows[i].path != Some(file)
  {
    var t := Effect(s, FileRemoved(file, now));
    var id :| CleanupCandidate(s.table, id, file, now);
    forall other | other in t.table.rows && other != id && t.table.rows[other].path == Some(file)
      ensures !Protected(t.table.rows[other].status)
      ensures t.table.rows[other].until.Some? ==> t.table.rows[other].until.value <= later
    {
      CleanupSpares(s, file, now, other);
    }
    assert CleanupCandidate(t.table, id, file, later);
    forall i | i in t.table.rows && t.table.rows[i].path == Some(file)
      ensures !NeedsBackup(t.table.rows[i].status)
    {
      CleanupSpares(s, file, now, i);
    }
  }
}
