// What one quiet pass of the engine does to messages and rows, said in folders and
// statuses: where a sorted message ends, and what a pass leaves alone.
module Passes {
  import opened Wrappers
  import opened Mailbox
  import opened Store
  import opened Journal
  import opened Classifier

  // ----- Where a sorted message ends -----

  // What became of the scan: the message was malformed, the filter could not be asked, or
  // it gave a verdict.
  datatype Scanned = Malformed | Unscannable | Classified(verdict: Verdict)

  ghost predicate EndsAt(s: State, r: Row, c: Content, f: Folder, status: Status) {
    r.hash == Sha(c) && r.status == status && r.at.folder == f && r.at in s.server.live && s.server.live[r.at] == c
  }

  // The message has left its location, and a row names its new one in that folder.
  ghost predicate MovedTo(s: State, l: Loc, c: Content, f: Folder, status: Status) {
    l !in s.server.live && exists i :: i in s.table.rows && EndsAt(s, s.table.rows[i], c, f, status)
  }

  ghost predicate RecordedAt(r: Row, l: Loc, c: Content, status: Status) {
    r.at == l && r.hash == Sha(c) && r.action == Keep && r.status == status
  }

  ghost predicate StaysAs(s: State, l: Loc, c: Content, status: Status) {
    l in s.server.live && exists i :: i in s.table.rows && RecordedAt(s.table.rows[i], l, c, status)
  }

  // The decision table. Spam goes to quarantine unless the user's latest correction of
  // these bytes says otherwise. From the provider's spam folder legitimate mail goes to the
  // Inbox and everything undecided to review; in the Inbox it stays and is recorded. Outside
  // active mode nothing is quarantined or rescued.
  ghost predicate EndedAs(s: State, t: Table, l: Loc, c: Content, scanned: Scanned, limit: nat, active: bool) {
    var acted := active && |c| <= limit;
    var spam := acted && scanned == Classified(SpamVerdict) && !Latest(t, Sha(c), Ham);
    var ham := acted && scanned == Classified(HamVerdict) && !Latest(t, Sha(c), Spam);
    if spam then MovedTo(s, l, c, Quarantine, Quarantined)
    else if l.folder == Inbox then
      StaysAs(s, l, c, if |c| > limit then Kept else if scanned == Unscannable then Errored else if active then Kept else Observed)
    else if ham then MovedTo(s, l, c, Inbox, Rescued)
    else MovedTo(s, l, c, Review, Reviewed)
  }

  // The message has left its location for a new one of that folder, which row `id` names.
  ghost predicate MovedOut(s: Server, t: State, id: nat, at: Loc, f: Folder) {
    t.server == Relocate(s, at, f) && id in t.table.rows && t.table.rows[id].at == FreshLoc(s, f)
  }

  lemma MovedEnds(s: Server, t: State, id: nat, l: Loc, f: Folder)
    requires ServerInv(s) && l in s.live && f != Nowhere && MovedOut(s, t, id, l, f)
    ensures l !in t.server.live && t.table.rows[id].at in t.server.live && t.server.live[t.table.rows[id].at] == s.live[l]
    ensures t.table.rows[id].at !in s.ledger
  {
    PutKeeps(s, f, s.live[l]);
  }

  // Everything that sorting the message at `l` changes: one row, and the server only by
  // moving the message out of its folder.
  ghost predicate SortStep(s: State, t: State, l: Loc, c: Content, id: nat) {
    && UpsertTarget(s.table, l, id)
    && id in t.table.rows && t.table.rows.Keys == s.table.rows.Keys + {id}
    && (forall j :: j in s.table.rows && j != id ==> t.table.rows[j] == s.table.rows[j])
    && var r := t.table.rows[id];
    && r.hash == Sha(c)
    && r.feedback == (if id in s.table.rows then s.table.rows[id].feedback else NoLabel)
    && r.intent == (if id in s.table.rows then s.table.rows[id].intent else NoLabel)
    && if t.server == s.server then l.folder == Inbox && r.at == l && r.status in {Kept, Observed, Errored}
       else r.at.folder in {Quarantine, Review, Inbox} && r.at.folder != l.folder && r.status in {Quarantined, Reviewed, Rescued}
            && MovedOut(s.server, t, id, l, r.at.folder)
  }

  // ----- What one reconciliation does -----

  ghost predicate LiveAs(s: Server, at: Loc, hash: Digest) {
    at in s.live && Sha(s.live[at]) == hash
  }

  // The row is left alone, is marked ambiguous, takes a copy found at the destination, or
  // follows the copy that was moved there.
  ghost predicate Settling(s: State, t: State, id: nat, destination: Folder, final: Status) {
    && id in s.table.rows && id in t.table.rows
    && var r, n := s.table.rows[id], t.table.rows[id];
    && n.hash == r.hash && n.intent == r.intent && n.feedback == r.feedback
    && if t.server == s.server then
         || n == r
         || (n.at in {r.at, Loc(r.at.folder, 0, 0)} && n.status == MoveAmbiguous)
         || (n.status == final && n.at.folder == destination && LiveAs(s.server, n.at, r.hash))
       else
         n.status == final && exists l: Loc :: l.folder == r.at.folder && LiveAs(s.server, l, r.hash) && MovedOut(s.server, t, id, l, destination)
  }

  lemma Unsettled(s: State, id: nat, destination: Folder, final: Status)
    requires id in s.table.rows
    ensures Settling(s, s, id, destination, final)
  {
  }

  // Apart from row `id`, every row is as it was, or was superseded as a copy of these bytes.
  ghost predicate Aside(t: Table, u: Table, id: nat, hash: Digest) {
    && (forall j :: j in u.rows && j != id ==> j in t.rows)
    && forall j :: j in t.rows && j != id ==> j in u.rows && BesideRow(t.rows[j], u.rows[j], hash)
  }

  predicate BesideRow(r: Row, n: Row, hash: Digest) {
    n == r || (n == r.(status := Superseded) && r.hash == hash && r.status !in {Purged, Restored, PendingRestore})
  }

  // ----- What a pass leaves alone -----

  // A row that only a correction of the same bytes still changes.
  predicate Resting(st: Status) { st in {Quarantined, Reviewed, Rescued, Superseded} }

  // The user has put a message with these bytes into a training folder.
  ghost predicate CorrectionFor(s: Server, hash: Digest) {
    exists l: Loc :: Training(l.folder) && LiveAs(s, l, hash)
  }

  ghost predicate GoneStay(s: Server, t: Server) {
    Remembers(s, t) && forall l :: l in s.ledger && l in t.live ==> l in s.live
  }

  ghost predicate NoNewCorrections(s: Server, t: Server) {
    forall l :: l in t.live && Training(l.folder) ==> l in s.live && t.live[l] == s.live[l]
  }

  ghost predicate RestKept(s: State, t: State) {
    forall i :: i in s.table.rows && Resting(s.table.rows[i].status) ==>
      i in t.table.rows && RestedRow(s.server, s.table.rows[i], t.table.rows[i])
  }

  ghost predicate RestedRow(s: Server, r: Row, n: Row) {
    n == r || (n == r.(status := Superseded) && CorrectionFor(s, r.hash))
  }

  ghost predicate RestoresKept(t: Table, u: Table) {
    && (forall i :: i in t.rows && t.rows[i].status == PendingRestore ==> i in u.rows && u.rows[i] == t.rows[i])
    && forall i :: i in u.rows && u.rows[i].status == PendingRestore ==> i in t.rows && t.rows[i].status == PendingRestore
  }

  ghost predicate SameMail(s: Server, t: Server) {
    |t.live| == |s.live| && t.live.Values == s.live.Values && forall f :: BoxOf(t, f).validity == BoxOf(s, f).validity
  }

  ghost predicate IntentsKept(t: Table, u: Table) {
    forall i :: i in t.rows && t.rows[i].hash.Sha? && t.rows[i].intent != NoLabel ==>
      i in u.rows && u.rows[i].hash == t.rows[i].hash && u.rows[i].intent == t.rows[i].intent
  }

  // Nothing was recorded for the message at `l` yet.
  ghost predicate Unrecorded(s: State, l: Loc) {
    l in s.server.live && forall i :: i in s.table.rows ==> s.table.rows[i].at != l
  }

  // The message has left, or it is in the Inbox and recorded there.
  ghost predicate Dealt(s: State, l: Loc) {
    l !in s.server.live || (l.folder == Inbox && exists i :: i in s.table.rows && RecordedRow(s.table.rows[i], l))
  }

  predicate RecordedRow(r: Row, l: Loc) { r.at == l && r.status in {Kept, Observed, Errored, Rescued, Superseded} }

  predicate Scannable(s: Server, l: Loc) {
    l in s.ledger && l.folder in {Inbox, ServerSpam} && 0 < |s.ledger[l]| <= ABSOLUTE_LIMIT
  }

  ghost predicate Handles(s: State, t: State) {
    forall l :: Scannable(s.server, l) ==>
      (Dealt(s, l) ==> Dealt(t, l)) && (Unrecorded(s, l) ==> Unrecorded(t, l) || Dealt(t, l))
  }

  ghost predicate LeftAlone(s: State, t: State) {
    GoneStay(s.server, t.server) && NoNewCorrections(s.server, t.server) && RestKept(s, t) && Handles(s, t)
  }

  // What every pass but that over the restores keeps.
  ghost predicate Passed(s: State, t: State) {
    LeftAlone(s, t) && RestoresKept(s.table, t.table) && SameMail(s.server, t.server)
  }

  lemma NothingPassed(s: State)
    ensures Passed(s, s) && IntentsKept(s.table, s.table)
  {
  }

  lemma StillLeftAlone(s: State, t: State, u: State)
    requires LeftAlone(s, t) && LeftAlone(t, u)
    ensures LeftAlone(s, u)
  {
    hide Dealt, Unrecorded;
    forall i | i in s.table.rows && Resting(s.table.rows[i].status)
      ensures i in u.table.rows && RestedRow(s.server, s.table.rows[i], u.table.rows[i])
    {
      assert RestedRow(s.server, s.table.rows[i], t.table.rows[i]);
    }
    forall l | Scannable(s.server, l)
      ensures (Dealt(s, l) ==> Dealt(u, l)) && (Unrecorded(s, l) ==> Unrecorded(u, l) || Dealt(u, l))
    {
      assert Scannable(t.server, l);
    }
  }

  lemma NothingLeftAlone(s: State)
    ensures LeftAlone(s, s) && IntentsKept(s.table, s.table)
  {
    NothingPassed(s);
  }

  lemma StillPassed(s: State, t: State, u: State)
    requires Passed(s, t) && Passed(t, u)
    ensures Passed(s, u)
  {
    hide LeftAlone;
    StillLeftAlone(s, t, u);
  }

  lemma StillIntents(t: Table, u: Table, v: Table)
    requires IntentsKept(t, u) && IntentsKept(u, v)
    ensures IntentsKept(t, v)
  {
  }

  // The mailbox is the same, or one message moved to a folder that is no training folder.
  ghost predicate OneMove(s: Server, t: Server) {
    t == s || exists l: Loc, f :: l in s.live && !Training(f) && f != Nowhere && t == Relocate(s, l, f)
  }

  lemma OneMoveKeeps(s: Server, t: Server)
    requires ServerInv(s) && OneMove(s, t)
    ensures GoneStay(s, t) && NoNewCorrections(s, t) && SameMail(s, t)
  {
    hide ServerInv, Relocate, GoneStay, NoNewCorrections, SameMail;
    if t != s {
      var l: Loc, f :| l in s.live && !Training(f) && f != Nowhere && t == Relocate(s, l, f);
      MoveStays(s, l, f);
      MoveSameMail(s, l, f);
    } else {
      SameServer(s);
    }
  }

  lemma SameServer(s: Server)
    ensures GoneStay(s, s) && NoNewCorrections(s, s) && SameMail(s, s)
  {
  }

  lemma MoveStays(s: Server, l: Loc, f: Folder)
    requires ServerInv(s) && l in s.live && !Training(f) && f != Nowhere
    ensures GoneStay(s, Relocate(s, l, f)) && NoNewCorrections(s, Relocate(s, l, f))
  {
    PutKeeps(s, f, s.live[l]);
  }

  lemma MoveSameMail(s: Server, l: Loc, f: Folder)
    requires ServerInv(s) && l in s.live && f != Nowhere
    ensures SameMail(s, Relocate(s, l, f))
  {
    var k := FreshLoc(s, f);
    PutKeeps(s, f, s.live[l]);
    FreshDead(s, k);
    MoveServer(s, l, f);
    hide ServerInv, Relocate;
    Rekeyed(s.live, l, k);
  }

  lemma MoveServer(s: Server, l: Loc, f: Folder)
    requires l in s.live
    ensures Relocate(s, l, f).live == (s.live - {l})[FreshLoc(s, f) := s.live[l]]
    ensures forall g :: BoxOf(Relocate(s, l, f), g).validity == BoxOf(s, g).validity
  {
  }

  lemma Rekeyed(m: map<Loc, Content>, l: Loc, k: Loc)
    requires l in m && k !in m
    ensures
      var n := (m - {l})[k := m[l]];
      |n| == |m| && n.Values == m.Values
  {
    var n := (m - {l})[k := m[l]];
    assert n.Keys == m.Keys - {l} + {k};
    forall c | c in m.Values ensures c in n.Values {
      var j :| j in m && m[j] == c;
      assert n[if j == l then k else j] == c;
    }
    forall c | c in n.Values ensures c in m.Values {
      var j :| j in n && n[j] == c;
      assert m[if j == k then l else j] == c;
    }
  }

  lemma FreshDead(s: Server, k: Loc)
    requires ServerInv(s) && k !in s.ledger
    ensures k !in s.live
  {
  }

  // One row changes, and others only as copies of corrected bytes.
  lemma OneRowPasses(s: State, t: State, id: nat, hash: Digest)
    requires ServerInv(s.server) && OneMove(s.server, t.server)
    requires Aside(s.table, t.table, id, hash) && id in t.table.rows && t.table.rows[id].status != PendingRestore
    requires CorrectionFor(s.server, hash) || forall j :: j in s.table.rows && j != id ==> t.table.rows[j] == s.table.rows[j]
    requires id in s.table.rows ==> !Resting(s.table.rows[id].status) && s.table.rows[id].status != PendingRestore
    requires
      var l := t.table.rows[id].at;
      Scannable(s.server, l) && l in t.server.live ==> Dealt(t, l) || (id in s.table.rows && s.table.rows[id].at == l)
    requires id in s.table.rows && RecordedRow(s.table.rows[id], s.table.rows[id].at) && Scannable(s.server, s.table.rows[id].at) ==>
      s.table.rows[id].at.folder != Inbox || Dealt(t, s.table.rows[id].at)
    ensures Passed(s, t)
  {
    hide ServerInv, OneMove, NoNewCorrections, SameMail, Remembers, CorrectionFor;
    OneMoveKeeps(s.server, t.server);
    OneRowHandles(s, t, id, hash);
    forall i | i in s.table.rows && Resting(s.table.rows[i].status)
      ensures i in t.table.rows && RestedRow(s.server, s.table.rows[i], t.table.rows[i])
    {
      assert i != id;
    }
  }

  lemma OneRowHandles(s: State, t: State, id: nat, hash: Digest)
    requires GoneStay(s.server, t.server) && Aside(s.table, t.table, id, hash) && id in t.table.rows
    requires
      var l := t.table.rows[id].at;
      Scannable(s.server, l) && l in t.server.live ==> Dealt(t, l) || (id in s.table.rows && s.table.rows[id].at == l)
    requires id in s.table.rows && RecordedRow(s.table.rows[id], s.table.rows[id].at) && Scannable(s.server, s.table.rows[id].at) ==>
      s.table.rows[id].at.folder != Inbox || Dealt(t, s.table.rows[id].at)
    ensures Handles(s, t)
  {
    forall l | Scannable(s.server, l)
      ensures (Dealt(s, l) ==> Dealt(t, l)) && (Unrecorded(s, l) ==> Unrecorded(t, l) || Dealt(t, l))
    {
      if l in t.server.live && Dealt(s, l) {
        var i :| i in s.table.rows && RecordedRow(s.table.rows[i], l);
        if i != id { assert RecordedRow(t.table.rows[i], l); }
      }
    }
  }

  lemma OneRowIntents(t: Table, u: Table, id: nat, hash: Digest)
    requires Aside(t, u, id, hash) && id in u.rows
    requires id in t.rows && t.rows[id].hash.Sha? && t.rows[id].intent != NoLabel ==>
      u.rows[id].hash == t.rows[id].hash && u.rows[id].intent == t.rows[id].intent
    ensures IntentsKept(t, u)
  {
  }

  // ----- One reconciled row -----

  ghost predicate NoRowsIn(t: Table, f: Folder) {
    forall j :: j in t.rows ==> t.rows[j].at.folder != f
  }

  // The folder shows the same messages as before.
  ghost predicate Undisturbed(s: Server, t: Server, f: Folder) {
    forall l: Loc :: l.folder == f ==> (l in t.live <==> l in s.live) && (l in s.live ==> t.live[l] == s.live[l])
  }

  lemma StillUndisturbed(s: Server, t: Server, u: Server, f: Folder)
    requires Undisturbed(s, t, f) && Undisturbed(t, u, f)
    ensures Undisturbed(s, u, f)
  {
  }

  // A training folder without rows keeps its messages, and stays without rows.
  ghost predicate SparesCorrections(s: State, t: State) {
    forall f :: Training(f) && NoRowsIn(s.table, f) ==> Undisturbed(s.server, t.server, f) && NoRowsIn(t.table, f)
  }

  lemma NothingSpared(s: State)
    ensures SparesCorrections(s, s)
  {
  }

  lemma StillSpares(s: State, t: State, u: State)
    requires SparesCorrections(s, t) && SparesCorrections(t, u)
    ensures SparesCorrections(s, u)
  {
    hide NoRowsIn, Undisturbed;
    forall f | Training(f) && NoRowsIn(s.table, f) ensures Undisturbed(s.server, u.server, f) && NoRowsIn(u.table, f) {
      StillUndisturbed(s.server, t.server, u.server, f);
    }
  }

  // Nothing changes but row `id`.
  ghost predicate OneRowOnly(t: Table, u: Table, id: nat) {
    id in t.rows && u.rows.Keys == t.rows.Keys && forall j :: j in t.rows && j != id ==> u.rows[j] == t.rows[j]
  }

  lemma MoveUndisturbs(s: Server, l: Loc, f: Folder, g: Folder)
    requires g != f && g != l.folder
    ensures Undisturbed(s, Relocate(s, l, f), g)
  {
    if l in s.live {
      var k := FreshLoc(s, f);
      MoveServer(s, l, f);
      assert k.folder == f;
      hide Relocate, FreshLoc, BoxOf;
    }
  }

  lemma SettlingPasses(s: State, t: State, id: nat, destination: Folder, final: Status)
    requires ServerInv(s.server) && OneRowOnly(s.table, t.table, id) && Settling(s, t, id, destination, final)
    requires !Training(destination) && destination != Nowhere && (destination == Inbox ==> final == Rescued) && destination != ServerSpam
    requires s.table.rows[id].status in {PendingMove, MoveAmbiguous} && final != PendingRestore
    ensures Passed(s, t) && IntentsKept(s.table, t.table)
    ensures SparesCorrections(s, t)
  {
    hide ServerInv, Relocate, Passed, IntentsKept, Remembers, SparesCorrections, Scannable, Dealt;
    var r, n := s.table.rows[id], t.table.rows[id];
    if t.server != s.server {
      var l: Loc :| l.folder == r.at.folder && LiveAs(s.server, l, r.hash) && MovedOut(s.server, t, id, l, destination);
      MovedEnds(s.server, t, id, l, destination);
    }
    SettledScannable(s, t, id, destination, final);
    SettlingSpares(s, t, id, destination, final);
    OneRowPasses(s, t, id, r.hash);
    OneRowIntents(s.table, t.table, id, r.hash);
  }

  lemma SettledScannable(s: State, t: State, id: nat, destination: Folder, final: Status)
    requires ServerInv(s.server) && Settling(s, t, id, destination, final)
    requires destination != ServerSpam && destination != Nowhere && (destination == Inbox ==> final == Rescued)
    ensures
      var l := t.table.rows[id].at;
      Scannable(s.server, l) ==> Dealt(t, l) || l == s.table.rows[id].at
  {
    var n := t.table.rows[id];
    if t.server != s.server {
      var l: Loc :| l.folder == s.table.rows[id].at.folder && LiveAs(s.server, l, s.table.rows[id].hash) && MovedOut(s.server, t, id, l, destination);
      MovedEnds(s.server, t, id, l, destination);
    }
    if n.at.folder == Inbox && n.status == Rescued { assert RecordedRow(n, n.at); }
  }

  lemma SettlingSpares(s: State, t: State, id: nat, destination: Folder, final: Status)
    requires ServerInv(s.server) && OneRowOnly(s.table, t.table, id) && Settling(s, t, id, destination, final)
    requires !Training(destination)
    ensures SparesCorrections(s, t)
  {
    hide ServerInv, Relocate, Undisturbed;
    forall f | Training(f) && NoRowsIn(s.table, f) ensures Undisturbed(s.server, t.server, f) && NoRowsIn(t.table, f) {
      if t.server != s.server {
        var l: Loc :| l.folder == s.table.rows[id].at.folder && LiveAs(s.server, l, s.table.rows[id].hash) && MovedOut(s.server, t, id, l, destination);
        MoveUndisturbs(s.server, l, destination, f);
      } else {
        SameUndisturbed(s.server, f);
      }
    }
  }

  lemma SameUndisturbed(s: Server, f: Folder)
    ensures Undisturbed(s, s, f)
  {
  }

  // ----- One restored row -----

  // The row is untouched or restored at a location in review, and the server is the same or
  // has one message more there.
  ghost predicate RestoreStep(s: State, t: State, id: nat) {
    && OneRowOnly(s.table, t.table, id)
    && (t.table.rows[id] == s.table.rows[id]
        || (t.table.rows[id] == s.table.rows[id].(at := t.table.rows[id].at, status := Restored) && t.table.rows[id].at.folder == Review))
    && (t.server == s.server || exists c :: t.server == Put(s.server, Review, c))
  }

  lemma RestorePasses(s: State, t: State, id: nat)
    requires ServerInv(s.server) && RestoreStep(s, t, id) && s.table.rows[id].status == PendingRestore
    ensures LeftAlone(s, t) && IntentsKept(s.table, t.table)
  {
    if t.server != s.server {
      var c :| t.server == Put(s.server, Review, c);
      PutKeeps(s.server, Review, c);
    }
    forall l | Scannable(s.server, l)
      ensures (Dealt(s, l) ==> Dealt(t, l)) && (Unrecorded(s, l) ==> Unrecorded(t, l) || Dealt(t, l))
    {
      if l in t.server.live && Dealt(s, l) {
        var i :| i in s.table.rows && RecordedRow(s.table.rows[i], l);
        assert RecordedRow(t.table.rows[i], l);
      }
    }
  }


  // ----- One corrected or oversized message -----

  // No row at the location says that nothing is left to do.
  ghost predicate OpenCorrection(t: Table, l: Loc) {
    forall i :: i in t.rows && t.rows[i].at == l ==>
      t.rows[i].status in {Errored, Restored, PendingMove, PendingLearn, Observed, Blocked}
  }

  // A pass over one training folder spares the other one.
  ghost predicate SparesFolder(s: State, t: State, f: Folder) {
    NoRowsIn(s.table, f) ==> Undisturbed(s.server, t.server, f) && NoRowsIn(t.table, f)
  }

  lemma StillSparesFolder(s: State, t: State, u: State, f: Folder)
    requires SparesFolder(s, t, f) && SparesFolder(t, u, f)
    ensures SparesFolder(s, u, f)
  {
  }

  ghost predicate CorrectionStep(s: State, t: State, f: Folder) {
    Passed(s, t) && forall g :: Training(g) && g != f ==> SparesFolder(s, t, g)
  }

  lemma NothingCorrected(s: State, f: Folder)
    ensures CorrectionStep(s, s, f) && IntentsKept(s.table, s.table)
  {
    NothingPassed(s);
  }

  lemma StillCorrecting(s: State, t: State, u: State, f: Folder)
    requires CorrectionStep(s, t, f) && CorrectionStep(t, u, f)
    ensures CorrectionStep(s, u, f)
  {
    hide Passed, SparesFolder;
    StillPassed(s, t, u);
    forall g | Training(g) && g != f ensures SparesFolder(s, u, g) { StillSparesFolder(s, t, u, g); }
  }

  lemma CorrectedPasses(s: State, t: State, id: nat, l: Loc, f: Folder)
    requires Inv(s) && l in s.server.live && Training(l.folder) && OpenCorrection(s.table, l)
    requires !Training(f) && f != Nowhere && MovedOut(s.server, t, id, l, f)
    requires UpsertTarget(s.table, l, id) && Aside(s.table, t.table, id, Sha(s.server.live[l]))
    requires t.table.rows[id].hash == Sha(s.server.live[l]) && t.table.rows[id].status in {Quarantined, Rescued}
    requires t.table.rows[id].intent == if l.folder == TrainHam then Ham else Spam
    ensures CorrectionStep(s, t, l.folder) && IntentsKept(s.table, t.table)
  {
    hide ServerInv, Relocate, Passed, IntentsKept, Remembers, TableInv, LabelledRow, TruthfulRow;
    var hash := Sha(s.server.live[l]);
    MovedEnds(s.server, t, id, l, f);
    assert LiveAs(s.server, l, hash);
    assert OneMove(s.server, t.server);
    OneRowPasses(s, t, id, hash);
    CorrectedIntent(s, id, l);
    OneRowIntents(s.table, t.table, id, hash);
    CorrectedSpares(s, t, id, l, f);
  }

  // A label already on the row of a message in a training folder is that folder's.
  lemma CorrectedIntent(s: State, id: nat, l: Loc)
    requires Inv(s) && l in s.server.live && Training(l.folder)
    ensures id in s.table.rows && s.table.rows[id].at == l && s.table.rows[id].hash.Sha? ==>
      && s.table.rows[id].hash == Sha(s.server.live[l])
      && s.table.rows[id].intent in {NoLabel, if l.folder == TrainHam then Ham else Spam}
  {
    if id in s.table.rows { assert TruthfulRow(s, s.table.rows[id]) && LabelledRow(s.table.rows[id]); }
  }

  lemma CorrectedSpares(s: State, t: State, id: nat, l: Loc, f: Folder)
    requires ServerInv(s.server) && !Training(f) && MovedOut(s.server, t, id, l, f)
    requires Aside(s.table, t.table, id, t.table.rows[id].hash)
    ensures forall g :: Training(g) && g != l.folder ==> SparesFolder(s, t, g)
  {
    hide ServerInv, Relocate, Undisturbed;
    forall g | Training(g) && g != l.folder ensures SparesFolder(s, t, g) { MoveUndisturbs(s.server, l, f, g); }
  }

  // A message too large to be read is recorded under a hash of its location.
  ghost predicate RecordedBlocked(s: State, t: State, id: nat, l: Loc) {
    && t.server == s.server && UpsertTarget(s.table, l, id) && id in t.table.rows
    && t.table.rows.Keys == s.table.rows.Keys + {id}
    && (forall j :: j in s.table.rows && j != id ==> t.table.rows[j] == s.table.rows[j])
    && t.table.rows[id].at == l && t.table.rows[id].status == Blocked && t.table.rows[id].hash == ShaOfLocation(l)
  }

  lemma BlockedCorrectionPasses(s: State, t: State, id: nat, l: Loc)
    requires Inv(s) && l in s.server.live && Training(l.folder) && OpenCorrection(s.table, l) && RecordedBlocked(s, t, id, l)
    ensures CorrectionStep(s, t, l.folder)
  {
    hide Passed, IntentsKept, Remembers, TableInv, LabelledRow, TruthfulRow;
    assert Aside(s.table, t.table, id, ShaOfLocation(l));
    OneRowPasses(s, t, id, ShaOfLocation(l));
    forall g | Training(g) && g != l.folder ensures SparesFolder(s, t, g) { }
  }

  // ----- One sorted message -----

  // Nothing recorded at the location says that the message is done: it failed before, was
  // only observed outside active mode, or was kept so long ago that it is looked at again.
  ghost predicate Waiting(t: Table, l: Loc, active: bool, before: int) {
    forall i :: i in t.rows && t.rows[i].at == l ==> OpenRow(t.rows[i], active, before)
  }

  predicate OpenRow(r: Row, active: bool, before: int) {
    || r.status in {Errored, Restored, PendingLearn}
    || (active && r.status == Observed)
    || (r.action == Keep && r.status in {Kept, Observed} && r.feedback == NoLabel && r.intent == NoLabel && r.scanned < before)
  }

  ghost predicate SameLatest(t: Table, u: Table) {
    forall c, tag :: Latest(t, Sha(c), tag) <==> Latest(u, Sha(c), tag)
  }

  // Whatever is recorded at other locations stays as it is, new rows are at locations not
  // handed out before, and no message but that at `l` moves.
  ghost predicate Confined(s: State, t: State, l: Loc) {
    && (forall i :: i in s.table.rows && s.table.rows[i].at != l ==> i in t.table.rows && t.table.rows[i] == s.table.rows[i])
    && (forall i :: i in t.table.rows ==>
         || (i in s.table.rows && t.table.rows[i] == s.table.rows[i])
         || t.table.rows[i].at == l || t.table.rows[i].at !in s.server.ledger)
    && (forall k :: k in s.server.live && k != l ==> k in t.server.live && t.server.live[k] == s.server.live[k])
  }

  // One message of the Inbox or the spam folder has been dealt with.
  ghost predicate SortedOne(s: State, t: State, l: Loc, scanned: Scanned, limit: nat, active: bool) {
    && l in s.server.live
    && Passed(s, t) && IntentsKept(s.table, t.table) && Confined(s, t, l) && SameLatest(s.table, t.table)
    && (0 < |s.server.live[l]| <= ABSOLUTE_LIMIT ==> EndedAs(t, s.table, l, s.server.live[l], scanned, limit, active))
  }

  lemma NothingSorted(s: State, t: State, l: Loc, scanned: Scanned, limit: nat, active: bool)
    requires t.server == s.server && t.table == s.table && l in s.server.live && |s.server.live[l]| == 0
    ensures SortedOne(s, t, l, scanned, limit, active)
  {
    NothingPassed(s);
  }

  // The row at a scannable location, if there is one, is about the bytes there.
  lemma RowThere(s: State, id: nat, l: Loc)
    requires Inv(s) && l in s.server.live && Scannable(s.server, l) && id in s.table.rows && s.table.rows[id].at == l
    ensures s.table.rows[id].hash == Sha(s.server.live[l])
  {
    assert TruthfulRow(s, s.table.rows[id]);
  }

  lemma SortStepPasses(s: State, t: State, l: Loc, id: nat, active: bool, before: int)
    requires Inv(s) && l in s.server.live && Scannable(s.server, l) && Waiting(s.table, l, active, before)
    requires SortStep(s, t, l, s.server.live[l], id)
    ensures Passed(s, t) && IntentsKept(s.table, t.table)
  {
    hide Passed, IntentsKept, Remembers, Relocate, TableInv, LabelledRow, TruthfulRow, ServerInv;
    var hash := Sha(s.server.live[l]);
    if id in s.table.rows { RowThere(s, id, l); }
    if t.server != s.server {
      MovedEnds(s.server, t, id, l, t.table.rows[id].at.folder);
      assert OneMove(s.server, t.server);
    } else {
      assert RecordedRow(t.table.rows[id], l);
    }
    assert Aside(s.table, t.table, id, hash);
    OneRowPasses(s, t, id, hash);
    OneRowIntents(s.table, t.table, id, hash);
  }

  lemma SortStepConfined(s: State, t: State, l: Loc, id: nat)
    requires Inv(s) && l in s.server.live && SortStep(s, t, l, s.server.live[l], id)
    ensures Confined(s, t, l)
  {
    if t.server != s.server { MovedEnds(s.server, t, id, l, t.table.rows[id].at.folder); }
  }

  // A row whose bytes and labels stay, or a new one without a label, changes no correction.
  lemma SameLabels(t: Table, u: Table, id: nat)
    requires TableInv(t) && u.rows.Keys == t.rows.Keys + {id} && forall j :: j in t.rows && j != id ==> u.rows[j] == t.rows[j]
    requires id !in t.rows ==> id == t.next
    requires
      var r := u.rows[id];
      || (id in t.rows && r.hash == t.rows[id].hash && r.feedback == t.rows[id].feedback && r.intent == t.rows[id].intent)
      || (r.feedback == NoLabel && r.intent == NoLabel && (id in t.rows ==> t.rows[id].feedback == NoLabel && t.rows[id].intent == NoLabel))
      || (!r.hash.Sha? && (id in t.rows ==> !t.rows[id].hash.Sha? || (t.rows[id].feedback == NoLabel && t.rows[id].intent == NoLabel)))
    ensures SameLatest(t, u)
  {
    forall c, tag ensures Latest(t, Sha(c), tag) <==> Latest(u, Sha(c), tag) {
      assert LabelsStay(t, u, id, Sha(c));
      if Latest(t, Sha(c), tag) { LatestCarries(t, u, id, Sha(c), tag); }
      if Latest(u, Sha(c), tag) { LatestCarriesBack(t, u, id, Sha(c), tag); }
    }
  }

  predicate LabelsStay(t: Table, u: Table, id: nat, hash: Digest)
    requires id in u.rows
  {
    var r := u.rows[id];
    if id in t.rows && t.rows[id].hash == hash && (t.rows[id].feedback != NoLabel || t.rows[id].intent != NoLabel)
    then r.hash == hash && r.feedback == t.rows[id].feedback && r.intent == t.rows[id].intent
    else r.hash != hash || (r.feedback == NoLabel && r.intent == NoLabel)
  }

  lemma LatestCarries(t: Table, u: Table, id: nat, hash: Digest, tag: Label)
    requires u.rows.Keys == t.rows.Keys + {id} && forall j :: j in t.rows && j != id ==> u.rows[j] == t.rows[j]
    requires LabelsStay(t, u, id, hash) && Latest(t, hash, tag)
    ensures Latest(u, hash, tag)
  {
    if tag != NoLabel {
      var i :| i in t.rows && t.rows[i].hash == hash && Effective(t.rows[i]) == tag
               && forall j :: j in t.rows && j > i && t.rows[j].hash == hash ==> Effective(t.rows[j]) == NoLabel;
      assert u.rows[i].hash == hash && Effective(u.rows[i]) == tag;
    }
  }

  lemma LatestCarriesBack(t: Table, u: Table, id: nat, hash: Digest, tag: Label)
    requires u.rows.Keys == t.rows.Keys + {id} && forall j :: j in t.rows && j != id ==> u.rows[j] == t.rows[j]
    requires LabelsStay(t, u, id, hash) && Latest(u, hash, tag)
    ensures Latest(t, hash, tag)
  {
    if tag != NoLabel {
      var i :| i in u.rows && u.rows[i].hash == hash && Effective(u.rows[i]) == tag
               && forall j :: j in u.rows && j > i && u.rows[j].hash == hash ==> Effective(u.rows[j]) == NoLabel;
      assert t.rows[i].hash == hash && Effective(t.rows[i]) == tag;
    }
  }

  lemma SortStepDone(s: State, t: State, l: Loc, id: nat, scanned: Scanned, limit: nat, active: bool, before: int)
    requires Inv(s) && l in s.server.live && Scannable(s.server, l) && Waiting(s.table, l, active, before)
    requires SortStep(s, t, l, s.server.live[l], id) && EndedAs(t, s.table, l, s.server.live[l], scanned, limit, active)
    ensures SortedOne(s, t, l, scanned, limit, active)
  {
    hide EndedAs;
    SortStepPasses(s, t, l, id, active, before);
    SortStepConfined(s, t, l, id);
    if id in s.table.rows { RowThere(s, id, l); }
    SameLabels(s.table, t.table, id);
  }

  lemma BlockedDone(s: State, t: State, l: Loc, id: nat, scanned: Scanned, limit: nat, active: bool, before: int)
    requires Inv(s) && l in s.server.live && l.folder in {Inbox, ServerSpam} && |s.server.live[l]| > ABSOLUTE_LIMIT
    requires Waiting(s.table, l, active, before) && RecordedBlocked(s, t, id, l)
    ensures SortedOne(s, t, l, scanned, limit, active)
  {
    hide Passed, IntentsKept, Remembers, Relocate, EndedAs, ServerInv, TableInv, SameLatest, Scannable, Confined, Inv;
    TooLargeForLabels(s, id, l);
    BlockedConfined(s, t, l, id);
    assert Aside(s.table, t.table, id, ShaOfLocation(l));
    assert OneMove(s.server, t.server);
    OneRowPasses(s, t, id, ShaOfLocation(l));
    OneRowIntents(s.table, t.table, id, ShaOfLocation(l));
    SameLabels(s.table, t.table, id);
    hide Waiting, Aside;
    LargeUnscannable(s, l);
  }

  lemma LargeUnscannable(s: State, l: Loc)
    requires Inv(s) && l in s.server.live && |s.server.live[l]| > ABSOLUTE_LIMIT
    ensures !Scannable(s.server, l)
  {
  }

  lemma BlockedConfined(s: State, t: State, l: Loc, id: nat)
    requires RecordedBlocked(s, t, id, l)
    ensures Confined(s, t, l)
  {
  }

  // No correction was ever recorded for bytes above the absolute limit.
  lemma TooLargeForLabels(s: State, id: nat, l: Loc)
    requires Inv(s) && l in s.server.live && l.folder in {Inbox, ServerSpam} && |s.server.live[l]| > ABSOLUTE_LIMIT
    ensures ServerInv(s.server) && TableInv(s.table) && !Scannable(s.server, l)
    ensures id in s.table.rows && s.table.rows[id].at == l && s.table.rows[id].hash.Sha? ==>
      s.table.rows[id].feedback == NoLabel && s.table.rows[id].intent == NoLabel
  {
    if id in s.table.rows { assert TruthfulRow(s, s.table.rows[id]) && LabelledRow(s.table.rows[id]); }
  }

  // ----- A whole folder, message by message -----

  // The rows at a location are what they were.
  ghost predicate SameRowsAt(t: Table, u: Table, l: Loc) {
    forall i :: (i in t.rows && t.rows[i].at == l) || (i in u.rows && u.rows[i].at == l) ==> i in t.rows && i in u.rows && u.rows[i] == t.rows[i]
  }

  ghost predicate ToCome(s: State, t: State, l: Loc) {
    l in s.server.live && l in t.server.live && t.server.live[l] == s.server.live[l] && SameRowsAt(s.table, t.table, l)
  }

  lemma StillToCome(s: State, u: State, t: State, l: Loc, k: Loc)
    requires ToCome(s, u, l) && Confined(u, t, k) && k != l && l in u.server.ledger
    ensures ToCome(s, t, l)
  {
  }

  lemma StillWaiting(s: State, t: State, l: Loc, active: bool, before: int)
    requires ToCome(s, t, l)
    ensures Waiting(t.table, l, active, before) <==> Waiting(s.table, l, active, before)
  {
  }

  // A message that ended somewhere stays there while another one of the folder is sorted.
  lemma StillEnded(u: State, t: State, t0: Table, l: Loc, k: Loc, c: Content, scanned: Scanned, limit: nat, active: bool)
    requires EndedAs(u, t0, l, c, scanned, limit, active) && l in u.server.ledger && l.folder in {Inbox, ServerSpam}
    requires k != l && k.folder == l.folder && Confined(u, t, k) && GoneStay(u.server, t.server)
    ensures EndedAs(t, t0, l, c, scanned, limit, active)
  {
    hide Latest;
    forall f, status | f != l.folder && MovedTo(u, l, c, f, status) ensures MovedTo(t, l, c, f, status) {
      var i :| i in u.table.rows && EndsAt(u, u.table.rows[i], c, f, status);
      assert EndsAt(t, t.table.rows[i], c, f, status);
    }
    forall status | StaysAs(u, l, c, status) ensures StaysAs(t, l, c, status) {
      var i :| i in u.table.rows && RecordedAt(u.table.rows[i], l, c, status);
      assert RecordedAt(t.table.rows[i], l, c, status);
    }
  }

  lemma SameEnding(s: State, t: Table, u: Table, l: Loc, c: Content, scanned: Scanned, limit: nat, active: bool)
    requires SameLatest(t, u) && EndedAs(s, u, l, c, scanned, limit, active)
    ensures EndedAs(s, t, l, c, scanned, limit, active)
  {
    hide Latest;
  }

  // How the pass treats its messages: how they scan, and whether they are due.
  datatype Treatment = Treatment(scan: Loc -> Scanned, limit: nat, active: bool, before: int)

  ghost predicate Ended(s: State, t: State, l: Loc, how: Treatment)
    requires l in s.server.live
  {
    Waiting(s.table, l, how.active, how.before) && Scannable(s.server, l) ==>
      EndedAs(t, s.table, l, s.server.live[l], how.scan(l), how.limit, how.active)
  }

  ghost predicate Listed(s: Server, f: Folder, validity: nat, uids: seq<nat>) {
    && (forall j :: 0 <= j < |uids| ==> Loc(f, validity, uids[j]) in s.live)
    && forall j, k :: 0 <= j < k < |uids| ==> uids[j] < uids[k]
  }

  // After the first i listed messages of the folder.
  ghost predicate Sorting(s: State, t: State, f: Folder, validity: nat, uids: seq<nat>, i: nat, how: Treatment) {
    && i <= |uids| && Listed(s.server, f, validity, uids)
    && Passed(s, t) && IntentsKept(s.table, t.table) && SameLatest(s.table, t.table) && BoxOf(t.server, f).validity == validity
    && (forall j :: i <= j < |uids| ==> ToCome(s, t, Loc(f, validity, uids[j])))
    && forall j :: 0 <= j < i ==> Ended(s, t, Loc(f, validity, uids[j]), how)
  }

  lemma SortingStarts(s: State, f: Folder, validity: nat, uids: seq<nat>, how: Treatment)
    requires Listed(s.server, f, validity, uids) && BoxOf(s.server, f).validity == validity
    ensures Sorting(s, s, f, validity, uids, 0, how)
  {
    NothingPassed(s);
  }

  // The next message is not due.
  lemma SortingSkips(s: State, t: State, f: Folder, validity: nat, uids: seq<nat>, i: nat, how: Treatment)
    requires Sorting(s, t, f, validity, uids, i, how) && i < |uids|
    requires !Waiting(t.table, Loc(f, validity, uids[i]), how.active, how.before)
    ensures Sorting(s, t, f, validity, uids, i + 1, how)
  {
    hide Passed, IntentsKept, SameLatest, EndedAs;
    StillWaiting(s, t, Loc(f, validity, uids[i]), how.active, how.before);
  }

  lemma SortingNext(s: State, u: State, t: State, f: Folder, validity: nat, uids: seq<nat>, i: nat, how: Treatment)
    requires ServerInv(s.server) && f in {Inbox, ServerSpam} && Sorting(s, u, f, validity, uids, i, how) && i < |uids|
    requires
      var l := Loc(f, validity, uids[i]);
      SortedOne(u, t, l, how.scan(l), how.limit, how.active)
    ensures Sorting(s, t, f, validity, uids, i + 1, how)
  {
    var l := Loc(f, validity, uids[i]);
    NextPasses(s, u, t, l, how);
    forall j | i < j < |uids| ensures ToCome(s, t, Loc(f, validity, uids[j])) {
      Ledgered(s, u, Loc(f, validity, uids[j]));
      StillToCome(s, u, t, Loc(f, validity, uids[j]), l);
    }
    forall j | 0 <= j < i + 1 ensures Ended(s, t, Loc(f, validity, uids[j]), how) {
      var k := Loc(f, validity, uids[j]);
      Ledgered(s, u, k);
      if j == i {
        JustEnded(s, u, t, l, how);
      } else if Waiting(s.table, k, how.active, how.before) && Scannable(s.server, k) {
        StillEnded(u, t, s.table, k, l, s.server.live[k], how.scan(k), how.limit, how.active);
      }
    }
  }

  lemma NextPasses(s: State, u: State, t: State, l: Loc, how: Treatment)
    requires Passed(s, u) && IntentsKept(s.table, u.table) && SameLatest(s.table, u.table)
    requires SortedOne(u, t, l, how.scan(l), how.limit, how.active)
    ensures Passed(s, t) && IntentsKept(s.table, t.table) && SameLatest(s.table, t.table)
    ensures GoneStay(u.server, t.server) && forall f :: BoxOf(t.server, f).validity == BoxOf(u.server, f).validity
  {
    hide Latest;
    StillPassed(s, u, t);
    StillIntents(s.table, u.table, t.table);
  }

  lemma Ledgered(s: State, u: State, l: Loc)
    requires ServerInv(s.server) && Passed(s, u) && l in s.server.live
    ensures l in u.server.ledger && l in s.server.ledger && s.server.ledger[l] == s.server.live[l]
  {
  }

  lemma JustEnded(s: State, u: State, t: State, l: Loc, how: Treatment)
    requires ServerInv(s.server) && ToCome(s, u, l) && SameLatest(s.table, u.table)
    requires SortedOne(u, t, l, how.scan(l), how.limit, how.active)
    ensures Ended(s, t, l, how)
  {
    hide Latest, EndedAs;
    if Waiting(s.table, l, how.active, how.before) && Scannable(s.server, l) {
      SameEnding(t, s.table, u.table, l, s.server.live[l], how.scan(l), how.limit, how.active);
    }
  }

  // ----- Which messages have their turn -----

  // The due messages of the folder below a UID.
  ghost function Ahead(s: State, f: Folder, recent: Loc -> bool, how: Treatment, bound: nat): set<Loc> {
    set k | k in s.server.live && k.folder == f && recent(k) && Waiting(s.table, k, how.active, how.before) && k.uid < bound
  }

  ghost predicate ListsRecent(s: Server, f: Folder, recent: Loc -> bool, validity: nat, uids: seq<nat>) {
    && (forall k :: k in s.live && k.folder == f && recent(k) ==> k.validity == validity && k.uid in uids)
    && forall j :: 0 <= j < |uids| ==> recent(Loc(f, validity, uids[j]))
  }

  function Bound(uids: seq<nat>, i: nat): nat
    requires i <= |uids|
  {
    if i == 0 then 0 else uids[i - 1] + 1
  }

  lemma NoneAhead(s: State, f: Folder, recent: Loc -> bool, how: Treatment, uids: seq<nat>)
    ensures Ahead(s, f, recent, how, Bound(uids, 0)) == {}
  {
  }

  lemma NextAhead(s: State, f: Folder, recent: Loc -> bool, how: Treatment, validity: nat, uids: seq<nat>, i: nat)
    requires Listed(s.server, f, validity, uids) && ListsRecent(s.server, f, recent, validity, uids) && i < |uids|
    ensures
      var l := Loc(f, validity, uids[i]);
      && Ahead(s, f, recent, how, uids[i]) == Ahead(s, f, recent, how, Bound(uids, i))
      && |Ahead(s, f, recent, how, Bound(uids, i + 1))|
           == |Ahead(s, f, recent, how, Bound(uids, i))| + if Waiting(s.table, l, how.active, how.before) then 1 else 0
  {
    hide Waiting, Listed, ListsRecent, Ahead;
    OnlyNext(s.server, f, recent, validity, uids, i);
    AheadGap(s, f, recent, how, Bound(uids, i), uids[i], Loc(f, validity, uids[i]));
    AheadStep(s, f, recent, how, uids[i], Loc(f, validity, uids[i]));
  }

  lemma AheadGap(s: State, f: Folder, recent: Loc -> bool, how: Treatment, low: nat, high: nat, l: Loc)
    requires low <= high == l.uid
    requires forall k :: k in s.server.live && k.folder == f && recent(k) && low <= k.uid <= high ==> k == l
    ensures Ahead(s, f, recent, how, high) == Ahead(s, f, recent, how, low)
  {
    hide Waiting;
  }

  lemma AheadStep(s: State, f: Folder, recent: Loc -> bool, how: Treatment, low: nat, l: Loc)
    requires l in s.server.live && l.folder == f && recent(l) && l.uid == low
    requires forall k :: k in s.server.live && k.folder == f && recent(k) && low <= k.uid <= low ==> k == l
    ensures
      |Ahead(s, f, recent, how, low + 1)| == |Ahead(s, f, recent, how, low)| + if Waiting(s.table, l, how.active, how.before) then 1 else 0
  {
    hide Waiting;
    var a, b := Ahead(s, f, recent, how, low), Ahead(s, f, recent, how, low + 1);
    assert l !in a;
    if Waiting(s.table, l, how.active, how.before) {
      assert b == a + {l};
    } else {
      assert b == a;
    }
  }

  // Between one listed message and the next there is no other that the search selects.
  lemma OnlyNext(s: Server, f: Folder, recent: Loc -> bool, validity: nat, uids: seq<nat>, i: nat)
    requires Listed(s, f, validity, uids) && ListsRecent(s, f, recent, validity, uids) && i < |uids|
    ensures forall k :: k in s.live && k.folder == f && recent(k) && Bound(uids, i) <= k.uid <= uids[i] ==> k == Loc(f, validity, uids[i])
    ensures Bound(uids, i) <= uids[i] && Loc(f, validity, uids[i]) in s.live && recent(Loc(f, validity, uids[i]))
  {
    forall k | k in s.live && k.folder == f && recent(k) && Bound(uids, i) <= k.uid <= uids[i] ensures k == Loc(f, validity, uids[i]) {
      var j :| 0 <= j < |uids| && uids[j] == k.uid;
    }
  }

  lemma MoreAhead(s: State, f: Folder, recent: Loc -> bool, how: Treatment, low: nat, high: nat)
    requires low <= high
    ensures |Ahead(s, f, recent, how, low)| <= |Ahead(s, f, recent, how, high)|
  {
    hide Waiting;
    var a, b := Ahead(s, f, recent, how, low), Ahead(s, f, recent, how, high);
    assert a <= b;
    assert |b - a| == |b| - |a|;
  }

  // Every due message whose turn it was has ended as the decision table says.
  ghost predicate AllSorted(s: State, t: State, f: Folder, recent: Loc -> bool, how: Treatment, most: nat) {
    forall l: Loc :: l in s.server.live && l.folder == f && recent(l) && |Ahead(s, f, recent, how, l.uid)| < most ==> Ended(s, t, l, how)
  }

  // The pass has come to the i-th listed message and treated `handled` of those before it.
  ghost predicate Progressing(s: State, t: State, f: Folder, recent: Loc -> bool, validity: nat, uids: seq<nat>, i: nat, how: Treatment, handled: nat) {
    && Sorting(s, t, f, validity, uids, i, how) && ListsRecent(s.server, f, recent, validity, uids)
    && handled == |Ahead(s, f, recent, how, Bound(uids, i))|
  }

  lemma ProgressStarts(s: State, f: Folder, recent: Loc -> bool, validity: nat, uids: seq<nat>, how: Treatment)
    requires Listed(s.server, f, validity, uids) && ListsRecent(s.server, f, recent, validity, uids) && BoxOf(s.server, f).validity == validity
    ensures Progressing(s, s, f, recent, validity, uids, 0, how, 0)
  {
    hide Ahead, Sorting;
    SortingStarts(s, f, validity, uids, how);
    NoneAhead(s, f, recent, how, uids);
  }

  // The next message is where it was; if it is not due, the pass goes on.
  lemma ProgressSkips(s: State, t: State, f: Folder, recent: Loc -> bool, validity: nat, uids: seq<nat>, i: nat, how: Treatment, handled: nat)
    requires Progressing(s, t, f, recent, validity, uids, i, how, handled) && i < |uids|
    ensures
      var l := Loc(f, validity, uids[i]);
      && BoxOf(t.server, f).validity == validity && l in t.server.live
      && (!Waiting(t.table, l, how.active, how.before) ==> Progressing(s, t, f, recent, validity, uids, i + 1, how, handled))
  {
    hide Waiting, Ahead, ListsRecent, Passed, IntentsKept, SameLatest, Ended, Listed;
    var l := Loc(f, validity, uids[i]);
    NextAhead(s, f, recent, how, validity, uids, i);
    StillWaiting(s, t, l, how.active, how.before);
    if !Waiting(t.table, l, how.active, how.before) { SortingSkips(s, t, f, validity, uids, i, how); }
  }

  lemma ProgressSorts(s: State, u: State, t: State, f: Folder, recent: Loc -> bool, validity: nat, uids: seq<nat>, i: nat, how: Treatment, handled: nat)
    requires ServerInv(s.server) && f in {Inbox, ServerSpam} && Progressing(s, u, f, recent, validity, uids, i, how, handled) && i < |uids|
    requires
      var l := Loc(f, validity, uids[i]);
      Waiting(u.table, l, how.active, how.before) && SortedOne(u, t, l, how.scan(l), how.limit, how.active)
    ensures Progressing(s, t, f, recent, validity, uids, i + 1, how, handled + 1)
  {
    hide Waiting, Ahead, ListsRecent, Passed, IntentsKept, SameLatest, Ended, SortedOne, ServerInv, Listed;
    var l := Loc(f, validity, uids[i]);
    NextAhead(s, f, recent, how, validity, uids, i);
    StillWaiting(s, u, l, how.active, how.before);
    SortingNext(s, u, t, f, validity, uids, i, how);
  }

  // The pass is over: it came to the end of the list, or to its limit of messages.
  lemma ProgressEnds(s: State, t: State, f: Folder, recent: Loc -> bool, validity: nat, uids: seq<nat>, i: nat, how: Treatment, handled: nat, most: nat)
    requires Progressing(s, t, f, recent, validity, uids, i, how, handled) && (i == |uids| || handled >= most)
    ensures Passed(s, t) && IntentsKept(s.table, t.table)
    ensures AllSorted(s, t, f, recent, how, most)
  {
    hide Passed, IntentsKept, SameLatest, Ended, Ahead;
    forall l: Loc | l in s.server.live && l.folder == f && recent(l) && |Ahead(s, f, recent, how, l.uid)| < most
      ensures Ended(s, t, l, how)
    {
      var j :| 0 <= j < |uids| && uids[j] == l.uid;
      assert l == Loc(f, validity, uids[j]);
      if j >= i { MoreAhead(s, f, recent, how, Bound(uids, i), l.uid); }
    }
  }

  // ----- Both folders -----

  // Every message that a dated search selects and that was unrecorded or dealt with is
  // dealt with now.
  ghost predicate AllDealt(s: State, t: State, recent: Loc -> bool) {
    forall l :: Scannable(s.server, l) && recent(l) && (Unrecorded(s, l) || Dealt(s, l)) ==> Dealt(t, l)
  }

  // When the mailbox is no larger than the limit of messages, every due message has its turn.
  lemma FolderDealt(s: State, t: State, f: Folder, recent: Loc -> bool, how: Treatment, most: nat, l: Loc)
    requires ServerInv(s.server) && AllSorted(s, t, f, recent, how, most) && |s.server.live| <= most
    requires Scannable(s.server, l) && l.folder == f && recent(l) && Unrecorded(s, l)
    ensures Dealt(t, l)
  {
    var ahead := Ahead(s, f, recent, how, l.uid);
    assert ahead <= s.server.live.Keys - {l};
    SmallerSet(ahead, s.server.live.Keys - {l});
    assert Waiting(s.table, l, how.active, how.before);
    assert Ended(s, t, l, how);
    EndedDealt(t, s.table, l, s.server.live[l], how.scan(l), how.limit, how.active);
  }

  lemma SmallerSet(a: set<Loc>, b: set<Loc>)
    requires a <= b
    ensures |a| <= |b|
  {
    assert |b - a| == |b| - |a|;
  }

  lemma EndedDealt(t: State, t0: Table, l: Loc, c: Content, scanned: Scanned, limit: nat, active: bool)
    requires EndedAs(t, t0, l, c, scanned, limit, active) && l.folder in {Inbox, ServerSpam}
    ensures Dealt(t, l)
  {
    hide Latest;
    forall status | status in {Kept, Errored, Observed} && StaysAs(t, l, c, status) ensures Dealt(t, l) || l.folder != Inbox {
      var i :| i in t.table.rows && RecordedAt(t.table.rows[i], l, c, status);
      assert RecordedRow(t.table.rows[i], l);
    }
  }

  lemma BothDealt(s: State, u: State, t: State, recent: Loc -> bool, how: Treatment, most: nat)
    requires ServerInv(s.server) && ServerInv(u.server) && |s.server.live| <= most
    requires Passed(s, u) && AllSorted(s, u, ServerSpam, recent, how, most)
    requires Passed(u, t) && AllSorted(u, t, Inbox, recent, how, most)
    ensures AllDealt(s, t, recent)
  {
    hide ServerInv, AllSorted, Unrecorded, Dealt, RestKept, RestoresKept;
    forall l | Scannable(s.server, l) && recent(l) && (Unrecorded(s, l) || Dealt(s, l)) ensures Dealt(t, l) {
      assert Scannable(u.server, l);
      if Unrecorded(s, l) && l.folder == ServerSpam { FolderDealt(s, u, ServerSpam, recent, how, most, l); }
      if Unrecorded(u, l) && l.folder == Inbox { FolderDealt(u, t, Inbox, recent, how, most, l); }
    }
  }
}
