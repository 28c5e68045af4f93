// A reachable state in which reconciliation cannot help: the mailbox holds exactly one
// copy of a pending message, yet its row can never be settled.
module BlockedRescue {
  import opened Wrappers
  import opened Mailbox
  import opened Store
  import opened Journal
  import opened JournalSafety
  import opened Engine

  // The server answers a rescue's MOVE with OK but without COPYUID, and the reads that look
  // for the new UID are refused, so the row stays pending while the session goes on. The
  // Inbox scan of the same run then records the message under a row of its own, and from
  // now on the unique location index refuses the pending row the place its message is at.
  // What is shown is that this sequence of effects is a legal run.
  lemma InboxScanBlocksRescue(s: State, c: Content) returns (run: seq<Event>)
    requires Installed(s) && 0 < |c| <= ABSOLUTE_LIMIT && Copies(s.server, c) == 0
    ensures Legal(s, run)
    ensures
      var t := After(s, run);
      && Unresolved(t, 1, Inbox, Rescued)
      && |BothSides(t, 1, Inbox)| == 1 && !OneUnowned(t, 1, Inbox)
  {
    var at := FreshLoc(s.server, ServerSpam);
    var e0, e1 := Client(Deliver(ServerSpam, c)), FileSaved(Path(0, c));
    var e2 := UpsertedPending(1, at, ToRescue, PendingMove, Path(0, c), 0, true, 0);
    Extend(s, [], e0);
    Extend(s, [] + [e0], e1);
    var t1 := After(s, [] + [e0] + [e1]);
    assert t1 == State(Put(s.server, ServerSpam, c), s.table, map[Path(0, c) := c], {});
    PutKeeps(s.server, ServerSpam, c);
    Extend(s, [] + [e0] + [e1], e2);
    var front := [] + [e0] + [e1] + [e2];
    var t2 := After(s, front);
    var row := PendingRow(at, c, ToRescue, PendingMove, Path(0, c), 0, 0);
    assert t2 == t1.(table := Table(map[1 := row], 2));
    OneCopy(s.server, at, c);
    var last := LostAndScanned(t2, at, c, row);
    Extend(s, front, Moved(1, Inbox));
    Extend(s, front + [Moved(1, Inbox)], last);
    run := front + [Moved(1, Inbox)] + [last];
  }

  lemma OneCopy(s: Server, at: Loc, c: Content)
    requires ServerInv(s) && Copies(s, c) == 0 && at == FreshLoc(s, ServerSpam)
    ensures forall l :: l in Put(s, ServerSpam, c).live && Put(s, ServerSpam, c).live[l] == c ==> l == at
  {
    forall l | l in s.live ensures s.live[l] != c {
      assert l in Where(s.live, c) <==> s.live[l] == c;
    }
  }

  lemma LostAndScanned(t: State, at: Loc, c: Content, row: Row) returns (last: Event)
    requires ServerInv(t.server) && t.table == Table(map[1 := row], 2)
    requires row == PendingRow(at, c, ToRescue, PendingMove, Path(0, c), 0, 0) && at.folder == ServerSpam
    requires 0 < |c| <= ABSOLUTE_LIMIT && Path(0, c) in t.files && t.files[Path(0, c)] == c
    requires at in t.server.live && t.server.live[at] == c
    requires forall l :: l in t.server.live && t.server.live[l] == c ==> l == at
    ensures Enabled(t, Moved(1, Inbox)) && Enabled(Effect(t, Moved(1, Inbox)), last)
    ensures
      var u := Effect(Effect(t, Moved(1, Inbox)), last);
      && Unresolved(u, 1, Inbox, Rescued)
      && |BothSides(u, 1, Inbox)| == 1 && !OneUnowned(u, 1, Inbox)
  {
    var l := FreshLoc(t.server, Inbox);
    last := UpsertedKept(2, l, Kept, 0);
    MoveLost(t, at, c, row);
    var moved := t.(server := Relocate(t.server, at, Inbox));
    Recorded(moved, l, c, row);
  }

  // The message is in the Inbox, and nobody told the row.
  lemma MoveLost(t: State, at: Loc, c: Content, row: Row)
    requires ServerInv(t.server) && t.table == Table(map[1 := row], 2)
    requires row == PendingRow(at, c, ToRescue, PendingMove, Path(0, c), 0, 0) && at.folder == ServerSpam
    requires Path(0, c) in t.files && t.files[Path(0, c)] == c
    requires at in t.server.live && t.server.live[at] == c
    requires forall l :: l in t.server.live && t.server.live[l] == c ==> l == at
    ensures Enabled(t, Moved(1, Inbox)) && Effect(t, Moved(1, Inbox)) == t.(server := Relocate(t.server, at, Inbox))
    ensures
      var moved, l := Relocate(t.server, at, Inbox), FreshLoc(t.server, Inbox);
      && l in moved.live && moved.live[l] == c && l in moved.ledger && moved.ledger[l] == c && l.uid > 0
      && forall k :: k in moved.live && moved.live[k] == c ==> k == l
  {
  }

  // The Inbox scan gives that very location to another row.
  lemma Recorded(t: State, l: Loc, c: Content, row: Row)
    requires t.table == Table(map[1 := row], 2) && 0 < |c| <= ABSOLUTE_LIMIT && l.folder == Inbox && l.uid > 0
    requires row.action == ToRescue && row.status == PendingMove && row.hash == Sha(c) && row.at.folder == ServerSpam && Backed(t.files, row)
    requires l in t.server.live && t.server.live[l] == c && l in t.server.ledger && t.server.ledger[l] == c
    requires forall k :: k in t.server.live && t.server.live[k] == c ==> k == l
    ensures Enabled(t, UpsertedKept(2, l, Kept, 0))
    ensures
      var u := Effect(t, UpsertedKept(2, l, Kept, 0));
      Unresolved(u, 1, Inbox, Rescued) && |BothSides(u, 1, Inbox)| == 1 && !OneUnowned(u, 1, Inbox)
  {
    var u := Effect(t, UpsertedKept(2, l, Kept, 0));
    assert u.table.rows[1] == row && u.table.rows[2].at == l && u.server == t.server;
    assert BothSides(u, 1, Inbox) == {l};
    assert Owned(u.table, 1, l);
  }
}
