// The IMAP session. `World` holds what survives a crash together with the run that led
// to it; `Client` is the session object with its SELECT cache. Other clients may act
// before every command. While a folder is selected its UIDVALIDITY cannot change
// (RFC 3501 section 2.3.1.1).
module MailClient {
  import opened Wrappers
  import opened Mailbox
  import opened Store
  import opened Journal

  // The engine's own effects, in order.
  ghost function Own(run: seq<Event>): seq<Event> {
    if run == [] then []
    else
      var last := run[|run| - 1];
      Own(run[..|run| - 1]) + if last.Client? then [] else [last]
  }

  class World {
    var server: Server
    var files: map<Path, Content>
    const db: DB
    ghost var clear: set<nat>
    ghost var start: State
    ghost var run: seq<Event>

    constructor (server: Server, db: DB)
      requires ServerInv(server) && db.table == Table(map[], 1)
      ensures Valid() && this.server == server && this.db == db && run == []
    {
      this.server, this.files, this.db := server, map[], db;
      clear, run := {}, [];
      start := State(server, db.table, map[], {});
    }

    ghost function Now(): State
      reads this, db
    {
      State(server, db.table, files, clear)
    }

    // The present state is where a legal run from a fresh installation has led.
    ghost predicate Valid()
      reads this, db
    {
      Installed(start) && Legal(start, run) && After(start, run) == Now()
    }

    // Records an effect that has just happened; `was` is the state it happened in.
    ghost method Note(e: Event, was: State)
      requires Installed(start) && Legal(start, run) && After(start, run) == was
      requires Enabled(was, e) && Now() == Effect(was, e)
      modifies this`run
      ensures Valid() && run == old(run) + [e]
      ensures Own(run) == if e.Client? then Own(old(run)) else Own(old(run)) + [e]
    {
      run := run + [e];
      assert run[..|run| - 1] == old(run);
    }

    // One effect of another mail client.
    method ActOnce(act: ClientEvent)
      requires Valid() && ClientEnabled(server, act)
      modifies this
      ensures Valid() && OnlyOthers(this) && server == ClientApply(old(server), act)
      ensures forall f :: !(act.Renumber? && act.folder == f) ==>
        BoxOf(server, f).validity == BoxOf(old(server), f).validity && BoxOf(server, f).next >= BoxOf(old(server), f).next
    {
      hide Own, Legal, After, ServerInv, ClientApply, ClientEnabled;
      ghost var was := Now();
      Sane();
      ClientKeeps(server, act);
      ActBoxes(server, act);
      server := ClientApply(server, act);
      Note(Event.Client(act), was);
    }

    static lemma ActBoxes(s: Server, act: ClientEvent)
      requires ClientEnabled(s, act)
      ensures forall f :: !(act.Renumber? && act.folder == f) ==>
        BoxOf(ClientApply(s, act), f).validity == BoxOf(s, f).validity && BoxOf(ClientApply(s, act), f).next >= BoxOf(s, f).next
    {
    }

    lemma Sane()
      requires Valid()
      ensures ServerInv(server)
    {
      RunKeeps(start, run);
    }

    lemma Listable(validity: nat)
      requires Valid()
      ensures LiveInv(server)
      ensures forall f, u :: Loc(f, validity, u) in server.live ==> Loc(f, validity, u) in server.ledger
    {
      Sane();
    }

    lemma SaneFiles()
      requires Valid()
      ensures forall p :: p in files ==> files[p] == p.content && p.content != []
    {
      RunKeeps(start, run);
    }

    lemma Current()
      requires Valid()
      ensures forall l :: l in server.live ==> l.validity == BoxOf(server, l.folder).validity
      ensures forall f :: BoxOf(server, f).validity > 0
    {
      Sane();
    }

    lemma SaneRow(id: nat)
      requires Valid() && id in db.table.rows
      ensures TruthfulRow(Now(), db.table.rows[id]) && LabelledRow(db.table.rows[id])
      ensures TableInv(db.table)
    {
      RunKeeps(start, run);
    }
  }

  datatype Message = Message(at: Loc, raw: Content, important: bool)
  datatype MoveResult = MoveResult(validity: nat, uid: nat)
  datatype Outcome = Rejected | ReplyLost | WithoutUid | WithUid

  // Everything but the server (and the run that explains it) is as it was.
  twostate predicate OnlyServer(w: World)
    reads w, w.db
  {
    && w.start == old(w.start) && old(w.run) <= w.run
    && w.db.table == old(w.db.table) && w.files == old(w.files) && w.clear == old(w.clear)
    && Remembers(old(w.server), w.server)
  }

  // Only other clients acted.
  twostate predicate OnlyOthers(w: World)
    reads w, w.db
  {
    OnlyServer(w) && Own(w.run) == old(Own(w.run))
  }

  class Client {
    const world: World
    const nativeMove: bool
    const uidPlus: bool
    // In a calm session nobody else acts and every command succeeds with its UID.
    const calm: bool
    // The messages whose arrival date a dated search accepts; it never changes.
    const recent: Loc -> bool
    var selected: Folder
    var uidValidity: nat
    var uidNext: nat

    ghost predicate Valid()
      reads this, world, world.db
    {
      && world.Valid()
      && (selected != Nowhere ==>
          uidValidity == BoxOf(world.server, selected).validity && uidNext <= BoxOf(world.server, selected).next)
    }

    constructor (world: World, nativeMove: bool, uidPlus: bool, calm: bool, recent: Loc -> bool)
      requires world.Valid()
      ensures Valid() && this.world == world && this.calm == calm && this.nativeMove == nativeMove && this.uidPlus == uidPlus
      ensures this.recent == recent
    {
      this.world, this.nativeMove, this.uidPlus, this.calm, this.recent := world, nativeMove, uidPlus, calm, recent;
      selected, uidValidity, uidNext := Nowhere, 0, 0;
    }

    // Other clients do anything they like, except renumber the folder in use.
    method Interfere()
      requires Valid()
      modifies world
      ensures Valid() && OnlyOthers(world)
      ensures BoxOf(world.server, selected).validity == old(BoxOf(world.server, selected).validity)
      ensures BoxOf(world.server, selected).next >= old(BoxOf(world.server, selected).next)
      ensures calm ==> world.server == old(world.server) && world.run == old(world.run)
    {
      hide Own, Legal, After;
      var steps: nat := *;
      if calm { steps := 0; }
      while steps > 0
        invariant Valid() && OnlyOthers(world)
        invariant BoxOf(world.server, selected).validity == old(BoxOf(world.server, selected).validity)
        invariant BoxOf(world.server, selected).next >= old(BoxOf(world.server, selected).next)
        invariant calm ==> steps == 0 && world.server == old(world.server) && world.run == old(world.run)
      {
        steps := steps - 1;
        var act: ClientEvent := *;
        if ClientEnabled(world.server, act) && !(act.Renumber? && act.folder == selected) {
          world.ActOnce(act);
        }
      }
    }

    method SelectFresh(f: Folder) returns (ok: bool)
      requires Valid() && f != Nowhere
      modifies world, this
      ensures Valid() && OnlyOthers(world)
      ensures ok ==> selected == f
      ensures calm ==> uidNext == BoxOf(world.server, f).next
      ensures calm ==> ok && world.server == old(world.server) && world.run == old(world.run)
    {
      hide Own, Legal, After;
      Interfere();
      var fails: bool := *;
      if fails && !calm { return false; }
      var omitted: bool := *;
      var box := BoxOf(world.server, f);
      selected, uidValidity, uidNext := f, box.validity, if omitted && !calm then 0 else box.next;
      ok := true;
    }

    // A cached selection serves a read; a write always selects again.
    method Select(f: Folder, readOnly: bool) returns (ok: bool)
      requires Valid() && f != Nowhere
      modifies world, this
      ensures Valid() && OnlyOthers(world)
      ensures ok ==> selected == f
      ensures readOnly && old(selected) == f && old(uidValidity) != 0 ==>
        ok && uidNext == old(uidNext) && uidValidity == old(uidValidity)
      ensures calm ==> ok && world.server == old(world.server) && world.run == old(world.run)
    {
      hide Own, Legal, After;
      if selected == f && uidValidity != 0 && readOnly { return true; }
      ok := SelectFresh(f);
    }

    // UIDs of the messages that `since` selects; every message when there is no date.
    method SearchSince(f: Folder, everything: bool) returns (ok: bool, uids: seq<nat>)
      requires Valid() && f != Nowhere
      modifies world, this
      ensures Valid() && OnlyOthers(world)
      ensures ok ==> selected == f && forall u :: u in uids ==> Loc(f, uidValidity, u) in world.server.live
      ensures ok ==> forall u :: u in uids ==> everything || recent(Loc(f, uidValidity, u))
      ensures ok ==> forall l :: l in world.server.live && l.folder == f && (everything || recent(l)) ==> l.uid in uids
      ensures ok ==> forall i, j :: 0 <= i < j < |uids| ==> uids[i] < uids[j]
      ensures calm ==> ok && world.server == old(world.server) && world.run == old(world.run)
    {
      hide Own, Legal, After;
      uids := [];
      ok := SelectFresh(f);
      if !ok { return; }
      world.Sane();
      var found := set l | l in world.server.live && l.folder == f && (everything || recent(l)) :: l.uid;
      uids := Listed(found);
    }

    method SearchExactSize(f: Folder, size: nat) returns (ok: bool, uids: seq<nat>)
      requires Valid() && f != Nowhere
      modifies world, this
      ensures Valid() && OnlyOthers(world)
      ensures ok ==> selected == f && size > 0
      ensures ok ==> forall u :: u in uids <==>
        Loc(f, uidValidity, u) in world.server.live && |world.server.live[Loc(f, uidValidity, u)]| == size
      ensures ok ==> forall i, j :: 0 <= i < j < |uids| ==> uids[i] < uids[j]
      ensures calm && size > 0 ==> ok
      ensures calm ==> world.server == old(world.server) && world.run == old(world.run)
    {
      hide Own, Legal, After;
      uids := [];
      if size < 1 { return false, []; }
      ok := SelectFresh(f);
      if !ok { return; }
      world.Sane();
      var found := set l | l in world.server.live && l.folder == f && |world.server.live[l]| == size :: l.uid;
      uids := Listed(found);
    }

    // One numeric page of UIDs strictly above `after`, cut off at the cached UIDNEXT.
    method SearchUIDPage(f: Folder, after: nat, limit: nat) returns (ok: bool, uids: seq<nat>, complete: bool)
      requires Valid() && f != Nowhere
      modifies world, this
      ensures Valid() && OnlyOthers(world)
      ensures ok ==> selected == f && 1 <= limit <= 1000
      ensures old(selected) == f && old(uidValidity) != 0 ==> uidNext == old(uidNext) && uidValidity == old(uidValidity)
      ensures ok ==> forall u :: u in uids ==> after < u < uidNext && Loc(f, uidValidity, u) in world.server.live
      ensures ok && complete ==> forall u :: after < u < uidNext && Loc(f, uidValidity, u) in world.server.live ==> u in uids
      ensures ok ==> forall i, j :: 0 <= i < j < |uids| ==> uids[i] < uids[j]
      ensures ok ==> forall u, v :: v in uids && after < u <= v && Loc(f, uidValidity, u) in world.server.live ==> u in uids
      ensures ok && uidNext <= after + 1 + limit ==> complete
      ensures calm && 1 <= limit <= 1000 ==> ok
      ensures calm ==> world.server == old(world.server) && world.run == old(world.run)
    {
      hide Own, Legal, After;
      uids, complete := [], false;
      if limit < 1 || limit > 1000 { return false, [], false; }
      ok := Select(f, true);
      if !ok { return; }
      var start := after + 1;
      if uidNext == 0 || start > uidNext - 1 { return true, [], true; }
      var last := uidNext - 1;
      var end := if start + limit - 1 > last then last else start + limit - 1;
      Interfere();
      var found := set l | l in world.server.live && l.folder == f && start <= l.uid <= end :: l.uid;
      world.Sane();
      uids := Listed(found);
      complete := end >= last;
    }

    static lemma {:induction false} Smallest(s: set<nat>) returns (u: nat)
      requires s != {}
      ensures u in s && forall v :: v in s ==> u <= v
    {
      u :| u in s;
      var rest := s - {u};
      assert forall v :: v in s ==> v == u || v in rest;
      if rest != {} {
        var w := Smallest(rest);
        if w < u { u := w; }
      }
    }

    // Ascending, without duplicates.
    static method Listed(found: set<nat>) returns (uids: seq<nat>)
      ensures forall u :: u in uids <==> u in found
      ensures forall i, j :: 0 <= i < j < |uids| ==> uids[i] < uids[j]
    {
      uids := [];
      var rest := found;
      while rest != {}
        invariant rest <= found
        invariant forall u, v :: u in uids && v in rest ==> u < v
        invariant forall u :: u in uids <==> u in found - rest
        invariant forall i, j :: 0 <= i < j < |uids| ==> uids[i] < uids[j]
        decreases rest
      {
        ghost var least := Smallest(rest);
        var u :| u in rest && forall v :: v in rest ==> u <= v;
        assert forall v :: v in uids + [u] <==> v in uids || v == u;
        assert forall i :: 0 <= i < |uids| ==> uids[i] in uids;
        uids, rest := uids + [u], rest - {u};
      }
    }

    method Fetch(f: Folder, uid: nat) returns (ok: bool, message: Message)
      requires Valid() && f != Nowhere
      modifies world, this
      ensures Valid() && OnlyOthers(world)
      ensures old(selected) == f && old(uidValidity) != 0 ==> uidNext == old(uidNext) && uidValidity == old(uidValidity)
      ensures ok ==> selected == f && message.at == Loc(f, uidValidity, uid)
      ensures ok ==> message.at in world.server.live && world.server.live[message.at] == message.raw
      ensures ok ==> Confirmed(world.server, message.at, Sha(message.raw))
      ensures calm ==> world.server == old(world.server) && world.run == old(world.run)
      ensures calm && Loc(f, BoxOf(world.server, f).validity, uid) in world.server.live ==> ok
    {
      hide Own, Legal, After;
      message := Message(Loc(f, 0, 0), [], false);
      ok := Select(f, true);
      if !ok { return; }
      Interfere();
      var at := Loc(f, uidValidity, uid);
      var fails: bool := *;
      if at !in world.server.live || (fails && !calm) { return false, message; }
      var important: bool := *;
      message := Message(at, world.server.live[at], important);
      world.Sane();
    }

    // Clearing \Seen changes no bytes and no location.
    method MarkUnread(f: Folder, expected: nat) returns (ok: bool)
      requires Valid() && f != Nowhere
      modifies world, this
      ensures Valid() && OnlyOthers(world)
      ensures calm ==> world.server == old(world.server) && world.run == old(world.run)
      ensures calm && expected == BoxOf(world.server, f).validity ==> ok
    {
      hide Own, Legal, After;
      ok := Select(f, false);
      world.Sane();
      if !ok || expected == 0 || expected != uidValidity { return false; }
      var fails: bool := *;
      ok := calm || !fails;
    }

    // The MOVE command itself. The reply may be lost, or come without COPYUID; a UID that
    // is already gone is no error and moves nothing (RFC 6851 section 3.3).
    method SendMove(ghost id: nat, at: Loc, destination: Folder) returns (outcome: Outcome, to: Loc)
      requires Valid() && Enabled(world.Now(), Moved(id, destination)) && world.db.table.rows[id].at == at
      requires destination != Nowhere
      modifies world
      ensures Valid() && OnlyServer(world)
      ensures Own(world.run) == if outcome.Rejected? then old(Own(world.run)) else old(Own(world.run)) + [Moved(id, destination)]
      ensures outcome.WithUid? ==> to == old(FreshLoc(world.server, destination)) && to.uid > 0
      ensures outcome.WithUid? ==> to in world.server.ledger && world.server.ledger[to] == old(world.server.ledger[at])
      ensures calm ==> outcome in {WithUid, WithoutUid} && world.server == Relocate(old(world.server), at, destination)
    {
      hide Own, Legal, After, Relocate, ServerInv, Enabled;
      outcome, to := *, FreshLoc(world.server, destination);
      if calm && !outcome.WithUid? { outcome := WithoutUid; }
      if outcome.WithUid? && at !in world.server.live { outcome := WithoutUid; }
      if outcome.Rejected? { return; }
      ghost var was := world.Now();
      world.Sane();
      RelocateKeeps(world.server, at, destination);
      MoveArrives(was, id, destination);
      world.server := Relocate(world.server, at, destination);
      world.Note(Moved(id, destination), was);
    }

    static lemma MoveArrives(s: State, id: nat, f: Folder)
      requires ServerInv(s.server) && Enabled(s, Moved(id, f))
      ensures id in s.table.rows && Effect(s, Moved(id, f)).server == Relocate(s.server, s.table.rows[id].at, f)
      ensures forall g :: BoxOf(Relocate(s.server, s.table.rows[id].at, f), g).validity == BoxOf(s.server, g).validity
      ensures forall g :: BoxOf(Relocate(s.server, s.table.rows[id].at, f), g).next >= BoxOf(s.server, g).next
      ensures
        var at, to := s.table.rows[id].at, FreshLoc(s.server, f);
        && at in s.server.ledger && to.uid > 0
        && (at in s.server.live ==>
            var t := Relocate(s.server, at, f);
            to in t.ledger && t.ledger[to] == s.server.ledger[at])
    {
    }

    // The destination's UIDVALIDITY and UIDNEXT first, then the source folder, whose
    // generation must be the one the UID was read under.
    method StartMove(at: Loc, destination: Folder) returns (ok: bool, validity: nat, next: nat)
      requires Valid() && destination != Nowhere && at.folder != Nowhere
      modifies world, this
      ensures Valid() && OnlyOthers(world)
      ensures ok ==> nativeMove && next > 0 && selected == at.folder && at.validity == uidValidity > 0
      ensures calm ==> world.server == old(world.server) && world.run == old(world.run)
      ensures calm && at in world.server.live && nativeMove ==> ok && Box(validity, next) == BoxOf(world.server, destination) && validity > 0
    {
      hide Own, Legal, After;
      validity, next := 0, 0;
      if !nativeMove { return false, 0, 0; }
      ok := SelectFresh(destination);
      if !ok { return; }
      validity, next := uidValidity, uidNext;
      world.Sane();
      if next == 0 { return false, 0, 0; }
      ok := Select(at.folder, false);
      if !ok || at.validity == 0 || uidValidity != at.validity { return false, validity, next; }
    }

    // MOVE up to a confirmed destination location, from COPYUID or by looking for it.
    method Transfer(ghost id: nat, at: Loc, destination: Folder, raw: Content)
      returns (ok: bool, result: MoveResult)
      requires Valid() && Enabled(world.Now(), Moved(id, destination))
      requires world.db.table.rows[id].at == at && world.db.table.rows[id].hash == Sha(raw)
      requires destination != Nowhere && at.folder != Nowhere
      modifies world, this
      ensures Valid() && OnlyServer(world)
      ensures Own(world.run) in {old(Own(world.run)), old(Own(world.run)) + [Moved(id, destination)]}
      ensures result.uid > 0 ==> Own(world.run) == old(Own(world.run)) + [Moved(id, destination)]
      ensures result.uid > 0 ==> Confirmed(world.server, Loc(destination, result.validity, result.uid), Sha(raw))
      ensures calm && nativeMove && old(at in world.server.live) ==>
        ok && Transferred(old(world.server), world.server, at, destination, result)
    {
      hide Own, Legal, After, Relocate, OnlyNew, Enabled;
      result := MoveResult(0, 0);
      ghost var first := world.Now();
      world.Sane();
      RelocatedIsNew(world.server, at, destination);
      var oldValidity, oldNext;
      ok, oldValidity, oldNext := StartMove(at, destination);
      if !ok { return false, result; }
      ghost var ready := world.Now();
      MoveStaysEnabled(first, ready, id, destination);
      MoveConfirms(ready, id, destination, raw);
      var outcome, to := SendMove(id, at, destination);
      if outcome in {Rejected, ReplyLost} { return false, result; }
      hide Confirmed;
      ArrivedConfirmed(ready, world.server, outcome, to, id, raw);
      result := ConfirmDestination(outcome, to, destination, oldValidity, oldNext, raw);
      ok := true;
    }

    // The location the reply names, or else the one the confirmation reads find.
    method ConfirmDestination(outcome: Outcome, to: Loc, destination: Folder, oldValidity: nat, oldNext: nat, raw: Content)
      returns (result: MoveResult)
      requires Valid() && destination != Nowhere && outcome in {WithUid, WithoutUid}
      requires outcome.WithUid? ==> to.folder == destination && Confirmed(world.server, to, Sha(raw))
      modifies world, this
      ensures Valid() && OnlyOthers(world)
      ensures result.uid > 0 ==> Confirmed(world.server, Loc(destination, result.validity, result.uid), Sha(raw))
      ensures calm ==> world.server == old(world.server)
      ensures outcome.WithUid? ==> result == MoveResult(to.validity, to.uid)
      ensures calm && outcome.WithoutUid? && OnlyNew(old(world.server), destination, oldValidity, oldNext, raw) ==>
        result == MoveResult(oldValidity, oldNext)
    {
      hide Own, Legal, After, OnlyNew;
      if outcome.WithUid? {
        result := MoveResult(to.validity, to.uid);
      } else {
        result := ResolveMovedUID(destination, oldValidity, oldNext, raw);
      }
    }

    static lemma ArrivedConfirmed(s: State, t: Server, outcome: Outcome, to: Loc, id: nat, raw: Content)
      requires id in s.table.rows && s.table.rows[id].at in s.server.ledger && s.server.ledger[s.table.rows[id].at] == raw
      requires outcome.WithUid? ==> to.uid > 0 && to in t.ledger && t.ledger[to] == raw
      ensures outcome.WithUid? ==> Confirmed(t, to, Sha(raw))
    {
    }

    static ghost predicate Transferred(s: Server, t: Server, at: Loc, destination: Folder, result: MoveResult) {
      && t == Relocate(s, at, destination)
      && Loc(destination, result.validity, result.uid) == FreshLoc(s, destination)
    }

    method Move(ghost id: nat, at: Loc, destination: Folder, markUnread: bool, raw: Content)
      returns (ok: bool, result: MoveResult)
      requires Valid() && Enabled(world.Now(), Moved(id, destination))
      requires world.db.table.rows[id].at == at && world.db.table.rows[id].hash == Sha(raw)
      requires destination != Nowhere && at.folder != Nowhere
      modifies world, this
      ensures Valid() && OnlyServer(world)
      ensures Own(world.run) in {old(Own(world.run)), old(Own(world.run)) + [Moved(id, destination)]}
      ensures result.uid > 0 ==> Own(world.run) == old(Own(world.run)) + [Moved(id, destination)]
      ensures result.uid > 0 ==> Confirmed(world.server, Loc(destination, result.validity, result.uid), Sha(raw))
      ensures calm && nativeMove && old(at in world.server.live) ==>
        ok && Transferred(old(world.server), world.server, at, destination, result)
    {
      hide Own, Legal, After;
      world.Sane();
      ok, result := Transfer(id, at, destination, raw);
      if ok && markUnread && result.uid > 0 {
        ok := MarkUnread(destination, result.validity);
      }
    }

    static lemma RelocatedIsNew(s: Server, at: Loc, f: Folder)
      requires ServerInv(s)
      ensures at in s.live ==> OnlyNew(Relocate(s, at, f), f, BoxOf(s, f).validity, BoxOf(s, f).next, s.live[at])
    {
    }

    static lemma MoveStaysEnabled(s: State, t: State, id: nat, destination: Folder)
      requires Enabled(s, Moved(id, destination))
      requires t.table == s.table && t.files == s.files && Remembers(s.server, t.server)
      ensures Enabled(t, Moved(id, destination))
    {
    }

    static lemma MoveConfirms(s: State, id: nat, destination: Folder, raw: Content)
      requires Enabled(s, Moved(id, destination)) && s.table.rows[id].hash == Sha(raw)
      ensures id in s.table.rows && s.table.rows[id].at in s.server.ledger && s.server.ledger[s.table.rows[id].at] == raw
    {
    }

    // Three confirmation reads; MOVE itself is never repeated.
    method ResolveMovedUID(destination: Folder, oldValidity: nat, oldNext: nat, raw: Content) returns (result: MoveResult)
      requires Valid() && destination != Nowhere
      modifies world, this
      ensures Valid() && OnlyOthers(world)
      ensures result.uid > 0 ==> Confirmed(world.server, Loc(destination, result.validity, result.uid), Sha(raw))
      ensures calm ==> world.server == old(world.server)
      ensures calm && old(OnlyNew(world.server, destination, oldValidity, oldNext, raw)) ==> result == MoveResult(oldValidity, oldNext)
    {
      hide Own, Legal, After;
      result := MoveResult(0, 0);
      for attempt := 0 to 3
        invariant Valid() && OnlyOthers(world) && result == MoveResult(0, 0)
        invariant calm ==> world.server == old(world.server)
        invariant calm && old(OnlyNew(world.server, destination, oldValidity, oldNext, raw)) ==> attempt == 0
      {
        var retry;
        result, retry := ResolveMovedUIDOnce(destination, oldValidity, oldNext, raw);
        if result.uid != 0 { return; }
        result := MoveResult(0, 0);
        if !retry { return; }
      }
    }

    // Since (oldValidity, oldNext) exactly one message with these bytes has arrived.
    static ghost predicate OnlyNew(s: Server, f: Folder, oldValidity: nat, oldNext: nat, raw: Content) {
      && oldNext > 0 && oldValidity > 0 && BoxOf(s, f) == Box(oldValidity, oldNext + 1)
      && Loc(f, oldValidity, oldNext) in s.live && s.live[Loc(f, oldValidity, oldNext)] == raw
    }

    static lemma TwoDiffer(uids: seq<nat>)
      requires |uids| > 1 && forall i, j :: 0 <= i < j < |uids| ==> uids[i] < uids[j]
      ensures exists v, w :: v in uids && w in uids && v != w
    {
      assert uids[0] in uids && uids[1] in uids && uids[0] != uids[1];
    }

    static lemma Alone(uids: seq<nat>, u: nat)
      requires u in uids && forall v :: v in uids ==> v == u
      requires forall i, j :: 0 <= i < j < |uids| ==> uids[i] < uids[j]
      ensures uids == [u]
    {
      assert forall i :: 0 <= i < |uids| ==> uids[i] in uids;
      if |uids| > 1 { TwoDiffer(uids); }
    }

    method ResolveMovedUIDOnce(destination: Folder, oldValidity: nat, oldNext: nat, raw: Content)
      returns (result: MoveResult, retry: bool)
      requires Valid() && destination != Nowhere
      modifies world, this
      ensures Valid() && OnlyOthers(world)
      ensures result.uid > 0 ==> Confirmed(world.server, Loc(destination, result.validity, result.uid), Sha(raw))
      ensures calm ==> world.server == old(world.server)
      ensures calm && old(OnlyNew(world.server, destination, oldValidity, oldNext, raw)) ==> result == MoveResult(oldValidity, oldNext)
    {
      hide Own, Legal, After, ServerInv;
      result, retry := MoveResult(0, 0), false;
      var ok := SelectFresh(destination);
      if !ok || oldNext == 0 || uidValidity == 0 || uidValidity != oldValidity || uidNext < oldNext { return; }
      if uidNext - oldNext > 1000 { return; }
      var newValidity := uidValidity;
      var uids, complete;
      ok, uids, complete := SearchUIDPage(destination, oldNext - 1, 1000);
      if !ok || !complete { return; }
      ghost var alone := calm && old(OnlyNew(world.server, destination, oldValidity, oldNext, raw));
      if alone { Alone(uids, oldNext); }
      var matched := 0;
      for i := 0 to |uids|
        invariant Valid() && OnlyOthers(world) && selected == destination && uidValidity == newValidity
        invariant matched > 0 ==> Confirmed(world.server, Loc(destination, newValidity, matched), Sha(raw))
        invariant calm ==> world.server == old(world.server)
        invariant alone ==> uids == [oldNext] && matched == (if i == 0 then 0 else oldNext)
      {
        var message;
        ok, message := Fetch(destination, uids[i]);
        if !ok { return; }
        if message.raw == raw {
          if matched != 0 { return; }
          matched := uids[i];
        }
      }
      if matched == 0 { return result, true; }
      result := MoveResult(newValidity, matched);
    }

    // APPEND of the row's own bytes to the review folder.
    method AppendUnread(id: nat, raw: Content) returns (ok: bool, result: MoveResult)
      requires Valid() && Enabled(world.Now(), Appended(id)) && world.db.table.rows[id].hash == Sha(raw)
      modifies world
      ensures Own(world.run) in {old(Own(world.run)), old(Own(world.run)) + [Appended(id)]}
      ensures result.uid > 0 ==> Own(world.run) == old(Own(world.run)) + [Appended(id)]
      ensures Valid() && world.start == old(world.start) && old(world.run) <= world.run
      ensures world.db.table == old(world.db.table) && world.files == old(world.files)
      ensures Remembers(old(world.server), world.server)
      ensures result.uid > 0 ==> Confirmed(world.server, Loc(Review, result.validity, result.uid), Sha(raw))
      ensures calm && |raw| > 0 ==>
        ok && Loc(Review, result.validity, result.uid) == FreshLoc(old(world.server), Review) && result.uid > 0 && result.validity > 0
      ensures calm ==> world.server == if |raw| == 0 then old(world.server) else Put(old(world.server), Review, raw)
    {
      hide Own, Legal, After, ServerInv, Enabled;
      result := MoveResult(0, 0);
      if |raw| == 0 { return false, result; }
      ghost var first := world.Now();
      Interfere();
      AppendStaysEnabled(first, world.Now(), id);
      var outcome: Outcome := *;
      if calm { outcome := WithUid; }
      if outcome.Rejected? { return false, result; }
      var to := FreshLoc(world.server, Review);
      ghost var was := world.Now();
      world.Sane();
      PutKeeps(world.server, Review, raw);
      world.server := Put(world.server, Review, raw);
      world.clear := world.clear - {id};
      world.Note(Appended(id), was);
      if outcome.WithUid? { result := MoveResult(to.validity, to.uid); }
      ok := !outcome.ReplyLost?;
    }

    static lemma AppendStaysEnabled(s: State, t: State, id: nat)
      requires Enabled(s, Appended(id))
      requires t.table == s.table && t.files == s.files && t.clear == s.clear
      ensures id in s.table.rows && Enabled(t, Appended(id))
    {
    }

    static lemma DeleteStaysEnabled(s: State, t: State, id: nat, now: int, quarantineDays: nat)
      requires Enabled(s, Deleted(id, now, quarantineDays))
      requires t.table == s.table && t.files == s.files && Remembers(s.server, t.server)
      ensures id in s.table.rows && s.table.rows[id].at.folder == Quarantine
      ensures Enabled(t, Deleted(id, now, quarantineDays))
    {
    }

    // STORE \Deleted, select again, then UID EXPUNGE of that one UID.
    method DeleteUID(id: nat, at: Loc, now: int, quarantineDays: nat) returns (ok: bool)
      requires Valid() && Enabled(world.Now(), Deleted(id, now, quarantineDays)) && world.db.table.rows[id].at == at
      modifies world, this
      ensures Valid() && OnlyServer(world)
      ensures Own(world.run) in {old(Own(world.run)), old(Own(world.run)) + [Deleted(id, now, quarantineDays)]}
      ensures ok ==> uidPlus && at !in world.server.live && Own(world.run) == old(Own(world.run)) + [Deleted(id, now, quarantineDays)]
      ensures calm && uidPlus && old(at in world.server.live) ==> ok && world.server == Drop(old(world.server), at)
    {
      hide Own, Legal, After, ServerInv, Enabled;
      ghost var first := world.Now();
      DeleteStaysEnabled(first, first, id, now, quarantineDays);
      world.Current();
      if !uidPlus { return false; }
      ok := Select(at.folder, false);
      if !ok || at.validity == 0 || at.validity != uidValidity { return false; }
      ok := SelectFresh(at.folder);
      if !ok || at.validity == 0 || at.validity != uidValidity { return false; }
      var outcome: Outcome := *;
      if calm { outcome := WithUid; }
      if outcome.Rejected? { return false; }
      ghost var was := world.Now();
      DeleteStaysEnabled(first, was, id, now, quarantineDays);
      world.server := Drop(world.server, at);
      world.Note(Deleted(id, now, quarantineDays), was);
      ok := !outcome.ReplyLost?;
    }
  }
}
