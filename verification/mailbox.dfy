// The IMAP server as the mail client sees it: folders that hand out UIDs under a
// UIDVALIDITY, and other clients that deliver, remove, move and renumber mail.
// `ledger` remembers every (folder, UIDVALIDITY, UID) ever assigned and its bytes;
// RFC 3501 section 2.3.1.1 is what makes it immutable.
module Mailbox {
  import opened Wrappers

  type Content = seq<Byte>

  // The six configured folders have pairwise different names; `Nowhere` is the
  // empty folder name that a purged row keeps.
  datatype Folder = Inbox | ServerSpam | Quarantine | Review | TrainSpam | TrainHam | Elsewhere | Nowhere

  datatype Loc = Loc(folder: Folder, validity: nat, uid: nat)
  datatype Box = Box(validity: nat, next: nat)
  datatype Server = Server(boxes: map<Folder, Box>, live: map<Loc, Content>, ledger: map<Loc, Content>)

  // What other mail clients and the provider can do between two commands.
  datatype ClientEvent =
    | Deliver(folder: Folder, content: Content)
    | Expunge(loc: Loc)
    | Shift(loc: Loc, folder: Folder)
    | Renumber(folder: Folder, validity: nat, next: nat, origin: map<Loc, Loc>, moved: map<Loc, Content>)

  function BoxOf(s: Server, f: Folder): Box {
    if f in s.boxes then s.boxes[f] else Box(1, 1)
  }

  function FreshLoc(s: Server, f: Folder): Loc {
    Loc(f, BoxOf(s, f).validity, BoxOf(s, f).next)
  }

  ghost predicate ServerInv(s: Server) {
    && (forall f :: f in s.boxes ==> s.boxes[f].validity > 0 && s.boxes[f].next > 0)
    && LiveInv(s)
    && LedgerInv(s)
  }

  ghost predicate LiveInv(s: Server) {
    forall l :: l in s.live ==>
      l in s.ledger && s.ledger[l] == s.live[l] && l.validity == BoxOf(s, l.folder).validity
  }

  ghost predicate LedgerInv(s: Server) {
    forall l :: l in s.ledger ==> l.folder != Nowhere && l.validity > 0 && l.uid > 0 && Assigned(s, l)
  }

  // The location lies below the folder's current (UIDVALIDITY, UIDNEXT).
  predicate Assigned(s: Server, l: Loc) {
    var b := BoxOf(s, l.folder);
    l.validity < b.validity || (l.validity == b.validity && l.uid < b.next)
  }

  function Put(s: Server, f: Folder, c: Content): Server {
    var l := FreshLoc(s, f);
    Server(s.boxes[f := Box(l.validity, l.uid + 1)], s.live[l := c], s.ledger[l := c])
  }

  function Drop(s: Server, l: Loc): Server {
    s.(live := s.live - {l})
  }

  // A MOVE (RFC 6851 section 3.3) is atomic: the copy leaves as the new UID appears.
  function Relocate(s: Server, l: Loc, f: Folder): Server {
    if l in s.live then Put(Drop(s, l), f, s.live[l]) else s
  }

  // The folder starts a new UIDVALIDITY generation with its messages renumbered.
  function Rebuilt(s: Server, f: Folder, validity: nat, next: nat, gone: set<Loc>, moved: map<Loc, Content>): Server {
    Server(s.boxes[f := Box(validity, next)], (s.live - gone) + moved, s.ledger + moved)
  }

  // `origin` pairs each location of the new generation with the one it replaces.
  predicate Renumbers(s: Server, f: Folder, origin: map<Loc, Loc>, moved: map<Loc, Content>) {
    && origin.Keys == moved.Keys
    && (forall l :: l in moved ==>
        origin[l] in s.live && origin[l].folder == f && moved[l] == s.live[origin[l]])
    && (forall l :: l in s.live && l.folder == f ==> l in origin.Values)
    && (forall k, l :: k in moved && l in moved && k != l ==> origin[k] != origin[l])
  }

  predicate NewGeneration(s: Server, f: Folder, validity: nat, next: nat, moved: map<Loc, Content>) {
    && BoxOf(s, f).validity < validity
    && (forall l :: l in moved ==> l.folder == f && l.validity == validity && 0 < l.uid < next)
  }

  predicate ClientEnabled(s: Server, e: ClientEvent) {
    match e
    case Deliver(f, _) => f != Nowhere
    case Expunge(l) => l in s.live
    case Shift(l, f) => l in s.live && f != Nowhere
    case Renumber(f, validity, next, origin, moved) =>
      f != Nowhere && 0 < next && NewGeneration(s, f, validity, next, moved) && Renumbers(s, f, origin, moved)
  }

  function ClientApply(s: Server, e: ClientEvent): Server {
    match e
    case Deliver(f, c) => Put(s, f, c)
    case Expunge(l) => Drop(s, l)
    case Shift(l, f) => Relocate(s, l, f)
    case Renumber(f, validity, next, origin, moved) => Rebuilt(s, f, validity, next, origin.Values, moved)
  }

  ghost predicate Remembers(s: Server, t: Server) {
    forall l :: l in s.ledger ==> l in t.ledger && t.ledger[l] == s.ledger[l]
  }

  lemma StillRemembers(s: Server, t: Server, u: Server)
    requires Remembers(s, t) && Remembers(t, u)
    ensures Remembers(s, u)
  {
  }

  lemma PutKeeps(s: Server, f: Folder, c: Content)
    requires ServerInv(s) && f != Nowhere
    ensures ServerInv(Put(s, f, c)) && Remembers(s, Put(s, f, c))
    ensures FreshLoc(s, f) !in s.ledger
  {
    assert !Assigned(s, FreshLoc(s, f));
    var t := Put(s, f, c);
    forall l | l in t.ledger ensures Assigned(t, l) {
      if l in s.ledger { assert Assigned(s, l); }
    }
  }

  lemma DropKeeps(s: Server, l: Loc)
    requires ServerInv(s)
    ensures ServerInv(Drop(s, l)) && Remembers(s, Drop(s, l))
  {
  }

  lemma RelocateKeeps(s: Server, l: Loc, f: Folder)
    requires ServerInv(s) && f != Nowhere
    ensures ServerInv(Relocate(s, l, f)) && Remembers(s, Relocate(s, l, f))
  {
    if l in s.live { PutKeeps(Drop(s, l), f, s.live[l]); }
  }

  lemma RebuiltIsNew(s: Server, f: Folder, validity: nat, next: nat, moved: map<Loc, Content>)
    requires LedgerInv(s) && NewGeneration(s, f, validity, next, moved)
    ensures forall l :: l in moved ==> l !in s.ledger
  {
    forall l | l in moved ensures l !in s.ledger {
      assert !Assigned(s, l);
    }
  }

  lemma RebuiltLedger(s: Server, f: Folder, validity: nat, next: nat, gone: set<Loc>, moved: map<Loc, Content>)
    requires LedgerInv(s) && f != Nowhere && NewGeneration(s, f, validity, next, moved)
    ensures LedgerInv(Rebuilt(s, f, validity, next, gone, moved))
    ensures Remembers(s, Rebuilt(s, f, validity, next, gone, moved))
  {
    var t := Rebuilt(s, f, validity, next, gone, moved);
    RebuiltIsNew(s, f, validity, next, moved);
    forall l | l in t.ledger ensures Assigned(t, l) {
      if l in s.ledger { assert Assigned(s, l); }
    }
  }

  lemma RebuiltLive(s: Server, f: Folder, validity: nat, next: nat, gone: set<Loc>, moved: map<Loc, Content>)
    requires LiveInv(s) && NewGeneration(s, f, validity, next, moved)
    requires forall l :: l in moved ==> l !in s.ledger
    requires forall l :: l in s.live && l.folder == f ==> l in gone
    ensures LiveInv(Rebuilt(s, f, validity, next, gone, moved))
  {
  }

  lemma ClientKeeps(s: Server, e: ClientEvent)
    requires ServerInv(s) && ClientEnabled(s, e)
    ensures ServerInv(ClientApply(s, e)) && Remembers(s, ClientApply(s, e))
  {
    match e
    case Deliver(f, c) => PutKeeps(s, f, c);
    case Expunge(l) =>
    case Shift(l, f) => RelocateKeeps(s, l, f);
    case Renumber(f, validity, next, origin, moved) => 
      RebuiltIsNew(s, f, validity, next, moved);
      RebuiltLedger(s, f, validity, next, origin.Values, moved);
      RebuiltLive(s, f, validity, next, origin.Values, moved);
  }

  // ----- Counting copies -----

  ghost function Where(live: map<Loc, Content>, c: Content): set<Loc> {
    set l | l in live && live[l] == c
  }

  ghost function Copies(s: Server, c: Content): nat {
    |Where(s.live, c)|
  }

  lemma CopiesPut(s: Server, f: Folder, c: Content, x: Content)
    requires ServerInv(s)
    ensures Copies(Put(s, f, c), x) == Copies(s, x) + if x == c then 1 else 0
  {
    var l := FreshLoc(s, f);
    assert l !in s.live by { assert !Assigned(s, l); }
    WherePut(s.live, l, c, x);
  }

  lemma WherePut(live: map<Loc, Content>, l: Loc, c: Content, x: Content)
    requires l !in live
    ensures Where(live[l := c], x) == Where(live, x) + if x == c then {l} else {}
  {
  }

  lemma CopiesDrop(s: Server, l: Loc, x: Content)
    ensures Copies(Drop(s, l), x) == Copies(s, x) - if l in s.live && s.live[l] == x then 1 else 0
  {
    var gone := if l in s.live && s.live[l] == x then {l} else {};
    assert Where(s.live - {l}, x) == Where(s.live, x) - gone;
    assert gone <= Where(s.live, x);
  }

  lemma CopiesRelocate(s: Server, l: Loc, f: Folder, x: Content)
    requires ServerInv(s)
    ensures Copies(Relocate(s, l, f), x) == Copies(s, x)
  {
    if l in s.live {
      CopiesDrop(s, l, x);
      CopiesPut(Drop(s, l), f, s.live[l], x);
    }
  }

  // Sets related by a one-to-one renaming have the same size.
  lemma {:induction false} RenamedSize(a: set<Loc>, b: set<Loc>, m: map<Loc, Loc>)
    requires a <= m.Keys && (forall k :: k in a ==> m[k] in b)
    requires forall k, l :: k in a && l in a && k != l ==> m[k] != m[l]
    requires forall l :: l in b ==> exists k :: k in a && m[k] == l
    ensures |a| == |b|
  {
    if k :| k in a {
      RenamedSize(a - {k}, b - {m[k]}, m);
    } else {
      assert b == {};
    }
  }

  lemma CopiesRebuilt(s: Server, f: Folder, validity: nat, next: nat, origin: map<Loc, Loc>, moved: map<Loc, Content>, x: Content)
    requires ServerInv(s) && NewGeneration(s, f, validity, next, moved) && Renumbers(s, f, origin, moved)
    ensures Copies(Rebuilt(s, f, validity, next, origin.Values, moved), x) == Copies(s, x)
  {
    RebuiltIsNew(s, f, validity, next, moved);
    WhereReplaced(s.live, origin.Values, moved, x);
    RenamedContents(s.live, origin, moved, x);
  }

  lemma WhereReplaced(live: map<Loc, Content>, gone: set<Loc>, moved: map<Loc, Content>, x: Content)
    requires gone <= live.Keys && moved.Keys !! live.Keys
    ensures |Where((live - gone) + moved, x)| == |Where(live, x)| - |Where(live, x) * gone| + |Where(moved, x)|
  {
    assert Where((live - gone) + moved, x) == (Where(live, x) - gone) + Where(moved, x);
  }

  lemma RenamedContents(live: map<Loc, Content>, origin: map<Loc, Loc>, moved: map<Loc, Content>, x: Content)
    requires origin.Keys == moved.Keys
    requires forall l :: l in moved ==> origin[l] in live && moved[l] == live[origin[l]]
    requires forall k, l :: k in moved && l in moved && k != l ==> origin[k] != origin[l]
    ensures |Where(moved, x)| == |Where(live, x) * origin.Values|
  {
    RenamedSize(Where(moved, x), Where(live, x) * origin.Values, origin);
  }
}
