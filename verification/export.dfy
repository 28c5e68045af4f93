// Receiving a diskless snapshot: the bytes of a stream up to an end marker, however the
// stream is cut into blocks.
module Export {
  import opened Crc64

  predicate Occurs(s: Octets, i: nat, marker: Octets) {
    i + |marker| <= |s| && s[i..i + |marker|] == marker
  }

  ghost predicate First(s: Octets, i: nat, marker: Octets) {
    Occurs(s, i, marker) && forall j :: 0 <= j < i ==> !Occurs(s, j, marker)
  }

  ghost predicate Absent(s: Octets, marker: Octets) {
    forall j: nat :: j < |s| ==> !Occurs(s, j, marker)
  }

  function Joined(blocks: seq<Octets>): Octets {
    if blocks == [] then [] else Joined(blocks[..|blocks| - 1]) + blocks[|blocks| - 1]
  }

  lemma {:induction false} JoinedSplit(a: seq<Octets>, b: seq<Octets>)
    ensures Joined(a + b) == Joined(a) + Joined(b)
    decreases |b|
  {
    if b == [] {
      assert a + b == a;
    } else {
      assert (a + b)[..|a + b| - 1] == a + b[..|b| - 1];
      JoinedSplit(a, b[..|b| - 1]);
    }
  }

  lemma JoinedMore(blocks: seq<Octets>, k: nat)
    ensures Joined(blocks[..0]) == []
    ensures k < |blocks| ==> Joined(blocks[..k + 1]) == Joined(blocks[..k]) + blocks[k]
  {
    if k < |blocks| { assert blocks[..k + 1][..k] == blocks[..k]; }
  }

  method Find(s: Octets, marker: Octets) returns (found: bool, index: nat)
    requires marker != []
    ensures found ==> index <= |s| && First(s, index, marker)
    ensures !found ==> Absent(s, marker)
  {
    index := 0;
    while index + |marker| <= |s|
      invariant forall j :: 0 <= j < index ==> !Occurs(s, j, marker)
    {
      if s[index..index + |marker|] == marker { return true, index; }
      index := index + 1;
    }
    return false, 0;
  }

  // What happens at an occurrence in written + pending depends on pending alone.
  lemma OccursShift(written: Octets, pending: Octets, i: nat, marker: Octets)
    requires i >= |written|
    ensures Occurs(written + pending, i, marker) <==> Occurs(pending, i - |written|, marker)
  {
    var s := written + pending;
    if i + |marker| <= |s| {
      assert s[i..i + |marker|] == pending[i - |written|..i - |written| + |marker|];
    }
  }

  lemma OccursPrefix(s: Octets, more: Octets, i: nat, marker: Octets)
    requires i + |marker| <= |s|
    ensures Occurs(s + more, i, marker) <==> Occurs(s, i, marker)
  {
    assert (s + more)[i..i + |marker|] == s[i..i + |marker|];
  }

  // Keeping the last |marker| bytes is enough: an occurrence that is new with this block
  // cannot begin in what was already written.
  lemma NothingMissed(written: Octets, pending: Octets, block: Octets, marker: Octets)
    requires marker != [] && Absent(written + pending, marker)
    requires written == [] || |pending| >= |marker|
    ensures forall j :: 0 <= j < |written| ==> !Occurs(written + (pending + block), j, marker)
  {
    assert written + (pending + block) == (written + pending) + block;
    forall j | 0 <= j < |written| ensures !Occurs(written + (pending + block), j, marker) {
      OccursPrefix(written + pending, block, j, marker);
    }
  }

  lemma FoundHere(written: Octets, pending: Octets, index: nat, marker: Octets)
    requires First(pending, index, marker)
    requires forall j :: 0 <= j < |written| ==> !Occurs(written + pending, j, marker)
    ensures First(written + pending, |written| + index, marker)
  {
    OccursShift(written, pending, |written| + index, marker);
    forall j | |written| <= j < |written| + index ensures !Occurs(written + pending, j, marker) {
      OccursShift(written, pending, j, marker);
    }
  }

  lemma NotFoundHere(written: Octets, pending: Octets, marker: Octets)
    requires marker != [] && Absent(pending, marker)
    requires forall j :: 0 <= j < |written| ==> !Occurs(written + pending, j, marker)
    ensures Absent(written + pending, marker)
  {
    forall j: nat | |written| <= j < |written + pending| ensures !Occurs(written + pending, j, marker) {
      OccursShift(written, pending, j, marker);
    }
  }

  lemma NothingInNothing(marker: Octets)
    ensures Absent([], marker)
  {
  }

  lemma FirstInWhole(s: Octets, more: Octets, i: nat, marker: Octets)
    requires First(s, i, marker)
    ensures First(s + more, i, marker)
  {
    OccursPrefix(s, more, i, marker);
    forall j | 0 <= j < i ensures !Occurs(s + more, j, marker) { OccursPrefix(s, more, j, marker); }
  }

  // The receiving loop. It succeeds exactly when the marker occurs in the stream, and then
  // has written the stream up to its first occurrence.
  method Receive(blocks: seq<Octets>, marker: Octets) returns (ok: bool, written: Octets)
    requires marker != [] && forall k :: 0 <= k < |blocks| ==> blocks[k] != []
    ensures ok ==> First(Joined(blocks), |written|, marker) && written == Joined(blocks)[..|written|]
    ensures !ok ==> Absent(Joined(blocks), marker)
  {
    hide Occurs, First, Absent, Joined;
    written := [];
    var pending: Octets := [];
    NothingInNothing(marker);
    JoinedMore(blocks, 0);
    for k := 0 to |blocks|
      invariant Joined(blocks[..k]) == written + pending && Absent(written + pending, marker)
      invariant written == [] || |pending| >= |marker|
    {
      NothingMissed(written, pending, blocks[k], marker);
      JoinedMore(blocks, k);
      assert Joined(blocks[..k + 1]) == written + (pending + blocks[k]);
      pending := pending + blocks[k];
      var found, index := Find(pending, marker);
      if found {
        FoundHere(written, pending, index, marker);
        JoinedSplit(blocks[..k + 1], blocks[k + 1..]);
        assert blocks == blocks[..k + 1] + blocks[k + 1..];
        FirstInWhole(written + pending, Joined(blocks[k + 1..]), |written| + index, marker);
        return true, written + pending[..index];
      }
      NotFoundHere(written, pending, marker);
      if |pending| > |marker| {
        var cut := |pending| - |marker|;
        assert written + pending == (written + pending[..cut]) + pending[cut..];
        written, pending := written + pending[..cut], pending[cut..];
      }
    }
    assert blocks[..|blocks|] == blocks;
    return false, written;
  }
}
