// Measuring the filter on held-out corrections: grouping by subject, splitting into
// training, tuning and test parts, freezing a threshold, and checking the report.
module Qualification {
  import opened Wrappers
  import opened Classifier

  datatype Label = Spam | Ham

  // Subject families share a group; hashes are distinct because the store groups by hash.
  datatype Sample = Sample(hash: string, tag: Label, group: string)

  datatype Evidence = Evidence(hash: string, tag: Label, group: string, bucket: nat, score: real, verdict: Verdict, incomplete: bool)
  datatype Report = Report(threshold: real, training: seq<Evidence>, calibration: seq<Evidence>, validation: seq<Evidence>)
  datatype Metrics = Metrics(spamTested: nat, spamDetected: nat, hamTested: nat, falsePositives: nat, falseRescues: nat, incomplete: nat)

  const BUCKETS := 10
  const MINIMUM_RECALL := 90

  predicate HexHash(s: string) {
    |s| == 64 && forall i :: 0 <= i < |s| ==> '0' <= s[i] <= '9' || 'a' <= s[i] <= 'f' || 'A' <= s[i] <= 'F'
  }

  // ----- Greedy assignment of groups to buckets -----

  // How many samples of a group carry this label.
  function GroupCount(samples: seq<Sample>, g: string, tag: Label): nat {
    if samples == [] then 0
    else
      var last := samples[|samples| - 1];
      GroupCount(samples[..|samples| - 1], g, tag) + if last.group == g && last.tag == tag then 1 else 0
  }

  // The first bucket whose present mix costs least.
  method Cheapest(spamIn: array<nat>, hamIn: array<nat>, spam: nat, ham: nat) returns (best: nat)
    requires spamIn.Length == hamIn.Length == BUCKETS
    ensures best < BUCKETS && FirstCheapest(spamIn[..], hamIn[..], spam, ham, best)
  {
    best := 0;
    var least := spamIn[0] * spam + hamIn[0] * ham;
    for b := 1 to BUCKETS
      invariant best < b && least == spamIn[best] * spam + hamIn[best] * ham
      invariant forall c :: 0 <= c < b ==> least <= spamIn[c] * spam + hamIn[c] * ham
      invariant forall c :: 0 <= c < best ==> least < spamIn[c] * spam + hamIn[c] * ham
    {
      var cost := spamIn[b] * spam + hamIn[b] * ham;
      if cost < least { best, least := b, cost; }
    }
  }

  // No bucket has less of what the group brings, and none before this one has as little.
  ghost predicate FirstCheapest(spamIn: seq<nat>, hamIn: seq<nat>, spam: nat, ham: nat, best: nat)
    requires |spamIn| == |hamIn| && best < |spamIn|
  {
    && (forall b :: 0 <= b < |spamIn| ==> spamIn[best] * spam + hamIn[best] * ham <= spamIn[b] * spam + hamIn[b] * ham)
    && forall b :: 0 <= b < best ==> spamIn[best] * spam + hamIn[best] * ham < spamIn[b] * spam + hamIn[b] * ham
  }

  // Buckets 5 and 6 were reserved for the test part: they trade places with 0 and 1.
  function Swapped(b: nat): nat {
    if b == 0 then 5 else if b == 1 then 6 else if b == 5 then 0 else if b == 6 then 1 else b
  }

  ghost predicate GroupsTogether(samples: seq<Sample>, buckets: seq<nat>) {
    |samples| == |buckets| && forall i, j :: 0 <= i < j < |samples| && samples[i].group == samples[j].group ==> buckets[i] == buckets[j]
  }

  // How many samples with this label the groups in `done` have put into the bucket.
  ghost function Inside(samples: seq<Sample>, buckets: seq<nat>, done: set<string>, b: nat, tag: Label): nat
    requires |buckets| == |samples|
  {
    if samples == [] then 0
    else
      var n, last := |samples| - 1, samples[|samples| - 1];
      Inside(samples[..n], buckets[..n], done, b, tag) + if last.group in done && buckets[n] == b && last.tag == tag then 1 else 0
  }

  ghost function Contents(samples: seq<Sample>, buckets: seq<nat>, done: set<string>, tag: Label): (s: seq<nat>)
    requires |buckets| == |samples|
    ensures |s| == BUCKETS
  {
    seq(BUCKETS, b requires 0 <= b < BUCKETS => Inside(samples, buckets, done, b, tag))
  }

  lemma {:induction false} InsideOthers(samples: seq<Sample>, buckets: seq<nat>, after: seq<nat>, done: set<string>, b: nat, tag: Label)
    requires |buckets| == |after| == |samples|
    requires forall i :: 0 <= i < |samples| && samples[i].group in done ==> after[i] == buckets[i]
    ensures Inside(samples, after, done, b, tag) == Inside(samples, buckets, done, b, tag)
  {
    if samples != [] {
      var n := |samples| - 1;
      InsideOthers(samples[..n], buckets[..n], after[..n], done, b, tag);
    }
  }

  lemma {:induction false} InsideMore(samples: seq<Sample>, buckets: seq<nat>, done: set<string>, g: string, best: nat, b: nat, tag: Label)
    requires |buckets| == |samples| && g !in done
    requires forall i :: 0 <= i < |samples| && samples[i].group == g ==> buckets[i] == best
    ensures Inside(samples, buckets, done + {g}, b, tag) == Inside(samples, buckets, done, b, tag) + if b == best then GroupCount(samples, g, tag) else 0
  {
    if samples != [] {
      var n := |samples| - 1;
      InsideMore(samples[..n], buckets[..n], done, g, best, b, tag);
    }
  }

  lemma {:induction false} InsideNone(samples: seq<Sample>, buckets: seq<nat>, b: nat, tag: Label)
    requires |buckets| == |samples|
    ensures Inside(samples, buckets, {}, b, tag) == 0
  {
    if samples != [] { InsideNone(samples[..|samples| - 1], buckets[..|samples| - 1], b, tag); }
  }

  function SizeOf(samples: seq<Sample>, g: string): nat { GroupCount(samples, g, Spam) + GroupCount(samples, g, Ham) }

  // The group went where what the earlier groups left made it cheapest.
  ghost predicate Greedy(samples: seq<Sample>, buckets: seq<nat>, earlier: set<string>, g: string)
    requires |buckets| == |samples|
  {
    forall i :: 0 <= i < |samples| && samples[i].group == g ==>
      && buckets[i] < BUCKETS
      && FirstCheapest(Contents(samples, buckets, earlier, Spam), Contents(samples, buckets, earlier, Ham),
                       GroupCount(samples, g, Spam), GroupCount(samples, g, Ham), buckets[i])
  }

  ghost function Members(order: seq<string>): set<string> { set k | 0 <= k < |order| :: order[k] }

  lemma StillGreedy(samples: seq<Sample>, buckets: seq<nat>, after: seq<nat>, earlier: set<string>, g: string)
    requires |buckets| == |after| == |samples| && Greedy(samples, buckets, earlier, g)
    requires forall i :: 0 <= i < |samples| && samples[i].group in earlier + {g} ==> after[i] == buckets[i]
    ensures Greedy(samples, after, earlier, g)
  {
    hide FirstCheapest, Inside;
    forall b: nat, tag ensures Inside(samples, after, earlier, b, tag) == Inside(samples, buckets, earlier, b, tag) {
      InsideOthers(samples, buckets, after, earlier, b, tag);
    }
    assert Contents(samples, after, earlier, Spam) == Contents(samples, buckets, earlier, Spam);
    assert Contents(samples, after, earlier, Ham) == Contents(samples, buckets, earlier, Ham);
  }

  // The groups in the order they were placed: each once, larger ones first, each greedily.
  ghost predicate Placed(samples: seq<Sample>, buckets: seq<nat>, order: seq<string>) {
    && |buckets| == |samples|
    && (forall i, j :: 0 <= i < j < |order| ==> order[i] != order[j] && SizeOf(samples, order[i]) >= SizeOf(samples, order[j]))
    && forall k :: 0 <= k < |order| ==> Greedy(samples, buckets, Members(order[..k]), order[k])
  }

  lemma PlacedOneMore(samples: seq<Sample>, buckets: seq<nat>, after: seq<nat>, order: seq<string>, g: string, best: nat)
    requires Placed(samples, buckets, order) && g !in order && |after| == |samples| && best < BUCKETS
    requires forall i :: 0 <= i < |samples| ==> after[i] == if samples[i].group == g then best else buckets[i]
    requires forall i :: 0 <= i < |order| ==> SizeOf(samples, order[i]) >= SizeOf(samples, g)
    requires FirstCheapest(Contents(samples, buckets, Members(order), Spam), Contents(samples, buckets, Members(order), Ham),
                           GroupCount(samples, g, Spam), GroupCount(samples, g, Ham), best)
    ensures Placed(samples, after, order + [g])
  {
    hide FirstCheapest, Inside, SizeOf, GroupCount, Greedy;
    var more := order + [g];
    forall k | 0 <= k < |more| ensures Greedy(samples, after, Members(more[..k]), more[k]) {
      assert forall j :: 0 <= j < k ==> order[j] != g;
      if k < |order| {
        assert more[..k] == order[..k];
        StillGreedy(samples, buckets, after, Members(order[..k]), order[k]);
      } else {
        assert more[..k] == order;
        LastGreedy(samples, buckets, after, Members(order), g, best);
      }
    }
  }

  lemma LastGreedy(samples: seq<Sample>, buckets: seq<nat>, after: seq<nat>, earlier: set<string>, g: string, best: nat)
    requires |buckets| == |after| == |samples| && g !in earlier && best < BUCKETS
    requires forall i :: 0 <= i < |samples| ==> after[i] == if samples[i].group == g then best else buckets[i]
    requires FirstCheapest(Contents(samples, buckets, earlier, Spam), Contents(samples, buckets, earlier, Ham),
                           GroupCount(samples, g, Spam), GroupCount(samples, g, Ham), best)
    ensures Greedy(samples, after, earlier, g)
  {
    hide FirstCheapest, Inside;
    forall b: nat, tag ensures Inside(samples, after, earlier, b, tag) == Inside(samples, buckets, earlier, b, tag) {
      InsideOthers(samples, buckets, after, earlier, b, tag);
    }
    assert Contents(samples, after, earlier, Spam) == Contents(samples, buckets, earlier, Spam);
    assert Contents(samples, after, earlier, Ham) == Contents(samples, buckets, earlier, Ham);
  }

  lemma ContentsOneMore(samples: seq<Sample>, buckets: seq<nat>, after: seq<nat>, order: seq<string>, g: string, best: nat, tag: Label)
    requires |buckets| == |after| == |samples| && g !in order && best < BUCKETS
    requires forall i :: 0 <= i < |samples| ==> after[i] == if samples[i].group == g then best else buckets[i]
    ensures
      var before := Contents(samples, buckets, Members(order), tag);
      Contents(samples, after, Members(order + [g]), tag) == before[best := before[best] + GroupCount(samples, g, tag)]
  {
    hide Inside, GroupCount;
    assert Members(order + [g]) == Members(order) + {g} by {
      assert forall k :: 0 <= k < |order| ==> (order + [g])[k] == order[k];
      assert (order + [g])[|order|] == g;
    }
    forall b: nat ensures Inside(samples, after, Members(order) + {g}, b, tag)
                          == Inside(samples, buckets, Members(order), b, tag) + if b == best then GroupCount(samples, g, tag) else 0 {
      InsideOthers(samples, buckets, after, Members(order), b, tag);
      InsideMore(samples, after, Members(order), g, best, b, tag);
    }
  }

  // Puts every group into one bucket, larger groups first; the two counts keep what each
  // bucket holds. Groups of one size may come in any order.
  method AssignBuckets(samples: seq<Sample>) returns (buckets: array<nat>, ghost order: seq<string>)
    ensures fresh(buckets) && buckets.Length == |samples|
    ensures GroupsTogether(samples, buckets[..]) && forall i :: 0 <= i < |samples| ==> buckets[i] < BUCKETS
    ensures Placed(samples, buckets[..], order) && forall i :: 0 <= i < |samples| ==> samples[i].group in order
  {
    hide FirstCheapest, SizeOf, GroupCount, Placing, Placed, GroupsTogether;
    buckets := new nat[|samples|](_ => 0);
    var spamIn, hamIn := new nat[BUCKETS](_ => 0), new nat[BUCKETS](_ => 0);
    order := [];
    var todo := set s | s in samples :: s.group;
    NothingPlaced(samples, buckets[..], spamIn[..], hamIn[..], todo);
    while todo != {}
      invariant spamIn.Length == hamIn.Length == BUCKETS && fresh(spamIn) && fresh(hamIn) && fresh(buckets) && buckets.Length == |samples|
      invariant spamIn != hamIn && spamIn != buckets && hamIn != buckets
      invariant Placing(samples, buckets[..], spamIn[..], hamIn[..], order, todo)
      decreases todo
    {
      var g := Largest(samples, todo);
      var spam, ham := CountGroup(samples, g);
      var best := Cheapest(spamIn, hamIn, spam, ham);
      ghost var before, spamBefore, hamBefore := buckets[..], spamIn[..], hamIn[..];
      PutGroup(samples, g, best, buckets);
      spamIn[best], hamIn[best] := spamIn[best] + spam, hamIn[best] + ham;
      PlacedNext(samples, before, buckets[..], spamBefore, hamBefore, spamIn[..], hamIn[..], order, todo, g, best);
      todo, order := todo - {g}, order + [g];
    }
    AllPlaced(samples, buckets[..], spamIn[..], hamIn[..], order);
  }

  // How far the placing has come: what is placed, what each bucket holds, what is to come.
  ghost predicate Placing(samples: seq<Sample>, buckets: seq<nat>, spamIn: seq<nat>, hamIn: seq<nat>, order: seq<string>, todo: set<string>) {
    && |buckets| == |samples| && Placed(samples, buckets, order) && GroupedIn(samples, buckets, order)
    && spamIn == Contents(samples, buckets, Members(order), Spam) && hamIn == Contents(samples, buckets, Members(order), Ham)
    && ToPlace(samples, buckets, order, todo)
  }

  // The groups to come are those not placed yet, and none is larger than a placed one.
  ghost predicate ToPlace(samples: seq<Sample>, buckets: seq<nat>, order: seq<string>, todo: set<string>) {
    && |buckets| == |samples|
    && (forall i :: 0 <= i < |samples| ==> buckets[i] < BUCKETS && (samples[i].group in order || samples[i].group in todo))
    && (forall g :: g in todo ==> g !in order)
    && forall k, g :: 0 <= k < |order| && g in todo ==> SizeOf(samples, order[k]) >= SizeOf(samples, g)
  }

  lemma ToPlaceNext(samples: seq<Sample>, buckets: seq<nat>, after: seq<nat>, order: seq<string>, todo: set<string>, g: string, best: nat)
    requires ToPlace(samples, buckets, order, todo) && |after| == |samples| && best < BUCKETS
    requires g in todo && forall h :: h in todo ==> SizeOf(samples, h) <= SizeOf(samples, g)
    requires forall i :: 0 <= i < |samples| ==> after[i] == if samples[i].group == g then best else buckets[i]
    ensures ToPlace(samples, after, order + [g], todo - {g})
    ensures g !in order && forall i :: 0 <= i < |order| ==> SizeOf(samples, order[i]) >= SizeOf(samples, g)
  {
    hide SizeOf;
  }

  lemma NothingPlaced(samples: seq<Sample>, buckets: seq<nat>, spamIn: seq<nat>, hamIn: seq<nat>, todo: set<string>)
    requires |buckets| == |samples| && todo == set s | s in samples :: s.group
    requires spamIn == seq(BUCKETS, _ => 0) && hamIn == seq(BUCKETS, _ => 0) && forall i :: 0 <= i < |samples| ==> buckets[i] == 0
    ensures Placing(samples, buckets, spamIn, hamIn, [], todo)
  {
    hide Inside, SizeOf;
    assert Members([]) == {};
    forall b: nat, tag ensures Inside(samples, buckets, {}, b, tag) == 0 { InsideNone(samples, buckets, b, tag); }
    assert spamIn == Contents(samples, buckets, {}, Spam) && hamIn == Contents(samples, buckets, {}, Ham);
  }

  lemma PlacedNext(samples: seq<Sample>, buckets: seq<nat>, after: seq<nat>, spamIn: seq<nat>, hamIn: seq<nat>, spamAfter: seq<nat>, hamAfter: seq<nat>,
                   order: seq<string>, todo: set<string>, g: string, best: nat)
    requires Placing(samples, buckets, spamIn, hamIn, order, todo) && |after| == |samples|
    requires g in todo && forall h :: h in todo ==> SizeOf(samples, h) <= SizeOf(samples, g)
    requires forall i :: 0 <= i < |samples| ==> after[i] == if samples[i].group == g then best else buckets[i]
    requires best < BUCKETS && FirstCheapest(spamIn, hamIn, GroupCount(samples, g, Spam), GroupCount(samples, g, Ham), best)
    requires spamAfter == spamIn[best := spamIn[best] + GroupCount(samples, g, Spam)]
    requires hamAfter == hamIn[best := hamIn[best] + GroupCount(samples, g, Ham)]
    ensures Placing(samples, after, spamAfter, hamAfter, order + [g], todo - {g})
  {
    hide FirstCheapest, Inside, SizeOf, GroupCount, Contents, Greedy, Placed, GroupedIn, ToPlace, Members;
    ToPlaceNext(samples, buckets, after, order, todo, g, best);
    PlacedOneMore(samples, buckets, after, order, g, best);
    ContentsOneMore(samples, buckets, after, order, g, best, Spam);
    ContentsOneMore(samples, buckets, after, order, g, best, Ham);
    GroupedOneMore(samples, buckets, after, order, g, best);
  }

  lemma AllPlaced(samples: seq<Sample>, buckets: seq<nat>, spamIn: seq<nat>, hamIn: seq<nat>, order: seq<string>)
    requires Placing(samples, buckets, spamIn, hamIn, order, {})
    ensures GroupsTogether(samples, buckets) && Placed(samples, buckets, order)
    ensures forall i :: 0 <= i < |samples| ==> buckets[i] < BUCKETS && samples[i].group in order
  {
    hide Placed, SizeOf, Contents;
  }

  // Samples of one placed group share a bucket.
  ghost predicate GroupedIn(samples: seq<Sample>, buckets: seq<nat>, order: seq<string>) {
    && |buckets| == |samples|
    && forall i, j :: 0 <= i < j < |samples| && samples[i].group in order && samples[i].group == samples[j].group ==> buckets[i] == buckets[j]
  }

  lemma GroupedOneMore(samples: seq<Sample>, buckets: seq<nat>, after: seq<nat>, order: seq<string>, g: string, best: nat)
    requires GroupedIn(samples, buckets, order) && |after| == |samples|
    requires forall i :: 0 <= i < |samples| ==> after[i] == if samples[i].group == g then best else buckets[i]
    ensures GroupedIn(samples, after, order + [g])
  {
  }

  method Largest(samples: seq<Sample>, groups: set<string>) returns (g: string)
    requires groups != {}
    ensures g in groups && forall h :: h in groups ==> SizeOf(samples, h) <= SizeOf(samples, g)
  {
    hide SizeOf;
    g :| g in groups;
    var rest := groups - {g};
    while rest != {}
      invariant g in groups && rest <= groups
      invariant forall h :: h in groups - rest ==> SizeOf(samples, h) <= SizeOf(samples, g)
      decreases rest
    {
      var h :| h in rest;
      rest := rest - {h};
      if SizeOf(samples, h) > SizeOf(samples, g) { g := h; }
    }
  }

  method CountGroup(samples: seq<Sample>, g: string) returns (spam: nat, ham: nat)
    ensures spam == GroupCount(samples, g, Spam) && ham == GroupCount(samples, g, Ham)
  {
    spam, ham := 0, 0;
    for i := 0 to |samples|
      invariant spam == GroupCount(samples[..i], g, Spam) && ham == GroupCount(samples[..i], g, Ham)
    {
      assert samples[..i + 1][..i] == samples[..i];
      if samples[i].group == g {
        if samples[i].tag == Spam { spam := spam + 1; } else { ham := ham + 1; }
      }
    }
    assert samples[..|samples|] == samples;
  }

  method PutGroup(samples: seq<Sample>, g: string, b: nat, buckets: array<nat>)
    requires buckets.Length == |samples| && b < BUCKETS
    modifies buckets
    ensures forall i :: 0 <= i < |samples| ==> buckets[i] == if samples[i].group == g then b else old(buckets[i])
  {
    for i := 0 to |samples|
      invariant forall k :: 0 <= k < |samples| ==> buckets[k] == if k < i && samples[k].group == g then b else old(buckets[k])
    {
      if samples[i].group == g { buckets[i] := b; }
    }
  }

  // The reserved buckets change places, entry by entry.
  method SwapReserved(buckets: array<nat>)
    modifies buckets
    ensures forall i :: 0 <= i < buckets.Length ==> buckets[i] == Swapped(old(buckets[i]))
  {
    for i := 0 to buckets.Length
      invariant forall k :: 0 <= k < buckets.Length ==> buckets[k] == if k < i then Swapped(old(buckets[k])) else old(buckets[k])
    {
      match buckets[i] {
        case 0 => buckets[i] := 5;
        case 1 => buckets[i] := 6;
        case 5 => buckets[i] := 0;
        case 6 => buckets[i] := 1;
        case _ =>
      }
    }
  }

  // ----- Roles -----

  datatype Role = Training | Calibration | Validation

  function RoleOf(bucket: nat): Role {
    if bucket >= 3 then Training else if bucket == 2 then Calibration else Validation
  }

  // The evidence of one part, in any order: exactly the samples whose bucket has that role,
  // each with what the scan of that very sample gave.
  ghost predicate Covers(part: seq<Evidence>, samples: seq<Sample>, buckets: seq<nat>, role: Role, scans: map<string, Scan>)
    requires |samples| == |buckets|
  {
    && (forall i :: 0 <= i < |part| ==> exists k :: FromSample(part[i], samples, buckets, k) && RoleOf(buckets[k]) == role)
    && (forall i, j :: 0 <= i < j < |part| ==> part[i].hash != part[j].hash)
    && (role != Training ==> forall i :: 0 <= i < |part| ==> Measured(part[i], scans))
  }

  ghost predicate FromSample(e: Evidence, samples: seq<Sample>, buckets: seq<nat>, k: int)
    requires |samples| == |buckets|
  {
    0 <= k < |samples| && e.hash == samples[k].hash && e.tag == samples[k].tag && e.group == samples[k].group && e.bucket == buckets[k]
  }

  // The evidence records the scan's score and its verdict at the measuring threshold.
  ghost predicate Measured(e: Evidence, scans: map<string, Scan>) {
    && e.hash in scans && e.score == scans[e.hash].score
    && e.verdict == DeliveryVerdict(scans[e.hash], MEASURED_AT, HAM_AT, true)
    && e.incomplete == Incomplete(scans[e.hash])
  }

  // One sample's evidence; training samples are learned, not scanned.
  method Observe(samples: seq<Sample>, buckets: seq<nat>, k: nat, role: Role, scans: map<string, Scan>) returns (ok: bool, e: Evidence)
    requires k < |samples| == |buckets|
    ensures ok ==> FromSample(e, samples, buckets, k) && e.hash == samples[k].hash && (role != Training ==> Measured(e, scans))
    ensures ok <==> role == Training || samples[k].hash in scans
  {
    var s := samples[k];
    e := Evidence(s.hash, s.tag, s.group, buckets[k], 0.0, Unknown, false);
    if role != Training {
      if s.hash !in scans { return false, e; }
      var r := scans[s.hash];
      e := e.(score := r.score, verdict := DeliveryVerdict(r, MEASURED_AT, HAM_AT, true), incomplete := Incomplete(r));
    }
    ok := true;
  }

  // Several workers scan the selected samples; results arrive in any order.
  method ScanPart(samples: seq<Sample>, buckets: seq<nat>, role: Role, scans: map<string, Scan>) returns (ok: bool, part: seq<Evidence>)
    requires |samples| == |buckets| && forall i, j :: 0 <= i < j < |samples| ==> samples[i].hash != samples[j].hash
    ensures ok ==> Covers(part, samples, buckets, role, scans)
    ensures ok ==> forall k :: 0 <= k < |samples| && RoleOf(buckets[k]) == role ==> exists i :: 0 <= i < |part| && part[i].hash == samples[k].hash
    ensures ok <==> role == Training || forall k :: 0 <= k < |samples| && RoleOf(buckets[k]) == role ==> samples[k].hash in scans
  {
    hide FromSample, Measured;
    part := [];
    var todo := set k: nat | k < |samples| && RoleOf(buckets[k]) == role;
    while todo != {}
      invariant Covers(part, samples, buckets, role, scans)
      invariant forall k :: k in todo ==> 0 <= k < |samples| && RoleOf(buckets[k]) == role
      invariant forall i, k :: 0 <= i < |part| && k in todo ==> part[i].hash != samples[k].hash
      invariant forall k :: 0 <= k < |samples| && RoleOf(buckets[k]) == role ==>
        k in todo || exists i :: 0 <= i < |part| && part[i].hash == samples[k].hash
      invariant role != Training ==> forall k :: 0 <= k < |samples| && RoleOf(buckets[k]) == role ==> k in todo || samples[k].hash in scans
      decreases todo
    {
      var k :| k in todo;
      todo := todo - {k};
      var e;
      ok, e := Observe(samples, buckets, k, role, scans);
      if !ok { return; }
      ghost var before := part;
      part := part + [e];
      forall m | 0 <= m < |samples| && RoleOf(buckets[m]) == role && m !in todo
        ensures exists i :: 0 <= i < |part| && part[i].hash == samples[m].hash
      {
        if m == k {
          assert part[|before|].hash == samples[m].hash;
        } else {
          var i :| 0 <= i < |before| && before[i].hash == samples[m].hash;
          assert part[i].hash == samples[m].hash;
        }
      }
    }
    ok := true;
  }

  // ----- The threshold -----

  ghost predicate Frozen(threshold: real, calibration: seq<Evidence>) {
    && threshold >= MEASURED_AT
    && (forall i :: 0 <= i < |calibration| && calibration[i].tag == Ham ==> calibration[i].score + 1.0 <= threshold)
    && (threshold == MEASURED_AT || exists i :: 0 <= i < |calibration| && calibration[i].tag == Ham && calibration[i].score + 1.0 == threshold)
  }

  // One point above the highest ham of the tuning part, and never below the measuring one.
  method FreezeThreshold(calibration: seq<Evidence>) returns (threshold: real)
    ensures Frozen(threshold, calibration)
  {
    threshold := MEASURED_AT;
    for i := 0 to |calibration|
      invariant threshold >= MEASURED_AT
      invariant forall k :: 0 <= k < i && calibration[k].tag == Ham ==> calibration[k].score + 1.0 <= threshold
      invariant threshold == MEASURED_AT || exists k :: 0 <= k < i && calibration[k].tag == Ham && calibration[k].score + 1.0 == threshold
    {
      if calibration[i].tag == Ham && calibration[i].score + 1.0 > threshold { threshold := calibration[i].score + 1.0; }
    }
  }

  lemma FrozenUnique(t: real, u: real, calibration: seq<Evidence>)
    requires Frozen(t, calibration) && Frozen(u, calibration)
    ensures t == u
  {
  }

  // ----- Metrics -----

  predicate Detected(e: Evidence, threshold: real) { e.verdict == SpamVerdict && e.score >= threshold }

  function Tested(part: seq<Evidence>, wanted: Evidence -> bool): nat {
    if part == [] then 0 else Tested(part[..|part| - 1], wanted) + if wanted(part[|part| - 1]) then 1 else 0
  }

  function MetricsOf(part: seq<Evidence>, threshold: real): Metrics {
    Metrics(Tested(part, (e: Evidence) => e.tag == Spam),
            Tested(part, (e: Evidence) => e.tag == Spam && Detected(e, threshold)),
            Tested(part, (e: Evidence) => e.tag == Ham),
            Tested(part, (e: Evidence) => e.tag == Ham && Detected(e, threshold)),
            Tested(part, (e: Evidence) => e.tag == Spam && e.verdict == HamVerdict),
            Tested(part, (e: Evidence) => e.incomplete))
  }

  method Measure(part: seq<Evidence>, threshold: real) returns (m: Metrics)
    ensures m == MetricsOf(part, threshold)
  {
    m := Metrics(0, 0, 0, 0, 0, 0);
    for i := 0 to |part|
      invariant m == MetricsOf(part[..i], threshold)
    {
      var e := part[i];
      assert part[..i + 1][..i] == part[..i];
      var detected := Detected(e, threshold);
      if e.tag == Spam {
        m := m.(spamTested := m.spamTested + 1);
        if detected { m := m.(spamDetected := m.spamDetected + 1); }
        if e.verdict == HamVerdict { m := m.(falseRescues := m.falseRescues + 1); }
      } else {
        m := m.(hamTested := m.hamTested + 1);
        if detected { m := m.(falsePositives := m.falsePositives + 1); }
      }
      if e.incomplete { m := m.(incomplete := m.incomplete + 1); }
    }
    assert part[..|part|] == part;
  }

  // ----- What a report must be -----

  ghost predicate AllDistinct(r: Report) {
    var all := r.training + r.calibration + r.validation;
    forall i, j :: 0 <= i < j < |all| ==> all[i].hash != all[j].hash
  }

  function RoleAt(r: Report, i: nat): Role {
    if i < |r.training| then Training else if i < |r.training| + |r.calibration| then Calibration else Validation
  }

  ghost predicate GroupsDisjoint(r: Report) {
    var all := r.training + r.calibration + r.validation;
    forall i: nat, j: nat :: i < j < |all| && all[i].group == all[j].group ==> RoleAt(r, i) == RoleAt(r, j)
  }

  // The structural checks: no example twice, no subject family across the parts, and the
  // threshold that the tuning part dictates.
  ghost predicate Structured(r: Report) {
    AllDistinct(r) && GroupsDisjoint(r) && Frozen(r.threshold, r.calibration)
  }

  function All(r: Report): seq<Evidence> { r.training + r.calibration + r.validation }

  ghost predicate AllHex(r: Report) {
    forall i :: 0 <= i < |All(r)| ==> HexHash(All(r)[i].hash) && HexHash(All(r)[i].group)
  }

  // ----- Building a report -----

  // Two pieces of evidence with one hash or one group come from samples of one role.
  lemma SameRole(e: Evidence, f: Evidence, samples: seq<Sample>, buckets: seq<nat>, k: int, m: int)
    requires GroupsTogether(samples, buckets) && FromSample(e, samples, buckets, k) && FromSample(f, samples, buckets, m)
    requires forall i, j :: 0 <= i < j < |samples| ==> samples[i].hash != samples[j].hash
    ensures e.hash == f.hash ==> k == m
    ensures e.group == f.group ==> RoleOf(buckets[k]) == RoleOf(buckets[m])
  {
    if k < m && e.group == f.group { assert samples[k].group == samples[m].group; }
    if m < k && e.group == f.group { assert samples[m].group == samples[k].group; }
  }

  // Where each piece of evidence of a report comes from.
  ghost predicate Sourced(r: Report, samples: seq<Sample>, buckets: seq<nat>, i: nat, k: int)
    requires |samples| == |buckets|
  {
    i < |All(r)| && FromSample(All(r)[i], samples, buckets, k) && RoleOf(buckets[k]) == RoleAt(r, i)
  }

  lemma EverySourced(r: Report, samples: seq<Sample>, buckets: seq<nat>, scans: map<string, Scan>, i: nat) returns (k: int)
    requires |samples| == |buckets| && i < |All(r)|
    requires Covers(r.training, samples, buckets, Training, scans)
    requires Covers(r.calibration, samples, buckets, Calibration, scans)
    requires Covers(r.validation, samples, buckets, Validation, scans)
    ensures Sourced(r, samples, buckets, i, k)
  {
    var t, c := |r.training|, |r.calibration|;
    if i < t {
      k := SampleIndex(r.training, samples, buckets, Training, scans, i);
    } else if i < t + c {
      k := SampleIndex(r.calibration, samples, buckets, Calibration, scans, i - t);
    } else {
      k := SampleIndex(r.validation, samples, buckets, Validation, scans, i - t - c);
    }
  }

  lemma SampleIndex(part: seq<Evidence>, samples: seq<Sample>, buckets: seq<nat>, role: Role, scans: map<string, Scan>, i: nat) returns (k: int)
    requires |samples| == |buckets| && Covers(part, samples, buckets, role, scans) && i < |part|
    ensures FromSample(part[i], samples, buckets, k) && RoleOf(buckets[k]) == role
  {
    k :| FromSample(part[i], samples, buckets, k) && RoleOf(buckets[k]) == role;
  }

  lemma ReportStructured(r: Report, samples: seq<Sample>, buckets: seq<nat>, scans: map<string, Scan>)
    requires |samples| == |buckets| && GroupsTogether(samples, buckets)
    requires forall i, j :: 0 <= i < j < |samples| ==> samples[i].hash != samples[j].hash
    requires forall i :: 0 <= i < |samples| ==> HexHash(samples[i].hash) && HexHash(samples[i].group)
    requires Covers(r.training, samples, buckets, Training, scans)
    requires Covers(r.calibration, samples, buckets, Calibration, scans)
    requires Covers(r.validation, samples, buckets, Validation, scans)
    ensures AllDistinct(r) && GroupsDisjoint(r) && AllHex(r)
  {
    hide GroupsTogether;
    forall i: nat, j: nat | i < j < |All(r)|
      ensures All(r)[i].hash != All(r)[j].hash && (All(r)[i].group == All(r)[j].group ==> RoleAt(r, i) == RoleAt(r, j))
    {
      var k := EverySourced(r, samples, buckets, scans, i);
      var m := EverySourced(r, samples, buckets, scans, j);
      SameRole(All(r)[i], All(r)[j], samples, buckets, k, m);
      if RoleAt(r, i) == RoleAt(r, j) { DistinctWithin(r, samples, buckets, scans, i, j); }
    }
    forall i: nat | i < |All(r)| ensures HexHash(All(r)[i].hash) && HexHash(All(r)[i].group) {
      var k := EverySourced(r, samples, buckets, scans, i);
    }
  }

  lemma DistinctWithin(r: Report, samples: seq<Sample>, buckets: seq<nat>, scans: map<string, Scan>, i: nat, j: nat)
    requires |samples| == |buckets| && i < j < |All(r)| && RoleAt(r, i) == RoleAt(r, j)
    requires Covers(r.training, samples, buckets, Training, scans)
    requires Covers(r.calibration, samples, buckets, Calibration, scans)
    requires Covers(r.validation, samples, buckets, Validation, scans)
    ensures All(r)[i].hash != All(r)[j].hash
  {
    hide FromSample, Measured, RoleOf;
    var t, c := |r.training|, |r.calibration|;
    if i < t {
      assert All(r)[i] == r.training[i] && All(r)[j] == r.training[j];
    } else if i < t + c {
      assert All(r)[i] == r.calibration[i - t] && All(r)[j] == r.calibration[j - t];
    } else {
      assert All(r)[i] == r.validation[i - t - c] && All(r)[j] == r.validation[j - t - c];
    }
  }

  // What the test part detects at the frozen threshold is what production would move.
  ghost predicate Faithful(r: Report, scans: map<string, Scan>) {
    forall i :: 0 <= i < |r.validation| ==>
      var e := r.validation[i];
      && e.hash in scans
      && (Detected(e, r.threshold) <==> DeliveryVerdict(scans[e.hash], r.threshold, HAM_AT, true) == SpamVerdict)
      && (e.verdict == HamVerdict <==> DeliveryVerdict(scans[e.hash], r.threshold, HAM_AT, true) == HamVerdict)
  }

  // The parts are the buckets, after the reserved ones have traded places.
  ghost predicate SplitAs(r: Report, samples: seq<Sample>, placed: seq<nat>, scans: map<string, Scan>) {
    && |placed| == |samples|
    && var final := seq(|samples|, i requires 0 <= i < |samples| => Swapped(placed[i]));
    && Covers(r.training, samples, final, Training, scans) && Covers(r.calibration, samples, final, Calibration, scans)
    && Covers(r.validation, samples, final, Validation, scans)
  }

  ghost predicate Used(r: Report, s: Sample) {
    exists i :: 0 <= i < |All(r)| && All(r)[i].hash == s.hash
  }

  // The whole measurement. Its report always passes the structural checks.
  method Qualify(samples: seq<Sample>, scans: map<string, Scan>) returns (ok: bool, r: Report, ghost placed: seq<nat>, ghost order: seq<string>)
    requires forall i, j :: 0 <= i < j < |samples| ==> samples[i].hash != samples[j].hash
    requires forall i :: 0 <= i < |samples| ==> HexHash(samples[i].hash) && HexHash(samples[i].group)
    ensures ok ==> Structured(r) && AllHex(r) && Faithful(r, scans)
    ensures ok ==> forall k :: 0 <= k < |samples| ==> Used(r, samples[k])
    ensures (forall k :: 0 <= k < |samples| ==> samples[k].hash in scans) ==> ok
    ensures Placed(samples, placed, order) && forall i :: 0 <= i < |samples| ==> samples[i].group in order
    ensures ok ==> SplitAs(r, samples, placed, scans)
    ensures ok ==> (forall e :: e in r.training ==> e.bucket >= 3) && forall e :: e in r.calibration ==> e.bucket == 2
    ensures ok ==> forall e :: e in r.validation ==> e.bucket < 2
  {
    hide Covers, DeliveryVerdict, Frozen, HexHash, Used, Placed;
    r := Report(MEASURED_AT, [], [], []);
    var buckets;
    buckets, order := AssignBuckets(samples);
    ghost var before := buckets[..];
    placed := before;
    SwapReserved(buckets);
    var final := buckets[..];
    assert GroupsTogether(samples, final) by {
      assert forall i :: 0 <= i < |samples| ==> final[i] == Swapped(before[i]);
    }
    var training, calibration, validation;
    ok, training := ScanPart(samples, final, Training, scans);
    if !ok { return; }
    ok, calibration := ScanPart(samples, final, Calibration, scans);
    if !ok { return; }
    var threshold := FreezeThreshold(calibration);
    ok, validation := ScanPart(samples, final, Validation, scans);
    if !ok { return; }
    r := Report(threshold, training, calibration, validation);
    assert final == seq(|samples|, i requires 0 <= i < |samples| => Swapped(placed[i]));
    BucketsOf(training, samples, final, Training, scans);
    BucketsOf(calibration, samples, final, Calibration, scans);
    BucketsOf(validation, samples, final, Validation, scans);
    ReportStructured(r, samples, final, scans);
    ReportFaithful(r, samples, final, scans);
    forall k | 0 <= k < |samples| ensures Used(r, samples[k]) {
      EverySampleUsed(r, samples, final, k);
    }
  }

  lemma BucketsOf(part: seq<Evidence>, samples: seq<Sample>, buckets: seq<nat>, role: Role, scans: map<string, Scan>)
    requires |samples| == |buckets| && Covers(part, samples, buckets, role, scans)
    ensures forall e :: e in part ==> if role == Training then e.bucket >= 3 else if role == Calibration then e.bucket == 2 else e.bucket < 2
  {
    hide Measured;
    forall e | e in part ensures RoleOf(e.bucket) == role {
      var i :| 0 <= i < |part| && part[i] == e;
      var k := SampleIndex(part, samples, buckets, role, scans, i);
    }
  }

  lemma ReportFaithful(r: Report, samples: seq<Sample>, buckets: seq<nat>, scans: map<string, Scan>)
    requires |samples| == |buckets| && Covers(r.validation, samples, buckets, Validation, scans) && Frozen(r.threshold, r.calibration)
    ensures Faithful(r, scans)
  {
    hide DeliveryVerdict;
    forall i | 0 <= i < |r.validation|
      ensures
        var e := r.validation[i];
        && Measured(e, scans)
        && (Detected(e, r.threshold) <==> DeliveryVerdict(scans[e.hash], r.threshold, HAM_AT, true) == SpamVerdict)
        && (e.verdict == HamVerdict <==> DeliveryVerdict(scans[e.hash], r.threshold, HAM_AT, true) == HamVerdict)
    {
      MeasuredIsProduction(scans[r.validation[i].hash], r.threshold);
    }
  }

  lemma EverySampleUsed(r: Report, samples: seq<Sample>, buckets: seq<nat>, k: nat)
    requires |samples| == |buckets| && k < |samples|
    requires RoleOf(buckets[k]) == Training ==> exists i :: 0 <= i < |r.training| && r.training[i].hash == samples[k].hash
    requires RoleOf(buckets[k]) == Calibration ==> exists i :: 0 <= i < |r.calibration| && r.calibration[i].hash == samples[k].hash
    requires RoleOf(buckets[k]) == Validation ==> exists i :: 0 <= i < |r.validation| && r.validation[i].hash == samples[k].hash
    ensures Used(r, samples[k])
  {
    var t, c := |r.training|, |r.calibration|;
    match RoleOf(buckets[k])
    case Training =>
      var i :| 0 <= i < t && r.training[i].hash == samples[k].hash;
      assert All(r)[i].hash == samples[k].hash;
    case Calibration =>
      var i :| 0 <= i < c && r.calibration[i].hash == samples[k].hash;
      assert All(r)[t + i].hash == samples[k].hash;
    case Validation =>
      var i :| 0 <= i < |r.validation| && r.validation[i].hash == samples[k].hash;
      assert All(r)[t + c + i].hash == samples[k].hash;
  }

  // ----- Checking a report -----

  datatype Rules = Rules(spamScore: real, hamScore: real, requireAuth: bool, spamLearned: nat, hamLearned: nat)

  const MIN_LEARNS := 100

  predicate Close(a: real, b: real) { -0.000001 <= a - b <= 0.000001 }

  predicate Passing(m: Metrics) {
    && m.spamTested >= 40 && m.hamTested >= 30 && m.spamDetected * 100 >= m.spamTested * MINIMUM_RECALL
    && m.falsePositives == 0 && m.falseRescues == 0
  }

  predicate RulesHold(r: Report, c: Rules) {
    && c.spamLearned >= MIN_LEARNS && c.hamLearned >= MIN_LEARNS
    && r.threshold >= MEASURED_AT && Close(r.threshold, c.spamScore) && c.hamScore == HAM_AT && c.requireAuth
  }

  function Labelled(part: seq<Evidence>, tag: Label): nat { Tested(part, (e: Evidence) => e.tag == tag) }

  predicate EnoughExamples(r: Report) {
    && Labelled(r.training, Spam) >= 100 && Labelled(r.training, Ham) >= 100
    && Labelled(r.calibration, Spam) >= 20 && Labelled(r.calibration, Ham) >= 10
  }

  ghost predicate Valid(r: Report, c: Rules) {
    && RulesHold(r, c) && AllHex(r) && AllDistinct(r) && GroupsDisjoint(r) && EnoughExamples(r)
    && (exists t :: Frozen(t, r.calibration) && Close(t, r.threshold))
    && Passing(MetricsOf(r.validation, r.threshold))
  }

  // No hash is malformed or appears twice.
  method CheckHashes(all: seq<Evidence>) returns (ok: bool)
    ensures ok ==> forall i :: 0 <= i < |all| ==> HexHash(all[i].hash) && HexHash(all[i].group)
    ensures ok ==> forall i, j :: 0 <= i < j < |all| ==> all[i].hash != all[j].hash
    ensures !ok ==>
      || (exists i :: 0 <= i < |all| && !(HexHash(all[i].hash) && HexHash(all[i].group)))
      || (exists i, j :: 0 <= i < j < |all| && all[i].hash == all[j].hash)
  {
    hide HexHash;
    var hashes: set<string> := {};
    for i := 0 to |all|
      invariant forall j :: 0 <= j < i ==> HexHash(all[j].hash) && HexHash(all[j].group)
      invariant hashes == set j | 0 <= j < i :: all[j].hash
      invariant forall j, k :: 0 <= j < k < i ==> all[j].hash != all[k].hash
    {
      if !HexHash(all[i].hash) || !HexHash(all[i].group) || all[i].hash in hashes { return false; }
      hashes := hashes + {all[i].hash};
    }
    ok := true;
  }

  // No group appears in two parts; `groups` remembers the part of each group.
  method CheckGroups(r: Report) returns (ok: bool)
    ensures ok <==> GroupsDisjoint(r)
  {
    hide RoleAt;
    var groups: map<string, Role> := map[];
    var all := All(r);
    for i := 0 to |all|
      invariant forall j: nat :: j < i ==> all[j].group in groups && groups[all[j].group] == RoleAt(r, j)
      invariant forall g :: g in groups ==> exists j: nat :: j < i && all[j].group == g
    {
      var g := all[i].group;
      if g in groups && groups[g] != RoleAt(r, i) {
        ghost var j: nat :| j < i && all[j].group == g;
        return false;
      }
      groups := groups[g := RoleAt(r, i)];
    }
    ok := true;
  }

  method CountLabel(part: seq<Evidence>, tag: Label) returns (n: nat)
    ensures n == Labelled(part, tag)
  {
    n := 0;
    for i := 0 to |part|
      invariant n == Labelled(part[..i], tag)
    {
      assert part[..i + 1][..i] == part[..i];
      if part[i].tag == tag { n := n + 1; }
    }
    assert part[..|part|] == part;
  }

  // Validate accepts exactly the reports that meet every requirement.
  method Validate(r: Report, c: Rules) returns (ok: bool)
    ensures ok <==> Valid(r, c)
  {
    hide HexHash, GroupsDisjoint, Frozen, Labelled, MetricsOf, Close;
    if c.spamLearned < MIN_LEARNS || c.hamLearned < MIN_LEARNS { return false; }
    if r.threshold < 6.0 || !Close(r.threshold, c.spamScore) || c.hamScore != -2.0 || !c.requireAuth { return false; }
    ok := CheckHashes(All(r));
    if !ok { return; }
    ok := CheckGroups(r);
    if !ok { return; }
    var trainSpam := CountLabel(r.training, Spam);
    var trainHam := CountLabel(r.training, Ham);
    var tuneSpam := CountLabel(r.calibration, Spam);
    var tuneHam := CountLabel(r.calibration, Ham);
    if trainSpam < 100 || trainHam < 100 || tuneSpam < 20 || tuneHam < 10 { return false; }
    var threshold := FreezeThreshold(r.calibration);
    forall t | Frozen(t, r.calibration) ensures t == threshold { FrozenUnique(t, threshold, r.calibration); }
    if !Close(threshold, r.threshold) { return false; }
    var m := Measure(r.validation, r.threshold);
    if m.spamTested < 40 || m.hamTested < 30 { return false; }
    if m.falsePositives != 0 || m.falseRescues != 0 { return false; }
    ok := m.spamDetected * 100 >= m.spamTested * 90;
  }

  // A report the measurement built fails validation only for what was measured or for the
  // rules in force, never for its structure.
  lemma BuiltReportsAreValid(r: Report, c: Rules)
    requires Structured(r) && AllHex(r)
    ensures Valid(r, c) <==> (RulesHold(r, c) && EnoughExamples(r) && Passing(MetricsOf(r.validation, r.threshold)))
  {
    assert Close(r.threshold, r.threshold);
  }
}
