// The comparison of two fenced Redis servers: success must mean equal key spaces.
module Compare {
  import opened Wrappers
  import opened Resp
  import opened Sorting

  // ----- What the two servers hold -----

  datatype Score = Number(value: real) | NaN
  datatype Datum =
    | Text(data: Bytes)
    | Listing(items: seq<Bytes>)
    | Collection(members: set<Bytes>)
    | Table(fields: map<Bytes, (Bytes, int)>)
    | Ranking(scores: map<Bytes, Score>)

  // `expires` is absolute milliseconds, or -1 for never.
  datatype Entry = Entry(datum: Datum, expires: int)
  type Database = map<Bytes, Entry>

  // ----- What a reader returns -----

  datatype Kind = StringKind | ListKind | SetKind | HashKind | SortedKind | OtherKind
  datatype Field = Field(name: Bytes, value: Bytes, expires: int)
  datatype Member = Member(name: Bytes, score: Score)
  datatype Reply = Reply(kind: Kind, expires: int, text: Bytes, list: seq<Bytes>, items: seq<Bytes>, hash: seq<Field>, sorted: seq<Member>)

  datatype Metadata = Metadata(version: string, runId: string, databases: int, complete: bool,
                               cluster: bool, modules: bool, functions: bool, other: bool, millis: int,
                               expiredKeys: nat, expiredFields: nat, evictedKeys: nat)

  datatype Limits = Limits(maxDatabases: int, maxKeys: nat, maxPages: nat, maxReply: nat, maxTotal: nat, skew: int)

  datatype Result = Result(databases: int, keys: nat, started: int, finished: int)

  const UINT64_MAX: nat := 0xffff_ffff_ffff_ffff
  const YEAR_3000 := 32503680000000

  predicate ValidLimits(l: Limits) {
    && 0 < l.maxDatabases <= 256 && 0 < l.maxKeys <= 1000000 && 0 < l.maxPages <= 1000000
    && 0 < l.maxReply <= l.maxTotal <= UINT64_MAX && 0 <= l.skew <= 5000
  }

  predicate SupportedVersion(v: string) {
    |v| > 4 && v[..4] == "7.4." && forall i :: 4 <= i < |v| ==> '0' <= v[i] <= '9'
  }

  predicate ValidMeta(m: Metadata, l: Limits) {
    && m.complete && SupportedVersion(m.version) && m.runId != "" && 0 < m.databases <= l.maxDatabases
    && !m.cluster && !m.modules && !m.functions && !m.other && 0 < m.millis < YEAR_3000
  }

  function Difference(a: int, b: int): nat { if a > b then a - b else b - a }

  predicate Compatible(a: Metadata, b: Metadata, l: Limits) {
    && ValidMeta(a, l) && ValidMeta(b, l) && a.version == b.version && a.databases == b.databases
    && Difference(a.millis, b.millis) <= l.skew
  }

  // The server did not restart, change or expire anything between the two readings.
  predicate Unchanged(m: Metadata, e: Metadata) {
    && e.runId == m.runId && e.version == m.version && e.databases == m.databases && e.millis >= m.millis
    && e.expiredKeys == m.expiredKeys && e.expiredFields == m.expiredFields && e.evictedKeys == m.evictedKeys
  }

  // ----- A truthful reply -----

  ghost predicate Shows(r: Reply, e: Entry) {
    && r.expires == e.expires
    && match r.kind
       case StringKind => e.datum == Text(r.text)
       case ListKind => e.datum == Listing(r.list)
       case SetKind => e.datum.Collection? && forall x :: x in r.items <==> x in e.datum.members
       case HashKind =>
         && e.datum.Table? && (forall n :: n in e.datum.fields <==> exists f :: f in r.hash && f.name == n)
         && forall f :: f in r.hash ==> f.name in e.datum.fields && e.datum.fields[f.name] == (f.value, f.expires)
       case SortedKind =>
         && e.datum.Ranking? && (forall n :: n in e.datum.scores <==> exists m :: m in r.sorted && m.name == n)
         && forall m :: m in r.sorted ==> m.name in e.datum.scores && e.datum.scores[m.name] == m.score
       case OtherKind => false
  }

  // ----- What equalValue decides -----

  predicate ValidExpiry(v: int) { v == -1 || v > 0 }

  predicate OthersEmpty(r: Reply) {
    && (r.kind == StringKind || r.text == []) && (r.kind == ListKind || r.list == []) && (r.kind == SetKind || r.items == [])
    && (r.kind == HashKind || r.hash == []) && (r.kind == SortedKind || r.sorted == [])
  }

  ghost predicate Equivalent(a: Reply, b: Reply) {
    && a.kind == b.kind && a.expires == b.expires && ValidExpiry(a.expires) && OthersEmpty(a) && OthersEmpty(b)
    && match a.kind
       case StringKind => a.text == b.text
       case ListKind => a.list == b.list && a.list != []
       case SetKind => multiset(a.items) == multiset(b.items) && a.items != [] && Distinct(a.items, (x: Bytes) => x)
       case HashKind =>
         && multiset(a.hash) == multiset(b.hash) && a.hash != [] && Distinct(a.hash, (f: Field) => f.name)
         && forall f :: f in a.hash ==> ValidExpiry(f.expires)
       case SortedKind =>
         && multiset(a.sorted) == multiset(b.sorted) && a.sorted != [] && Distinct(a.sorted, (m: Member) => m.name)
         && forall m :: m in a.sorted ==> m.score.Number?
       case OtherKind => false
  }

  lemma SameElements<T>(a: seq<T>, b: seq<T>)
    requires multiset(a) == multiset(b)
    ensures forall x :: x in a <==> x in b
  {
    forall x ensures x in a <==> x in b {
      assert x in a <==> x in multiset(a);
      assert x in b <==> x in multiset(b);
    }
  }

  // Two replies that compare equal show the same entry.
  lemma EquivalentShowSame(a: Reply, b: Reply, x: Entry, y: Entry)
    requires Equivalent(a, b) && Shows(a, x) && Shows(b, y)
    ensures x == y
  {
    match a.kind
    case SetKind => SameElements(a.items, b.items); assert x.datum.members == y.datum.members;
    case HashKind =>
      SameElements(a.hash, b.hash);
      assert x.datum.fields.Keys == y.datum.fields.Keys;
      assert x.datum.fields == y.datum.fields;
    case SortedKind =>
      SameElements(a.sorted, b.sorted);
      assert x.datum.scores.Keys == y.datum.scores.Keys;
      assert x.datum.scores == y.datum.scores;
    case _ =>
  }

  // ----- Expiries -----

  // `earliest` (0 while there is none) is not after the expiry v.
  predicate Covers(earliest: int, v: int) { v == -1 || 0 < earliest <= v }

  ghost predicate ReplyCovered(earliest: int, r: Reply) {
    Covers(earliest, r.expires) && (r.kind == HashKind ==> forall f :: f in r.hash ==> Covers(earliest, f.expires))
  }

  ghost predicate EntryCovered(earliest: int, e: Entry) {
    Covers(earliest, e.expires) && (e.datum.Table? ==> forall n :: n in e.datum.fields ==> Covers(earliest, e.datum.fields[n].1))
  }

  // Neither the key nor any of its hash fields expires by that time.
  ghost predicate Outlives(e: Entry, time: int) {
    && (e.expires == -1 || e.expires > time)
    && (e.datum.Table? ==> forall n :: n in e.datum.fields ==> e.datum.fields[n].1 == -1 || e.datum.fields[n].1 > time)
  }

  lemma ShownCovered(earliest: int, r: Reply, e: Entry)
    requires Shows(r, e) && ReplyCovered(earliest, r)
    ensures EntryCovered(earliest, e)
  {
  }

  // Each element is within `bound`, and twice as much of all of them is within the limits.
  ghost predicate Roomy<T(!new)>(s: seq<T>, size: T -> nat, bound: nat, total: nat, l: Limits) {
    (forall x :: x in s ==> size(x) <= bound) && 2 * bound <= l.maxReply && total + 2 * bound * |s| <= l.maxTotal
  }

  ghost predicate NoNeighbours<T(!new)>(s: seq<T>, key: T -> Bytes, distinct: bool) {
    distinct ==> forall i :: 0 < i < |s| ==> key(s[i]) != key(s[i - 1])
  }

  ghost predicate Manageable(a: Reply, b: Reply, bound: nat, total: nat, l: Limits) {
    && |a.text| <= bound && |b.text| <= bound && 2 * bound <= l.maxReply && total + 2 * bound <= l.maxTotal
    && |a.list| <= l.maxKeys && |a.items| <= l.maxKeys && |a.hash| <= l.maxKeys && |a.sorted| <= l.maxKeys
    && Roomy(a.list, (x: Bytes) => |x|, bound, total, l) && Roomy(a.items, (x: Bytes) => |x|, bound, total, l)
    && Roomy(a.hash, (f: Field) => |f.name| + |f.value|, bound, total, l) && Roomy(a.sorted, (m: Member) => |m.name|, bound, total, l)
  }

  // ----- The two servers, as their readers answer -----

  // A fenced server: its data does not change while it is read. Replies may fail at any
  // time, cursors are arbitrary, and collections come in any order. Its clock only rises;
  // `told` is what it reported of itself, `answers` are the times it answered about keys.
  class Server {
    const dbs: seq<Database>
    var clock: int
    ghost var told: seq<Metadata>
    ghost var answers: seq<int>

    constructor (dbs: seq<Database>, clock: int)
      ensures this.dbs == dbs && this.clock == clock && told == [] && answers == []
    {
      this.dbs, this.clock, told, answers := dbs, clock, [], [];
    }

    // Nothing but time passes and answers about keys.
    twostate predicate OnlyRead()
      reads this
    {
      && old(clock) <= clock && told == old(told) && old(answers) <= answers
      && forall i :: |old(answers)| <= i < |answers| ==> old(clock) <= answers[i] <= clock
    }

    method Describe() returns (ok: bool, m: Metadata)
      modifies this`clock, this`told
      ensures old(clock) <= clock && told == old(told) + [m] && m.millis == clock
      ensures ok ==> m.databases == |dbs|
    {
      Wait();
      ok, m := *, *;
      m := m.(databases := |dbs|, millis := clock);
      told := told + [m];
    }

    method Wait()
      modifies this`clock
      ensures old(clock) <= clock
    {
      var later: int := *;
      if later > clock { clock := later; }
    }

    method KeyCount(db: nat) returns (ok: bool, n: nat)
      modifies this`clock, this`answers
      ensures OnlyRead() && answers == old(answers) + [clock]
      ensures ok ==> db < |dbs| && n == |dbs[db].Keys|
    {
      Wait();
      answers := answers + [clock];
      ok := *;
      if db >= |dbs| { return false, 0; }
      n := |dbs[db].Keys|;
    }

    // SCAN names only keys that exist, possibly several times, and any next cursor.
    method Scan(db: nat, cursor: nat) returns (ok: bool, next: nat, batch: seq<Bytes>)
      modifies this`clock, this`answers
      ensures OnlyRead() && (ok ==> db < |dbs| && forall k :: k in batch ==> k in dbs[db])
    {
      Wait();
      answers := answers + [clock];
      ok, next, batch := *, *, *;
      ok := ok && db < |dbs| && forall i :: 0 <= i < |batch| ==> batch[i] in dbs[db];
    }

    // The value, and the moment at which it was read.
    method Fetch(db: nat, key: Bytes) returns (ok: bool, r: Reply)
      modifies this`clock, this`answers
      ensures OnlyRead() && answers == old(answers) + [clock]
      ensures ok ==> db < |dbs| && key in dbs[db] && Shows(r, dbs[db][key])
    {
      Wait();
      answers := answers + [clock];
      var wanted: Reply := *;
      r := wanted;
      ok := false;
      if db < |dbs| && key in dbs[db] {
        ok := Truthful(r, dbs[db][key]);
      }
    }

    static method Truthful(r: Reply, e: Entry) returns (ok: bool)
      ensures ok ==> Shows(r, e)
    {
      if r.expires != e.expires { return false; }
      match r.kind
      case StringKind => ok := e.datum == Text(r.text);
      case ListKind => ok := e.datum == Listing(r.list);
      case SetKind => ok := e.datum == Collection(set x | x in r.items);
      case HashKind =>
        ok := e.datum.Table? && e.datum.fields.Keys == (set f | f in r.hash :: f.name)
          && forall f | f in r.hash :: e.datum.fields[f.name] == (f.value, f.expires);
      case SortedKind =>
        ok := e.datum.Ranking? && e.datum.scores.Keys == (set m | m in r.sorted :: m.name)
          && forall m | m in r.sorted :: e.datum.scores[m.name] == m.score;
      case OtherKind => ok := false;
    }
  }

  // ----- The comparison -----

  class Comparison {
    const limits: Limits
    var total: nat
    var pages: nat
    var earliest: int

    ghost predicate Valid()
      reads this
    {
      ValidLimits(limits) && total <= limits.maxTotal && pages <= limits.maxPages && earliest >= 0
    }

    constructor (limits: Limits)
      requires ValidLimits(limits)
      ensures Valid() && this.limits == limits && total == 0 && pages == 0 && earliest == 0
    {
      this.limits := limits;
      total, pages, earliest := 0, 0, 0;
    }

    // checkedAdd: the sum never passes the limit, so it cannot overflow either.
    static method CheckedAdd(sum: nat, amount: nat, limit: nat) returns (ok: bool, more: nat)
      requires sum <= limit
      ensures more <= limit && (ok <==> sum + amount <= limit) && more == if ok then sum + amount else sum
    {
      if amount > limit || sum > limit - amount { return false, sum; }
      return true, sum + amount;
    }

    // bounded: both parts within one reply, and the running total within its limit.
    method Bounded(a: nat, b: nat) returns (ok: bool)
      requires Valid()
      modifies this`total
      ensures Valid() && (ok <==> a + b <= limits.maxReply && old(total) + a + b <= limits.maxTotal)
      ensures total == if ok then old(total) + a + b else old(total)
    {
      var size: nat := 0;
      ok, size := CheckedAdd(size, a, limits.maxReply);
      if !ok { return; }
      ok, size := CheckedAdd(size, b, limits.maxReply);
      if !ok { return; }
      ok, total := CheckedAdd(total, size, limits.maxTotal);
    }

    method Deadline(v: int) returns (ok: bool)
      requires Valid()
      modifies this`earliest
      ensures Valid() && (ok <==> ValidExpiry(v))
      ensures ok ==> Covers(earliest, v)
      ensures forall w :: Covers(old(earliest), w) ==> Covers(earliest, w)
    {
      if v == -1 { return true; }
      if v <= 0 { return false; }
      if earliest == 0 || v < earliest { earliest := v; }
      ok := true;
    }

    // Pairwise equality in order; with `distinct`, also of neighbours' keys.
    method MatchAll<T(!new, ==)>(x: seq<T>, y: seq<T>, key: T -> Bytes, size: T -> nat, distinct: bool, ghost bound: nat) returns (ok: bool)
      requires Valid() && |x| == |y|
      modifies this`total
      ensures Valid()
      ensures ok ==> x == y && NoNeighbours(x, key, distinct)
      ensures x == y && NoNeighbours(x, key, distinct) && Roomy(x, size, bound, old(total), limits) ==> ok
    {
      ghost var roomy := Roomy(x, size, bound, old(total), limits);
      for i := 0 to |x|
        invariant Valid() && x[..i] == y[..i]
        invariant distinct ==> forall j :: 0 < j < i ==> key(x[j]) != key(x[j - 1])
        invariant roomy && x == y ==> total <= old(total) + 2 * bound * i
      {
        if roomy && x == y {
          Room(bound, i, |x|);
          assert x[i] in x;
        }
        ok := Bounded(size(x[i]), size(y[i]));
        if !ok || x[i] != y[i] || (distinct && i > 0 && key(x[i]) == key(x[i - 1])) { return false; }
        assert x[..i + 1] == x[..i] + [x[i]] && y[..i + 1] == y[..i] + [y[i]];
      }
      assert x[..|x|] == x && y[..|y|] == y;
      ok := true;
    }

    static lemma Room(bound: nat, i: nat, n: nat)
      requires i < n
      ensures 2 * bound * i + 2 * bound <= 2 * bound * n && 2 * bound * (i + 1) == 2 * bound * i + 2 * bound
    {
    }

    // Sets, hashes and sorted sets: sort both sides by key, then match without duplicates.
    method SameCollection<T(!new, ==)>(p: seq<T>, q: seq<T>, key: T -> Bytes, size: T -> nat, ghost bound: nat) returns (ok: bool)
      requires Valid()
      modifies this`total
      ensures Valid()
      ensures ok ==> p != [] && multiset(p) == multiset(q) && Distinct(p, key)
      ensures p != [] && |p| <= limits.maxKeys && multiset(p) == multiset(q) && Distinct(p, key) && Roomy(p, size, bound, old(total), limits) ==> ok
    {
      if |p| == 0 || |p| != |q| || |p| > limits.maxKeys {
        assert multiset(p) == multiset(q) ==> |multiset(p)| == |p| && |multiset(q)| == |q|;
        return false;
      }
      var x := SortBy(p, key);
      var y := SortBy(q, key);
      ghost var equal := multiset(p) == multiset(q) && Distinct(p, key);
      if equal {
        DistinctReordered(p, x, key);
        DistinctReordered(p, y, key);
        SortedDistinct(x, key);
        SortedDistinct(y, key);
        SortedUnique(x, y, key);
      }
      SameElements(p, x);
      ok := MatchAll(x, y, key, size, true, bound);
      if ok {
        NeighboursDiffer(x, key);
        SortedDistinct(x, key);
        DistinctReordered(x, p, key);
      }
    }

    // equalValue. `bound` is any bound on the sizes involved that leaves room for both replies.
    method EqualValue(a: Reply, b: Reply, ghost bound: nat) returns (ok: bool)
      requires Valid()
      modifies this`total, this`earliest
      ensures Valid()
      ensures ok ==> Equivalent(a, b) && ReplyCovered(earliest, a)
      ensures forall w :: Covers(old(earliest), w) ==> Covers(earliest, w)
      ensures Equivalent(a, b) && Manageable(a, b, bound, old(total), limits) ==> ok
    {
      hide Shows;
      if a.kind != b.kind || a.expires != b.expires { return false; }
      ok := Deadline(a.expires);
      if !ok { return; }
      ok := Deadline(b.expires);
      if !ok || !OthersEmpty(a) || !OthersEmpty(b) { return false; }
      match a.kind
      case StringKind =>
        ok := Bounded(|a.text|, |b.text|);
        ok := ok && a.text == b.text;
      case ListKind =>
        if a.list == [] || |a.list| != |b.list| || |a.list| > limits.maxKeys { return false; }
        ok := MatchAll(a.list, b.list, (x: Bytes) => x, (x: Bytes) => |x|, false, bound);
      case SetKind =>
        ok := SameCollection(a.items, b.items, (x: Bytes) => x, (x: Bytes) => |x|, bound);
      case HashKind =>
        ok := SameCollection(a.hash, b.hash, (f: Field) => f.name, (f: Field) => |f.name| + |f.value|, bound);
        if ok { ok := FieldDeadlines(a.hash); }
      case SortedKind =>
        ok := SameCollection(a.sorted, b.sorted, (m: Member) => m.name, (m: Member) => |m.name|, bound);
        ok := ok && forall i :: 0 <= i < |a.sorted| ==> a.sorted[i].score.Number?;
      case OtherKind => ok := false;
    }

    method FieldDeadlines(fields: seq<Field>) returns (ok: bool)
      requires Valid()
      modifies this`earliest
      ensures Valid() && (ok <==> forall f :: f in fields ==> ValidExpiry(f.expires))
      ensures ok ==> forall f :: f in fields ==> Covers(earliest, f.expires)
      ensures forall w :: Covers(old(earliest), w) ==> Covers(earliest, w)
    {
      for i := 0 to |fields|
        invariant Valid()
        invariant forall f :: f in fields[..i] ==> ValidExpiry(f.expires) && Covers(earliest, f.expires)
        invariant forall w :: Covers(old(earliest), w) ==> Covers(earliest, w)
      {
        ok := Deadline(fields[i].expires);
        if !ok { return; }
        assert forall f :: f in fields[..i + 1] ==> f in fields[..i] || f == fields[i];
      }
      assert fields[..|fields|] == fields;
      ok := true;
    }

    // One database's keys. Every page counts, so no sequence of cursors keeps it going.
    method Scan(s: Server, db: nat) returns (ok: bool, keys: set<Bytes>)
      requires Valid()
      modifies this`total, this`pages, s`clock, s`answers
      ensures Valid() && s.OnlyRead()
      ensures ok ==> db < |s.dbs| && keys == s.dbs[db].Keys && |keys| <= limits.maxKeys
    {
      keys := {};
      var before;
      ok, before := s.KeyCount(db);
      if !ok || before > limits.maxKeys { return false, {}; }
      var seen: set<nat>, cursor, more := {}, 0, true;
      while more
        invariant Valid() && s.OnlyRead() && keys <= s.dbs[db].Keys
        decreases limits.maxPages - pages, more
      {
        var late: bool := *;
        var counted;
        counted, pages := CheckedAdd(pages, 1, limits.maxPages);
        if late || !counted || cursor in seen { return false, {}; }
        seen := seen + {cursor};
        var next, batch;
        ok, next, batch := s.Scan(db, cursor);
        if !ok || |batch| > limits.maxKeys { return false, {}; }
        ok, keys := Collect(batch, keys);
        if !ok { return false, {}; }
        more, cursor := next != 0, next;
      }
      var after;
      ok, after := s.KeyCount(db);
      if !ok || before != after || after != |keys| { return false, {}; }
      SameSize(keys, s.dbs[db].Keys);
    }

    method Collect(batch: seq<Bytes>, keys: set<Bytes>) returns (ok: bool, all: set<Bytes>)
      requires Valid()
      modifies this`total
      ensures Valid()
      ensures ok ==> all == keys + (set k | k in batch)
    {
      all := keys;
      var reply: nat := 0;
      for i := 0 to |batch|
        invariant Valid() && reply <= limits.maxReply && all == keys + (set k | k in batch[..i])
      {
        ok, reply := CheckedAdd(reply, |batch[i]|, limits.maxReply);
        if !ok { return; }
        ok, total := CheckedAdd(total, |batch[i]|, limits.maxTotal);
        if !ok { return; }
        all := all + {batch[i]};
        if |all| > limits.maxKeys { return false, all; }
        assert batch[..i + 1] == batch[..i] + [batch[i]];
      }
      assert batch[..|batch|] == batch;
      ok := true;
    }

    static lemma SameSize(a: set<Bytes>, b: set<Bytes>)
      requires a <= b && |a| == |b|
      ensures a == b
    {
      assert |b - a| == |b| - |a|;
      assert b - a == {};
      assert b == a + (b - a);
    }

    // One database: equal key sets, then equal values key by key.
    method CompareDatabase(a: Server, b: Server, db: nat, counted: nat) returns (ok: bool, more: nat)
      requires Valid() && counted <= limits.maxKeys && a != b
      modifies this`total, this`pages, this`earliest, a`clock, a`answers, b`clock, b`answers
      ensures Valid() && a.OnlyRead() && b.OnlyRead() && more <= limits.maxKeys
      ensures ok ==> |a.answers| > |old(a.answers)| && |b.answers| > |old(b.answers)|
      ensures ok ==> db < |a.dbs| && db < |b.dbs| && a.dbs[db] == b.dbs[db] && more == counted + |a.dbs[db].Keys|
      ensures ok ==> forall k :: k in a.dbs[db] ==> EntryCovered(earliest, a.dbs[db][k])
      ensures forall e: Entry :: EntryCovered(old(earliest), e) ==> EntryCovered(earliest, e)
    {
      hide Shows, Equivalent, ReplyCovered, EntryCovered;
      more := counted;
      var ka, kb;
      ok, ka := Scan(a, db);
      if !ok { return; }
      ok, kb := Scan(b, db);
      if !ok || |ka| != |kb| || |ka| > limits.maxKeys - counted { return false, more; }
      more := counted + |ka|;
      if ka != kb { return false, more; }
      var todo := ka;
      while todo != {}
        invariant Valid() && a.OnlyRead() && b.OnlyRead() && todo <= ka
        invariant forall k :: k in ka - todo ==> a.dbs[db][k] == b.dbs[db][k] && EntryCovered(earliest, a.dbs[db][k])
        invariant forall e: Entry :: EntryCovered(old(earliest), e) ==> EntryCovered(earliest, e)
        decreases todo
      {
        var k :| k in todo;
        todo := todo - {k};
        ok := CompareKey(a, b, db, k);
        if !ok { return; }
      }
      var n;
      ok, n := a.KeyCount(db);
      if !ok || n != |ka| { return false, more; }
      ok, n := b.KeyCount(db);
      if !ok || n != |kb| { return false, more; }
    }

    // One key: two truthful replies that compare equal show the same entry.
    method CompareKey(a: Server, b: Server, db: nat, k: Bytes) returns (ok: bool)
      requires Valid() && a != b
      modifies this`total, this`earliest, a`clock, a`answers, b`clock, b`answers
      ensures Valid() && a.OnlyRead() && b.OnlyRead()
      ensures ok ==> db < |a.dbs| && db < |b.dbs| && k in a.dbs[db] && k in b.dbs[db]
      ensures ok ==> a.dbs[db][k] == b.dbs[db][k] && EntryCovered(earliest, a.dbs[db][k])
      ensures forall e: Entry :: EntryCovered(old(earliest), e) ==> EntryCovered(earliest, e)
    {
      hide Shows, Equivalent, ReplyCovered, EntryCovered;
      var x, y;
      ok, x := a.Fetch(db, k);
      if !ok { return; }
      ok, y := b.Fetch(db, k);
      if !ok { return; }
      ghost var before := earliest;
      ok := EqualValue(x, y, 0);
      StillCovered(before, earliest);
      if !ok { return; }
      EquivalentShowSame(x, y, a.dbs[db][k], b.dbs[db][k]);
      ShownCovered(earliest, x, a.dbs[db][k]);
    }

    method CompareDatabases(a: Server, b: Server) returns (ok: bool, keys: nat)
      requires Valid() && |a.dbs| == |b.dbs| && a != b
      modifies this`total, this`pages, this`earliest, a`clock, a`answers, b`clock, b`answers
      ensures Valid() && a.OnlyRead() && b.OnlyRead()
      ensures ok && |a.dbs| > 0 ==> |a.answers| > |old(a.answers)| && |b.answers| > |old(b.answers)|
      ensures ok ==> a.dbs == b.dbs && keys == KeyTotal(a.dbs) <= limits.maxKeys
      ensures ok ==> forall db, k :: 0 <= db < |a.dbs| && k in a.dbs[db] ==> EntryCovered(earliest, a.dbs[db][k])
    {
      hide EntryCovered, KeyTotal, ValidLimits;
      keys := 0;
      NoKeys();
      for db := 0 to |a.dbs|
        invariant Valid() && a.OnlyRead() && b.OnlyRead()
        invariant db > 0 ==> |a.answers| > |old(a.answers)| && |b.answers| > |old(b.answers)|
        invariant keys == KeyTotal(a.dbs[..db]) <= limits.maxKeys
        invariant forall i :: 0 <= i < db ==> a.dbs[i] == b.dbs[i]
        invariant forall i, k :: 0 <= i < db && k in a.dbs[i] ==> EntryCovered(earliest, a.dbs[i][k])
      {
        var late: bool := *;
        if late { return false, keys; }
        ok, keys := CompareDatabase(a, b, db, keys);
        if !ok { return; }
        MoreKeys(a.dbs, db);
      }
      assert a.dbs[..|a.dbs|] == a.dbs;
      ok := true;
    }

    static lemma NoKeys()
      ensures KeyTotal([]) == 0
    {
    }

    static lemma MoreKeys(dbs: seq<Database>, db: nat)
      requires db < |dbs|
      ensures KeyTotal(dbs[..db + 1]) == KeyTotal(dbs[..db]) + |dbs[db].Keys|
    {
      assert dbs[..db + 1][..db] == dbs[..db];
    }

    static lemma StillCovered(before: int, after: int)
      requires forall w :: Covers(before, w) ==> Covers(after, w)
      ensures forall e: Entry :: EntryCovered(before, e) ==> EntryCovered(after, e)
    {
      forall e: Entry | EntryCovered(before, e) ensures EntryCovered(after, e) {
        assert Covers(before, e.expires);
        if e.datum.Table? {
          forall n | n in e.datum.fields ensures Covers(after, e.datum.fields[n].1) { assert Covers(before, e.datum.fields[n].1); }
        }
      }
    }
  }

  // The times of one comparison: each server's clock before its first answer about keys and
  // after its last one. `started` and `finished` are the later clock of each pair, and all
  // times agree within the skew and with the elapsed time.
  predicate Timed(sa: int, ea: int, sb: int, eb: int, r: Result, skew: int, elapsed: nat) {
    && r.started in {sa, sb} && sa <= r.started && sb <= r.started
    && r.finished in {ea, eb} && ea <= r.finished && eb <= r.finished
    && -skew <= sa - sb <= skew && -skew <= ea - eb <= skew
    && -(skew + 1000) <= ea - sa - elapsed <= skew + 1000 && -(skew + 1000) <= eb - sb - elapsed <= skew + 1000
  }

  // Each server's first clock is at or before both of its own later readings, but the later
  // one of the two need not be before the other server's: it is if and only if neither
  // server started after the other one ended. It is never later than that by more than the skew.
  lemma StartedBeforeBoth(sa: int, ea: int, sb: int, eb: int, r: Result, skew: int, elapsed: nat)
    requires Timed(sa, ea, sb, eb, r, skew, elapsed) && sa <= ea && sb <= eb
    ensures r.started <= ea && r.started <= eb <==> sb <= ea && sa <= eb
    ensures r.started <= ea + skew && r.started <= eb + skew && r.started <= r.finished
  {
  }

  lemma StartedAfterOne()
    ensures Timed(1000, 1000, 1500, 1500, Result(1, 0, 1500, 1500), 500, 0) && 1500 > 1000
  {
  }

  // The server answered between two reports, its clock has not moved since, and nothing it
  // counts moved in between: it did not restart, expire or evict.
  twostate predicate Window(s: Server)
    reads s
  {
    && |s.told| == |old(s.told)| + 2
    && var m, e := s.told[|old(s.told)|], s.told[|old(s.told)| + 1];
    && m.millis <= e.millis == s.clock && |s.answers| > |old(s.answers)|
    && (forall i :: |old(s.answers)| <= i < |s.answers| ==> m.millis <= s.answers[i] <= e.millis)
    && Consistent(m, e) && e.databases == |s.dbs|
  }

  // Compare. Success means both servers hold the same databases, and nothing in them
  // expires before either server's clock at the end, with the allowed clock skew to spare.
  method Compare(a: Server, b: Server, l: Limits, elapsed: nat) returns (result: Option<Result>)
    requires a != b
    modifies a, b
    ensures result.Some? ==> ValidLimits(l) && a.dbs == b.dbs && result.value.databases == |a.dbs| <= l.maxDatabases
    ensures result.Some? ==> result.value.keys == KeyTotal(a.dbs) <= l.maxKeys
    ensures result.Some? ==> Window(a) && Window(b)
    ensures result.Some? ==>
      var ma, mb := a.told[|old(a.told)|], b.told[|old(b.told)|];
      && Timed(ma.millis, a.clock, mb.millis, b.clock, result.value, l.skew, elapsed)
      && ma.version == mb.version && ma.runId != mb.runId
    ensures result.Some? ==> forall db, k :: 0 <= db < |a.dbs| && k in a.dbs[db] ==>
      Outlives(a.dbs[db][k], a.clock + l.skew) && Outlives(a.dbs[db][k], b.clock + l.skew)
  {
    hide EntryCovered, Outlives, SupportedVersion, Timed, Consistent;
    if !ValidLimits(l) { return None; }
    var ok, ma, mb := DescribeBoth(a, b, l);
    if !ok || ma.runId == mb.runId { return None; }
    var c := new Comparison(l);
    var keys;
    ok, keys := c.CompareDatabases(a, b);
    if !ok { return None; }
    var finished;
    ok, finished := Conclude(a, b, ma, mb, l, elapsed);
    if !ok { return None; }
    if c.earliest > 0 && c.earliest <= finished + l.skew { return None; }
    AllOutlive(c.earliest, a.dbs, finished + l.skew, a.clock + l.skew);
    AllOutlive(c.earliest, a.dbs, finished + l.skew, b.clock + l.skew);
    result := Some(Result(ma.databases, keys, Later(ma.millis, mb.millis), finished));
  }

  // The second readings: nothing changed in between, and the times fit together.
  method Conclude(a: Server, b: Server, ma: Metadata, mb: Metadata, l: Limits, elapsed: nat) returns (ok: bool, finished: int)
    requires a != b && Compatible(ma, mb, l) && ma.millis <= a.clock && mb.millis <= b.clock
    modifies a`clock, a`told, b`clock, b`told
    ensures ok ==> |a.told| == |old(a.told)| + 1 && old(a.told) <= a.told && Consistent(ma, a.told[|a.told| - 1])
    ensures ok ==> |b.told| == |old(b.told)| + 1 && old(b.told) <= b.told && Consistent(mb, b.told[|b.told| - 1])
    ensures ok ==> old(a.clock) <= a.clock == a.told[|a.told| - 1].millis && old(b.clock) <= b.clock == b.told[|b.told| - 1].millis
    ensures ok ==> a.told[|a.told| - 1].databases == |a.dbs| && b.told[|b.told| - 1].databases == |b.dbs|
    ensures ok ==> a.clock <= finished && b.clock <= finished
    ensures ok ==> forall databases, keys ::
      Timed(ma.millis, a.clock, mb.millis, b.clock, Result(databases, keys, Later(ma.millis, mb.millis), finished), l.skew, elapsed)
  {
    finished := 0;
    var ea, eb;
    ok, ea, eb := DescribeBoth(a, b, l);
    if !ok || !Unchanged(ma, ea) || !Unchanged(mb, eb) { return false, finished; }
    var tolerance := l.skew + 1000;
    if Difference(ea.millis - ma.millis, elapsed) > tolerance || Difference(eb.millis - mb.millis, elapsed) > tolerance { return false, finished; }
    finished := Later(ea.millis, eb.millis);
  }

  // Two readings of one server that did not restart, expire or evict between them.
  predicate Consistent(m: Metadata, e: Metadata) {
    && m.runId == e.runId != "" && m.version == e.version && m.databases == e.databases
    && m.expiredKeys == e.expiredKeys && m.expiredFields == e.expiredFields && m.evictedKeys == e.evictedKeys
    && m.complete && e.complete && !m.cluster && !e.cluster && !m.modules && !e.modules
    && !m.functions && !e.functions && !m.other && !e.other
  }

  function Later(x: int, y: int): int { if x > y then x else y }

  method DescribeBoth(a: Server, b: Server, l: Limits) returns (ok: bool, ma: Metadata, mb: Metadata)
    requires a != b
    modifies a`clock, a`told, b`clock, b`told
    ensures ok ==> Compatible(ma, mb, l) && ma.databases == |a.dbs| && mb.databases == |b.dbs|
    ensures ok ==> a.told == old(a.told) + [ma] && b.told == old(b.told) + [mb]
    ensures ok ==> old(a.clock) <= a.clock == ma.millis && old(b.clock) <= b.clock == mb.millis
  {
    ok, ma := a.Describe();
    mb := ma;
    if !ok { return; }
    ok, mb := b.Describe();
    ok := ok && Compatible(ma, mb, l);
  }

  lemma AllOutlive(earliest: int, dbs: seq<Database>, end: int, time: int)
    requires forall db, k :: 0 <= db < |dbs| && k in dbs[db] ==> EntryCovered(earliest, dbs[db][k])
    requires (earliest > 0 ==> earliest > end) && time <= end
    ensures forall db, k :: 0 <= db < |dbs| && k in dbs[db] ==> Outlives(dbs[db][k], time)
  {
    hide EntryCovered, Outlives;
    forall db, k | 0 <= db < |dbs| && k in dbs[db] ensures Outlives(dbs[db][k], time) {
      CoveredOutlives(earliest, dbs[db][k], time);
    }
  }

  lemma CoveredOutlives(earliest: int, e: Entry, time: int)
    requires EntryCovered(earliest, e) && (earliest > 0 ==> earliest > time)
    ensures Outlives(e, time)
  {
  }

  function KeyTotal(dbs: seq<Database>): nat {
    if dbs == [] then 0 else KeyTotal(dbs[..|dbs| - 1]) + |dbs[|dbs| - 1].Keys|
  }
}
