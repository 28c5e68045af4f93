// Byte strings in lexicographic order, and sorting sequences by a byte-string key.
module Sorting {
  import opened Wrappers
  import opened Resp

  predicate Less(a: Bytes, b: Bytes) {
    b != [] && (a == [] || a[0] < b[0] || (a[0] == b[0] && Less(a[1..], b[1..])))
  }

  lemma {:induction false} LessTransitive(a: Bytes, b: Bytes, c: Bytes)
    requires Less(a, b) && Less(b, c)
    ensures Less(a, c)
  {
    if a != [] && a[0] == b[0] && b[0] == c[0] { LessTransitive(a[1..], b[1..], c[1..]); }
  }

  lemma {:induction false} LessAsymmetric(a: Bytes, b: Bytes)
    requires Less(a, b)
    ensures !Less(b, a) && a != b
  {
    if a != [] && a[0] == b[0] { LessAsymmetric(a[1..], b[1..]); }
  }

  lemma {:induction false} LessTotal(a: Bytes, b: Bytes)
    ensures Less(a, b) || Less(b, a) || a == b
  {
    if a != [] && b != [] && a[0] == b[0] {
      LessTotal(a[1..], b[1..]);
      assert a == [a[0]] + a[1..] && b == [b[0]] + b[1..];
    }
  }

  ghost predicate Distinct<T(!new)>(s: seq<T>, key: T -> Bytes) {
    forall i, j :: 0 <= i < j < |s| ==> key(s[i]) != key(s[j])
  }

  ghost predicate Sorted<T(!new)>(s: seq<T>, key: T -> Bytes) {
    forall i, j :: 0 <= i < j < |s| ==> !Less(key(s[j]), key(s[i]))
  }

  ghost predicate Increasing<T(!new)>(s: seq<T>, key: T -> Bytes) {
    forall i, j :: 0 <= i < j < |s| ==> Less(key(s[i]), key(s[j]))
  }

  lemma SortedDistinct<T(!new)>(s: seq<T>, key: T -> Bytes)
    requires Sorted(s, key)
    ensures Distinct(s, key) <==> Increasing(s, key)
  {
    forall i, j | 0 <= i < j < |s| ensures key(s[i]) != key(s[j]) <==> Less(key(s[i]), key(s[j])) {
      LessTotal(key(s[i]), key(s[j]));
      if Less(key(s[i]), key(s[j])) { LessAsymmetric(key(s[i]), key(s[j])); }
    }
  }

  // Neighbours with different keys are enough once the sequence is sorted.
  lemma {:induction false} NeighboursDiffer<T(!new)>(s: seq<T>, key: T -> Bytes)
    requires Sorted(s, key) && forall i :: 0 < i < |s| ==> key(s[i]) != key(s[i - 1])
    ensures Increasing(s, key)
  {
    if |s| > 1 {
      var front := s[..|s| - 1];
      NeighboursDiffer(front, key);
      var last := |s| - 1;
      LessTotal(key(s[last - 1]), key(s[last]));
      forall i | 0 <= i < last ensures Less(key(s[i]), key(s[last])) {
        if i < last - 1 {
          assert Less(key(front[i]), key(front[last - 1]));
          LessTransitive(key(s[i]), key(s[last - 1]), key(s[last]));
        }
      }
    }
  }

  lemma CountTwice<T>(s: seq<T>, x: T)
    requires multiset(s)[x] >= 2
    ensures exists i, j :: 0 <= i < j < |s| && s[i] == x && s[j] == x
  {
    var i :| 0 <= i < |s| && s[i] == x;
    var rest := s[..i] + s[i + 1..];
    assert s == s[..i] + [s[i]] + s[i + 1..];
    assert multiset(rest)[x] >= 1;
    var k :| 0 <= k < |rest| && rest[k] == x;
    if k >= i { assert s[k + 1] == x; } else { assert s[k] == x; }
  }

  lemma TwoOf<T>(s: seq<T>, i: nat, j: nat)
    requires i < j < |s| && s[i] == s[j]
    ensures multiset(s)[s[i]] >= 2
  {
    assert s == s[..i] + [s[i]] + s[i + 1..j] + [s[j]] + s[j + 1..];
  }

  // Reordering keeps the keys distinct.
  lemma DistinctReordered<T(!new)>(s: seq<T>, t: seq<T>, key: T -> Bytes)
    requires Distinct(s, key) && multiset(s) == multiset(t)
    ensures Distinct(t, key)
  {
    forall i, j | 0 <= i < j < |t| ensures key(t[i]) != key(t[j]) {
      if t[i] == t[j] {
        TwoOf(t, i, j);
        CountTwice(s, t[i]);
      } else {
        assert t[i] in multiset(t) && t[j] in multiset(t);
        assert t[i] in s && t[j] in s;
      }
    }
  }

  lemma SmallestFirst<T(!new)>(s: seq<T>, t: seq<T>, key: T -> Bytes)
    requires s != [] && t != [] && Increasing(s, key) && Increasing(t, key)
    requires s[0] in t && t[0] in s
    ensures s[0] == t[0]
  {
    var i :| 0 <= i < |t| && t[i] == s[0];
    var j :| 0 <= j < |s| && s[j] == t[0];
    if i > 0 && j > 0 { LessAsymmetric(key(t[0]), key(t[i])); }
  }

  lemma DropFirst<T>(s: seq<T>)
    requires s != []
    ensures multiset(s[1..]) == multiset(s) - multiset{s[0]}
  {
    assert s == [s[0]] + s[1..];
  }

  // A collection with distinct keys has only one sorted order.
  lemma {:induction false} SortedUnique<T(!new)>(s: seq<T>, t: seq<T>, key: T -> Bytes)
    requires Increasing(s, key) && Increasing(t, key) && multiset(s) == multiset(t)
    ensures s == t
  {
    assert |multiset(s)| == |s| && |multiset(t)| == |t|;
    if s != [] {
      assert s[0] in multiset(t) && t[0] in multiset(s);
      SmallestFirst(s, t, key);
      DropFirst(s);
      DropFirst(t);
      SortedUnique(s[1..], t[1..], key);
      assert s == [s[0]] + s[1..] && t == [t[0]] + t[1..];
    }
  }

  // A sorted copy; the order of elements with equal keys is left open.
  method SortBy<T(!new)>(s: seq<T>, key: T -> Bytes) returns (t: seq<T>)
    ensures multiset(t) == multiset(s) && |t| == |s| && Sorted(t, key)
  {
    t := [];
    for n := 0 to |s|
      invariant |t| == n && multiset(t) == multiset(s[..n]) && Sorted(t, key)
    {
      t := Insert(t, s[n], key);
      assert s[..n + 1] == s[..n] + [s[n]];
    }
    assert s[..|s|] == s;
  }

  method Insert<T(!new)>(s: seq<T>, x: T, key: T -> Bytes) returns (t: seq<T>)
    requires Sorted(s, key)
    ensures Sorted(t, key) && multiset(t) == multiset(s) + multiset{x} && |t| == |s| + 1
  {
    var k := |s|;
    while k > 0 && Less(key(x), key(s[k - 1]))
      invariant 0 <= k <= |s|
      invariant forall j :: k <= j < |s| ==> Less(key(x), key(s[j]))
    {
      k := k - 1;
    }
    t := s[..k] + [x] + s[k..];
    assert s == s[..k] + s[k..];
    InsertSorted(s, x, k, key);
  }

  lemma InsertSorted<T(!new)>(s: seq<T>, x: T, k: nat, key: T -> Bytes)
    requires Sorted(s, key) && k <= |s|
    requires forall j :: k <= j < |s| ==> Less(key(x), key(s[j]))
    requires k > 0 ==> !Less(key(x), key(s[k - 1]))
    ensures Sorted(s[..k] + [x] + s[k..], key)
  {
    var t := s[..k] + [x] + s[k..];
    forall i, j | 0 <= i < j < |t| ensures !Less(key(t[j]), key(t[i])) {
      if i == k {
        LessAsymmetric(key(x), key(s[j - 1]));
      } else if j == k {
        if i < k - 1 { NotLess(key(x), key(s[k - 1]), key(s[i])); }
      } else {
        assert t[i] == (if i < k then s[i] else s[i - 1]) && t[j] == (if j < k then s[j] else s[j - 1]);
      }
    }
  }

  lemma NotLess(a: Bytes, b: Bytes, c: Bytes)
    requires !Less(a, b) && !Less(b, c)
    ensures !Less(a, c)
  {
    LessTotal(a, b);
    LessTotal(b, c);
    if Less(a, c) {
      if Less(b, a) { LessTransitive(b, a, c); }
    }
  }
}
