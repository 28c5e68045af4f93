// The checksum at the end of a Redis snapshot: CRC-64 with a reflected polynomial, by
// table as the program computes it and bit by bit as it is defined.
module Crc64 {
  type Octets = seq<bv8>

  const POLY: bv64 := 0x95ac9329ac4bc9b5

  // ----- Register operations, named so that proofs can treat them as black boxes -----

  function Xor(a: bv64, b: bv64): bv64 { a ^ b }
  function Half(v: bv64): bv64 { v >> 1 }
  predicate Odd(v: bv64) { v & 1 != 0 }
  function Low(v: bv64): bv64 { v & 0xff }
  function High(v: bv64): bv64 { v & 0xffff_ffff_ffff_ff00 }
  function Down(v: bv64): bv64 { v >> 8 }
  function Up(v: bv64): bv64 { v << 8 }
  function Widen(b: bv8): bv64 { b as bv64 }
  predicate TopFree(v: bv64) { v & 0xff00_0000_0000_0000 == 0 }

  lemma XorAssoc(p: bv64, q: bv64, r: bv64)
    ensures Xor(Xor(p, q), r) == Xor(p, Xor(q, r))
  {
  }

  lemma XorCommutes(p: bv64, q: bv64)
    ensures Xor(p, q) == Xor(q, p)
  {
  }

  lemma XorCancel(p: bv64, q: bv64)
    ensures Xor(Xor(p, q), q) == p && Xor(p, 0) == p
  {
  }

  lemma XorHalf(a: bv64, b: bv64)
    ensures Half(Xor(a, b)) == Xor(Half(a), Half(b))
    ensures Odd(Xor(a, b)) <==> Odd(a) != Odd(b)
  {
  }

  // ----- The definition -----

  function Step(v: bv64): bv64 {
    if Odd(v) then Xor(Half(v), POLY) else Half(v)
  }

  function Steps(v: bv64, n: nat): bv64
    decreases n
  {
    if n == 0 then v else Steps(Step(v), n - 1)
  }

  function Feed(crc: bv64, data: Octets): bv64
    decreases |data|
  {
    if data == [] then crc else Feed(Steps(Xor(crc, Widen(data[0])), 8), data[1..])
  }

  function Checksum(data: Octets): bv64 { Feed(0, data) }

  // ----- Steps are linear and one-to-one -----

  lemma StepLinear(a: bv64, b: bv64)
    ensures Step(Xor(a, b)) == Xor(Step(a), Step(b))
  {
    hide Xor, Half, Odd;
    XorHalf(a, b);
    XorPoly(Half(a), Half(b), POLY);
  }

  lemma XorPoly(p: bv64, q: bv64, c: bv64)
    ensures Xor(Xor(p, c), Xor(q, c)) == Xor(p, q)
    ensures Xor(Xor(p, c), q) == Xor(Xor(p, q), c)
    ensures Xor(p, Xor(q, c)) == Xor(Xor(p, q), c)
  {
    hide Xor;
    XorAssoc(p, q, c);
    XorAssoc(p, c, q);
    XorCommutes(c, q);
    XorAssoc(Xor(p, c), q, c);
    XorCancel(Xor(p, q), c);
  }

  lemma {:induction false} StepsLinear(a: bv64, b: bv64, n: nat)
    ensures Steps(Xor(a, b), n) == Xor(Steps(a, n), Steps(b, n))
    decreases n
  {
    hide Xor, Step;
    if n > 0 {
      StepLinear(a, b);
      StepsLinear(Step(a), Step(b), n - 1);
    }
  }

  // The polynomial has its top bit set, so a step can be undone.
  function Undo(w: bv64): bv64 {
    if w & 0x8000_0000_0000_0000 != 0 then ((w ^ POLY) << 1) | 1 else w << 1
  }

  lemma UndoStep(v: bv64)
    ensures Undo(Step(v)) == v
  {
  }

  lemma {:induction false} StepsInjective(a: bv64, b: bv64, n: nat)
    requires Steps(a, n) == Steps(b, n)
    ensures a == b
    decreases n
  {
    hide Step, Undo;
    if n > 0 {
      StepsInjective(Step(a), Step(b), n - 1);
      UndoStep(a);
      UndoStep(b);
    }
  }

  lemma {:induction false} StepsCompose(v: bv64, m: nat, n: nat)
    ensures Steps(Steps(v, m), n) == Steps(v, m + n)
    decreases m
  {
    hide Step;
    if m > 0 { StepsCompose(Step(v), m - 1, n); }
  }

  // Eight steps of a value without low bits just shift it.
  lemma StepsOfHigh(y: bv64)
    requires Low(y) == 0
    ensures Steps(y, 8) == Down(y)
  {
    hide Step, Down;
    EightEven(y);
    assert Steps(Step(Step(Step(Step(y)))), 4) == Down(y) by {
      var z := Step(Step(Step(Step(y))));
      assert Steps(z, 4) == Steps(Step(z), 3) == Steps(Step(Step(z)), 2);
      assert Steps(Step(Step(z)), 2) == Steps(Step(Step(Step(z))), 1) == Step(Step(Step(Step(z))));
    }
    assert Steps(y, 8) == Steps(Step(y), 7) == Steps(Step(Step(y)), 6);
    assert Steps(Step(Step(y)), 6) == Steps(Step(Step(Step(y))), 5) == Steps(Step(Step(Step(Step(y)))), 4);
  }

  lemma EvenStep(y: bv64)
    requires !Odd(y)
    ensures Step(y) == Half(y)
  {
  }

  lemma LowBitsClear(y: bv64)
    requires Low(y) == 0
    ensures !Odd(y) && !Odd(y >> 1) && !Odd(y >> 2) && !Odd(y >> 3) && !Odd(y >> 4) && !Odd(y >> 5) && !Odd(y >> 6) && !Odd(y >> 7)
  {
  }

  lemma HalfShift(y: bv64)
    ensures Half(y) == y >> 1 && Half(y >> 1) == y >> 2 && Half(y >> 2) == y >> 3 && Half(y >> 3) == y >> 4
    ensures Half(y >> 4) == y >> 5 && Half(y >> 5) == y >> 6 && Half(y >> 6) == y >> 7 && Half(y >> 7) == Down(y)
  {
  }

  lemma EightEven(y: bv64)
    requires Low(y) == 0
    ensures Step(Step(Step(Step(Step(Step(Step(Step(y)))))))) == Down(y)
  {
    hide Step, Odd, Half, Down, Low;
    LowBitsClear(y);
    HalfShift(y);
    EvenStep(y);
    EvenStep(y >> 1);
    EvenStep(y >> 2);
    EvenStep(y >> 3);
    EvenStep(y >> 4);
    EvenStep(y >> 5);
    EvenStep(y >> 6);
    EvenStep(y >> 7);
  }

  // ----- The table-driven loop -----

  lemma Halves(x: bv64)
    ensures x == Xor(Low(x), High(x)) && Low(High(x)) == 0 && Down(High(x)) == Down(x)
  {
  }

  // A byte step only looks at the low byte; the rest is shifted and added.
  lemma TableStep(x: bv64)
    ensures Steps(x, 8) == Xor(Steps(Low(x), 8), Down(x))
  {
    hide Xor, Low, High, Down, Steps;
    Halves(x);
    StepsLinear(Low(x), High(x), 8);
    StepsOfHigh(High(x));
  }

  lemma LowByte(crc: bv64, b: bv8)
    ensures Down(Xor(crc, Widen(b))) == Down(crc)
  {
  }

  lemma LowSmall(v: bv64)
    ensures Low(v) < 256
  {
  }

  function Index(v: bv64): (i: nat)
    ensures i < 256
  {
    LowSmall(v);
    Low(v) as int
  }

  lemma SmallBack(y: bv64)
    requires y < 256
    ensures (y as int) as bv64 == y
  {
  }

  lemma IndexBack(v: bv64)
    ensures Index(v) as bv64 == Low(v)
  {
    hide Low;
    LowSmall(v);
    SmallBack(Low(v));
  }

  method BuildTable() returns (table: array<bv64>)
    ensures fresh(table) && table.Length == 256
    ensures forall i :: 0 <= i < 256 ==> table[i] == Steps(i as bv64, 8)
  {
    hide Step;
    table := new bv64[256];
    for i := 0 to 256
      invariant forall j :: 0 <= j < i ==> table[j] == Steps(j as bv64, 8)
    {
      table[i] := TableEntry(i as bv64);
    }
  }

  method TableEntry(i: bv64) returns (v: bv64)
    ensures v == Steps(i, 8)
  {
    v := i;
    for n := 0 to 8
      invariant Steps(v, 8 - n) == Steps(i, 8)
    {
      if v & 1 != 0 { v := (v >> 1) ^ POLY; } else { v := v >> 1; }
    }
  }

  // The loop of the program computes the checksum as defined.
  method TableChecksum(data: Octets) returns (checksum: bv64)
    ensures checksum == Checksum(data)
  {
    hide Xor, Low, Down, Widen, Steps, Index;
    var table := BuildTable();
    checksum := 0;
    for i := 0 to |data|
      invariant Feed(checksum, data[i..]) == Checksum(data)
      invariant forall k :: 0 <= k < 256 ==> table[k] == Steps(k as bv64, 8)
    {
      var x := Xor(checksum, Widen(data[i]));
      LowByte(checksum, data[i]);
      IndexBack(x);
      TableStep(x);
      assert data[i..][1..] == data[i + 1..];
      var k := Index(x);
      assert table[k] == Steps(k as bv64, 8);
      checksum := Xor(table[k], Down(checksum));
    }
  }

  // ----- What the checksum detects -----

  lemma {:induction false} FeedConcat(crc: bv64, a: Octets, b: Octets)
    ensures Feed(crc, a + b) == Feed(Feed(crc, a), b)
    decreases |a|
  {
    hide Xor, Widen, Steps;
    if a == [] {
      assert a + b == b;
    } else {
      assert (a + b)[1..] == a[1..] + b;
      FeedConcat(Steps(Xor(crc, Widen(a[0])), 8), a[1..], b);
    }
  }

  // A difference in the register survives every common continuation.
  lemma {:induction false} FeedInjective(p: bv64, q: bv64, data: Octets)
    requires Feed(p, data) == Feed(q, data)
    ensures p == q
    decreases |data|
  {
    hide Xor, Widen, Steps;
    if data != [] {
      var b := Widen(data[0]);
      FeedInjective(Steps(Xor(p, b), 8), Steps(Xor(q, b), 8), data[1..]);
      StepsInjective(Xor(p, b), Xor(q, b), 8);
      XorCancel(p, b);
      XorCancel(q, b);
    }
  }

  // Up to eight bytes as one little-endian word.
  function Word(bytes: Octets): bv64 {
    if bytes == [] then 0 else Xor(Widen(bytes[0]), Up(Word(bytes[1..])))
  }

  // The word has nothing above its first n bytes.
  predicate Fits(w: bv64, n: nat) {
    if n >= 8 then true
    else if n == 7 then w < 0x100_0000_0000_0000 else if n == 6 then w < 0x1_0000_0000_0000
    else if n == 5 then w < 0x100_0000_0000 else if n == 4 then w < 0x1_0000_0000
    else if n == 3 then w < 0x100_0000 else if n == 2 then w < 0x1_0000 else if n == 1 then w < 0x100 else w == 0
  }

  lemma FitsGrows(b: bv8, w: bv64, n: nat)
    requires 0 < n <= 8 && Fits(w, n - 1)
    ensures Fits(Xor(Widen(b), Up(w)), n)
  {
    if n == 1 { } else if n == 2 { } else if n == 3 { } else if n == 4 { }
    else if n == 5 { } else if n == 6 { } else if n == 7 { } else { }
  }

  lemma {:induction false} WordFits(bytes: Octets)
    requires |bytes| <= 8
    ensures Fits(Word(bytes), |bytes|)
  {
    hide Fits, Xor, Up, Widen;
    if bytes == [] {
      ZeroFits();
    } else {
      WordFits(bytes[1..]);
      FitsGrows(bytes[0], Word(bytes[1..]), |bytes|);
    }
  }

  lemma ZeroFits()
    ensures Fits(0, 0)
  {
  }

  lemma FitsTopFree(w: bv64, n: nat)
    requires n <= 7 && Fits(w, n)
    ensures TopFree(w)
  {
    assert w < 0x100_0000_0000_0000;
  }

  lemma TailTopFree(bytes: Octets)
    requires |bytes| <= 7
    ensures TopFree(Word(bytes))
  {
    hide Word, Fits, TopFree;
    WordFits(bytes);
    FitsTopFree(Word(bytes), |bytes|);
  }

  lemma UpDown(w: bv64)
    requires TopFree(w)
    ensures Low(Up(w)) == 0 && Down(Up(w)) == w
  {
  }

  // Feeding up to eight bytes is one long division of the register with their word added.
  lemma {:induction false} FeedWord(crc: bv64, bytes: Octets)
    requires |bytes| <= 8
    ensures Feed(crc, bytes) == Steps(Xor(crc, Word(bytes)), 8 * |bytes|)
    decreases |bytes|
  {
    hide Xor, Low, Up, Down, Widen, TopFree, Step;
    if bytes == [] {
      XorCancel(crc, 0);
    } else {
      var b, w := Widen(bytes[0]), Word(bytes[1..]);
      FeedWord(Steps(Xor(crc, b), 8), bytes[1..]);
      TailTopFree(bytes[1..]);
      OneByteMore(crc, b, w);
      StepsCompose(Xor(crc, Word(bytes)), 8, 8 * |bytes[1..]|);
    }
  }

  lemma OneByteMore(crc: bv64, b: bv64, w: bv64)
    requires TopFree(w)
    ensures Steps(Xor(crc, Xor(b, Up(w))), 8) == Xor(Steps(Xor(crc, b), 8), w)
  {
    hide Xor, Low, Up, Down, TopFree, Steps;
    UpDown(w);
    StepsOfHigh(Up(w));
    StepsLinear(Xor(crc, b), Up(w), 8);
    XorAssoc(crc, b, Up(w));
  }

  lemma {:induction false} WordInjective(a: Octets, b: Octets)
    requires |a| == |b| <= 8 && Word(a) == Word(b)
    ensures a == b
  {
    hide Xor, Up, Widen, TopFree;
    if a != [] {
      TailTopFree(a[1..]);
      TailTopFree(b[1..]);
      SplitWord(a[0], b[0], Word(a[1..]), Word(b[1..]));
      WordInjective(a[1..], b[1..]);
      assert a == [a[0]] + a[1..] && b == [b[0]] + b[1..];
    }
  }

  lemma SplitWord(a: bv8, b: bv8, v: bv64, w: bv64)
    requires TopFree(v) && TopFree(w) && Xor(Widen(a), Up(v)) == Xor(Widen(b), Up(w))
    ensures a == b && v == w
  {
  }

  // Two snapshots of one length that differ only within eight consecutive bytes have
  // different checksums; in particular every single-byte error is detected.
  lemma BurstDetected(before: Octets, x: Octets, y: Octets, after: Octets)
    requires |x| == |y| <= 8 && x != y
    ensures Checksum(before + x + after) != Checksum(before + y + after)
  {
    hide Xor, Steps, Word, Feed;
    FeedConcat(0, before + x, after);
    FeedConcat(0, before + y, after);
    FeedConcat(0, before, x);
    FeedConcat(0, before, y);
    var crc := Feed(0, before);
    if Checksum(before + x + after) == Checksum(before + y + after) {
      FeedInjective(Feed(crc, x), Feed(crc, y), after);
      FeedWord(crc, x);
      FeedWord(crc, y);
      StepsInjective(Xor(crc, Word(x)), Xor(crc, Word(y)), 8 * |x|);
      SameAddend(crc, Word(x), Word(y));
      WordInjective(x, y);
    }
  }

  lemma SameAddend(crc: bv64, v: bv64, w: bv64)
    requires Xor(crc, v) == Xor(crc, w)
    ensures v == w
  {
  }
}
