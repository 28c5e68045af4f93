// RESP2 values, their encoding, and what a bounded reader accepts.
module Resp {
  import opened Wrappers

  type Bytes = seq<Byte>

  const CR: Byte := 13
  const LF: Byte := 10
  const CRLF: Bytes := [CR, LF]
  const PLUS: Byte := 43
  const MINUS: Byte := 45
  const COLON: Byte := 58
  const DOLLAR: Byte := 36
  const STAR: Byte := 42
  const ZERO: Byte := 48

  const LINE_LIMIT := 128
  const DEPTH_LIMIT := 3
  const INT64_MIN := -0x8000_0000_0000_0000
  const INT64_MAX := 0x7fff_ffff_ffff_ffff

  datatype Value =
    | Simple(text: Bytes)
    | Error(text: Bytes)
    | Integer(n: int)
    | Bulk(data: Bytes)
    | NullBulk
    | Array(items: seq<Value>)
    | NullArray

  // ----- Decimal numbers -----

  function Digits(n: nat): (s: Bytes)
    ensures s != []
  {
    if n < 10 then [n as Byte + ZERO] else Digits(n / 10) + [(n % 10) as Byte + ZERO]
  }

  function Decimal(n: int): Bytes {
    if n < 0 then [MINUS] + Digits(-n) else Digits(n)
  }

  predicate AllDigits(s: Bytes) { forall i :: 0 <= i < |s| ==> ZERO <= s[i] <= ZERO + 9 }

  function DigitsValue(s: Bytes): nat
    requires AllDigits(s)
  {
    if s == [] then 0 else 10 * DigitsValue(s[..|s| - 1]) + (s[|s| - 1] - ZERO) as nat
  }

  // decimal: up to twenty characters, an optional minus sign, and 64 bits.
  function ParseDecimal(s: Bytes): Option<int> {
    if |s| == 0 || |s| > 20 || s[0] == PLUS then None
    else
      var digits := if s[0] == MINUS then s[1..] else s;
      if digits == [] || !AllDigits(digits) then None
      else
        var n: int := if s[0] == MINUS then 0 - DigitsValue(digits) else DigitsValue(digits);
        if INT64_MIN <= n <= INT64_MAX then Some(n) else None
  }

  lemma {:induction false} DigitsRoundTrip(n: nat)
    ensures AllDigits(Digits(n)) && DigitsValue(Digits(n)) == n
  {
    if n >= 10 {
      DigitsRoundTrip(n / 10);
      assert Digits(n)[..|Digits(n)| - 1] == Digits(n / 10);
    }
  }

  function Power10(k: nat): nat { if k == 0 then 1 else 10 * Power10(k - 1) }

  lemma {:induction false} DigitsLength(n: nat, k: nat)
    requires k > 0 && n < Power10(k)
    ensures |Digits(n)| <= k
  {
    if n >= 10 { DigitsLength(n / 10, k - 1); }
  }

  lemma Power19()
    ensures Power10(19) == 10_000_000_000_000_000_000
  {
    assert Power10(3) == 1000;
    assert Power10(6) == 1000 * Power10(3);
    assert Power10(9) == 1000 * Power10(6);
    assert Power10(12) == 1000 * Power10(9);
    assert Power10(15) == 1000 * Power10(12);
    assert Power10(18) == 1000 * Power10(15);
  }

  lemma DecimalRoundTrip(n: int)
    requires INT64_MIN <= n <= INT64_MAX
    ensures |Decimal(n)| <= 20 && ParseDecimal(Decimal(n)) == Some(n)
  {
    var m := if n < 0 then -n else n;
    DigitsRoundTrip(m);
    Power19();
    DigitsLength(m, 19);
    assert Digits(m)[0] != MINUS && Digits(m)[0] != PLUS;
    assert n < 0 ==> Decimal(n)[1..] == Digits(m);
  }

  // A number too large for 64 bits is refused in any spelling.
  lemma DecimalOverflow(n: nat)
    requires n > INT64_MAX
    ensures ParseDecimal(Decimal(n)) == None
  {
    DigitsRoundTrip(n);
    assert Digits(n)[0] != MINUS;
  }

  lemma DecimalNoLF(n: int)
    ensures LF !in Decimal(n)
  {
    DigitsRoundTrip(if n < 0 then -n else n);
  }

  // ----- The encoding -----

  function Encode(v: Value): Bytes {
    match v
    case Simple(text) => [PLUS] + text + CRLF
    case Error(text) => [MINUS] + text + CRLF
    case Integer(n) => [COLON] + Decimal(n) + CRLF
    case Bulk(data) => [DOLLAR] + Decimal(|data|) + CRLF + data + CRLF
    case NullBulk => [DOLLAR] + Decimal(-1) + CRLF
    case Array(items) => [STAR] + Decimal(|items|) + CRLF + EncodeAll(items)
    case NullArray => [STAR] + Decimal(-1) + CRLF
  }

  function EncodeAll(items: seq<Value>): Bytes {
    if items == [] then [] else Encode(items[0]) + EncodeAll(items[1..])
  }

  // What a RESP2 server may send: lines without line feeds, 64-bit integers.
  predicate WellFormed(v: Value) {
    match v
    case Simple(text) => LF !in text
    case Error(text) => LF !in text
    case Integer(n) => INT64_MIN <= n <= INT64_MAX
    case Array(items) => forall i :: 0 <= i < |items| ==> WellFormed(items[i])
    case _ => true
  }

  // No null and no error anywhere, and every line within the line limit.
  predicate Plain(v: Value) {
    match v
    case Simple(text) => |text| + 2 <= LINE_LIMIT
    case Integer(_) => true
    case Bulk(_) => true
    case Array(items) => forall i :: 0 <= i < |items| ==> Plain(items[i])
    case _ => false
  }

  function Nodes(v: Value): (n: nat)
    ensures n > 0
  {
    if v.Array? then 1 + NodesAll(v.items) else 1
  }

  function NodesAll(items: seq<Value>): nat {
    if items == [] then 0 else Nodes(items[0]) + NodesAll(items[1..])
  }

  // The value, standing at this depth, stays within the depth limit.
  predicate Shallow(v: Value, depth: nat) {
    depth <= DEPTH_LIMIT && (v.Array? ==> forall i :: 0 <= i < |v.items| ==> Shallow(v.items[i], depth + 1))
  }

  lemma {:induction false} EncodeLength(v: Value)
    ensures |Encode(v)| >= 3
  {
    if v.Integer? { assert |Decimal(v.n)| >= 1; }
  }

  lemma {:induction false} EncodeAllLength(items: seq<Value>)
    ensures |EncodeAll(items)| >= 3 * |items| && NodesAll(items) >= |items|
  {
    if items != [] {
      EncodeLength(items[0]);
      EncodeAllLength(items[1..]);
    }
  }

  lemma {:induction false} EncodeAllSplit(a: seq<Value>, b: seq<Value>)
    ensures EncodeAll(a + b) == EncodeAll(a) + EncodeAll(b)
    ensures NodesAll(a + b) == NodesAll(a) + NodesAll(b)
  {
    if a == [] {
      assert a + b == b;
    } else {
      assert (a + b)[1..] == a[1..] + b;
      EncodeAllSplit(a[1..], b);
    }
  }
}
