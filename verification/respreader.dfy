// The reader of RESP2 replies: it parses under a budget of bytes, nodes and array slots,
// and one failed exchange closes it for good.
module RespReader {
  import opened Wrappers
  import opened Resp

  class Budget {
    var bytes: nat
    var items: nat
    var slots: nat
    const maxBytes: nat
    const maxItems: nat

    ghost predicate Within()
      reads this
    {
      bytes <= maxBytes && items <= maxItems && slots <= maxItems && maxBytes <= INT64_MAX && maxItems <= INT64_MAX
    }

    constructor (maxBytes: nat, maxItems: nat)
      requires maxBytes <= INT64_MAX && maxItems <= INT64_MAX
      ensures Within() && bytes == items == slots == 0 && this.maxBytes == maxBytes && this.maxItems == maxItems
    {
      bytes, items, slots := 0, 0, 0;
      this.maxBytes, this.maxItems := maxBytes, maxItems;
    }

    method Take(n: nat) returns (ok: bool)
      requires Within()
      modifies this`bytes
      ensures Within() && (ok <==> old(bytes) + n <= maxBytes)
      ensures bytes == if ok then old(bytes) + n else old(bytes)
    {
      if n > maxBytes || bytes > maxBytes - n { return false; }
      bytes := bytes + n;
      ok := true;
    }

    method Node() returns (ok: bool)
      requires Within()
      modifies this`items
      ensures Within() && (ok <==> old(items) < maxItems)
      ensures items == if ok then old(items) + 1 else old(items)
    {
      if items >= maxItems { return false; }
      items := items + 1;
      ok := true;
    }
  }

  // The bytes the server sends over the whole connection, and how many were consumed.
  class Stream {
    const input: Bytes
    var pos: nat

    ghost predicate Valid()
      reads this
    {
      pos <= |input|
    }

    constructor (input: Bytes)
      ensures Valid() && this.input == input && pos == 0
    {
      this.input, pos := input, 0;
    }
  }

  ghost predicate At(input: Bytes, pos: nat, s: Bytes) {
    pos + |s| <= |input| && input[pos..pos + |s|] == s
  }

  lemma AtSplit(input: Bytes, pos: nat, a: Bytes, b: Bytes)
    requires At(input, pos, a + b)
    ensures At(input, pos, a) && At(input, pos + |a|, b)
  {
    assert input[pos..pos + |a|] == (a + b)[..|a|];
    assert input[pos + |a|..pos + |a| + |b|] == (a + b)[|a|..];
  }

  // The first line feed of a known line is the one that ends it.
  lemma LineEnds(input: Bytes, pos: nat, text: Bytes)
    requires LF !in text && At(input, pos, text + CRLF)
    ensures forall k :: pos <= k <= pos + |text| ==> input[k] != LF
    ensures input[pos + |text| + 1] == LF
  {
    var s := text + CRLF;
    assert forall k :: pos <= k < pos + |s| ==> input[k] == input[pos..pos + |s|][k - pos];
    assert forall k :: 0 <= k < |text| ==> s[k] == text[k] && text[k] in text;
  }

  // A line up to its first line feed. `want` names what the stream is known to hold.
  method Line(r: Stream, b: Budget, ghost want: Option<Bytes>) returns (ok: bool, text: Bytes)
    requires r.Valid() && b.Within()
    requires want.Some? ==> LF !in want.value && At(r.input, r.pos, want.value + CRLF)
    modifies r, b`bytes
    ensures r.Valid() && b.Within() && r.pos >= old(r.pos)
    ensures ok ==> At(r.input, old(r.pos), text + CRLF) && LF !in text && |text| + 2 <= LINE_LIMIT
    ensures ok ==> r.pos == old(r.pos) + |text| + 2 && b.bytes == old(b.bytes) + |text| + 2
    ensures ok && want.Some? ==> text == want.value
    ensures want.Some? && |want.value| + 2 <= LINE_LIMIT && old(b.bytes) + |want.value| + 2 <= b.maxBytes ==> ok
  {
    text := [];
    var start, end := r.pos, r.pos;
    ghost var expected := if want.Some? then start + |want.value| + 1 else 0;
    if want.Some? { LineEnds(r.input, start, want.value); }
    while end < |r.input| && r.input[end] != LF
      invariant start <= end <= |r.input| && (want.Some? ==> end <= expected)
      invariant forall k :: start <= k < end ==> r.input[k] != LF
    {
      end := end + 1;
    }
    assert want.Some? ==> end == expected;
    if end == |r.input| || end + 1 - start > LINE_LIMIT { return false, text; }
    ok := b.Take(end + 1 - start);
    if !ok { return; }
    r.pos := end + 1;
    if end + 1 - start < 2 || r.input[end - 1] != CR { return false, text; }
    text := r.input[start..end - 1];
    assert r.input[start..end + 1] == text + CRLF;
    assert want.Some? ==> text == (want.value + CRLF)[..|want.value|];
  }

  // ----- What a value's bytes may look like: the encoding, in any spelling of its numbers -----

  ghost predicate HeadAt(s: Bytes, from: nat, kind: Byte, text: Bytes, to: nat) {
    from < |s| && s[from] == kind && At(s, from + 1, text + CRLF) && to == from + 1 + |text| + 2
  }

  ghost predicate Spells(v: Value, s: Bytes, from: nat, to: nat)
    decreases v
  {
    match v
    case Simple(text) => LF !in text && HeadAt(s, from, PLUS, text, to)
    case Integer(n) => exists digits: Bytes :: ParseDecimal(digits) == Some(n) && HeadAt(s, from, COLON, digits, to)
    case Bulk(data) =>
      exists digits: Bytes, body: nat ::
        ParseDecimal(digits) == Some(|data|) && HeadAt(s, from, DOLLAR, digits, body) && At(s, body, data + CRLF) && to == body + |data| + 2
    case Array(items) =>
      exists digits: Bytes, body: nat, cuts: seq<nat> ::
        && ParseDecimal(digits) == Some(|items|) && HeadAt(s, from, STAR, digits, body)
        && |cuts| == |items| + 1 && cuts[0] == body && cuts[|items|] == to
        && forall i :: 0 <= i < |items| ==> Spells(items[i], s, cuts[i], cuts[i + 1])
    case _ => false
  }

  lemma IntegerSpelled(s: Bytes, from: nat, digits: Bytes, n: int, to: nat)
    requires ParseDecimal(digits) == Some(n) && HeadAt(s, from, COLON, digits, to)
    ensures Spells(Integer(n), s, from, to)
  {
  }

  lemma BulkSpelled(s: Bytes, from: nat, digits: Bytes, data: Bytes, body: nat)
    requires ParseDecimal(digits) == Some(|data|) && HeadAt(s, from, DOLLAR, digits, body) && At(s, body, data + CRLF)
    ensures Spells(Bulk(data), s, from, body + |data| + 2)
  {
  }

  lemma ArraySpelled(s: Bytes, from: nat, digits: Bytes, items: seq<Value>, body: nat, cuts: seq<nat>)
    requires ParseDecimal(digits) == Some(|items|) && HeadAt(s, from, STAR, digits, body)
    requires |cuts| == |items| + 1 && cuts[0] == body
    requires forall i :: 0 <= i < |items| ==> Spells(items[i], s, cuts[i], cuts[i + 1])
    ensures Spells(Array(items), s, from, cuts[|items|])
  {
    hide HeadAt;
  }

  // ----- The bytes of a reply determine it -----

  lemma DigitsNoLF(digits: Bytes)
    requires ParseDecimal(digits).Some?
    ensures LF !in digits
  {
    var rest := if digits[0] == MINUS then digits[1..] else digits;
    forall i | 0 <= i < |digits| ensures digits[i] != LF {
      if digits[0] == MINUS && i > 0 { assert digits[i] == rest[i - 1]; }
    }
  }

  lemma SameLine(s: Bytes, pos: nat, a: Bytes, b: Bytes)
    requires LF !in a && LF !in b && At(s, pos, a + CRLF) && At(s, pos, b + CRLF)
    ensures a == b
  {
    LineEnds(s, pos, a);
    LineEnds(s, pos, b);
    assert |a| == |b|;
    assert a == (a + CRLF)[..|a|] && b == (b + CRLF)[..|a|];
  }

  lemma SameHead(s: Bytes, from: nat, kind: Byte, a: Bytes, to: nat, other: Byte, b: Bytes, end: nat)
    requires ParseDecimal(a).Some? && ParseDecimal(b).Some?
    requires HeadAt(s, from, kind, a, to) && HeadAt(s, from, other, b, end)
    ensures kind == other && a == b && to == end
  {
    DigitsNoLF(a);
    DigitsNoLF(b);
    SameLine(s, from + 1, a, b);
  }

  // No bytes spell two values, and no value's bytes begin another's.
  lemma {:induction false} Unambiguous(v: Value, w: Value, s: Bytes, from: nat, to: nat, end: nat)
    requires Spells(v, s, from, to) && Spells(w, s, from, end)
    ensures v == w && to == end
    decreases v
  {
    hide ParseDecimal;
    match v
    case Simple(text) => SameLine(s, from + 1, text, w.text);
    case Integer(n) =>
      var a :| ParseDecimal(a) == Some(n) && HeadAt(s, from, COLON, a, to);
      var b :| ParseDecimal(b) == Some(w.n) && HeadAt(s, from, COLON, b, end);
      SameHead(s, from, COLON, a, to, COLON, b, end);
    case Bulk(data) =>
      var a: Bytes, i: nat :| ParseDecimal(a) == Some(|data|) && HeadAt(s, from, DOLLAR, a, i) && At(s, i, data + CRLF) && to == i + |data| + 2;
      var b: Bytes, j: nat :| ParseDecimal(b) == Some(|w.data|) && HeadAt(s, from, DOLLAR, b, j) && At(s, j, w.data + CRLF) && end == j + |w.data| + 2;
      SameHead(s, from, DOLLAR, a, i, DOLLAR, b, j);
      assert data == (data + CRLF)[..|data|] && w.data == (w.data + CRLF)[..|data|];
    case Array(items) => UnambiguousItems(items, w.items, s, from, to, end);
  }

  lemma {:induction false} UnambiguousItems(items: seq<Value>, others: seq<Value>, s: Bytes, from: nat, to: nat, end: nat)
    requires Spells(Array(items), s, from, to) && Spells(Array(others), s, from, end)
    ensures items == others && to == end
    decreases items, 1
  {
    hide ParseDecimal;
    var a: Bytes, i: nat, cuts: seq<nat> :| ParseDecimal(a) == Some(|items|) && HeadAt(s, from, STAR, a, i)
      && |cuts| == |items| + 1 && cuts[0] == i && cuts[|items|] == to
      && forall k :: 0 <= k < |items| ==> Spells(items[k], s, cuts[k], cuts[k + 1]);
    var b: Bytes, j: nat, ends: seq<nat> :| ParseDecimal(b) == Some(|others|) && HeadAt(s, from, STAR, b, j)
      && |ends| == |others| + 1 && ends[0] == j && ends[|others|] == end
      && forall k :: 0 <= k < |others| ==> Spells(others[k], s, ends[k], ends[k + 1]);
    SameHead(s, from, STAR, a, i, STAR, b, j);
    UnambiguousCuts(items, others, s, cuts, ends);
  }

  lemma {:induction false} UnambiguousCuts(items: seq<Value>, others: seq<Value>, s: Bytes, cuts: seq<nat>, ends: seq<nat>)
    requires |others| == |items| && |cuts| == |ends| == |items| + 1 && cuts[0] == ends[0]
    requires forall k :: 0 <= k < |items| ==> Spells(items[k], s, cuts[k], cuts[k + 1])
    requires forall k :: 0 <= k < |items| ==> Spells(others[k], s, ends[k], ends[k + 1])
    ensures items == others && cuts[|items|] == ends[|items|]
    decreases items, 0
  {
    hide Spells;
    for k := 0 to |items|
      invariant cuts[k] == ends[k]
      invariant forall m :: 0 <= m < k ==> items[m] == others[m]
    {
      Unambiguous(items[k], others[k], s, cuts[k], cuts[k + 1], ends[k + 1]);
    }
  }

  // The reply fits what is left of the budget at this depth.
  predicate Fits(v: Value, depth: nat, bytes: nat, nodes: nat, slots: nat, maxBytes: nat, maxItems: nat) {
    && Plain(v) && Shallow(v, depth)
    && bytes + |Encode(v)| <= maxBytes && nodes + Nodes(v) <= maxItems && slots + Nodes(v) - 1 <= maxItems
  }

  // ----- The three parts of every encoding -----

  function KindOf(v: Value): Byte {
    match v
    case Simple(_) => PLUS
    case Error(_) => MINUS
    case Integer(_) => COLON
    case Bulk(_) => DOLLAR
    case NullBulk => DOLLAR
    case Array(_) => STAR
    case NullArray => STAR
  }

  function LineOf(v: Value): Bytes {
    match v
    case Simple(text) => text
    case Error(text) => text
    case Integer(n) => Decimal(n)
    case Bulk(data) => Decimal(|data|)
    case Array(items) => Decimal(|items|)
    case _ => Decimal(-1)
  }

  function TailOf(v: Value): Bytes {
    if v.Bulk? then v.data + CRLF else if v.Array? then EncodeAll(v.items) else []
  }

  lemma EncodeParts(v: Value)
    requires WellFormed(v)
    ensures Encode(v) == [KindOf(v)] + ((LineOf(v) + CRLF) + TailOf(v)) && LF !in LineOf(v)
  {
    match v
    case Integer(n) => DecimalNoLF(n);
    case Bulk(data) => DecimalNoLF(|data|);
    case Array(items) => DecimalNoLF(|items|);
    case NullBulk => DecimalNoLF(-1);
    case NullArray => DecimalNoLF(-1);
    case _ =>
  }

  // The stream is known to continue with the rest of this value's encoding.
  ghost predicate Awaits(want: Option<Value>, kind: Byte, input: Bytes, pos: nat) {
    want.Some? ==>
      var v := want.value;
      && WellFormed(v) && KindOf(v) == kind && LF !in LineOf(v)
      && At(input, pos, LineOf(v) + CRLF) && At(input, pos + |LineOf(v)| + 2, TailOf(v))
  }

  lemma PartsAt(input: Bytes, pos: nat, v: Value)
    requires WellFormed(v) && At(input, pos, Encode(v))
    ensures pos < |input| && input[pos] == KindOf(v) && Awaits(Some(v), KindOf(v), input, pos + 1)
    ensures |Encode(v)| == 1 + |LineOf(v)| + 2 + |TailOf(v)|
  {
    EncodeParts(v);
    AtSplit(input, pos, [KindOf(v)], (LineOf(v) + CRLF) + TailOf(v));
    AtSplit(input, pos + 1, LineOf(v) + CRLF, TailOf(v));
    assert input[pos..pos + 1][0] == input[pos];
  }

  lemma LengthReads(n: nat)
    ensures ParseDecimal(Decimal(n)) == if n <= INT64_MAX then Some(n) else None
  {
    if n <= INT64_MAX { DecimalRoundTrip(n); } else { DecimalOverflow(n); }
  }

  predicate NodesFit(items: seq<Value>, nodes: nat, slots: nat, maxItems: nat) {
    nodes + NodesAll(items) <= maxItems && slots + NodesAll(items) <= maxItems
  }

  // What is needed after the first byte for a value that fits.
  predicate RestFits(v: Value, depth: nat, bytes: nat, nodes: nat, slots: nat, maxBytes: nat, maxItems: nat) {
    && Plain(v) && Shallow(v, depth) && |LineOf(v)| + 2 <= LINE_LIMIT
    && bytes + |LineOf(v)| + 2 + |TailOf(v)| <= maxBytes && (v.Array? ==> NodesFit(v.items, nodes, slots, maxItems))
  }

  lemma FirstByteFits(v: Value, depth: nat, bytes: nat, nodes: nat, slots: nat, maxBytes: nat, maxItems: nat)
    requires WellFormed(v) && Fits(v, depth, bytes, nodes, slots, maxBytes, maxItems) && maxBytes <= INT64_MAX
    ensures depth <= DEPTH_LIMIT && nodes < maxItems && bytes < maxBytes
    ensures RestFits(v, depth, bytes + 1, nodes + 1, slots, maxBytes, maxItems)
  {
    EncodeParts(v);
    match v
    case Simple(text) =>
    case Integer(n) => DecimalRoundTrip(n);
    case Bulk(data) => DecimalRoundTrip(|data|);
    case Array(items) => EncodeAllLength(items); DecimalRoundTrip(|items|);
  }

  // ----- After the first byte -----

  // After a '+', '-' or ':'.
  method ParseLine(r: Stream, b: Budget, kind: Byte, depth: nat, ghost want: Option<Value>) returns (ok: bool, v: Value)
    requires r.Valid() && b.Within() && kind in {PLUS, MINUS, COLON} && depth <= DEPTH_LIMIT
    requires 0 < r.pos && r.input[r.pos - 1] == kind && Awaits(want, kind, r.input, r.pos)
    modifies r, b`bytes
    ensures r.Valid() && b.Within() && r.pos >= old(r.pos)
    ensures ok ==> Plain(v) && Shallow(v, depth) && Nodes(v) == 1 && Spells(v, r.input, old(r.pos) - 1, r.pos)
    ensures ok ==> b.bytes - old(b.bytes) == r.pos - old(r.pos)
    ensures ok && want.Some? ==> v == want.value && r.pos == old(r.pos) + |LineOf(v)| + 2 + |TailOf(v)|
    ensures want.Some? && RestFits(want.value, depth, old(b.bytes), b.items, b.slots, b.maxBytes, b.maxItems) ==> ok
  {
    v := NullBulk;
    var text;
    ok, text := Line(r, b, if want.Some? then Some(LineOf(want.value)) else None);
    if !ok || kind == MINUS { return false, v; }
    if kind == COLON {
      var n := ParseDecimal(text);
      if want.Some? { DecimalRoundTrip(want.value.n); }
      if n.None? { return false, v; }
      v := Integer(n.value);
      IntegerSpelled(r.input, old(r.pos) - 1, text, n.value, r.pos);
    } else {
      v := Simple(text);
    }
  }

  // After a '$'.
  method ParseBulk(r: Stream, b: Budget, depth: nat, ghost want: Option<Value>) returns (ok: bool, v: Value)
    requires r.Valid() && b.Within() && depth <= DEPTH_LIMIT
    requires 0 < r.pos && r.input[r.pos - 1] == DOLLAR && Awaits(want, DOLLAR, r.input, r.pos)
    modifies r, b`bytes
    ensures r.Valid() && b.Within() && r.pos >= old(r.pos)
    ensures ok ==> Plain(v) && Shallow(v, depth) && Nodes(v) == 1 && Spells(v, r.input, old(r.pos) - 1, r.pos)
    ensures ok ==> b.bytes - old(b.bytes) == r.pos - old(r.pos)
    ensures ok && want.Some? ==> v == want.value && r.pos == old(r.pos) + |LineOf(v)| + 2 + |TailOf(v)|
    ensures want.Some? && RestFits(want.value, depth, old(b.bytes), b.items, b.slots, b.maxBytes, b.maxItems) ==> ok
  {
    hide Spells, ParseDecimal, Decimal;
    v := NullBulk;
    var text;
    ok, text := Line(r, b, if want.Some? then Some(LineOf(want.value)) else None);
    if !ok { return; }
    var length := ParseDecimal(text);
    if want.Some? {
      if want.value.Bulk? { LengthReads(|want.value.data|); } else { DecimalRoundTrip(-1); }
    }
    if length.None? || length.value < 0 || length.value > b.maxBytes || length.value + 2 > b.maxBytes - b.bytes { return false, v; }
    ghost var head := r.pos;
    var data;
    ok, data := ReadData(r, b, length.value, if want.Some? && want.value.Bulk? then Some(want.value.data) else None);
    if !ok { return; }
    v := Bulk(data);
    BulkSpelled(r.input, old(r.pos) - 1, text, data, head);
  }

  // Exactly n bytes and the line end behind them.
  method ReadData(r: Stream, b: Budget, n: nat, ghost want: Option<Bytes>) returns (ok: bool, data: Bytes)
    requires r.Valid() && b.Within()
    requires want.Some? ==> |want.value| == n && At(r.input, r.pos, want.value + CRLF)
    modifies r, b`bytes
    ensures r.Valid() && b.Within() && r.pos >= old(r.pos)
    ensures ok ==> |data| == n && At(r.input, old(r.pos), data + CRLF) && r.pos == old(r.pos) + n + 2 && b.bytes == old(b.bytes) + n + 2
    ensures ok && want.Some? ==> data == want.value
    ensures want.Some? && old(b.bytes) + n + 2 <= b.maxBytes ==> ok
  {
    data := [];
    if r.pos + n + 2 > |r.input| { return false, data; }
    var chunk := r.input[r.pos..r.pos + n + 2];
    r.pos := r.pos + n + 2;
    ok := b.Take(n + 2);
    assert want.Some? ==> chunk == want.value + CRLF;
    if !ok || chunk[n] != CR || chunk[n + 1] != LF { return false, data; }
    data := chunk[..n];
    assert chunk == data + CRLF;
  }

  // ----- Arrays -----

  // All items of an array that stand at this depth fit together.
  ghost predicate ItemsFit(items: seq<Value>, depth: nat, bytes: nat, nodes: nat, slots: nat, maxBytes: nat, maxItems: nat) {
    && (forall i :: 0 <= i < |items| ==> Plain(items[i]) && Shallow(items[i], depth))
    && bytes + |EncodeAll(items)| <= maxBytes && nodes + NodesAll(items) <= maxItems && slots + NodesAll(items) - |items| <= maxItems
  }

  // The header of an array that fits passes all three early checks.
  lemma HeaderPasses(v: Value, depth: nat, bytes: nat, nodes: nat, slots: nat, maxBytes: nat, maxItems: nat)
    requires v.Array? && RestFits(v, depth, bytes, nodes, slots, maxBytes, maxItems)
    ensures
      var after := bytes + |LineOf(v)| + 2;
      && |v.items| <= maxItems - nodes && |v.items| <= maxItems - slots && |v.items| <= (maxBytes - after) / 3
      && ItemsFit(v.items, depth + 1, after, nodes, slots + |v.items|, maxBytes, maxItems)
  {
    EncodeAllLength(v.items);
  }

  lemma FirstFits(items: seq<Value>, depth: nat, bytes: nat, nodes: nat, slots: nat, maxBytes: nat, maxItems: nat)
    requires items != [] && ItemsFit(items, depth, bytes, nodes, slots, maxBytes, maxItems)
    ensures Fits(items[0], depth, bytes, nodes, slots, maxBytes, maxItems)
    ensures ItemsFit(items[1..], depth, bytes + |Encode(items[0])|, nodes + Nodes(items[0]), slots + Nodes(items[0]) - 1, maxBytes, maxItems)
  {
    EncodeAllLength(items[1..]);
  }

  lemma ArrayPlain(items: seq<Value>, depth: nat)
    requires depth <= DEPTH_LIMIT && forall i :: 0 <= i < |items| ==> Plain(items[i]) && Shallow(items[i], depth + 1)
    ensures Plain(Array(items)) && Shallow(Array(items), depth) && Nodes(Array(items)) == 1 + NodesAll(items)
  {
  }

  // After a '*'.
  method ParseArray(r: Stream, b: Budget, depth: nat, ghost want: Option<Value>) returns (ok: bool, v: Value)
    requires r.Valid() && b.Within() && depth <= DEPTH_LIMIT
    requires 0 < r.pos && r.input[r.pos - 1] == STAR && Awaits(want, STAR, r.input, r.pos)
    modifies r, b
    ensures r.Valid() && b.Within() && r.pos >= old(r.pos)
    ensures ok ==> Plain(v) && Shallow(v, depth) && Spells(v, r.input, old(r.pos) - 1, r.pos)
    ensures ok ==> b.bytes - old(b.bytes) == r.pos - old(r.pos)
    ensures ok ==> b.items == old(b.items) + Nodes(v) - 1 && b.slots == old(b.slots) + Nodes(v) - 1
    ensures ok && want.Some? ==> v == want.value && r.pos == old(r.pos) + |LineOf(v)| + 2 + |TailOf(v)|
    ensures want.Some? && RestFits(want.value, depth, old(b.bytes), old(b.items), old(b.slots), b.maxBytes, b.maxItems) ==> ok
    decreases DEPTH_LIMIT + 1 - depth, 0
  {
    hide Spells, Plain, Shallow, Nodes, NodesAll, ItemsFit, EncodeAll, ParseDecimal, Decimal, RestFits;
    v := NullBulk;
    ghost var fits := want.Some? && RestFits(want.value, depth, old(b.bytes), old(b.items), old(b.slots), b.maxBytes, b.maxItems);
    ghost var known := if want.Some? && want.value.Array? then Some(want.value.items) else None;
    if fits { FittingArray(want.value, depth, b.bytes, b.items, b.slots, b.maxBytes, b.maxItems); }
    var text;
    ok, text := Line(r, b, if want.Some? then Some(LineOf(want.value)) else None);
    if !ok { return; }
    var length := ParseDecimal(text);
    if want.Some? {
      if known.Some? { LengthReads(|known.value|); } else { DecimalRoundTrip(-1); }
    }
    if length.None? || length.value < 0 || length.value > b.maxItems - b.items || length.value > b.maxItems - b.slots
       || length.value > (b.maxBytes - b.bytes) / 3 { return false, v; }
    var n: nat := length.value;
    b.slots := b.slots + n;
    ghost var body := r.pos;
    if known.Some? { ItemsWellFormed(want.value); }
    var items;
    ghost var cuts;
    ok, items, cuts := ParseItems(r, b, depth + 1, n, known, fits);
    if !ok { return; }
    v := Array(items);
    ArrayPlain(items, depth);
    ArraySpelled(r.input, old(r.pos) - 1, text, items, body, cuts);
  }

  lemma FittingArray(v: Value, depth: nat, bytes: nat, nodes: nat, slots: nat, maxBytes: nat, maxItems: nat)
    requires KindOf(v) == STAR && RestFits(v, depth, bytes, nodes, slots, maxBytes, maxItems)
    ensures v.Array? && |LineOf(v)| + 2 <= LINE_LIMIT && bytes + |LineOf(v)| + 2 <= maxBytes
    ensures
      var after := bytes + |LineOf(v)| + 2;
      && |v.items| <= maxItems - nodes && |v.items| <= maxItems - slots && |v.items| <= (maxBytes - after) / 3
      && ItemsFit(v.items, depth + 1, after, nodes, slots + |v.items|, maxBytes, maxItems)
  {
    HeaderPasses(v, depth, bytes, nodes, slots, maxBytes, maxItems);
  }

  lemma ItemsWellFormed(v: Value)
    requires v.Array? && WellFormed(v)
    ensures forall i :: 0 <= i < |v.items| ==> WellFormed(v.items[i])
  {
  }

  lemma OneEncoded(v: Value)
    ensures EncodeAll([v]) == Encode(v) && NodesAll([v]) == Nodes(v)
  {
    assert EncodeAll([v]) == Encode(v) + EncodeAll([v][1..]);
    assert [v][1..] == [];
  }

  lemma NextItem(input: Bytes, pos: nat, rest: seq<Value>)
    requires rest != [] && At(input, pos, EncodeAll(rest))
    ensures At(input, pos, Encode(rest[0])) && At(input, pos + |Encode(rest[0])|, EncodeAll(rest[1..]))
    ensures |EncodeAll(rest)| == |Encode(rest[0])| + |EncodeAll(rest[1..])|
  {
    AtSplit(input, pos, Encode(rest[0]), EncodeAll(rest[1..]));
  }

  lemma OneMoreItem(items: seq<Value>, item: Value)
    ensures NodesAll(items + [item]) == NodesAll(items) + Nodes(item)
  {
    OneEncoded(item);
    EncodeAllSplit(items, [item]);
  }

  lemma NothingEncoded()
    ensures EncodeAll([]) == [] && NodesAll([]) == 0
  {
  }

  // The items one after the other; `cuts` are the places where each one starts.
  method ParseItems(r: Stream, b: Budget, depth: nat, n: nat, ghost want: Option<seq<Value>>, ghost fits: bool)
    returns (ok: bool, items: seq<Value>, ghost cuts: seq<nat>)
    requires r.Valid() && b.Within() && 0 < depth <= DEPTH_LIMIT + 1
    requires want.Some? ==> |want.value| == n && At(r.input, r.pos, EncodeAll(want.value))
    requires want.Some? ==> forall i :: 0 <= i < n ==> WellFormed(want.value[i])
    requires fits ==> want.Some? && ItemsFit(want.value, depth, b.bytes, b.items, b.slots, b.maxBytes, b.maxItems)
    modifies r, b
    ensures r.Valid() && b.Within() && r.pos >= old(r.pos)
    ensures ok ==> |items| == n && |cuts| == n + 1 && cuts[0] == old(r.pos) && cuts[n] == r.pos
    ensures ok ==> forall i :: 0 <= i < n ==> Plain(items[i]) && Shallow(items[i], depth)
    ensures ok ==> forall i :: 0 <= i < n ==> Spells(items[i], r.input, cuts[i], cuts[i + 1])
    ensures ok ==> b.bytes - old(b.bytes) == r.pos - old(r.pos)
    ensures ok ==> b.items == old(b.items) + NodesAll(items) && b.slots == old(b.slots) + NodesAll(items) - n
    ensures ok && want.Some? ==> items == want.value && r.pos == old(r.pos) + |EncodeAll(want.value)|
    ensures fits ==> ok
    decreases DEPTH_LIMIT + 1 - depth, 2
  {
    hide Spells, Fits, ItemsFit, Plain, Shallow, WellFormed, At, Nodes, Encode, NodesAll, EncodeAll, ReadSoFar, StillWanted;
    NothingEncoded();
    ok, items, cuts := true, [], [r.pos];
    NoneRead(r.input, r.pos, depth, want);
    ghost var rest := if want.Some? then want.value else [];
    for i := 0 to n
      invariant r.Valid() && b.Within() && r.pos >= old(r.pos) && ok
      invariant |items| == i && ReadSoFar(items, cuts, r.input, old(r.pos), r.pos, depth)
      invariant b.bytes - old(b.bytes) == r.pos - old(r.pos)
      invariant b.items == old(b.items) + NodesAll(items) && b.slots == old(b.slots) + NodesAll(items) - i
      invariant want.Some? ==> StillWanted(want.value, items, rest, r.input, old(r.pos), r.pos)
      invariant fits ==> ItemsFit(rest, depth, b.bytes, b.items, b.slots, b.maxBytes, b.maxItems)
    {
      ghost var from := r.pos;
      if want.Some? { WantedNext(want.value, items, rest, r.input, old(r.pos), r.pos); }
      if fits { FirstFits(rest, depth, b.bytes, b.items, b.slots, b.maxBytes, b.maxItems); }
      var item;
      ok, item := Parse(r, b, depth, if want.Some? then Some(rest[0]) else None);
      if !ok { return; }
      OneMoreItem(items, item);
      ReadOneMore(items, cuts, r.input, old(r.pos), from, r.pos, depth, item);
      rest := if want.Some? then rest[1..] else rest;
      items, cuts := items + [item], cuts + [r.pos];
    }
    AllRead(items, cuts, r.input, old(r.pos), r.pos, depth, want, rest);
  }

  // The items read so far and the places where they start and end.
  ghost predicate ReadSoFar(items: seq<Value>, cuts: seq<nat>, input: Bytes, from: nat, to: nat, depth: nat) {
    && |cuts| == |items| + 1 && cuts[0] == from && cuts[|items|] == to
    && (forall j :: 0 <= j < |items| ==> Plain(items[j]) && Shallow(items[j], depth))
    && forall j :: 0 <= j < |items| ==> Spells(items[j], input, cuts[j], cuts[j + 1])
  }

  // The rest of the wanted items is what the input still shows.
  ghost predicate StillWanted(want: seq<Value>, items: seq<Value>, rest: seq<Value>, input: Bytes, from: nat, to: nat) {
    && items + rest == want && At(input, to, EncodeAll(rest)) && to + |EncodeAll(rest)| == from + |EncodeAll(want)|
    && forall j :: 0 <= j < |rest| ==> WellFormed(rest[j])
  }

  lemma NoneRead(input: Bytes, from: nat, depth: nat, want: Option<seq<Value>>)
    requires want.Some? ==> At(input, from, EncodeAll(want.value)) && forall j :: 0 <= j < |want.value| ==> WellFormed(want.value[j])
    ensures ReadSoFar([], [from], input, from, from, depth)
    ensures want.Some? ==> StillWanted(want.value, [], want.value, input, from, from)
  {
    hide At, EncodeAll, WellFormed;
  }

  lemma ReadOneMore(items: seq<Value>, cuts: seq<nat>, input: Bytes, from: nat, to: nat, next: nat, depth: nat, item: Value)
    requires ReadSoFar(items, cuts, input, from, to, depth)
    requires Plain(item) && Shallow(item, depth) && Spells(item, input, to, next)
    ensures ReadSoFar(items + [item], cuts + [next], input, from, next, depth)
  {
    hide Plain, Shallow, Spells;
  }

  lemma WantedNext(want: seq<Value>, items: seq<Value>, rest: seq<Value>, input: Bytes, from: nat, to: nat)
    requires StillWanted(want, items, rest, input, from, to) && |items| < |want|
    ensures rest != [] && WellFormed(rest[0]) && At(input, to, Encode(rest[0]))
    ensures StillWanted(want, items + [rest[0]], rest[1..], input, from, to + |Encode(rest[0])|)
  {
    hide At, EncodeAll, Encode, WellFormed;
    assert |items + rest| == |items| + |rest|;
    NextItem(input, to, rest);
    assert items + rest == (items + [rest[0]]) + rest[1..];
  }

  lemma AllRead(items: seq<Value>, cuts: seq<nat>, input: Bytes, from: nat, to: nat, depth: nat, want: Option<seq<Value>>, rest: seq<Value>)
    requires ReadSoFar(items, cuts, input, from, to, depth)
    requires want.Some? ==> |want.value| == |items| && StillWanted(want.value, items, rest, input, from, to)
    ensures |cuts| == |items| + 1 && cuts[0] == from && cuts[|items|] == to
    ensures forall j :: 0 <= j < |items| ==> Plain(items[j]) && Shallow(items[j], depth)
    ensures forall j :: 0 <= j < |items| ==> Spells(items[j], input, cuts[j], cuts[j + 1])
    ensures want.Some? ==> items == want.value && to == from + |EncodeAll(want.value)|
  {
    hide Plain, Shallow, Spells, At, WellFormed;
    if want.Some? { assert |items + rest| == |items| + |rest|; }
  }

  // ----- Whole replies -----

  // One reply. Whatever the input, the budget holds and the reply is what its bytes spell;
  // and a reply the server encoded is accepted exactly when it fits, and then read whole.
  method Parse(r: Stream, b: Budget, depth: nat, ghost want: Option<Value>) returns (ok: bool, v: Value)
    requires r.Valid() && b.Within() && depth <= DEPTH_LIMIT + 1
    requires want.Some? ==> WellFormed(want.value) && At(r.input, r.pos, Encode(want.value))
    modifies r, b
    ensures r.Valid() && b.Within() && r.pos >= old(r.pos)
    ensures ok ==> Plain(v) && Shallow(v, depth) && Spells(v, r.input, old(r.pos), r.pos)
    ensures ok ==> b.bytes - old(b.bytes) == r.pos - old(r.pos)
    ensures ok ==> b.items == old(b.items) + Nodes(v) && b.slots == old(b.slots) + Nodes(v) - 1
    ensures ok && want.Some? ==> v == want.value && r.pos == old(r.pos) + |Encode(want.value)|
    ensures want.Some? ==> (ok <==> Fits(want.value, depth, old(b.bytes), old(b.items), old(b.slots), b.maxBytes, b.maxItems))
    decreases DEPTH_LIMIT + 1 - depth, 1
  {
    hide Spells, Plain, Shallow, Nodes, Encode, WellFormed, Fits, RestFits, Awaits, At, LineOf, TailOf, KindOf;
    v := NullBulk;
    ghost var fits := want.Some? && Fits(want.value, depth, b.bytes, b.items, b.slots, b.maxBytes, b.maxItems);
    if fits { FirstByteFits(want.value, depth, b.bytes, b.items, b.slots, b.maxBytes, b.maxItems); }
    if want.Some? { PartsAt(r.input, r.pos, want.value); KnownKind(want.value); }
    NothingAwaited(r.input, r.pos + 1);
    ok := false;
    if depth <= DEPTH_LIMIT {
      var kind;
      ok, kind := FirstByte(r, b);
      if ok {
        if kind == PLUS || kind == MINUS || kind == COLON {
          ok, v := ParseLine(r, b, kind, depth, want);
        } else if kind == DOLLAR {
          ok, v := ParseBulk(r, b, depth, want);
        } else if kind == STAR {
          ok, v := ParseArray(r, b, depth, want);
        } else {
          ok := false;
        }
      }
    }
    if ok && want.Some? { FitsIndeed(v, depth, old(b.bytes), old(b.items), old(b.slots), b.maxBytes, b.maxItems); }
  }

  method FirstByte(r: Stream, b: Budget) returns (ok: bool, kind: Byte)
    requires r.Valid() && b.Within()
    modifies r, b
    ensures r.Valid() && b.Within() && r.pos >= old(r.pos)
    ensures ok ==> old(r.pos) < |r.input| && kind == r.input[old(r.pos)] && r.pos == old(r.pos) + 1
    ensures ok ==> b.bytes == old(b.bytes) + 1 && b.items == old(b.items) + 1 && b.slots == old(b.slots)
    ensures ok <==> old(r.pos) < |r.input| && old(b.items) < b.maxItems && old(b.bytes) < b.maxBytes
  {
    kind := ZERO;
    ok := b.Node();
    if !ok { return; }
    if r.pos == |r.input| { return false, kind; }
    kind := r.input[r.pos];
    r.pos := r.pos + 1;
    ok := b.Take(1);
  }

  lemma NothingAwaited(input: Bytes, pos: nat)
    ensures forall kind :: Awaits(None, kind, input, pos)
  {
  }

  lemma KnownKind(v: Value)
    ensures KindOf(v) in {PLUS, MINUS, COLON, DOLLAR, STAR}
  {
  }

  lemma FitsIndeed(v: Value, depth: nat, bytes: nat, nodes: nat, slots: nat, maxBytes: nat, maxItems: nat)
    requires Plain(v) && Shallow(v, depth)
    requires bytes + |Encode(v)| <= maxBytes && nodes + Nodes(v) <= maxItems && slots + Nodes(v) - 1 <= maxItems
    ensures Fits(v, depth, bytes, nodes, slots, maxBytes, maxItems)
  {
  }

  // ----- The connection -----

  // A reader over an open connection. `served` counts the exchanges that succeeded.
  class Reader {
    const stream: Stream
    const maxBytes: nat
    const maxItems: nat
    var failed: bool
    ghost var served: nat

    ghost predicate Valid()
      reads this, stream
    {
      stream.Valid() && maxBytes <= INT64_MAX && maxItems <= INT64_MAX
    }

    // The connection carries the server's replies in order, and every successful exchange
    // so far has consumed exactly one of them.
    ghost predicate Following(replies: seq<Value>)
      reads this, stream
    {
      && Valid() && stream.input == EncodeAll(replies) && (forall i :: 0 <= i < |replies| ==> WellFormed(replies[i]))
      && (!failed ==> served <= |replies| && stream.pos == |EncodeAll(replies[..served])|)
    }

    constructor (stream: Stream, maxBytes: nat, maxItems: nat)
      requires stream.Valid() && maxBytes <= INT64_MAX && maxItems <= INT64_MAX
      ensures Valid() && !failed && served == 0 && this.stream == stream && this.maxBytes == maxBytes && this.maxItems == maxItems
    {
      this.stream, this.maxBytes, this.maxItems := stream, maxBytes, maxItems;
      failed, served := false, 0;
    }

    // One command and its reply, under the limits of the operation it serves. `sent` is
    // whether the request went out; refusing to send it leaves the connection usable.
    method Exchange(limitBytes: nat, limitItems: nat, refused: bool, broken: bool, ghost replies: Option<seq<Value>>)
      returns (ok: bool, v: Value)
      requires Valid() && (replies.Some? ==> Following(replies.value))
      modifies this`failed, this`served, stream
      ensures Valid() && (replies.Some? ==> Following(replies.value))
      ensures old(failed) ==> !ok && failed && stream.pos == old(stream.pos)
      ensures ok ==> !failed && served == old(served) + 1
      ensures !ok ==> served == old(served) && (failed || stream.pos == old(stream.pos))
      ensures ok && replies.Some? ==> old(served) < |replies.value| && v == replies.value[old(served)]
      ensures replies.Some? && !old(failed) && !refused && !broken && old(served) < |replies.value| ==>
        (ok <==> Fits(replies.value[old(served)], 0, 0, 0, 0, Least(maxBytes, limitBytes), Least(maxItems, limitItems)))
    {
      hide EncodeAll, Fits, WellFormed, Spells, Plain, Shallow, Nodes, At;
      v := NullBulk;
      if failed || refused { return false, v; }
      if broken {
        failed := true;
        return false, v;
      }
      ghost var next := if replies.Some? && served < |replies.value| then Some(replies.value[served]) else None;
      if next.Some? { NextReply(replies.value, served); }
      var budget := new Budget(Least(maxBytes, limitBytes), Least(maxItems, limitItems));
      ghost var before := stream.pos;
      if replies.Some? { assert replies.value[..|replies.value|] == replies.value; }
      ok, v := Parse(stream, budget, 0, next);
      if !ok {
        failed := true;
        return;
      }
      SpellsSomething(v, stream.input, before, stream.pos);
      served := served + 1;
    }
  }

  lemma SpellsSomething(v: Value, s: Bytes, from: nat, to: nat)
    requires Spells(v, s, from, to)
    ensures from < |s|
  {
  }

  function Least(a: nat, b: nat): nat { if a < b then a else b }

  lemma NextReply(replies: seq<Value>, k: nat)
    requires k < |replies|
    ensures At(EncodeAll(replies), |EncodeAll(replies[..k])|, Encode(replies[k]))
    ensures |EncodeAll(replies[..k + 1])| == |EncodeAll(replies[..k])| + |Encode(replies[k])|
  {
    assert replies == replies[..k] + replies[k..] && replies[k..] == [replies[k]] + replies[k + 1..];
    EncodeAllSplit(replies[..k], replies[k..]);
    EncodeAllSplit([replies[k]], replies[k + 1..]);
    assert replies[..k + 1] == replies[..k] + [replies[k]];
    EncodeAllSplit(replies[..k], [replies[k]]);
    assert EncodeAll([replies[k]]) == Encode(replies[k]) + EncodeAll([]);
  }
}
