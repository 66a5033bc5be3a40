/**
 The bottom of the protobuf codec: 64-bit arithmetic and base-128 varints, their sizes and
 the loop that reads them. Go's `int` and `uint64` are 64 bits wide; a Go slice is shorter
 than 2^63.
 */
module Wire {

  const TWO31: int := 0x8000_0000
  const TWO32: int := 0x1_0000_0000
  const TWO63: int := 0x8000_0000_0000_0000
  const TWO64: int := 0x1_0000_0000_0000_0000

  type byte = b: int | 0 <= b < 0x100
  type bytes = seq<byte>
  type uint64 = v: int | 0 <= v < TWO64

  /** Why a decoder gave up. */
  datatype Error =
    | IntOverflow           // a varint longer than ten bytes
    | UnexpectedEof         // the input ended inside a field
    | InvalidLength         // a length, or an index plus a length, that is negative as an int64
    | EndGroupOutsideGroup  // wire type 4 at message level
    | IllegalTag            // field number <= 0 after truncation to int32
    | WrongWireType         // a known field carried by another wire type
    | IllegalWireType       // wire type 6 or 7 met by the skipper
    | UnexpectedEndOfGroup  // the skipper met an end-group with no group open

  datatype Result<+T> = Ok(value: T) | Err(error: Error)
  {
    predicate IsFailure() { Err? }
    function PropagateFailure<U>(): Result<U> requires Err? { Err(error) }
    function Extract(): T requires Ok? { value }
  }

  // ---------------------------------------------------------------- varints

  /** The base-128 encoding of `v`, least significant group first. */
  function Varint(v: uint64): (bs: bytes)
    ensures |bs| >= 1
    decreases v
  {
    if v < 0x80 then [v] else [v % 0x80 + 0x80] + Varint(v / 0x80)
  }

  /** math/bits.Len64: the number of bits needed to write `x`. */
  function Len64(x: uint64): nat
    decreases x
  {
    if x == 0 then 0 else 1 + Len64(x / 2)
  }

  /** `x | 1` */
  function SetLowBit(x: uint64): uint64
  {
    x - x % 2 + 1
  }

  /** The closed form the size computation uses. */
  function Sov(x: uint64): nat
  {
    (Len64(SetLowBit(x)) + 6) / 7
  }

  lemma Len64Shift7(x: uint64)
    requires x >= 0x80
    ensures Len64(x) == 7 + Len64(x / 0x80)
  {
    assert Len64(x) == 1 + Len64(x / 2);
    assert Len64(x / 2) == 1 + Len64(x / 4) by { assert x / 2 / 2 == x / 4; }
    assert Len64(x / 4) == 1 + Len64(x / 8) by { assert x / 4 / 2 == x / 8; }
    assert Len64(x / 8) == 1 + Len64(x / 16) by { assert x / 8 / 2 == x / 16; }
    assert Len64(x / 16) == 1 + Len64(x / 32) by { assert x / 16 / 2 == x / 32; }
    assert Len64(x / 32) == 1 + Len64(x / 64) by { assert x / 32 / 2 == x / 64; }
    assert Len64(x / 64) == 1 + Len64(x / 128) by { assert x / 64 / 2 == x / 128; }
  }

  lemma Len64Small(x: uint64)
    requires 1 <= x < 0x80
    ensures 1 <= Len64(x) <= 7
  {
    if x >= 2 { Len64Step(x, 7); }
  }

  lemma Len64Step(x: uint64, k: nat)
    requires 1 <= k && 1 <= x
    requires x < Pow2(k)
    ensures 1 <= Len64(x) <= k
    decreases k
  {
    if x >= 2 { Len64Step(x / 2, k - 1); }
  }

  function Pow2(k: nat): (p: nat)
    ensures p > 0
  {
    if k == 0 then 1 else 2 * Pow2(k - 1)
  }

  /** The closed form counts exactly the bytes the varint loop writes, for every uint64. */
  lemma {:induction false} SovIsVarintLength(x: uint64)
    ensures Sov(x) == |Varint(x)|
    decreases x
  {
    var y := SetLowBit(x);
    if x < 0x80 {
      Len64Small(y);
    } else {
      Len64Shift7(y);
      assert y / 0x80 == x / 0x80;
      var z := x / 0x80;
      assert Len64(z) == Len64(SetLowBit(z)) by { assert z / 2 == SetLowBit(z) / 2; }
      SovIsVarintLength(z);
    }
  }

  lemma VarintUnder(v: uint64, k: nat)
    requires v < Weight(k)
    ensures |Varint(v)| <= if k == 0 then 1 else k
  {
    if v >= 0x80 { VarintUnder(v / 0x80, k - 1); }
  }

  /** No uint64 needs more than ten groups. */
  lemma VarintShort(v: uint64)
    ensures |Varint(v)| <= 10
  {
    assert Weight(5) == 0x8_0000_0000;
    assert Weight(10) == 0x80 * 0x80 * 0x80 * 0x80 * 0x80 * Weight(5);
    VarintUnder(v, 10);
  }

  /** What a decode loop over shift = 0, 7, ..., 63 reads at `i`: the value before truncation and the next index. */
  function RawVarint(data: bytes, i: nat, k: nat): (r: Result<(nat, nat)>)
    requires k <= 10
    ensures r.Ok? ==> i < r.value.1 <= |data| && r.value.1 <= i + 10 - k
    decreases 10 - k
  {
    if k == 10 then Err(IntOverflow)
    else if i >= |data| then Err(UnexpectedEof)
    else if data[i] < 0x80 then Ok((data[i], i + 1))
    else
      var rest :- RawVarint(data, i + 1, k + 1);
      Ok((data[i] - 0x80 + 0x80 * rest.0, rest.1))
  }

  /** Bits shifted past bit 63 are lost. */
  function ReadVarint(data: bytes, i: nat): (r: Result<(uint64, nat)>)
    ensures r.Ok? ==> i < r.value.1 <= |data|
  {
    var raw :- RawVarint(data, i, 0);
    Ok((raw.0 % TWO64, raw.1))
  }

  /** `piece` stands in `data` at `i`. */
  ghost predicate At(data: bytes, i: nat, piece: bytes)
  {
    i + |piece| <= |data| && data[i..i + |piece|] == piece
  }

  lemma AtSplit(data: bytes, i: nat, a: bytes, b: bytes)
    requires At(data, i, a + b)
    ensures At(data, i, a) && At(data, i + |a|, b)
  {
    assert data[i..i + |a|] == (a + b)[..|a|];
    assert data[i + |a|..i + |a| + |b|] == (a + b)[|a|..];
  }

  lemma AtEnd(data: bytes, i: nat, piece: bytes)
    requires At(data, i, piece)
    ensures i + |piece| <= |data|
  {
  }

  /** The decoder reads a value back from exactly the bytes the encoder wrote for it. */
  lemma {:induction false} RawVarintInverse(v: uint64, data: bytes, i: nat, k: nat)
    requires k + |Varint(v)| <= 10 && At(data, i, Varint(v))
    ensures RawVarint(data, i, k) == Ok((v, i + |Varint(v)|))
    decreases v
  {
    var bs := Varint(v);
    assert data[i] == bs[0];
    if v >= 0x80 {
      var rest := Varint(v / 0x80);
      assert bs[1..] == rest;
      assert data[i + 1..i + 1 + |rest|] == bs[1..];
      RawVarintInverse(v / 0x80, data, i + 1, k + 1);
    }
  }

  lemma ReadVarintInverse(v: uint64, data: bytes, i: nat)
    requires At(data, i, Varint(v))
    ensures ReadVarint(data, i) == Ok((v, i + |Varint(v)|))
  {
    VarintShort(v);
    RawVarintInverse(v, data, i, 0);
  }

  /** Reading depends only on the bytes read: it is the same inside any larger buffer. */
  lemma {:induction false} RawVarintFrame(data: bytes, i: nat, k: nat, before: bytes, after: bytes)
    requires k <= 10 && RawVarint(data, i, k).Ok?
    ensures var r := RawVarint(data, i, k).value;
            RawVarint(before + data + after, |before| + i, k) == Ok((r.0, |before| + r.1))
    decreases 10 - k
  {
    var big := before + data + after;
    assert big[|before| + i] == data[i];
    if data[i] >= 0x80 {
      RawVarintFrame(data, i + 1, k + 1, before, after);
    }
  }

  lemma ReadVarintFrame(data: bytes, i: nat, before: bytes, after: bytes)
    requires ReadVarint(data, i).Ok?
    ensures var r := ReadVarint(data, i).value;
            ReadVarint(before + data + after, |before| + i) == Ok((r.0, |before| + r.1))
  {
    RawVarintFrame(data, i, 0, before, after);
  }

  lemma ReadVarintExtend(data: bytes, i: nat, after: bytes)
    requires ReadVarint(data, i).Ok?
    ensures ReadVarint(data + after, i) == ReadVarint(data, i)
  {
    ReadVarintFrame(data, i, [], after);
    assert [] + data + after == data + after;
  }

  /** 128^k, the weight of group k. */
  function Weight(k: nat): (w: nat)
    ensures w >= 1
  {
    if k == 0 then 1 else 0x80 * Weight(k - 1)
  }

  /** A value read from group `k` on, completed with the `acc` already gathered below it. */
  ghost function Completed(acc: nat, k: nat, rest: Result<(nat, nat)>): Result<(nat, nat)>
  {
    var r :- rest;
    Ok((acc + Weight(k) * r.0, r.1))
  }

  lemma Distribute(w: nat, g: nat, q: nat)
    ensures w * (g + 0x80 * q) == w * g + 0x80 * w * q
  {
  }

  lemma GroupFits(k: nat, acc: nat, g: nat)
    requires acc < Weight(k) && g < 0x80
    ensures acc + Weight(k) * g < Weight(k + 1)
  {
    hide Weight;
    AtMost(Weight(k), g);
    WeightNext(k);
  }

  lemma AtMost(w: nat, g: nat)
    requires g < 0x80
    ensures w * g <= 0x7F * w
  {
    var rest := 0x7F - g;
    assert 0x7F * w == w * g + w * rest;
    assert w * rest >= 0;
  }

  lemma WeightNext(k: nat)
    ensures Weight(k + 1) == 0x80 * Weight(k)
  {
  }

  lemma CompletedStep(acc: nat, data: bytes, i: nat, k: nat)
    requires k < 10 && i < |data| && data[i] >= 0x80
    ensures Completed(acc, k, RawVarint(data, i, k))
            == Completed(acc + Weight(k) * (data[i] - 0x80), k + 1, RawVarint(data, i + 1, k + 1))
  {
    var rest := RawVarint(data, i + 1, k + 1);
    if rest.Ok? {
      Distribute(Weight(k), data[i] - 0x80, rest.value.0);
    }
  }

  lemma CompletedEnd(acc: nat, data: bytes, i: nat, k: nat)
    requires k <= 10
    ensures k == 10 ==> Completed(acc, k, RawVarint(data, i, k)) == Err(IntOverflow)
    ensures k < 10 && i >= |data| ==> Completed(acc, k, RawVarint(data, i, k)) == Err(UnexpectedEof)
    ensures k < 10 && i < |data| && data[i] < 0x80 ==>
              Completed(acc, k, RawVarint(data, i, k)) == Ok((acc + Weight(k) * data[i], i + 1))
    ensures Completed(0, 0, RawVarint(data, i, 0)) == RawVarint(data, i, 0) && Weight(0) == 1
  {
  }

  /** The accumulating loop of every decoder; each turn is `v |= uint64(b&0x7F) << shift`. */
  method DecodeVarint(data: bytes, start: nat) returns (r: Result<(uint64, nat)>)
    ensures r == ReadVarint(data, start)
  {
    hide RawVarint, Completed, Weight, BitOr, Shl;
    var v: uint64, i, shift := 0, start, 0;
    ghost var acc: nat, k := 0, 0;
    CompletedEnd(0, data, start, 0);
    while true
      invariant shift == 7 * k && k <= 10 && i == start + k
      invariant v == acc % TWO64 && acc < Weight(k)
      invariant RawVarint(data, start, 0) == Completed(acc, k, RawVarint(data, i, k))
      decreases 10 - k
    {
      CompletedEnd(acc, data, i, k);
      if shift >= 64 { return Err(IntOverflow); }
      if i >= |data| { return Err(UnexpectedEof); }
      var b := data[i];
      var group := if b < 0x80 then b else b - 0x80;  // b & 0x7F
      GroupFits(k, acc, group);
      ghost var next := acc + Weight(k) * group;
      OrAccumulates(v, group, acc, k);
      v := BitOr(v, Shl(group, shift));
      if b < 0x80 {
        return Ok((v, i + 1));
      }
      CompletedStep(acc, data, i, k);
      i, shift := i + 1, shift + 7;
      acc, k := next, k + 1;
    }
  }

  lemma WeightIsShift(k: nat)
    ensures Weight(k) == Pow2(7 * k)
  {
    if k > 0 {
      WeightIsShift(k - 1);
      assert Pow2(7 * k) == 2 * Pow2(7 * k - 1) == 4 * Pow2(7 * k - 2) == 8 * Pow2(7 * k - 3);
      assert Pow2(7 * k - 3) == 2 * Pow2(7 * k - 4) == 4 * Pow2(7 * k - 5) == 8 * Pow2(7 * k - 6);
    }
  }

  /** Bitwise or. */
  function BitOr(a: nat, b: nat): nat
  {
    if a == 0 && b == 0 then 0
    else (if a % 2 == 1 || b % 2 == 1 then 1 else 0) + 2 * BitOr(a / 2, b / 2)
  }

  /** `x << shift` on 64 bits: what leaves the word is lost. */
  function Shl(x: nat, shift: nat): uint64
  {
    x * Pow2(shift) % TWO64
  }

  /** Nothing below the shift is lost, nothing above it is carried: with the low operand below 2^k, or is addition. */
  lemma {:induction false} OrIsAdd(v: nat, g: nat, k: nat)
    requires v < Pow2(k)
    ensures BitOr(v, g * Pow2(k)) == v + g * Pow2(k)
  {
    if k == 0 {
      OrZero(g);
    } else {
      var p := Pow2(k - 1);
      assert g * Pow2(k) == 2 * (g * p);
      OrIsAdd(v / 2, g, k - 1);
      OrEven(v, g * p);
    }
  }

  lemma {:induction false} OrZero(g: nat)
    ensures BitOr(0, g) == g
  {
    if g != 0 { OrZero(g / 2); }
  }

  lemma OrEven(v: nat, y: nat)
    ensures BitOr(v, 2 * y) == v % 2 + 2 * BitOr(v / 2, y)
  {
  }

  lemma {:induction false} Pow2Add(a: nat, b: nat)
    ensures Pow2(a + b) == Pow2(a) * Pow2(b)
  {
    if a > 0 {
      Pow2Add(a - 1, b);
      assert 2 * (Pow2(a - 1) * Pow2(b)) == Pow2(a) * Pow2(b);
    }
  }

  lemma Pow2At64()
    ensures Pow2(64) == TWO64
  {
    hide Pow2;
    Pow2At8();
    Pow2Add(8, 8);
    Pow2Add(16, 16);
    Pow2Add(32, 32);
  }

  lemma Pow2At8()
    ensures Pow2(8) == 0x100
  {
    assert Pow2(4) == 16;
  }

  lemma AtLeast(e: nat, n: nat)
    requires e >= 1
    ensures e * n >= n
  {
    assert e * n == n + (e - 1) * n;
  }

  lemma Minus(a: int, b: int, n: int)
    ensures a * n - b * n == (a - b) * n
  {
  }

  lemma ModUnique(a: nat, n: nat, d: nat, m: nat)
    requires n > 0 && a == d * n + m && m < n
    ensures a % n == m
  {
    var q, r := a / n, a % n;
    assert q * n + r == d * n + m;
    if q < d {
      Minus(d, q, n);
      AtLeast(d - q, n);
    } else if d < q {
      Minus(q, d, n);
      AtLeast(q - d, n);
    }
  }

  lemma Regroup(d: nat, p: nat, q: nat, m: nat)
    ensures p * (d * q + m) == d * (p * q) + m * p
  {
  }

  lemma Below(m: nat, p: nat, q: nat, low: nat)
    requires m < q && low < p
    ensures low + m * p < p * q
  {
    AtLeast(q - m, p);
    Minus(q, m, p);
  }

  /** Truncating at p*q keeps what lies below p and the rest modulo q. */
  lemma AddLow(low: nat, x: nat, p: nat, q: nat)
    requires low < p && q > 0
    ensures p * q > 0 && (low + p * x) % (p * q) == low + x % q * p
  {
    var d, m := x / q, x % q;
    Regroup(d, p, q, m);
    Below(m, p, q, low);
    assert x == d * q + m;
    ModUnique(low + p * x, p * q, d, low + m * p);
  }

  /** A truncated shift is a shift of what fits. */
  lemma ShlFits(x: nat, shift: nat)
    requires shift <= 64
    ensures Shl(x, shift) == x % Pow2(64 - shift) * Pow2(shift)
  {
    Pow2Add(shift, 64 - shift);
    Pow2At64();
    AddLow(0, x, Pow2(shift), Pow2(64 - shift));
  }

  /** One turn of the loop adds the group's weight, as a uint64. */
  lemma OrAccumulates(v: uint64, group: nat, acc: nat, k: nat)
    requires k < 10 && v == acc % TWO64 && acc < Weight(k)
    ensures BitOr(v, Shl(group, 7 * k)) == (acc + Weight(k) * group) % TWO64
  {
    hide BitOr, Shl, Weight, Pow2;
    var p, q := Pow2(7 * k), Pow2(64 - 7 * k);
    WeightIsShift(k);
    Pow2Add(7 * k, 64 - 7 * k);
    Pow2At64();
    AddLow(acc, 0, p, q);
    ShlFits(group, 7 * k);
    OrIsAdd(acc, group % q, 7 * k);
    AddLow(acc, group, p, q);
  }
}
