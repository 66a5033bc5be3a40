/**
 The decode loop every message shares. A message is described by a table from field numbers
 to wire kinds and a function that merges one decoded field into it; the laws proved here
 therefore hold for every message of the module.
 */
module Decode {
  import opened Options
  import opened Wire
  import opened Skip

  datatype Kind = UnknownKind | BytesKind | VarintKind

  datatype Field =
    | BytesField(num: nat, payload: bytes)
    | VarintField(num: nat, v: uint64)

  datatype Schema<!M> = Schema(kind: int -> Kind, merge: (M, Field) -> Result<M>)

  /** One step over the input: the field found (none when it was skipped) and the next index. */
  datatype Step = Step(field: Option<Field>, next: nat)

  /** `int32(wire >> 3)` */
  function FieldNumber(wire: uint64): int
  {
    var low := (wire / 8) % TWO32;
    if low >= TWO31 then low - TWO32 else low
  }

  /** A length-delimited payload at `j`: the length, then that many bytes. */
  function ReadPayload(data: bytes, j: nat): (r: Result<(bytes, nat)>)
    ensures r.Ok? ==> j < r.value.1 <= |data|
  {
    var n :- ReadVarint(data, j);
    if n.0 >= TWO63 || n.1 + n.0 >= TWO63 then Err(InvalidLength)
    else if n.1 + n.0 > |data| then Err(UnexpectedEof)
    else Ok((data[n.1..n.1 + n.0], n.1 + n.0))
  }

  /** Stepping over an unknown field that starts at `i`. */
  function SkipUnknown(data: bytes, i: nat): (r: Result<Step>)
    requires i <= |data|
    ensures r.Ok? ==> i < r.value.next <= |data| && r.value.field.None?
  {
    var n :- SkipFrom(data[i..], 0, 0);
    if i + n >= TWO63 then Err(InvalidLength)
    else if i + n > |data| then Err(UnexpectedEof)
    else Ok(Step(None, i + n))
  }

  function ReadKnown(kind: Kind, num: nat, wireType: nat, data: bytes, j: nat): (r: Result<Step>)
    requires kind != UnknownKind
    ensures r.Ok? ==> j < r.value.next <= |data| && r.value.field.Some?
  {
    if kind == BytesKind then
      if wireType != 2 then Err(WrongWireType)
      else
        var p :- ReadPayload(data, j);
        Ok(Step(Some(BytesField(num, p.0)), p.1))
    else if wireType != 0 then Err(WrongWireType)
    else
      var v :- ReadVarint(data, j);
      Ok(Step(Some(VarintField(num, v.0)), v.1))
  }

  function ReadAfterTag(kind: int -> Kind, wire: uint64, data: bytes, i: nat, j: nat): (r: Result<Step>)
    requires i < j <= |data|
    ensures r.Ok? ==> i < r.value.next <= |data|
  {
    var num := FieldNumber(wire);
    if wire % 8 == 4 then Err(EndGroupOutsideGroup)
    else if num <= 0 then Err(IllegalTag)
    else if kind(num) == UnknownKind then SkipUnknown(data, i)
    else ReadKnown(kind(num), num, wire % 8, data, j)
  }

  function NextField(kind: int -> Kind, data: bytes, i: nat): (r: Result<Step>)
    requires i < |data|
    ensures r.Ok? ==> i < r.value.next <= |data|
  {
    var tag :- ReadVarint(data, i);
    ReadAfterTag(kind, tag.0, data, i, tag.1)
  }

  /** Unmarshal from index `i` on top of `m`. */
  function DecodeFrom<M>(s: Schema<M>, m: M, data: bytes, i: nat): Result<M>
    requires i <= |data|
    decreases |data| - i
  {
    if i == |data| then Ok(m)
    else
      var step :- NextField(s.kind, data, i);
      var m' :- Merged(s, m, step.field);
      DecodeFrom(s, m', data, step.next)
  }

  function Merged<M>(s: Schema<M>, m: M, field: Option<Field>): Result<M>
  {
    match field
    case None => Ok(m)
    case Some(f) => s.merge(m, f)
  }

  function Unmarshalled<M>(s: Schema<M>, m: M, data: bytes): Result<M>
  {
    DecodeFrom(s, m, data, 0)
  }

  /** The default branch of the tag switch: rewind to the tag and step over the whole field. */
  method ReadUnknownField(data: bytes, pre: nat) returns (r: Result<Step>)
    requires pre <= |data|
    ensures r == SkipUnknown(data, pre)
  {
    hide SkipFrom;
    var n := SkipField(data[pre..]);
    if n.Err? { return Err(n.error); }
    if pre + n.value >= TWO63 { return Err(InvalidLength); }
    if pre + n.value > |data| { return Err(UnexpectedEof); }
    return Ok(Step(None, pre + n.value));
  }

  /** A case of the tag switch, with the cursor behind the tag. */
  method ReadKnownField(kind: Kind, num: nat, wireType: nat, data: bytes, start: nat) returns (r: Result<Step>)
    requires kind != UnknownKind
    ensures r == ReadKnown(kind, num, wireType, data, start)
  {
    hide ReadVarint;
    if kind == BytesKind {
      if wireType != 2 { return Err(WrongWireType); }
      var n := DecodeVarint(data, start);
      if n.Err? { return Err(n.error); }
      if n.value.0 >= TWO63 { return Err(InvalidLength); }
      var i := n.value.1;
      var post := i + n.value.0;
      if post >= TWO63 { return Err(InvalidLength); }
      if post > |data| { return Err(UnexpectedEof); }
      return Ok(Step(Some(BytesField(num, data[i..post])), post));
    } else {
      if wireType != 0 { return Err(WrongWireType); }
      var v := DecodeVarint(data, start);
      if v.Err? { return Err(v.error); }
      return Ok(Step(Some(VarintField(num, v.value.0)), v.value.1));
    }
  }

  /** The generated Unmarshal: a cursor over the input, one field per turn. Success leaves the cursor at the end. */
  method Unmarshal<M>(s: Schema<M>, m0: M, data: bytes) returns (r: Result<M>, ghost cursor: nat)
    ensures r == Unmarshalled(s, m0, data)
    ensures cursor <= |data| && (r.Ok? ==> cursor == |data|)
  {
    hide ReadVarint, SkipUnknown, ReadKnown, FieldNumber;
    var m, i := m0, 0;
    while i < |data|
      invariant i <= |data|
      invariant DecodeFrom(s, m0, data, 0) == DecodeFrom(s, m, data, i)
    {
      var tag := DecodeVarint(data, i);
      if tag.Err? { return Err(tag.error), i; }
      var num, wireType := FieldNumber(tag.value.0), tag.value.0 % 8;
      if wireType == 4 { return Err(EndGroupOutsideGroup), i; }
      if num <= 0 { return Err(IllegalTag), i; }
      var step: Result<Step>;
      if s.kind(num) == UnknownKind {
        step := ReadUnknownField(data, i);
      } else {
        step := ReadKnownField(s.kind(num), num, wireType, data, tag.value.1);
      }
      assert step == NextField(s.kind, data, i);
      if step.Err? { return Err(step.error), i; }
      var merged := Merged(s, m, step.value.field);
      if merged.Err? { return merged, i; }
      m, i := merged.value, step.value.next;
    }
    return Ok(m), i;
  }

  // ------------------------------------------------- concatenation

  lemma ReadPayloadFrame(data: bytes, j: nat, before: bytes, after: bytes)
    requires ReadPayload(data, j).Ok? && |before| + |data| + |after| < TWO63
    ensures var r := ReadPayload(data, j).value;
            ReadPayload(before + data + after, |before| + j) == Ok((r.0, |before| + r.1))
  {
    hide RawVarint;
    ReadVarintFrame(data, j, before, after);
    var n := ReadVarint(data, j).value;
    var lo, hi := n.1, n.1 + n.0;
    assert (before + data + after)[|before| + lo..|before| + hi] == data[lo..hi];
  }

  lemma SkipUnknownFrame(data: bytes, i: nat, before: bytes, after: bytes)
    requires i <= |data| && SkipUnknown(data, i).Ok? && |before| + |data| + |after| < TWO63
    ensures var r := SkipUnknown(data, i).value;
            SkipUnknown(before + data + after, |before| + i) == Ok(Step(None, |before| + r.next))
  {
    hide SkipFrom;
    SkipFrame(data[i..], 0, 0, after);
    assert (before + data + after)[|before| + i..] == data[i..] + after;
  }

  lemma ReadKnownFrame(kind: Kind, num: nat, wireType: nat, data: bytes, j: nat, before: bytes, after: bytes)
    requires kind != UnknownKind && ReadKnown(kind, num, wireType, data, j).Ok?
    requires |before| + |data| + |after| < TWO63
    ensures var r := ReadKnown(kind, num, wireType, data, j).value;
            ReadKnown(kind, num, wireType, before + data + after, |before| + j)
            == Ok(Step(r.field, |before| + r.next))
  {
    hide ReadVarint, ReadPayload;
    if kind == BytesKind {
      ReadPayloadFrame(data, j, before, after);
    } else {
      ReadVarintFrame(data, j, before, after);
    }
  }

  /** A field is read the same way wherever its bytes lie. */
  lemma NextFieldFrame(kind: int -> Kind, data: bytes, i: nat, before: bytes, after: bytes)
    requires i < |data| && NextField(kind, data, i).Ok? && |before| + |data| + |after| < TWO63
    ensures var r := NextField(kind, data, i).value;
            NextField(kind, before + data + after, |before| + i) == Ok(Step(r.field, |before| + r.next))
  {
    hide RawVarint, ReadVarint, SkipUnknown, ReadKnown, FieldNumber;
    ReadVarintFrame(data, i, before, after);
    assert |before + data + after| == |before| + |data| + |after|;
    var tag := ReadVarint(data, i).value;
    var k := kind(FieldNumber(tag.0));
    if k == UnknownKind {
      SkipUnknownFrame(data, i, before, after);
    } else {
      ReadKnownFrame(k, FieldNumber(tag.0), tag.0 % 8, data, tag.1, before, after);
    }
  }

  /** A run over `data` inside a larger buffer ends where `data` ends, with the same message. */
  lemma {:induction false} DecodeFrame<M>(s: Schema<M>, m: M, data: bytes, i: nat, before: bytes, after: bytes)
    requires i <= |data| && DecodeFrom(s, m, data, i).Ok? && |before| + |data| + |after| < TWO63
    ensures DecodeFrom(s, m, before + data + after, |before| + i)
            == DecodeFrom(s, DecodeFrom(s, m, data, i).value, before + data + after, |before| + |data|)
    decreases |data| - i
  {
    hide NextField;
    if i < |data| {
      NextFieldFrame(s.kind, data, i, before, after);
      var step := NextField(s.kind, data, i).value;
      DecodeFrame(s, Merged(s, m, step.field).value, data, step.next, before, after);
    }
  }

  /**
   Last one wins: when both inputs decode, decoding their concatenation is decoding the
   second on top of the result of the first.
   */
  lemma DecodeConcat<M>(s: Schema<M>, m: M, a: bytes, b: bytes)
    requires |a| + |b| < TWO63
    requires Unmarshalled(s, m, a).Ok? && Unmarshalled(s, Unmarshalled(s, m, a).value, b).Ok?
    ensures Unmarshalled(s, m, a + b) == Unmarshalled(s, Unmarshalled(s, m, a).value, b)
  {
    hide NextField;
    var m' := Unmarshalled(s, m, a).value;
    DecodeFrame(s, m, a, 0, [], b);
    assert [] + a + b == a + b;
    DecodeFrame(s, m', b, 0, a, []);
    assert a + b + [] == a + b;
  }

  /** Whether a field is accepted does not depend on what has been decoded before it. */
  ghost predicate Steady<M(!new)>(s: Schema<M>)
  {
    forall m, m', f :: s.merge(m, f).Ok? <==> s.merge(m', f).Ok?
  }

  lemma {:induction false} SteadyDecode<M(!new)>(s: Schema<M>, m: M, m': M, data: bytes, i: nat)
    requires Steady(s) && i <= |data|
    ensures DecodeFrom(s, m, data, i).Ok? <==> DecodeFrom(s, m', data, i).Ok?
    decreases |data| - i
  {
    hide NextField;
    if i < |data| && NextField(s.kind, data, i).Ok? {
      var step := NextField(s.kind, data, i).value;
      var r, r' := Merged(s, m, step.field), Merged(s, m', step.field);
      if r.Ok? { SteadyDecode(s, r.value, r'.value, data, step.next); }
    }
  }

  /** For such messages it is enough that each input decodes on its own, on top of anything. */
  lemma ConcatDecodes<M(!new)>(s: Schema<M>, m: M, m': M, a: bytes, b: bytes)
    requires Steady(s) && |a| + |b| < TWO63 && Unmarshalled(s, m, a).Ok? && Unmarshalled(s, m', b).Ok?
    ensures Unmarshalled(s, m, a + b).Ok?
    ensures Unmarshalled(s, m, a + b) == Unmarshalled(s, Unmarshalled(s, m, a).value, b)
  {
    hide DecodeFrom;
    SteadyDecode(s, Unmarshalled(s, m, a).value, m', b, 0);
    DecodeConcat(s, m, a, b);
  }

  // ------------------------------------------------- what is accepted

  /** A known field is read exactly when its number is a positive int32, its wire type is the field's, and its value lies inside the input. */
  lemma FieldAccepted(kind: int -> Kind, data: bytes, i: nat, wire: uint64, j: nat)
    requires i < |data| < TWO63 && ReadVarint(data, i) == Ok((wire, j))
    ensures var n, r, v := wire / 8 % TWO32, NextField(kind, data, i), ReadVarint(data, j);
            && (r.Ok? && r.value.field.Some?
                <==> && 1 <= n < TWO31 && v.Ok?
                     && ((kind(n) == BytesKind && wire % 8 == 2 && v.value.1 + v.value.0 <= |data|) || (kind(n) == VarintKind && wire % 8 == 0)))
            && (r.Ok? && r.value.field.Some? && kind(n) == BytesKind ==>
                  r.value == Step(Some(BytesField(n, data[v.value.1..v.value.1 + v.value.0])), v.value.1 + v.value.0))
            && (r.Ok? && r.value.field.Some? && kind(n) == VarintKind ==> r.value == Step(Some(VarintField(n, v.value.0)), v.value.1))
  {
    hide RawVarint, SkipFrom;
  }

  /** What is refused behind a tag, and with which error. */
  lemma FieldRefused(kind: int -> Kind, data: bytes, i: nat, wire: uint64, j: nat)
    requires i < |data| && ReadVarint(data, i) == Ok((wire, j))
    ensures var n, r, v := wire / 8 % TWO32, NextField(kind, data, i), ReadVarint(data, j);
            && (wire % 8 == 4 ==> r == Err(EndGroupOutsideGroup))
            && (wire % 8 != 4 && !(1 <= n < TWO31) ==> r == Err(IllegalTag))
            && (wire % 8 != 4 && 1 <= n < TWO31 ==>
                  && (kind(n) == BytesKind && wire % 8 != 2 ==> r == Err(WrongWireType))
                  && (kind(n) == VarintKind && wire % 8 != 0 ==> r == Err(WrongWireType))
                  && (kind(n) == BytesKind && wire % 8 == 2 && v.Ok? && (v.value.0 >= TWO63 || v.value.1 + v.value.0 >= TWO63) ==>
                        r == Err(InvalidLength))
                  && (kind(n) == BytesKind && wire % 8 == 2 && v.Ok? && |data| < v.value.1 + v.value.0 < TWO63 ==> r == Err(UnexpectedEof)))
  {
    hide RawVarint, SkipFrom;
  }

  /** An unknown field is stepped over exactly when the skipper ends inside the input. */
  lemma UnknownAccepted(kind: int -> Kind, data: bytes, i: nat, wire: uint64, j: nat)
    requires i < |data| && ReadVarint(data, i) == Ok((wire, j)) && wire % 8 != 4
    requires 1 <= wire / 8 % TWO32 < TWO31 && kind(wire / 8 % TWO32) == UnknownKind
    ensures var skipped, r := SkipFrom(data[i..], 0, 0), NextField(kind, data, i);
            && (skipped.Err? ==> r == Err(skipped.error))
            && (skipped.Ok? && i + skipped.value >= TWO63 ==> r == Err(InvalidLength))
            && (skipped.Ok? && |data| < i + skipped.value < TWO63 ==> r == Err(UnexpectedEof))
            && (skipped.Ok? && i + skipped.value <= |data| && i + skipped.value < TWO63 ==> r == Ok(Step(None, i + skipped.value)))
  {
    hide RawVarint, SkipFrom;
  }

  // ------------------------------------------------- encoding fields

  /** `uint64(x)` */
  function U64(x: nat): uint64
  {
    x % TWO64
  }

  function FieldBytes(f: Field): (bs: bytes)
    ensures |bs| >= 2
  {
    match f
    case BytesField(n, p) => Varint(U64(8 * n + 2)) + (Varint(U64(|p|)) + p)
    case VarintField(n, v) => Varint(U64(8 * n)) + Varint(v)
  }

  function EncodeFields(fs: seq<Field>): bytes
  {
    if fs == [] then [] else FieldBytes(fs[0]) + EncodeFields(fs[1..])
  }

  /** The schema knows the field under the wire type it is written with, and its payload fits a Go slice. */
  ghost predicate Fits(kind: int -> Kind, f: Field)
  {
    match f
    case BytesField(n, p) => 1 <= n < TWO31 && kind(n) == BytesKind && |p| < TWO63
    case VarintField(n, _) => 1 <= n < TWO31 && kind(n) == VarintKind
  }

  ghost predicate AllFit(kind: int -> Kind, fs: seq<Field>)
  {
    forall k | 0 <= k < |fs| :: Fits(kind, fs[k])
  }

  lemma FieldNumberOfTag(n: nat, wireType: nat)
    requires 1 <= n < TWO31 && wireType < 8
    ensures U64(8 * n + wireType) == 8 * n + wireType
    ensures FieldNumber(8 * n + wireType) == n && (8 * n + wireType) % 8 == wireType
  {
  }

  lemma ReadPayloadInverse(p: bytes, data: bytes, j: nat)
    requires |p| < TWO63 && |data| < TWO63 && At(data, j, Varint(|p|) + p)
    ensures ReadPayload(data, j) == Ok((p, j + |Varint(|p|) + p|))
  {
    hide Varint, RawVarint, ReadVarint;
    AtSplit(data, j, Varint(|p|), p);
    ReadVarintInverse(|p|, data, j);
  }

  /** The decoder reads back one encoded field, and stops where it ends. */
  lemma NextFieldInverse(kind: int -> Kind, f: Field, data: bytes, i: nat)
    requires Fits(kind, f) && |data| < TWO63 && At(data, i, FieldBytes(f))
    ensures i < |data| && NextField(kind, data, i) == Ok(Step(Some(f), i + |FieldBytes(f)|))
  {
    hide Varint, RawVarint, ReadVarint, ReadPayload, FieldNumber, At;
    AtEnd(data, i, FieldBytes(f));
    match f
    case BytesField(n, p) =>
      FieldNumberOfTag(n, 2);
      assert U64(|p|) == |p|;
      AtSplit(data, i, Varint(8 * n + 2), Varint(|p|) + p);
      ReadVarintInverse(8 * n + 2, data, i);
      ReadPayloadInverse(p, data, i + |Varint(8 * n + 2)|);
    case VarintField(n, v) =>
      FieldNumberOfTag(n, 0);
      AtSplit(data, i, Varint(8 * n), Varint(v));
      ReadVarintInverse(8 * n, data, i);
      ReadVarintInverse(v, data, i + |Varint(8 * n)|);
  }

  /** Merging a list of fields in order. */
  function Fold<M>(s: Schema<M>, m: M, fs: seq<Field>): Result<M>
  {
    if fs == [] then Ok(m)
    else
      var m' :- s.merge(m, fs[0]);
      Fold(s, m', fs[1..])
  }

  /** Decoding an encoded list of fields merges exactly those fields, in order. */
  lemma {:induction false} DecodeEncoded<M>(s: Schema<M>, m: M, fs: seq<Field>, data: bytes, i: nat)
    requires AllFit(s.kind, fs)
    requires i <= |data| < TWO63 && data[i..] == EncodeFields(fs)
    ensures DecodeFrom(s, m, data, i) == Fold(s, m, fs)
    decreases |fs|
  {
    hide NextField, FieldBytes;
    if fs != [] {
      var f := fs[0];
      assert data[i..][..|FieldBytes(f)|] == FieldBytes(f);
      assert data[i..i + |FieldBytes(f)|] == data[i..][..|FieldBytes(f)|];
      NextFieldInverse(s.kind, f, data, i);
      var j := i + |FieldBytes(f)|;
      assert data[j..] == data[i..][|FieldBytes(f)|..];
      assert data[i..][|FieldBytes(f)|..] == EncodeFields(fs[1..]);
      if s.merge(m, f).Ok? {
        DecodeEncoded(s, s.merge(m, f).value, fs[1..], data, j);
      }
    }
  }

  /** An unknown well-formed field, group or not, changes nothing: decoding goes on behind it. */
  lemma UnknownFieldIgnored<M>(s: Schema<M>, m: M, w: Wild, data: bytes, i: nat)
    requires w.WellFormed() && 1 <= w.tag < TWO31 && s.kind(w.tag) == UnknownKind
    requires i <= |data| < TWO63 && At(data, i, WildBytesOf(w))
    ensures DecodeFrom(s, m, data, i) == DecodeFrom(s, m, data, i + |WildBytesOf(w)|)
  {
    hide Varint, RawVarint, ReadVarint, FieldNumber, SkipFrom;
    var wireType := WireTypeOf(w);
    var tail := data[i..];
    assert At(tail, 0, WildBytesOf(w)) by { assert tail[..|WildBytesOf(w)|] == data[i..i + |WildBytesOf(w)|]; }
    SkipWild(w, tail, 0, 0);
    WildStartsWithTag(w, data, i);
    ReadVarintInverse(8 * w.tag + wireType, data, i);
    FieldNumberOfTag(w.tag, wireType);
  }

  function WireTypeOf(w: Wild): nat
  {
    match w
    case WildVarint(_, _) => 0
    case WildFixed64(_, _) => 1
    case WildBytes(_, _) => 2
    case WildGroup(_, _, _) => 3
    case WildFixed32(_, _) => 5
  }

  lemma WildStartsWithTag(w: Wild, data: bytes, i: nat)
    requires w.WellFormed() && At(data, i, WildBytesOf(w))
    ensures At(data, i, Varint(8 * w.tag + WireTypeOf(w)))
  {
    hide Varint;
    match w
    case WildVarint(t, v) => AtSplit(data, i, Varint(8 * t), Varint(v));
    case WildFixed64(t, b) => AtSplit(data, i, Varint(8 * t + 1), b);
    case WildBytes(t, b) => AtSplit(data, i, Varint(8 * t + 2), Varint(|b|) + b);
    case WildGroup(t, inner, e) => AtSplit(data, i, Varint(8 * t + 3), WildSeq(inner) + Varint(8 * e + 4));
    case WildFixed32(t, b) => AtSplit(data, i, Varint(8 * t + 5), b);
  }
}
