/**
 The unknown-field skipper: it steps over one field of any wire type, including
 arbitrarily nested groups, without knowing the message.
 */
module Skip {
  import opened Wire

  /** One turn of the skipper's loop: the next index and the number of open groups. */
  function SkipStep(data: bytes, i: nat, depth: nat): (r: Result<(nat, nat)>)
    requires i < |data|
    ensures r.Ok? ==> i < r.value.0 < TWO63
  {
    var tag :- ReadVarint(data, i);
    SkipBody(data, tag.1, tag.0 % 8, depth)
  }

  function SkipBody(data: bytes, j: nat, wireType: nat, depth: nat): (r: Result<(nat, nat)>)
    ensures r.Ok? ==> j <= r.value.0 < TWO63
  {
    match wireType
    case 0 =>
      var v :- ReadVarint(data, j);
      Checked(v.1, depth)
    case 1 => Checked(j + 8, depth)
    case 2 =>
      var n :- ReadVarint(data, j);
      if n.0 >= TWO63 then Err(InvalidLength) else Checked(n.1 + n.0, depth)
    case 3 => Checked(j, depth + 1)
    case 4 => if depth == 0 then Err(UnexpectedEndOfGroup) else Checked(j, depth - 1)
    case 5 => Checked(j + 4, depth)
    case _ => Err(IllegalWireType)
  }

  /** An index that overflowed int64 is negative, and refused. */
  function Checked(i: nat, depth: nat): Result<(nat, nat)>
  {
    if i >= TWO63 then Err(InvalidLength) else Ok((i, depth))
  }

  function SkipFrom(data: bytes, i: nat, depth: nat): (r: Result<nat>)
    ensures r.Ok? ==> i < r.value
    decreases if i < |data| then |data| - i else 0
  {
    if i >= |data| then Err(UnexpectedEof)
    else
      var next :- SkipStep(data, i, depth);
      if next.1 == 0 then Ok(next.0) else SkipFrom(data, next.0, next.1)
  }

  /** The switch over the wire type, with the cursor behind the tag. */
  method SkipValue(data: bytes, start: nat, wireType: nat, open: nat) returns (r: Result<(nat, nat)>)
    ensures r == SkipBody(data, start, wireType, open)
  {
    hide ReadVarint;
    var i, depth := start, open;
    if wireType == 0 {
      var v := DecodeVarint(data, i);
      if v.Err? { return Err(v.error); }
      i := v.value.1;
    } else if wireType == 1 {
      i := i + 8;
    } else if wireType == 2 {
      var n := DecodeVarint(data, i);
      if n.Err? { return Err(n.error); }
      if n.value.0 >= TWO63 { return Err(InvalidLength); }
      i := n.value.1 + n.value.0;
    } else if wireType == 3 {
      depth := depth + 1;
    } else if wireType == 4 {
      if depth == 0 { return Err(UnexpectedEndOfGroup); }
      depth := depth - 1;
    } else if wireType == 5 {
      i := i + 4;
    } else {
      return Err(IllegalWireType);
    }
    if i >= TWO63 { return Err(InvalidLength); }
    return Ok((i, depth));
  }

  /** skipCollection and skipGenesis, which are the same function. The result may lie past the end of `data`. */
  method SkipField(data: bytes) returns (r: Result<nat>)
    ensures r == SkipFrom(data, 0, 0)
  {
    hide ReadVarint, SkipBody;
    var i, depth := 0, 0;
    while i < |data|
      invariant SkipFrom(data, 0, 0) == SkipFrom(data, i, depth)
      decreases if i < |data| then |data| - i else 0
    {
      var tag := DecodeVarint(data, i);
      if tag.Err? { return Err(tag.error); }
      var next := SkipValue(data, tag.value.1, tag.value.0 % 8, depth);
      if next.Err? { return Err(next.error); }
      if next.value.1 == 0 { return Ok(next.value.0); }
      i, depth := next.value.0, next.value.1;
    }
    return Err(UnexpectedEof);
  }

  // ------------------------------------------------- locality

  lemma SkipBodyFrame(data: bytes, j: nat, wireType: nat, depth: nat, after: bytes)
    requires SkipBody(data, j, wireType, depth).Ok?
    ensures SkipBody(data + after, j, wireType, depth) == SkipBody(data, j, wireType, depth)
  {
    if wireType == 0 || wireType == 2 {
      ReadVarintExtend(data, j, after);
    }
  }

  lemma SkipStepFrame(data: bytes, i: nat, depth: nat, after: bytes)
    requires i < |data| && SkipStep(data, i, depth).Ok?
    ensures SkipStep(data + after, i, depth) == SkipStep(data, i, depth)
  {
    ReadVarintExtend(data, i, after);
    var tag := ReadVarint(data, i).value;
    SkipBodyFrame(data, tag.1, tag.0 % 8, depth, after);
  }

  /** A field that ends inside `data` is skipped the same way whatever follows it. */
  lemma {:induction false} SkipFrame(data: bytes, i: nat, depth: nat, after: bytes)
    requires SkipFrom(data, i, depth).Ok?
    ensures SkipFrom(data + after, i, depth) == SkipFrom(data, i, depth)
    decreases if i < |data| then |data| - i else 0
  {
    SkipStepFrame(data, i, depth, after);
    var next := SkipStep(data, i, depth).value;
    if next.1 != 0 {
      SkipFrame(data, next.0, next.1, after);
    }
  }

  // ------------------------------------------------- what a field is

  /** Any well-formed field, known or not, as the encoding guide defines it. */
  datatype Wild =
    | WildVarint(tag: nat, v: uint64)
    | WildFixed64(tag: nat, body: bytes)
    | WildBytes(tag: nat, body: bytes)
    | WildGroup(tag: nat, inner: seq<Wild>, endTag: nat)
    | WildFixed32(tag: nat, body: bytes)
  {
    /** Field numbers that leave the tag inside uint64; fixed-width bodies of the right width. */
    predicate WellFormed()
    {
      8 * tag + 7 < TWO64 &&
      match this
      case WildVarint(_, _) => true
      case WildFixed64(_, b) => |b| == 8
      case WildBytes(_, b) => |b| < TWO63
      case WildGroup(_, inner, e) => 8 * e + 7 < TWO64 && forall w <- inner :: w.WellFormed()
      case WildFixed32(_, b) => |b| == 4
    }
  }

  function WildBytesOf(w: Wild): (bs: bytes)
    requires w.WellFormed()
    ensures |bs| >= 1
    decreases w, 1, 0
  {
    match w
    case WildVarint(t, v) => Varint(8 * t) + Varint(v)
    case WildFixed64(t, b) => Varint(8 * t + 1) + b
    case WildBytes(t, b) => Varint(8 * t + 2) + (Varint(|b|) + b)
    case WildGroup(t, inner, e) => Varint(8 * t + 3) + (WildSeq(inner) + Varint(8 * e + 4))
    case WildFixed32(t, b) => Varint(8 * t + 5) + b
  }

  function WildSeq(ws: seq<Wild>): bytes
    requires forall w <- ws :: w.WellFormed()
    decreases ws, 0, |ws|
  {
    if ws == [] then [] else WildBytesOf(ws[0]) + WildSeq(ws[1..])
  }

  /** What the skipper does once `next` and `depth` are known. */
  ghost function Onward(data: bytes, next: nat, depth: nat): Result<nat>
  {
    if depth == 0 then Ok(next) else SkipFrom(data, next, depth)
  }

  /** A tag at `i` hands over to the body for its wire type. */
  lemma SkipAtTag(data: bytes, i: nat, depth: nat, t: nat, wireType: nat)
    requires wireType < 8 && 8 * t + wireType < TWO64 && At(data, i, Varint(8 * t + wireType))
    ensures i < |data| && SkipStep(data, i, depth) == SkipBody(data, i + |Varint(8 * t + wireType)|, wireType, depth)
  {
    hide Varint, RawVarint, ReadVarint, SkipBody;
    ReadVarintInverse(8 * t + wireType, data, i);
  }

  /** A field without inner fields. */
  lemma SkipLeaf(w: Wild, data: bytes, i: nat, depth: nat)
    requires w.WellFormed() && !w.WildGroup? && |data| < TWO63 && At(data, i, WildBytesOf(w))
    ensures i < |data| && SkipStep(data, i, depth) == Ok((i + |WildBytesOf(w)|, depth))
  {
    hide Varint, RawVarint, ReadVarint, SkipStep, At;
    match w
    case WildVarint(t, v) =>
      AtSplit(data, i, Varint(8 * t), Varint(v));
      SkipAtTag(data, i, depth, t, 0);
      ReadVarintInverse(v, data, i + |Varint(8 * t)|);
    case WildFixed64(t, b) =>
      AtSplit(data, i, Varint(8 * t + 1), b);
      SkipAtTag(data, i, depth, t, 1);
    case WildBytes(t, b) =>
      AtSplit(data, i, Varint(8 * t + 2), Varint(|b|) + b);
      AtSplit(data, i + |Varint(8 * t + 2)|, Varint(|b|), b);
      SkipAtTag(data, i, depth, t, 2);
      ReadVarintInverse(|b|, data, i + |Varint(8 * t + 2)|);
    case WildFixed32(t, b) =>
      AtSplit(data, i, Varint(8 * t + 5), b);
      SkipAtTag(data, i, depth, t, 5);
  }

  /** With any number of groups open, the skipper steps over exactly one well-formed field. */
  lemma {:induction false} SkipWild(w: Wild, data: bytes, i: nat, depth: nat)
    requires w.WellFormed() && |data| < TWO63 && At(data, i, WildBytesOf(w))
    ensures SkipFrom(data, i, depth) == Onward(data, i + |WildBytesOf(w)|, depth)
    decreases w, 1, 0
  {
    hide Varint, SkipStep;
    if w.WildGroup? {
      SkipGroup(w.tag, w.inner, w.endTag, data, i, depth);
    } else {
      SkipLeaf(w, data, i, depth);
    }
  }

  lemma OpenClose(data: bytes, opening: nat, closing: nat, depth: nat)
    requires opening < TWO63 && closing < TWO63
    ensures SkipBody(data, opening, 3, depth) == Ok((opening, depth + 1))
    ensures SkipBody(data, closing, 4, depth + 1) == Ok((closing, depth))
  {
  }

  lemma {:induction false} SkipGroup(t: nat, inner: seq<Wild>, e: nat, data: bytes, i: nat, depth: nat)
    requires WildGroup(t, inner, e).WellFormed() && |data| < TWO63
    requires At(data, i, Varint(8 * t + 3) + (WildSeq(inner) + Varint(8 * e + 4)))
    ensures SkipFrom(data, i, depth)
            == Onward(data, i + |Varint(8 * t + 3) + (WildSeq(inner) + Varint(8 * e + 4))|, depth)
    decreases inner, 1, 0
  {
    hide Varint, RawVarint, ReadVarint, SkipBody, At;
    var start, stop := Varint(8 * t + 3), Varint(8 * e + 4);
    AtSplit(data, i, start, WildSeq(inner) + stop);
    AtSplit(data, i + |start|, WildSeq(inner), stop);
    AtEnd(data, i + |start| + |WildSeq(inner)|, stop);
    OpenClose(data, i + |start|, i + |start| + |WildSeq(inner)| + |stop|, depth);
    SkipAtTag(data, i, depth, t, 3);
    assert SkipFrom(data, i, depth) == SkipFrom(data, i + |start|, depth + 1);
    SkipWildSeq(inner, data, i + |start|, depth + 1);
    SkipAtTag(data, i + |start| + |WildSeq(inner)|, depth + 1, e, 4);
  }

  lemma {:induction false} SkipWildSeq(ws: seq<Wild>, data: bytes, i: nat, depth: nat)
    requires depth > 0 && |data| < TWO63
    requires (forall w <- ws :: w.WellFormed()) && At(data, i, WildSeq(ws))
    ensures SkipFrom(data, i, depth) == SkipFrom(data, i + |WildSeq(ws)|, depth)
    decreases ws, 0, |ws|
  {
    hide SkipFrom, WildBytesOf, At;
    if ws != [] {
      AtSplit(data, i, WildBytesOf(ws[0]), WildSeq(ws[1..]));
      SkipWild(ws[0], data, i, depth);
      SkipWildSeq(ws[1..], data, i + |WildBytesOf(ws[0])|, depth);
    }
  }

  /** What the skipper refuses behind a tag, and with which error. */
  lemma SkipRefuses(data: bytes, i: nat, depth: nat, wire: uint64, j: nat)
    requires i < |data| && ReadVarint(data, i) == Ok((wire, j))
    ensures wire % 8 == 6 || wire % 8 == 7 ==> SkipFrom(data, i, depth) == Err(IllegalWireType)
    ensures wire % 8 == 4 && depth == 0 ==> SkipFrom(data, i, depth) == Err(UnexpectedEndOfGroup)
    ensures wire % 8 == 2 && ReadVarint(data, j).Ok? && ReadVarint(data, j).value.0 >= TWO63 ==>
              SkipFrom(data, i, depth) == Err(InvalidLength)
    ensures wire % 8 == 2 && ReadVarint(data, j).Ok? && ReadVarint(data, j).value.1 + ReadVarint(data, j).value.0 >= TWO63 ==>
              SkipFrom(data, i, depth) == Err(InvalidLength)
    ensures (wire % 8 == 0 || wire % 8 == 2) && ReadVarint(data, j).Err? ==> SkipFrom(data, i, depth) == Err(ReadVarint(data, j).error)
  {
    hide RawVarint;
  }
}
