/**
 The backward writer. `MarshalToSizedBuffer` fills a prefix of a byte array from its end
 towards the front with a cursor, so a nested message is written before the length that
 precedes it. A slice `dAtA[:i]` of the source is the array with the bound `i`.
 */
module Marshal {
  import opened Wire
  import opened Decode
  import opened Messages

  /** Nothing outside `lo..hi` differs. */
  ghost predicate SameOutside(now: seq<byte>, was: seq<byte>, lo: nat, hi: nat)
  {
    |now| == |was| && lo <= hi <= |now| && now[..lo] == was[..lo] && now[hi..] == was[hi..]
  }

  /** The writer's state: `now[i..end]` holds exactly the encoding of `fs`, the rest is as in `orig`. */
  ghost predicate Written(now: seq<byte>, i: nat, end: nat, fs: seq<Field>, orig: seq<byte>)
  {
    i <= end <= |now| && now[i..end] == EncodeFields(fs) && SameOutside(now, orig, i, end)
  }

  lemma VarintUnfold(v: uint64)
    ensures v < 0x80 ==> Varint(v) == [v]
    ensures v >= 0x80 ==> Varint(v) == [v % 0x80 + 0x80] + Varint(v / 0x80)
  {
  }

  /** One byte written inside the reserved window extends what the window holds. */
  lemma OneMore(now: seq<byte>, was: seq<byte>, orig: seq<byte>, base: nat, at: nat, offset: nat, b: byte)
    requires base <= at < offset <= |was| && now == was[at := b] && SameOutside(was, orig, base, offset)
    ensures now[base..at + 1] == was[base..at] + [b] && SameOutside(now, orig, base, offset)
  {
  }

  /** encodeVarintCollection and encodeVarintGenesis: the digits go forwards from the reserved start. */
  method EncodeVarint(dAtA: array<byte>, offset: nat, value: uint64) returns (base: nat)
    requires Sov(value) <= offset <= dAtA.Length
    modifies dAtA
    ensures base == offset - |Varint(value)|
    ensures dAtA[base..offset] == Varint(value)
    ensures SameOutside(dAtA[..], old(dAtA[..]), base, offset)
  {
    hide Sov, Varint;
    SovIsVarintLength(value);
    base := offset - Sov(value);
    var at, v := base, value;
    while v >= 0x80
      invariant base <= at && at + |Varint(v)| == offset
      invariant dAtA[..][base..at] + Varint(v) == Varint(value)
      invariant SameOutside(dAtA[..], old(dAtA[..]), base, offset)
    {
      hide SameOutside;
      VarintUnfold(v);
      ghost var was := dAtA[..];
      dAtA[at] := v % 0x80 + 0x80;
      OneMore(dAtA[..], was, old(dAtA[..]), base, at, offset, v % 0x80 + 0x80);
      v := v / 0x80;
      at := at + 1;
    }
    VarintUnfold(v);
    ghost var was := dAtA[..];
    dAtA[at] := v;
    OneMore(dAtA[..], was, old(dAtA[..]), base, at, offset, v);
    assert dAtA[base..offset] == dAtA[..][base..offset];
  }

  // ------------------------------------------------- one field at a time

  lemma OneByteTag(n: nat, wireType: nat)
    requires 8 * n + wireType < 0x80
    ensures Varint(U64(8 * n + wireType)) == [8 * n + wireType]
  {
  }

  lemma EncodeCons(f: Field, rest: seq<Field>)
    ensures EncodeFields([f] + rest) == FieldBytes(f) + EncodeFields(rest)
  {
    assert ([f] + rest)[1..] == rest;
  }

  lemma WrittenNone(now: seq<byte>, end: nat)
    requires end <= |now|
    ensures Written(now, end, end, [], now)
  {
  }

  lemma WrittenBounds(now: seq<byte>, i: nat, end: nat, fs: seq<Field>, orig: seq<byte>)
    requires Written(now, i, end, fs, orig)
    ensures i == end - |EncodeFields(fs)| && end <= |now|
  {
  }

  /** Bytes written just in front of `start` leave what follows in place. */
  lemma InFront(now: seq<byte>, was: seq<byte>, orig: seq<byte>, i: nat, start: nat, end: nat)
    requires start <= end <= |now| && SameOutside(now, was, i, start) && SameOutside(was, orig, start, end)
    ensures now[i..end] == now[i..start] + was[start..end] && SameOutside(now, orig, i, end)
  {
    assert now[start..end] == was[start..end] by { assert now[start..end] == now[start..][..end - start]; }
  }

  /** The payload is already in place: put its length and its tag in front of it. */
  method PutHeader(dAtA: array<byte>, start: nat, tag: byte, size: nat,
                   ghost n: nat, ghost payload: bytes, ghost rest: seq<Field>, ghost end: nat, ghost orig: seq<byte>)
    returns (i: nat)
    requires tag == 8 * n + 2 < 0x80 && size == |payload|
    requires start <= end <= dAtA.Length && dAtA[..][start..end] == payload + EncodeFields(rest)
    requires SameOutside(dAtA[..], orig, start, end)
    requires |EncodeFields([BytesField(n, payload)] + rest)| <= end
    modifies dAtA
    ensures Written(dAtA[..], i, end, [BytesField(n, payload)] + rest, orig)
  {
    hide EncodeFields, Varint, Sov, SameOutside;
    var length := U64(size);
    EncodeCons(BytesField(n, payload), rest);
    OneByteTag(n, 2);
    SovIsVarintLength(length);
    i := EncodeVarint(dAtA, start, length);
    InFront(dAtA[..], old(dAtA[..]), orig, i, start, end);
    assert dAtA[..][i..start] == dAtA[i..start];
    ghost var was := dAtA[..];
    i := i - 1;
    dAtA[i] := tag;
    JustOne(dAtA[..], was, i, tag);
    InFront(dAtA[..], was, orig, i, i + 1, end);
    assert dAtA[i..end] == dAtA[..][i..end];
    assert dAtA[i..end] == [tag] + (Varint(length) + (payload + EncodeFields(rest)));
  }

  lemma JustOne(now: seq<byte>, was: seq<byte>, i: nat, b: byte)
    requires i < |was| && now == was[i := b]
    ensures now[i..i + 1] == [b] && SameOutside(now, was, i, i + 1)
  {
  }

  /** The body of one string field: the bytes, their length and the tag. */
  method PutString(dAtA: array<byte>, start: nat, tag: byte, x: bytes,
                   ghost n: nat, ghost rest: seq<Field>, ghost end: nat, ghost orig: seq<byte>)
    returns (i: nat)
    requires tag == 8 * n + 2 < 0x80
    requires Written(dAtA[..], start, end, rest, orig)
    requires |EncodeFields([BytesField(n, x)] + rest)| <= end
    modifies dAtA
    ensures Written(dAtA[..], i, end, [BytesField(n, x)] + rest, orig)
  {
    hide EncodeFields, Varint;
    EncodeCons(BytesField(n, x), rest);
    i := start - |x|;
    forall k | 0 <= k < |x| { dAtA[i + k] := x[k]; }
    assert dAtA[i..start] == x;
    assert dAtA[..][i..end] == dAtA[i..start] + dAtA[start..end];
    i := PutHeader(dAtA, i, tag, |x|, n, x, rest, end, orig);
  }

  method PutBytes(dAtA: array<byte>, start: nat, tag: byte, x: bytes,
                  ghost n: nat, ghost rest: seq<Field>, ghost end: nat, ghost orig: seq<byte>)
    returns (i: nat)
    requires tag == 8 * n + 2 < 0x80
    requires Written(dAtA[..], start, end, rest, orig)
    requires |EncodeFields(OptBytes(n, x) + rest)| <= end
    modifies dAtA
    ensures Written(dAtA[..], i, end, OptBytes(n, x) + rest, orig)
  {
    hide EncodeFields, Written;
    i := start;
    if |x| > 0 {
      i := PutString(dAtA, start, tag, x, n, rest, end, orig);
    } else {
      assert OptBytes(n, x) + rest == rest;
    }
  }

  method PutBool(dAtA: array<byte>, start: nat, tag: byte, b: bool,
                 ghost n: nat, ghost rest: seq<Field>, ghost end: nat, ghost orig: seq<byte>)
    returns (i: nat)
    requires tag == 8 * n < 0x80
    requires Written(dAtA[..], start, end, rest, orig)
    requires |EncodeFields(OptBool(n, b) + rest)| <= end
    modifies dAtA
    ensures Written(dAtA[..], i, end, OptBool(n, b) + rest, orig)
  {
    hide EncodeFields;
    i := start;
    if b {
      EncodeCons(VarintField(n, 1), rest);
      OneByteTag(n, 0);
      assert Varint(1) == [1];
      ghost var tail := dAtA[start..end];
      i := i - 1;
      dAtA[i] := 1;
      i := i - 1;
      dAtA[i] := tag;
      assert dAtA[i..end] == [tag, 1] + tail;
    } else {
      assert OptBool(n, b) + rest == rest;
    }
  }

  // ------------------------------------------------- sizes

  /** The contribution of an optional string to Size(). */
  function BytesSize(x: bytes): nat
  {
    if |x| > 0 then 1 + |x| + Sov(U64(|x|)) else 0
  }

  function BoolSize(b: bool): nat
  {
    if b then 2 else 0
  }

  /** The contribution of a nested message of `size` bytes, or of an element of a repeated field. */
  function ElementSize(size: nat): nat
  {
    1 + size + Sov(U64(size))
  }

  lemma ElementSizeExact(n: nat, payload: bytes, rest: seq<Field>)
    requires 8 * n + 2 < 0x80
    ensures |EncodeFields([BytesField(n, payload)] + rest)| == ElementSize(|payload|) + |EncodeFields(rest)|
  {
    hide Varint, Sov;
    EncodeCons(BytesField(n, payload), rest);
    OneByteTag(n, 2);
    SovIsVarintLength(U64(|payload|));
  }

  lemma BytesSizeExact(n: nat, x: bytes, rest: seq<Field>)
    requires 8 * n + 2 < 0x80
    ensures |EncodeFields(OptBytes(n, x) + rest)| == BytesSize(x) + |EncodeFields(rest)|
  {
    hide Varint, Sov;
    if |x| > 0 {
      ElementSizeExact(n, x, rest);
    } else {
      assert OptBytes(n, x) + rest == rest;
    }
  }

  lemma BoolSizeExact(n: nat, b: bool, rest: seq<Field>)
    requires 8 * n < 0x80
    ensures |EncodeFields(OptBool(n, b) + rest)| == BoolSize(b) + |EncodeFields(rest)|
  {
    if b {
      EncodeCons(VarintField(n, 1), rest);
      OneByteTag(n, 0);
    } else {
      assert OptBool(n, b) + rest == rest;
    }
  }

  /** The size of an nft record is the length of its encoding. */
  lemma NFTSizeExact(m: BaseNFT)
    ensures NFTSize(m) == |EncodeNFT(m)|
  {
    hide EncodeFields, BytesSize;
    var f5 := OptBytes(5, m.owner) + OptBytes(6, m.uriHash);
    var f4 := OptBytes(4, m.data) + f5;
    var f3 := OptBytes(3, m.uri) + f4;
    var f2 := OptBytes(2, m.name) + f3;
    BytesSizeExact(6, m.uriHash, []);
    Trailing(OptBytes(6, m.uriHash));
    EncodeNothing();
    BytesSizeExact(5, m.owner, OptBytes(6, m.uriHash));
    BytesSizeExact(4, m.data, f5);
    BytesSizeExact(3, m.uri, f4);
    BytesSizeExact(2, m.name, f3);
    BytesSizeExact(1, m.id, f2);
  }

  lemma EncodeNothing()
    ensures EncodeFields([]) == []
  {
  }

  function NFTSize(m: BaseNFT): nat
  {
    BytesSize(m.id) + BytesSize(m.name) + BytesSize(m.uri) + BytesSize(m.data) + BytesSize(m.owner)
    + BytesSize(m.uriHash)
  }

  function DenomSize(m: Denom): nat
  {
    BytesSize(m.id) + BytesSize(m.name) + BytesSize(m.schema) + BytesSize(m.creator) + BytesSize(m.symbol)
    + BoolSize(m.mintRestricted) + BoolSize(m.updateRestricted)
    + BytesSize(m.description) + BytesSize(m.uri) + BytesSize(m.uriHash) + BytesSize(m.data)
  }

  lemma DenomTailSizeExact(m: Denom)
    ensures |EncodeFields(DenomTail(m))|
            == BoolSize(m.mintRestricted) + BoolSize(m.updateRestricted)
               + BytesSize(m.description) + BytesSize(m.uri) + BytesSize(m.uriHash) + BytesSize(m.data)
  {
    hide EncodeFields, BytesSize, BoolSize;
    var f10 := OptBytes(10, m.uriHash) + OptBytes(11, m.data);
    var f9 := OptBytes(9, m.uri) + f10;
    var f8 := OptBytes(8, m.description) + f9;
    var f7 := OptBool(7, m.updateRestricted) + f8;
    BytesSizeExact(11, m.data, []);
    Trailing(OptBytes(11, m.data));
    EncodeNothing();
    BytesSizeExact(10, m.uriHash, OptBytes(11, m.data));
    BytesSizeExact(9, m.uri, f10);
    BytesSizeExact(8, m.description, f9);
    BoolSizeExact(7, m.updateRestricted, f8);
    BoolSizeExact(6, m.mintRestricted, f7);
  }

  /** The size of a class record is the length of its encoding. */
  lemma DenomSizeExact(m: Denom)
    ensures DenomSize(m) == |EncodeDenom(m)|
  {
    hide EncodeFields, BytesSize, BoolSize, DenomTail;
    var f5 := OptBytes(5, m.symbol) + DenomTail(m);
    var f4 := OptBytes(4, m.creator) + f5;
    var f3 := OptBytes(3, m.schema) + f4;
    var f2 := OptBytes(2, m.name) + f3;
    DenomTailSizeExact(m);
    BytesSizeExact(5, m.symbol, DenomTail(m));
    BytesSizeExact(4, m.creator, f5);
    BytesSizeExact(3, m.schema, f4);
    BytesSizeExact(2, m.name, f3);
    BytesSizeExact(1, m.id, f2);
  }

  lemma RepeatedSnoc<T>(n: nat, encode: T -> bytes, xs: seq<T>, x: T)
    ensures Repeated(n, encode, xs + [x]) == Repeated(n, encode, xs) + [BytesField(n, encode(x))]
  {
    if xs == [] {
      assert xs + [x] == [x];
    } else {
      assert (xs + [x])[1..] == xs[1..] + [x];
      RepeatedSnoc(n, encode, xs[1..], x);
    }
  }

  lemma RepeatedSizeSnoc<T>(n: nat, encode: T -> bytes, xs: seq<T>, k: nat)
    requires 8 * n + 2 < 0x80 && k < |xs|
    ensures |EncodeFields(Repeated(n, encode, xs[..k + 1]))|
            == |EncodeFields(Repeated(n, encode, xs[..k]))| + ElementSize(|encode(xs[k])|)
  {
    hide EncodeFields, Repeated, ElementSize;
    assert xs[..k + 1] == xs[..k] + [xs[k]];
    RepeatedSnoc(n, encode, xs[..k], xs[k]);
    EncodeConcat(Repeated(n, encode, xs[..k]), [BytesField(n, encode(xs[k]))]);
    ElementSizeExact(n, encode(xs[k]), []);
    Trailing([BytesField(n, encode(xs[k]))]);
    EncodeNothing();
  }

  method CollectionSize(m: Collection) returns (n: nat)
    ensures n == |EncodeCollection(m)|
  {
    hide EncodeFields, ElementSize, DenomSize, NFTSize, EncodeNFT, EncodeDenom;
    DenomSizeExact(m.denom);
    n := ElementSize(DenomSize(m.denom));
    assert EncodeFields(Repeated(2, EncodeNFT, m.nfts[..0])) == [] by { EncodeNothing(); }
    for k := 0 to |m.nfts|
      invariant n == ElementSize(|EncodeDenom(m.denom)|) + |EncodeFields(Repeated(2, EncodeNFT, m.nfts[..k]))|
    {
      hide Repeated;
      NFTSizeExact(m.nfts[k]);
      RepeatedSizeSnoc(2, EncodeNFT, m.nfts, k);
      n := n + ElementSize(NFTSize(m.nfts[k]));
    }
    assert m.nfts[..|m.nfts|] == m.nfts;
    ElementSizeExact(1, EncodeDenom(m.denom), Repeated(2, EncodeNFT, m.nfts));
  }

  method GenesisSize(m: GenesisState) returns (n: nat)
    ensures n == |EncodeGenesis(m)|
  {
    hide EncodeFields, ElementSize, EncodeCollection;
    n := 0;
    assert EncodeFields(Repeated(1, EncodeCollection, m.collections[..0])) == [] by { EncodeNothing(); }
    for k := 0 to |m.collections|
      invariant n == |EncodeFields(Repeated(1, EncodeCollection, m.collections[..k]))|
    {
      hide Repeated;
      var size := CollectionSize(m.collections[k]);
      RepeatedSizeSnoc(1, EncodeCollection, m.collections, k);
      n := n + ElementSize(size);
    }
    assert m.collections[..|m.collections|] == m.collections;
  }

  // ------------------------------------------------- messages

  /** The last `size` bytes below `end` are the encoding, and nothing else was touched. */
  ghost predicate Placed(now: seq<byte>, was: seq<byte>, size: nat, end: nat, encoding: bytes)
  {
    size == |encoding| <= end <= |now| && now[end - size..end] == encoding && SameOutside(now, was, end - size, end)
  }

  method MarshalNFT(dAtA: array<byte>, end: nat, m: BaseNFT) returns (size: nat)
    requires NFTSize(m) <= end <= dAtA.Length
    modifies dAtA
    ensures Placed(dAtA[..], old(dAtA[..]), size, end, EncodeNFT(m))
  {
    hide EncodeFields, Written;
    NFTSizeExact(m);
    ghost var orig := dAtA[..];
    ghost var f6 := OptBytes(6, m.uriHash);
    ghost var f5 := OptBytes(5, m.owner) + f6;
    ghost var f4 := OptBytes(4, m.data) + f5;
    ghost var f3 := OptBytes(3, m.uri) + f4;
    ghost var f2 := OptBytes(2, m.name) + f3;
    SuffixShorter(OptBytes(1, m.id), f2);
    SuffixShorter(OptBytes(2, m.name), f3);
    SuffixShorter(OptBytes(3, m.uri), f4);
    SuffixShorter(OptBytes(4, m.data), f5);
    SuffixShorter(OptBytes(5, m.owner), f6);
    WrittenNone(dAtA[..], end);
    Trailing(f6);
    var i := PutBytes(dAtA, end, 0x32, m.uriHash, 6, [], end, orig);
    i := PutBytes(dAtA, i, 0x2a, m.owner, 5, f6, end, orig);
    i := PutBytes(dAtA, i, 0x22, m.data, 4, f5, end, orig);
    i := PutBytes(dAtA, i, 0x1a, m.uri, 3, f4, end, orig);
    i := PutBytes(dAtA, i, 0x12, m.name, 2, f3, end, orig);
    i := PutBytes(dAtA, i, 0xa, m.id, 1, f2, end, orig);
    WrittenPlaced(dAtA[..], i, end, NFTFields(m), orig);
    return end - i;
  }

  lemma WrittenPlaced(now: seq<byte>, i: nat, end: nat, fs: seq<Field>, orig: seq<byte>)
    requires Written(now, i, end, fs, orig)
    ensures i <= end && Placed(now, orig, end - i, end, EncodeFields(fs))
  {
  }

  /** A nested message placed right in front of the fields already written. */
  lemma NestedPlaced(now: seq<byte>, was: seq<byte>, orig: seq<byte>, size: nat, i: nat, end: nat,
                     payload: bytes, rest: seq<Field>)
    requires Written(was, i, end, rest, orig) && Placed(now, was, size, i, payload)
    ensures size <= i && now[i - size..end] == payload + EncodeFields(rest) && SameOutside(now, orig, i - size, end)
  {
    hide EncodeFields;
    InFront(now, was, orig, i - size, i, end);
  }

  method MarshalDenom(dAtA: array<byte>, end: nat, m: Denom) returns (size: nat)
    requires DenomSize(m) <= end <= dAtA.Length
    modifies dAtA
    ensures Placed(dAtA[..], old(dAtA[..]), size, end, EncodeDenom(m))
  {
    hide EncodeFields, Written, Placed;
    DenomSizeExact(m);
    ghost var orig := dAtA[..];
    ghost var f11 := OptBytes(11, m.data);
    ghost var f10 := OptBytes(10, m.uriHash) + f11;
    ghost var f9 := OptBytes(9, m.uri) + f10;
    ghost var f8 := OptBytes(8, m.description) + f9;
    ghost var f7 := OptBool(7, m.updateRestricted) + f8;
    ghost var f6 := OptBool(6, m.mintRestricted) + f7;
    ghost var f5 := OptBytes(5, m.symbol) + f6;
    ghost var f4 := OptBytes(4, m.creator) + f5;
    ghost var f3 := OptBytes(3, m.schema) + f4;
    ghost var f2 := OptBytes(2, m.name) + f3;
    SuffixShorter(OptBytes(1, m.id), f2);
    SuffixShorter(OptBytes(2, m.name), f3);
    SuffixShorter(OptBytes(3, m.schema), f4);
    SuffixShorter(OptBytes(4, m.creator), f5);
    SuffixShorter(OptBytes(5, m.symbol), f6);
    SuffixShorter(OptBool(6, m.mintRestricted), f7);
    SuffixShorter(OptBool(7, m.updateRestricted), f8);
    SuffixShorter(OptBytes(8, m.description), f9);
    SuffixShorter(OptBytes(9, m.uri), f10);
    SuffixShorter(OptBytes(10, m.uriHash), f11);
    WrittenNone(dAtA[..], end);
    Trailing(f11);
    var i := PutBytes(dAtA, end, 0x5a, m.data, 11, [], end, orig);
    i := PutBytes(dAtA, i, 0x52, m.uriHash, 10, f11, end, orig);
    i := PutBytes(dAtA, i, 0x4a, m.uri, 9, f10, end, orig);
    i := PutBytes(dAtA, i, 0x42, m.description, 8, f9, end, orig);
    i := PutBool(dAtA, i, 0x38, m.updateRestricted, 7, f8, end, orig);
    i := PutBool(dAtA, i, 0x30, m.mintRestricted, 6, f7, end, orig);
    i := PutBytes(dAtA, i, 0x2a, m.symbol, 5, f6, end, orig);
    i := PutBytes(dAtA, i, 0x22, m.creator, 4, f5, end, orig);
    i := PutBytes(dAtA, i, 0x1a, m.schema, 3, f4, end, orig);
    i := PutBytes(dAtA, i, 0x12, m.name, 2, f3, end, orig);
    i := PutBytes(dAtA, i, 0xa, m.id, 1, f2, end, orig);
    WrittenPlaced(dAtA[..], i, end, DenomFields(m), orig);
    return end - i;
  }

  /** The elements from `k` on are a suffix of the whole repeated field, and one element longer than those from `k + 1` on. */
  lemma RepeatedSuffix<T>(n: nat, encode: T -> bytes, xs: seq<T>, k: nat)
    requires k < |xs|
    ensures Repeated(n, encode, xs[k..]) == [BytesField(n, encode(xs[k]))] + Repeated(n, encode, xs[k + 1..])
    ensures |EncodeFields(Repeated(n, encode, xs[k..]))| <= |EncodeFields(Repeated(n, encode, xs))|
  {
    hide EncodeFields;
    assert xs[k..][1..] == xs[k + 1..];
    if k > 0 {
      RepeatedSuffix(n, encode, xs, k - 1);
      SuffixShorter([BytesField(n, encode(xs[k - 1]))], Repeated(n, encode, xs[k..]));
    } else {
      assert xs[k..] == xs;
    }
  }

  method MarshalCollection(dAtA: array<byte>, end: nat, m: Collection) returns (size: nat)
    requires |EncodeCollection(m)| <= end <= dAtA.Length
    modifies dAtA
    ensures Placed(dAtA[..], old(dAtA[..]), size, end, EncodeCollection(m))
  {
    hide EncodeFields, Written, Placed, Repeated, NFTSize, DenomSize, EncodeNFT, EncodeDenom, ElementSize;
    ghost var orig := dAtA[..];
    ghost var list := Repeated(2, EncodeNFT, m.nfts);
    SuffixShorter([BytesField(1, EncodeDenom(m.denom))], list);
    var i := end;
    var k := |m.nfts|;
    RepeatedNone(2, EncodeNFT);
    WrittenNone(dAtA[..], end);
    assert m.nfts[k..] == [];
    while k > 0
      invariant k <= |m.nfts|
      invariant Written(dAtA[..], i, end, Repeated(2, EncodeNFT, m.nfts[k..]), orig)
    {
      k := k - 1;
      ghost var rest := Repeated(2, EncodeNFT, m.nfts[k + 1..]);
      RepeatedSuffix(2, EncodeNFT, m.nfts, k);
      i := PutNFT(dAtA, i, m.nfts[k], rest, end, orig);
    }
    assert m.nfts[0..] == m.nfts;
    i := PutDenom(dAtA, i, m.denom, list, end, orig);
    WrittenPlaced(dAtA[..], i, end, CollectionFields(m), orig);
    return end - i;
  }

  lemma RepeatedNone<T>(n: nat, encode: T -> bytes)
    ensures Repeated(n, encode, []) == []
  {
  }

  lemma RoomForElement(now: seq<byte>, i: nat, end: nat, n: nat, payload: bytes, rest: seq<Field>, orig: seq<byte>)
    requires 8 * n + 2 < 0x80 && Written(now, i, end, rest, orig)
    requires |EncodeFields([BytesField(n, payload)] + rest)| <= end
    ensures |payload| <= i <= |now|
  {
    hide EncodeFields;
    ElementSizeExact(n, payload, rest);
  }

  /** One turn of the nft loop. */
  method PutNFT(dAtA: array<byte>, start: nat, m: BaseNFT, ghost rest: seq<Field>, ghost end: nat, ghost orig: seq<byte>)
    returns (i: nat)
    requires Written(dAtA[..], start, end, rest, orig)
    requires |EncodeFields([BytesField(2, EncodeNFT(m))] + rest)| <= end
    modifies dAtA
    ensures Written(dAtA[..], i, end, [BytesField(2, EncodeNFT(m))] + rest, orig)
  {
    hide EncodeFields, Written, Placed, NFTSize, EncodeNFT;
    RoomForElement(dAtA[..], start, end, 2, EncodeNFT(m), rest, orig);
    NFTSizeExact(m);
    var size := MarshalNFT(dAtA, start, m);
    NestedPlaced(dAtA[..], old(dAtA[..]), orig, size, start, end, EncodeNFT(m), rest);
    WrittenBounds(old(dAtA[..]), start, end, rest, orig);
    PlacedSize(dAtA[..], old(dAtA[..]), size, start, EncodeNFT(m));
    i := PutHeader(dAtA, start - size, 0x12, size, 2, EncodeNFT(m), rest, end, orig);
  }

  lemma PlacedSize(now: seq<byte>, was: seq<byte>, size: nat, end: nat, encoding: bytes)
    requires Placed(now, was, size, end, encoding)
    ensures size == |encoding|
  {
  }

  method PutDenom(dAtA: array<byte>, start: nat, m: Denom, ghost rest: seq<Field>, ghost end: nat, ghost orig: seq<byte>)
    returns (i: nat)
    requires Written(dAtA[..], start, end, rest, orig)
    requires |EncodeFields([BytesField(1, EncodeDenom(m))] + rest)| <= end
    modifies dAtA
    ensures Written(dAtA[..], i, end, [BytesField(1, EncodeDenom(m))] + rest, orig)
  {
    hide EncodeFields, Written, Placed, DenomSize, EncodeDenom;
    RoomForElement(dAtA[..], start, end, 1, EncodeDenom(m), rest, orig);
    DenomSizeExact(m);
    var size := MarshalDenom(dAtA, start, m);
    NestedPlaced(dAtA[..], old(dAtA[..]), orig, size, start, end, EncodeDenom(m), rest);
    WrittenBounds(old(dAtA[..]), start, end, rest, orig);
    PlacedSize(dAtA[..], old(dAtA[..]), size, start, EncodeDenom(m));
    i := PutHeader(dAtA, start - size, 0xa, size, 1, EncodeDenom(m), rest, end, orig);
  }

  /** One turn of the collection loop. */
  method PutCollection(dAtA: array<byte>, start: nat, m: Collection, ghost rest: seq<Field>, ghost end: nat, ghost orig: seq<byte>)
    returns (i: nat)
    requires Written(dAtA[..], start, end, rest, orig)
    requires |EncodeFields([BytesField(1, EncodeCollection(m))] + rest)| <= end
    modifies dAtA
    ensures Written(dAtA[..], i, end, [BytesField(1, EncodeCollection(m))] + rest, orig)
  {
    hide EncodeFields, Written, Placed, EncodeCollection;
    RoomForElement(dAtA[..], start, end, 1, EncodeCollection(m), rest, orig);
    var size := MarshalCollection(dAtA, start, m);
    NestedPlaced(dAtA[..], old(dAtA[..]), orig, size, start, end, EncodeCollection(m), rest);
    WrittenBounds(old(dAtA[..]), start, end, rest, orig);
    PlacedSize(dAtA[..], old(dAtA[..]), size, start, EncodeCollection(m));
    i := PutHeader(dAtA, start - size, 0xa, size, 1, EncodeCollection(m), rest, end, orig);
  }

  method MarshalGenesis(dAtA: array<byte>, end: nat, m: GenesisState) returns (size: nat)
    requires |EncodeGenesis(m)| <= end <= dAtA.Length
    modifies dAtA
    ensures Placed(dAtA[..], old(dAtA[..]), size, end, EncodeGenesis(m))
  {
    hide EncodeFields, Written, Placed, Repeated, EncodeCollection;
    ghost var orig := dAtA[..];
    var i := end;
    var k := |m.collections|;
    RepeatedNone(1, EncodeCollection);
    WrittenNone(dAtA[..], end);
    assert m.collections[k..] == [];
    while k > 0
      invariant k <= |m.collections|
      invariant Written(dAtA[..], i, end, Repeated(1, EncodeCollection, m.collections[k..]), orig)
    {
      k := k - 1;
      ghost var rest := Repeated(1, EncodeCollection, m.collections[k + 1..]);
      RepeatedSuffix(1, EncodeCollection, m.collections, k);
      i := PutCollection(dAtA, i, m.collections[k], rest, end, orig);
    }
    assert m.collections[0..] == m.collections;
    WrittenPlaced(dAtA[..], i, end, GenesisFields(m), orig);
    return end - i;
  }

  /**
   Marshal: a buffer of exactly Size() bytes is filled from end to front, and what it then
   holds decodes to the state it was made from.
   */
  method Marshal(m: GenesisState) returns (dAtA: array<byte>)
    ensures fresh(dAtA) && dAtA[..] == EncodeGenesis(m)
    ensures dAtA.Length < TWO63 ==> Unmarshalled(GenesisSchema(), NO_GENESIS, dAtA[..]) == Ok(m)
  {
    hide EncodeGenesis, Unmarshalled;
    var size := GenesisSize(m);
    dAtA := new byte[size](_ => 0);
    var n := MarshalGenesis(dAtA, size, m);
    assert dAtA[..] == dAtA[..][size - n..size];
    if dAtA.Length < TWO63 { GenesisRoundTrip(m); }
  }
}
