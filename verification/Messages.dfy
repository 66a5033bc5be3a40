/**
 The messages of the collection module and their encodings. Go strings are byte strings.
 `Fields` lists what a message puts on the wire, in wire order; empty strings and false
 booleans are not written, elements of a repeated field always are.
 */
module Messages {
  import opened Wire
  import opened Skip
  import opened Decode

  datatype BaseNFT = BaseNFT(id: bytes, name: bytes, uri: bytes, data: bytes, owner: bytes, uriHash: bytes)

  datatype NFTMetadata = NFTMetadata(name: bytes, data: bytes)

  datatype Denom = Denom(
    id: bytes, name: bytes, schema: bytes, creator: bytes, symbol: bytes,
    mintRestricted: bool, updateRestricted: bool,
    description: bytes, uri: bytes, uriHash: bytes, data: bytes)

  datatype DenomMetadata = DenomMetadata(
    creator: bytes, schema: bytes, mintRestricted: bool, updateRestricted: bool, data: bytes)

  datatype IDCollection = IDCollection(denomId: bytes, tokenIds: seq<bytes>)

  datatype Owner = Owner(address: bytes, idCollections: seq<IDCollection>)

  datatype Collection = Collection(denom: Denom, nfts: seq<BaseNFT>)

  datatype GenesisState = GenesisState(collections: seq<Collection>)

  const NO_NFT := BaseNFT([], [], [], [], [], [])
  const NO_NFT_METADATA := NFTMetadata([], [])
  const NO_DENOM := Denom([], [], [], [], [], false, false, [], [], [], [])
  const NO_DENOM_METADATA := DenomMetadata([], [], false, false, [])
  const NO_ID_COLLECTION := IDCollection([], [])
  const NO_OWNER := Owner([], [])
  const NO_COLLECTION := Collection(NO_DENOM, [])
  const NO_GENESIS := GenesisState([])

  // ------------------------------------------------- field lists

  function OptBytes(n: nat, x: bytes): seq<Field>
  {
    if |x| > 0 then [BytesField(n, x)] else []
  }

  function OptBool(n: nat, b: bool): seq<Field>
  {
    if b then [VarintField(n, 1)] else []
  }

  function Repeated<T>(n: nat, encode: T -> bytes, xs: seq<T>): seq<Field>
  {
    if xs == [] then [] else [BytesField(n, encode(xs[0]))] + Repeated(n, encode, xs[1..])
  }

  function NFTFields(m: BaseNFT): seq<Field>
  {
    OptBytes(1, m.id) + (OptBytes(2, m.name) + (OptBytes(3, m.uri)
    + (OptBytes(4, m.data) + (OptBytes(5, m.owner) + OptBytes(6, m.uriHash)))))
  }

  function NFTMetadataFields(m: NFTMetadata): seq<Field>
  {
    OptBytes(1, m.name) + OptBytes(2, m.data)
  }

  function DenomFields(m: Denom): seq<Field>
  {
    OptBytes(1, m.id) + (OptBytes(2, m.name) + (OptBytes(3, m.schema)
    + (OptBytes(4, m.creator) + (OptBytes(5, m.symbol) + DenomTail(m)))))
  }

  /** Fields 6 to 11. */
  function DenomTail(m: Denom): seq<Field>
  {
    OptBool(6, m.mintRestricted) + (OptBool(7, m.updateRestricted) + (OptBytes(8, m.description)
    + (OptBytes(9, m.uri) + (OptBytes(10, m.uriHash) + OptBytes(11, m.data)))))
  }

  function DenomMetadataFields(m: DenomMetadata): seq<Field>
  {
    OptBytes(1, m.creator) + (OptBytes(2, m.schema) + (OptBool(3, m.mintRestricted)
    + (OptBool(4, m.updateRestricted) + OptBytes(5, m.data))))
  }

  function IDCollectionFields(m: IDCollection): seq<Field>
  {
    OptBytes(1, m.denomId) + Repeated(2, EncodeString, m.tokenIds)
  }

  function OwnerFields(m: Owner): seq<Field>
  {
    OptBytes(1, m.address) + Repeated(2, EncodeIDCollection, m.idCollections)
  }

  /** The class record is written even when it is empty. */
  function CollectionFields(m: Collection): seq<Field>
  {
    [BytesField(1, EncodeDenom(m.denom))] + Repeated(2, EncodeNFT, m.nfts)
  }

  function GenesisFields(m: GenesisState): seq<Field>
  {
    Repeated(1, EncodeCollection, m.collections)
  }

  function EncodeString(x: bytes): bytes { x }
  function EncodeNFT(m: BaseNFT): bytes { EncodeFields(NFTFields(m)) }
  function EncodeNFTMetadata(m: NFTMetadata): bytes { EncodeFields(NFTMetadataFields(m)) }
  function EncodeDenom(m: Denom): bytes { EncodeFields(DenomFields(m)) }
  function EncodeDenomMetadata(m: DenomMetadata): bytes { EncodeFields(DenomMetadataFields(m)) }
  function EncodeIDCollection(m: IDCollection): bytes { EncodeFields(IDCollectionFields(m)) }
  function EncodeOwner(m: Owner): bytes { EncodeFields(OwnerFields(m)) }
  function EncodeCollection(m: Collection): bytes { EncodeFields(CollectionFields(m)) }
  function EncodeGenesis(m: GenesisState): bytes { EncodeFields(GenesisFields(m)) }

  // ------------------------------------------------- schemas

  function NFTKind(n: int): Kind { if 1 <= n <= 6 then BytesKind else UnknownKind }

  function MergeNFT(m: BaseNFT, f: Field): Result<BaseNFT>
  {
    match f
    case BytesField(1, p) => Ok(m.(id := p))
    case BytesField(2, p) => Ok(m.(name := p))
    case BytesField(3, p) => Ok(m.(uri := p))
    case BytesField(4, p) => Ok(m.(data := p))
    case BytesField(5, p) => Ok(m.(owner := p))
    case BytesField(6, p) => Ok(m.(uriHash := p))
    case _ => Ok(m)
  }

  function NFTMetadataKind(n: int): Kind { if 1 <= n <= 2 then BytesKind else UnknownKind }

  function MergeNFTMetadata(m: NFTMetadata, f: Field): Result<NFTMetadata>
  {
    match f
    case BytesField(1, p) => Ok(m.(name := p))
    case BytesField(2, p) => Ok(m.(data := p))
    case _ => Ok(m)
  }

  function DenomKind(n: int): Kind
  {
    if n == 6 || n == 7 then VarintKind else if 1 <= n <= 11 then BytesKind else UnknownKind
  }

  function MergeDenom(m: Denom, f: Field): Result<Denom>
  {
    match f
    case BytesField(1, p) => Ok(m.(id := p))
    case BytesField(2, p) => Ok(m.(name := p))
    case BytesField(3, p) => Ok(m.(schema := p))
    case BytesField(4, p) => Ok(m.(creator := p))
    case BytesField(5, p) => Ok(m.(symbol := p))
    case VarintField(6, v) => Ok(m.(mintRestricted := v != 0))
    case VarintField(7, v) => Ok(m.(updateRestricted := v != 0))
    case BytesField(8, p) => Ok(m.(description := p))
    case BytesField(9, p) => Ok(m.(uri := p))
    case BytesField(10, p) => Ok(m.(uriHash := p))
    case BytesField(11, p) => Ok(m.(data := p))
    case _ => Ok(m)
  }

  function DenomMetadataKind(n: int): Kind
  {
    if n == 3 || n == 4 then VarintKind else if 1 <= n <= 5 then BytesKind else UnknownKind
  }

  function MergeDenomMetadata(m: DenomMetadata, f: Field): Result<DenomMetadata>
  {
    match f
    case BytesField(1, p) => Ok(m.(creator := p))
    case BytesField(2, p) => Ok(m.(schema := p))
    case VarintField(3, v) => Ok(m.(mintRestricted := v != 0))
    case VarintField(4, v) => Ok(m.(updateRestricted := v != 0))
    case BytesField(5, p) => Ok(m.(data := p))
    case _ => Ok(m)
  }

  function PairKind(n: int): Kind { if 1 <= n <= 2 then BytesKind else UnknownKind }

  function MergeIDCollection(m: IDCollection, f: Field): Result<IDCollection>
  {
    match f
    case BytesField(1, p) => Ok(m.(denomId := p))
    case BytesField(2, p) => Ok(m.(tokenIds := m.tokenIds + [p]))
    case _ => Ok(m)
  }

  function MergeOwner(m: Owner, f: Field): Result<Owner>
  {
    match f
    case BytesField(1, p) => Ok(m.(address := p))
    case BytesField(2, p) =>
      var x :- Unmarshalled(IDCollectionSchema(), NO_ID_COLLECTION, p);
      Ok(m.(idCollections := m.idCollections + [x]))
    case _ => Ok(m)
  }

  /** A second class record is merged into the first; every nft record starts from an empty one. */
  function MergeCollection(m: Collection, f: Field): Result<Collection>
  {
    match f
    case BytesField(1, p) =>
      var d :- Unmarshalled(DenomSchema(), m.denom, p);
      Ok(m.(denom := d))
    case BytesField(2, p) =>
      var x :- Unmarshalled(NFTSchema(), NO_NFT, p);
      Ok(m.(nfts := m.nfts + [x]))
    case _ => Ok(m)
  }

  function GenesisKind(n: int): Kind { if n == 1 then BytesKind else UnknownKind }

  function MergeGenesis(m: GenesisState, f: Field): Result<GenesisState>
  {
    match f
    case BytesField(1, p) =>
      var x :- Unmarshalled(CollectionSchema(), NO_COLLECTION, p);
      Ok(m.(collections := m.collections + [x]))
    case _ => Ok(m)
  }

  function NFTSchema(): Schema<BaseNFT> { Schema(NFTKind, MergeNFT) }
  function NFTMetadataSchema(): Schema<NFTMetadata> { Schema(NFTMetadataKind, MergeNFTMetadata) }
  function DenomSchema(): Schema<Denom> { Schema(DenomKind, MergeDenom) }
  function DenomMetadataSchema(): Schema<DenomMetadata> { Schema(DenomMetadataKind, MergeDenomMetadata) }
  function IDCollectionSchema(): Schema<IDCollection> { Schema(PairKind, MergeIDCollection) }
  function OwnerSchema(): Schema<Owner> { Schema(PairKind, MergeOwner) }
  function CollectionSchema(): Schema<Collection> { Schema(PairKind, MergeCollection) }
  function GenesisSchema(): Schema<GenesisState> { Schema(GenesisKind, MergeGenesis) }

  /** A field with a number the message does not define, whatever it holds, is passed over. */
  lemma UnknownTags(w: Wild, data: bytes, i: nat, next: nat)
    requires w.WellFormed() && w.tag < TWO31 && i <= |data| < TWO63 && At(data, i, WildBytesOf(w)) && next == i + |WildBytesOf(w)|
    ensures next <= |data|
    ensures w.tag > 6 ==> forall m :: DecodeFrom(NFTSchema(), m, data, i) == DecodeFrom(NFTSchema(), m, data, next)
    ensures w.tag > 2 ==> forall m :: DecodeFrom(NFTMetadataSchema(), m, data, i) == DecodeFrom(NFTMetadataSchema(), m, data, next)
    ensures w.tag > 11 ==> forall m :: DecodeFrom(DenomSchema(), m, data, i) == DecodeFrom(DenomSchema(), m, data, next)
    ensures w.tag > 5 ==> forall m :: DecodeFrom(DenomMetadataSchema(), m, data, i) == DecodeFrom(DenomMetadataSchema(), m, data, next)
    ensures w.tag > 2 ==> forall m :: DecodeFrom(IDCollectionSchema(), m, data, i) == DecodeFrom(IDCollectionSchema(), m, data, next)
    ensures w.tag > 2 ==> forall m :: DecodeFrom(OwnerSchema(), m, data, i) == DecodeFrom(OwnerSchema(), m, data, next)
    ensures w.tag > 2 ==> forall m :: DecodeFrom(CollectionSchema(), m, data, i) == DecodeFrom(CollectionSchema(), m, data, next)
    ensures w.tag > 1 ==> forall m :: DecodeFrom(GenesisSchema(), m, data, i) == DecodeFrom(GenesisSchema(), m, data, next)
  {
    hide DecodeFrom, WildBytesOf;
    if w.tag > 6 { Passed(NFTSchema(), w, data, i); }
    if w.tag > 2 { Passed(NFTMetadataSchema(), w, data, i); Passed(IDCollectionSchema(), w, data, i); }
    if w.tag > 2 { Passed(OwnerSchema(), w, data, i); Passed(CollectionSchema(), w, data, i); }
    if w.tag > 11 { Passed(DenomSchema(), w, data, i); }
    if w.tag > 5 { Passed(DenomMetadataSchema(), w, data, i); }
    if w.tag > 1 { Passed(GenesisSchema(), w, data, i); }
  }

  lemma Passed<M(!new)>(s: Schema<M>, w: Wild, data: bytes, i: nat)
    requires w.WellFormed() && 1 <= w.tag < TWO31 && s.kind(w.tag) == UnknownKind
    requires i <= |data| < TWO63 && At(data, i, WildBytesOf(w))
    ensures i + |WildBytesOf(w)| <= |data|
    ensures forall m :: DecodeFrom(s, m, data, i) == DecodeFrom(s, m, data, i + |WildBytesOf(w)|)
  {
    hide DecodeFrom, WildBytesOf;
    forall m ensures DecodeFrom(s, m, data, i) == DecodeFrom(s, m, data, i + |WildBytesOf(w)|) { UnknownFieldIgnored(s, m, w, data, i); }
  }

  /** Every message of the module accepts fields regardless of order, so concatenated inputs merge. */
  lemma MessagesSteady()
    ensures Steady(NFTSchema()) && Steady(NFTMetadataSchema()) && Steady(DenomSchema()) && Steady(DenomMetadataSchema())
    ensures Steady(IDCollectionSchema()) && Steady(OwnerSchema()) && Steady(CollectionSchema()) && Steady(GenesisSchema())
  {
    hide Unmarshalled;
    forall m, m', f ensures MergeCollection(m, f).Ok? <==> MergeCollection(m', f).Ok? {
      if f.BytesField? { DenomSteady(m.denom, m'.denom, f.payload); }
    }
  }

  lemma DenomSteady(d: Denom, d': Denom, p: bytes)
    ensures Unmarshalled(DenomSchema(), d, p).Ok? <==> Unmarshalled(DenomSchema(), d', p).Ok?
  {
    SteadyDecode(DenomSchema(), d, d', p, 0);
  }

  // ------------------------------------------------- encoded lists

  lemma {:induction false} EncodeConcat(a: seq<Field>, b: seq<Field>)
    ensures EncodeFields(a + b) == EncodeFields(a) + EncodeFields(b)
  {
    hide FieldBytes;
    if a == [] {
      assert a + b == b;
    } else {
      assert (a + b)[1..] == a[1..] + b;
      EncodeConcat(a[1..], b);
    }
  }

  /** Every payload of an encoded list is shorter than the encoding. */
  lemma {:induction false} PayloadFits(fs: seq<Field>, k: nat)
    requires k < |fs| && fs[k].BytesField?
    ensures |fs[k].payload| < |EncodeFields(fs)|
  {
    hide Varint;
    if k > 0 {
      PayloadFits(fs[1..], k - 1);
    }
  }

  ghost predicate Known(kind: int -> Kind, f: Field)
  {
    1 <= f.num < TWO31 && kind(f.num) == (if f.BytesField? then BytesKind else VarintKind)
  }

  /** The schema knows every field of `fs`, and merging them into `m` in order gives `m'`. */
  ghost predicate Yields<M(!new)>(s: Schema<M>, m: M, fs: seq<Field>, m': M)
  {
    (forall k | 0 <= k < |fs| :: Known(s.kind, fs[k])) && Fold(s, m, fs) == Ok(m')
  }

  /** Decoding the encoding of such a list, if it fits a Go slice, gives `m'`. */
  lemma DecodeYields<M(!new)>(s: Schema<M>, m: M, fs: seq<Field>, m': M)
    requires Yields(s, m, fs, m') && |EncodeFields(fs)| < TWO63
    ensures Unmarshalled(s, m, EncodeFields(fs)) == Ok(m')
  {
    hide NextField, FieldBytes;
    forall k | 0 <= k < |fs| ensures Fits(s.kind, fs[k]) {
      assert Known(s.kind, fs[k]);
      if fs[k].BytesField? { PayloadFits(fs, k); }
    }
    var data := EncodeFields(fs);
    assert data[0..] == data;
    DecodeEncoded(s, m, fs, data, 0);
  }

  lemma YieldsNone<M(!new)>(s: Schema<M>, m: M)
    ensures Yields(s, m, [], m)
  {
  }

  lemma YieldsField<M(!new)>(s: Schema<M>, m: M, m1: M, f: Field, rest: seq<Field>, m': M)
    requires Known(s.kind, f) && s.merge(m, f) == Ok(m1) && Yields(s, m1, rest, m')
    ensures Yields(s, m, [f] + rest, m')
  {
    var fs := [f] + rest;
    assert fs[1..] == rest;
    forall k | 0 <= k < |fs| ensures Known(s.kind, fs[k]) {
      if k > 0 { assert fs[k] == rest[k - 1]; }
    }
  }

  /** Merging an optional string into a message whose field is still empty sets it. */
  lemma YieldsBytes<M(!new)>(s: Schema<M>, m: M, m1: M, n: nat, x: bytes, rest: seq<Field>, m': M)
    requires 1 <= n < TWO31 && s.kind(n) == BytesKind && Yields(s, m1, rest, m')
    requires if |x| > 0 then s.merge(m, BytesField(n, x)) == Ok(m1) else m == m1
    ensures Yields(s, m, OptBytes(n, x) + rest, m')
  {
    hide Yields;
    if |x| > 0 {
      YieldsField(s, m, m1, BytesField(n, x), rest, m');
    } else {
      assert OptBytes(n, x) + rest == rest;
    }
  }

  lemma YieldsBool<M(!new)>(s: Schema<M>, m: M, m1: M, n: nat, b: bool, rest: seq<Field>, m': M)
    requires 1 <= n < TWO31 && s.kind(n) == VarintKind && Yields(s, m1, rest, m')
    requires if b then s.merge(m, VarintField(n, 1)) == Ok(m1) else m == m1
    ensures Yields(s, m, OptBool(n, b) + rest, m')
  {
    hide Yields;
    if b {
      YieldsField(s, m, m1, VarintField(n, 1), rest, m');
    } else {
      assert OptBool(n, b) + rest == rest;
    }
  }

  lemma Trailing(fs: seq<Field>)
    ensures fs + [] == fs
  {
  }

  /** A repeated field is no longer than the message that carries it. */
  lemma SuffixShorter(a: seq<Field>, b: seq<Field>)
    ensures |EncodeFields(b)| <= |EncodeFields(a + b)|
  {
    EncodeConcat(a, b);
  }

  // ------------------------------------------------- flat messages

  lemma NFTRoundTrip(m: BaseNFT)
    requires |EncodeNFT(m)| < TWO63
    ensures Unmarshalled(NFTSchema(), NO_NFT, EncodeNFT(m)) == Ok(m)
  {
    hide EncodeFields, Unmarshalled, Yields;
    var s := NFTSchema();
    var m1 := NO_NFT.(id := m.id);
    var m2 := m1.(name := m.name);
    var m3 := m2.(uri := m.uri);
    var m4 := m3.(data := m.data);
    var m5 := m4.(owner := m.owner);
    var f6 := OptBytes(6, m.uriHash);
    var f5 := OptBytes(5, m.owner) + f6;
    var f4 := OptBytes(4, m.data) + f5;
    var f3 := OptBytes(3, m.uri) + f4;
    YieldsNone(s, m);
    YieldsBytes(s, m5, m, 6, m.uriHash, [], m);
    Trailing(f6);
    YieldsBytes(s, m4, m5, 5, m.owner, f6, m);
    YieldsBytes(s, m3, m4, 4, m.data, f5, m);
    YieldsBytes(s, m2, m3, 3, m.uri, f4, m);
    YieldsBytes(s, m1, m2, 2, m.name, f3, m);
    YieldsBytes(s, NO_NFT, m1, 1, m.id, OptBytes(2, m.name) + f3, m);
    DecodeYields(s, NO_NFT, NFTFields(m), m);
  }

  lemma NFTMetadataRoundTrip(m: NFTMetadata)
    requires |EncodeNFTMetadata(m)| < TWO63
    ensures Unmarshalled(NFTMetadataSchema(), NO_NFT_METADATA, EncodeNFTMetadata(m)) == Ok(m)
  {
    hide EncodeFields, Unmarshalled, Yields;
    var s := NFTMetadataSchema();
    var m1 := NO_NFT_METADATA.(name := m.name);
    YieldsNone(s, m);
    YieldsBytes(s, m1, m, 2, m.data, [], m);
    Trailing(OptBytes(2, m.data));
    YieldsBytes(s, NO_NFT_METADATA, m1, 1, m.name, OptBytes(2, m.data), m);
    DecodeYields(s, NO_NFT_METADATA, NFTMetadataFields(m), m);
  }

  lemma DenomMetadataRoundTrip(m: DenomMetadata)
    requires |EncodeDenomMetadata(m)| < TWO63
    ensures Unmarshalled(DenomMetadataSchema(), NO_DENOM_METADATA, EncodeDenomMetadata(m)) == Ok(m)
  {
    hide EncodeFields, Unmarshalled, Yields;
    var s := DenomMetadataSchema();
    var m1 := NO_DENOM_METADATA.(creator := m.creator);
    var m2 := m1.(schema := m.schema);
    var m3 := m2.(mintRestricted := m.mintRestricted);
    var m4 := m3.(updateRestricted := m.updateRestricted);
    var f5 := OptBytes(5, m.data);
    var f4 := OptBool(4, m.updateRestricted) + f5;
    var f3 := OptBool(3, m.mintRestricted) + f4;
    YieldsNone(s, m);
    YieldsBytes(s, m4, m, 5, m.data, [], m);
    Trailing(f5);
    YieldsBool(s, m3, m4, 4, m.updateRestricted, f5, m);
    YieldsBool(s, m2, m3, 3, m.mintRestricted, f4, m);
    YieldsBytes(s, m1, m2, 2, m.schema, f3, m);
    YieldsBytes(s, NO_DENOM_METADATA, m1, 1, m.creator, OptBytes(2, m.schema) + f3, m);
    DecodeYields(s, NO_DENOM_METADATA, DenomMetadataFields(m), m);
  }

  /** Fields 6 to 11 of a class record complete one whose first five fields are set. */
  lemma DenomTailYields(m: Denom)
    ensures Yields(DenomSchema(), NO_DENOM.(id := m.id, name := m.name, schema := m.schema, creator := m.creator,
                                           symbol := m.symbol), DenomTail(m), m)
  {
    hide Yields;
    var s := DenomSchema();
    var m5 := NO_DENOM.(id := m.id, name := m.name, schema := m.schema, creator := m.creator, symbol := m.symbol);
    var m6 := m5.(mintRestricted := m.mintRestricted);
    var m7 := m6.(updateRestricted := m.updateRestricted);
    var m8 := m7.(description := m.description);
    var m9 := m8.(uri := m.uri);
    var m10 := m9.(uriHash := m.uriHash);
    var f11 := OptBytes(11, m.data);
    var f10 := OptBytes(10, m.uriHash) + f11;
    var f9 := OptBytes(9, m.uri) + f10;
    var f8 := OptBytes(8, m.description) + f9;
    var f7 := OptBool(7, m.updateRestricted) + f8;
    YieldsNone(s, m);
    YieldsBytes(s, m10, m, 11, m.data, [], m);
    Trailing(f11);
    YieldsBytes(s, m9, m10, 10, m.uriHash, f11, m);
    YieldsBytes(s, m8, m9, 9, m.uri, f10, m);
    YieldsBytes(s, m7, m8, 8, m.description, f9, m);
    YieldsBool(s, m6, m7, 7, m.updateRestricted, f8, m);
    YieldsBool(s, m5, m6, 6, m.mintRestricted, f7, m);
  }

  lemma DenomRoundTrip(m: Denom)
    requires |EncodeDenom(m)| < TWO63
    ensures Unmarshalled(DenomSchema(), NO_DENOM, EncodeDenom(m)) == Ok(m)
  {
    hide EncodeFields, Unmarshalled, Yields, DenomTail;
    var s := DenomSchema();
    var m1 := NO_DENOM.(id := m.id);
    var m2 := m1.(name := m.name);
    var m3 := m2.(schema := m.schema);
    var m4 := m3.(creator := m.creator);
    var m5 := m4.(symbol := m.symbol);
    var f5 := OptBytes(5, m.symbol) + DenomTail(m);
    var f4 := OptBytes(4, m.creator) + f5;
    var f3 := OptBytes(3, m.schema) + f4;
    var f2 := OptBytes(2, m.name) + f3;
    DenomTailYields(m);
    YieldsBytes(s, m4, m5, 5, m.symbol, DenomTail(m), m);
    YieldsBytes(s, m3, m4, 4, m.creator, f5, m);
    YieldsBytes(s, m2, m3, 3, m.schema, f4, m);
    YieldsBytes(s, m1, m2, 2, m.name, f3, m);
    YieldsBytes(s, NO_DENOM, m1, 1, m.id, f2, m);
    DecodeYields(s, NO_DENOM, DenomFields(m), m);
  }

  // ------------------------------------------------- repeated and nested messages

  /** The first element of a repeated field, and the rest of it, are no longer than the whole. */
  lemma RepeatedParts<T>(n: nat, encode: T -> bytes, xs: seq<T>)
    requires xs != []
    ensures |encode(xs[0])| < |EncodeFields(Repeated(n, encode, xs))|
    ensures |EncodeFields(Repeated(n, encode, xs[1..]))| <= |EncodeFields(Repeated(n, encode, xs))|
  {
    hide FieldBytes;
    PayloadFits(Repeated(n, encode, xs), 0);
    SuffixShorter([BytesField(n, encode(xs[0]))], Repeated(n, encode, xs[1..]));
  }

  lemma {:induction false} TokenIdsYield(m: IDCollection, ids: seq<bytes>)
    ensures Yields(IDCollectionSchema(), m, Repeated(2, EncodeString, ids), m.(tokenIds := m.tokenIds + ids))
    decreases |ids|
  {
    hide Yields;
    if ids == [] {
      assert m.tokenIds + ids == m.tokenIds;
      YieldsNone(IDCollectionSchema(), m);
    } else {
      var m1 := m.(tokenIds := m.tokenIds + [ids[0]]);
      assert m1.tokenIds + ids[1..] == m.tokenIds + ids;
      TokenIdsYield(m1, ids[1..]);
      YieldsField(IDCollectionSchema(), m, m1, BytesField(2, ids[0]), Repeated(2, EncodeString, ids[1..]),
                  m.(tokenIds := m.tokenIds + ids));
    }
  }

  lemma IDCollectionRoundTrip(m: IDCollection)
    requires |EncodeIDCollection(m)| < TWO63
    ensures Unmarshalled(IDCollectionSchema(), NO_ID_COLLECTION, EncodeIDCollection(m)) == Ok(m)
  {
    hide EncodeFields, Unmarshalled, Yields, Repeated;
    var s := IDCollectionSchema();
    var m1 := NO_ID_COLLECTION.(denomId := m.denomId);
    assert m1.tokenIds + m.tokenIds == m.tokenIds;
    TokenIdsYield(m1, m.tokenIds);
    YieldsBytes(s, NO_ID_COLLECTION, m1, 1, m.denomId, Repeated(2, EncodeString, m.tokenIds), m);
    DecodeYields(s, NO_ID_COLLECTION, IDCollectionFields(m), m);
  }

  lemma {:induction false} IDCollectionsYield(m: Owner, xs: seq<IDCollection>)
    requires |EncodeFields(Repeated(2, EncodeIDCollection, xs))| < TWO63
    ensures Yields(OwnerSchema(), m, Repeated(2, EncodeIDCollection, xs), m.(idCollections := m.idCollections + xs))
    decreases |xs|
  {
    hide Yields, EncodeIDCollection, EncodeFields, Unmarshalled;
    if xs == [] {
      assert m.idCollections + xs == m.idCollections;
      YieldsNone(OwnerSchema(), m);
    } else {
      var m1 := m.(idCollections := m.idCollections + [xs[0]]);
      assert m1.idCollections + xs[1..] == m.idCollections + xs;
      RepeatedParts(2, EncodeIDCollection, xs);
      IDCollectionRoundTrip(xs[0]);
      IDCollectionsYield(m1, xs[1..]);
      YieldsField(OwnerSchema(), m, m1, BytesField(2, EncodeIDCollection(xs[0])),
                  Repeated(2, EncodeIDCollection, xs[1..]), m.(idCollections := m.idCollections + xs));
    }
  }

  lemma OwnerRoundTrip(m: Owner)
    requires |EncodeOwner(m)| < TWO63
    ensures Unmarshalled(OwnerSchema(), NO_OWNER, EncodeOwner(m)) == Ok(m)
  {
    hide EncodeFields, Unmarshalled, Yields, Repeated;
    var s := OwnerSchema();
    var list := Repeated(2, EncodeIDCollection, m.idCollections);
    var m1 := NO_OWNER.(address := m.address);
    assert m1.idCollections + m.idCollections == m.idCollections;
    SuffixShorter(OptBytes(1, m.address), list);
    IDCollectionsYield(m1, m.idCollections);
    YieldsBytes(s, NO_OWNER, m1, 1, m.address, list, m);
    DecodeYields(s, NO_OWNER, OwnerFields(m), m);
  }

  lemma {:induction false} NFTsYield(m: Collection, xs: seq<BaseNFT>)
    requires |EncodeFields(Repeated(2, EncodeNFT, xs))| < TWO63
    ensures Yields(CollectionSchema(), m, Repeated(2, EncodeNFT, xs), m.(nfts := m.nfts + xs))
    decreases |xs|
  {
    hide Yields, EncodeNFT, EncodeFields, Unmarshalled;
    if xs == [] {
      assert m.nfts + xs == m.nfts;
      YieldsNone(CollectionSchema(), m);
    } else {
      var m1 := m.(nfts := m.nfts + [xs[0]]);
      assert m1.nfts + xs[1..] == m.nfts + xs;
      RepeatedParts(2, EncodeNFT, xs);
      NFTRoundTrip(xs[0]);
      NFTsYield(m1, xs[1..]);
      YieldsField(CollectionSchema(), m, m1, BytesField(2, EncodeNFT(xs[0])),
                  Repeated(2, EncodeNFT, xs[1..]), m.(nfts := m.nfts + xs));
    }
  }

  lemma CollectionRoundTrip(m: Collection)
    requires |EncodeCollection(m)| < TWO63
    ensures Unmarshalled(CollectionSchema(), NO_COLLECTION, EncodeCollection(m)) == Ok(m)
  {
    hide EncodeFields, Unmarshalled, Yields, Repeated, EncodeDenom;
    var s := CollectionSchema();
    var list := Repeated(2, EncodeNFT, m.nfts);
    var f := BytesField(1, EncodeDenom(m.denom));
    var m1 := NO_COLLECTION.(denom := m.denom);
    assert m1.nfts + m.nfts == m.nfts;
    PayloadFits(CollectionFields(m), 0);
    DenomRoundTrip(m.denom);
    SuffixShorter([f], list);
    NFTsYield(m1, m.nfts);
    YieldsField(s, NO_COLLECTION, m1, f, list, m);
    DecodeYields(s, NO_COLLECTION, CollectionFields(m), m);
  }

  lemma {:induction false} CollectionsYield(m: GenesisState, xs: seq<Collection>)
    requires |EncodeFields(Repeated(1, EncodeCollection, xs))| < TWO63
    ensures Yields(GenesisSchema(), m, Repeated(1, EncodeCollection, xs), m.(collections := m.collections + xs))
    decreases |xs|
  {
    hide Yields, EncodeCollection, EncodeFields, Unmarshalled;
    if xs == [] {
      assert m.collections + xs == m.collections;
      YieldsNone(GenesisSchema(), m);
    } else {
      var m1 := m.(collections := m.collections + [xs[0]]);
      assert m1.collections + xs[1..] == m.collections + xs;
      RepeatedParts(1, EncodeCollection, xs);
      CollectionRoundTrip(xs[0]);
      CollectionsYield(m1, xs[1..]);
      YieldsField(GenesisSchema(), m, m1, BytesField(1, EncodeCollection(xs[0])),
                  Repeated(1, EncodeCollection, xs[1..]), m.(collections := m.collections + xs));
    }
  }

  /** Every genesis tree whose encoding fits a Go slice survives Marshal and Unmarshal. */
  lemma GenesisRoundTrip(m: GenesisState)
    requires |EncodeGenesis(m)| < TWO63
    ensures Unmarshalled(GenesisSchema(), NO_GENESIS, EncodeGenesis(m)) == Ok(m)
  {
    hide EncodeFields, Unmarshalled, Yields, Repeated;
    assert NO_GENESIS.collections + m.collections == m.collections;
    CollectionsYield(NO_GENESIS, m.collections);
    DecodeYields(GenesisSchema(), NO_GENESIS, GenesisFields(m), m);
  }
}
