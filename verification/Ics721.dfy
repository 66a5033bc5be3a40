/**
 The ICS-721 metadata codec: a class or token is printed into packet data as base64 of a
 JSON object (or of the raw blob, for a voucher whose blob is no object) and parsed back.
 */
module Ics721 {
  import opened Options
  import opened Wire
  import opened Messages
  import opened NftStore

  /**
   The member names of an object: those the format gives a meaning ("value" and the names
   behind the prefix "irismod:"), and every other one.
   */
  datatype MemberName =
    | ValueKey              // value
    | NameKey               // irismod:name
    | SymbolKey             // irismod:symbol
    | DescriptionKey        // irismod:description
    | UriHashKey            // irismod:uri_hash
    | MintRestrictedKey     // irismod:mint_restricted
    | UpdateRestrictedKey   // irismod:update_restricted
    | CreatorKey            // irismod:creator
    | SchemaKey             // irismod:schema
    | OtherKey(text: string)

  datatype Json = Null | Bool(b: bool) | Num(repr: bytes) | Str(s: bytes) | Arr(items: seq<Json>) | Obj(fields: JsonObject)

  type JsonObject = map<MemberName, Json>

  /** json.Unmarshal into a map: an object, the literal null, or an error that may leave entries behind. */
  datatype Parsed = Object(m: JsonObject) | NullDocument | NotObject(partial: JsonObject)

  /**
   The codecs this file builds on. `scrub` is what json.Marshal makes of a Go string: invalid
   UTF-8 is replaced. `canonical` singles out the values that Go's own decoder produces; an
   `OtherKey` with the text of a name listed above is never among them, so that two different
   canonical objects have different texts.
   */
  datatype Codecs = Codecs(
    parse: bytes -> Parsed, render: JsonObject -> bytes, scrub: bytes -> bytes, canonical: JsonObject -> bool,
    encode64: bytes -> bytes, decode64: bytes -> Option<bytes>,
    encodeHex: Addr -> bytes, decodeHex: bytes -> Option<Addr>,
    parseAddr: bytes -> Option<Addr>, printAddr: Addr -> bytes, moduleAddr: bytes)
  {
    /** Section 4 of RFC 4648 for base64, section 4 of RFC 8259 for objects: each printer has its parser as inverse. */
    ghost predicate Lawful()
    {
      && (forall x :: decode64(encode64(x)) == Some(x))
      && (forall m | canonical(m) :: parse(render(m)) == Object(m))
      && (forall x :: match parse(x)
                      case Object(m) => canonical(m)
                      case NotObject(m) => canonical(m)
                      case NullDocument => true)
      && canonical(map[]) && parse([]) == NotObject(map[])
      && (forall m, k, v | canonical(m) && k in CLASS_KEYS && Plain(v) :: canonical(Put(m, k, v)))
      && (forall m, ks | canonical(m) :: canonical(Without(m, ks)))
      && (forall x :: scrub(scrub(x)) == scrub(x)) && scrub([]) == []
      && (forall a :: scrub(encodeHex(a)) == encodeHex(a) && (a != [] ==> decodeHex(encodeHex(a)) == Some(a)))
      && (forall x | parseAddr(x).Some? :: parseAddr(x).value != [] && parseAddr(printAddr(parseAddr(x).value)) == parseAddr(x))
      && parseAddr(moduleAddr).Some? && printAddr(parseAddr(moduleAddr).value) == moduleAddr
      && (forall x | parseAddr(x).Some? :: x != [])
    }

    /** A media field as it is printed: one entry, a printable string or a boolean. */
    ghost predicate Plain(v: Json)
    {
      v.Obj? && v.fields.Keys == {ValueKey}
      && (v.fields[ValueKey].Bool? || (v.fields[ValueKey].Str? && scrub(v.fields[ValueKey].s) == v.fields[ValueKey].s))
    }
  }

  function Put(m: JsonObject, k: MemberName, v: Json): JsonObject
  {
    m[k := v]
  }

  function Without(m: JsonObject, ks: set<MemberName>): JsonObject
  {
    m - ks
  }

  /** The entries a class packet reserves. */
  const CLASS_KEYS := {NameKey, SymbolKey, DescriptionKey, UriHashKey, MintRestrictedKey, UpdateRestrictedKey, CreatorKey, SchemaKey}

  const TOKEN_KEYS := {NameKey, UriHashKey}

  const IBC_PREFIX: bytes := [0x69, 0x62, 0x63, 0x2f]  // "ibc/"

  predicate IsIBCDenom(id: Id)
  {
    IBC_PREFIX <= id
  }

  lemma IsIBCDenomExactly(id: Id)
    ensures IsIBCDenom(id) <==> |id| >= 4 && id[0] == 'i' as int && id[1] == 'b' as int && id[2] == 'c' as int && id[3] == '/' as int
  {
  }

  const MAX_DENOM_SCHEMA_LEN := 8192
  const MAX_DENOM_DATA_LEN := 65536
  const MAX_TOKEN_DATA_LEN := 65536

  /** ValidateDenomMetadataBounds */
  predicate DenomBoundsOk(schema: bytes, data: bytes)
  {
    |schema| <= MAX_DENOM_SCHEMA_LEN && |data| <= MAX_DENOM_DATA_LEN
  }

  function TextField(c: Codecs, s: bytes): Json
  {
    Obj(map[ValueKey := Str(c.scrub(s))])
  }

  function FlagField(b: bool): Json
  {
    Obj(map[ValueKey := Bool(b)])
  }

  /** The string a media field carries under `k`, if it carries one. */
  function TextAt(m: JsonObject, k: MemberName): Option<bytes>
  {
    if k in m && m[k].Obj? && ValueKey in m[k].fields && m[k].fields[ValueKey].Str?
    then Some(m[k].fields[ValueKey].s) else None
  }

  function FlagAt(m: JsonObject, k: MemberName): Option<bool>
  {
    if k in m && m[k].Obj? && ValueKey in m[k].fields && m[k].fields[ValueKey].Bool?
    then Some(m[k].fields[ValueKey].b) else None
  }

  function Or<T>(o: Option<T>, default: T): T
  {
    if o.Some? then o.value else default
  }

  /** What a blob contributes to the printed object. */
  function BlobObject(c: Codecs, data: bytes): JsonObject
  {
    if data == [] then map[]
    else
      match c.parse(data)
      case Object(m) => m
      case NullDocument => map[]
      case NotObject(partial) => partial
  }

  /** A voucher whose blob is not an object travels as the bare blob. */
  predicate TravelsRaw(c: Codecs, id: Id, data: bytes)
  {
    IsRaw(c, data) && IsIBCDenom(id)
  }

  /** A blob that is there and is no JSON object. */
  predicate IsRaw(c: Codecs, data: bytes)
  {
    data != [] && c.parse(data).NotObject?
  }

  /** The blob stored for the entries nobody reserved. */
  function BlobOf(c: Codecs, rest: JsonObject): bytes
  {
    if |rest| == 0 then [] else c.render(rest)
  }

  // ------------------------------------------------- classes

  function ClassMetaOf(cls: Class): Outcome<DenomMetadata>
  {
    match cls.data
    case NoClassData => Done(NO_DENOM_METADATA)
    case GarbledClassData => Fail(Undecodable)
    case ForeignClassData(_) => Fail(Undecodable)
    case ClassMeta(m) => Done(m)
  }

  /** The object a class is printed as. */
  function ClassObject(c: Codecs, cls: Class, meta: DenomMetadata, creator: Addr): JsonObject
  {
    var m1 := Put(BlobObject(c, meta.data), NameKey, TextField(c, cls.name));
    var m2 := Put(m1, SymbolKey, TextField(c, cls.symbol));
    var m3 := Put(m2, DescriptionKey, TextField(c, cls.description));
    var m4 := Put(m3, UriHashKey, TextField(c, cls.uriHash));
    var m5 := Put(m4, MintRestrictedKey, FlagField(meta.mintRestricted));
    var m6 := Put(m5, UpdateRestrictedKey, FlagField(meta.updateRestricted));
    var m7 := Put(m6, CreatorKey, TextField(c, c.encodeHex(creator)));
    Put(m7, SchemaKey, TextField(c, meta.schema))
  }

  function ClassPacket(c: Codecs, cls: Class): Outcome<bytes>
  {
    var meta :- ClassMetaOf(cls);
    if TravelsRaw(c, cls.id, meta.data) then Done(c.encode64(meta.data))
    else
      var creator := c.parseAddr(if meta.creator == [] then c.moduleAddr else meta.creator);
      if creator.None? then Fail(InvalidAddress)
      else Done(c.encode64(c.render(ClassObject(c, cls, meta, creator.value))))
  }

  /** The reserved entries that carry what they should; the others stay in the blob. */
  function Recognized(m: JsonObject): set<MemberName>
  {
    (set k | k in {NameKey, SymbolKey, DescriptionKey, UriHashKey, CreatorKey, SchemaKey} && TextAt(m, k).Some?)
    + (set k | k in {MintRestrictedKey, UpdateRestrictedKey} && FlagAt(m, k).Some?)
  }

  function CreatorOf(c: Codecs, m: JsonObject): Outcome<bytes>
  {
    match TextAt(m, CreatorKey)
    case None => Done(c.moduleAddr)
    case Some(hex) =>
      match c.decodeHex(hex)
      case None => Fail(InvalidAddress)
      case Some(a) => Done(c.printAddr(a))
  }

  function ClassFromObject(c: Codecs, id: Id, uri: bytes, m: JsonObject): Outcome<Class>
  {
    var creator :- CreatorOf(c, m);
    var schema := Or(TextAt(m, SchemaKey), []);
    var data := BlobOf(c, Without(m, Recognized(m)));
    if !DenomBoundsOk(schema, data) then Fail(TooLarge)
    else Done(Class(
      id, Or(TextAt(m, NameKey), []), Or(TextAt(m, SymbolKey), []), Or(TextAt(m, DescriptionKey), []), uri,
      Or(TextAt(m, UriHashKey), []),
      ClassMeta(DenomMetadata(creator, schema, Or(FlagAt(m, MintRestrictedKey), true),
                              Or(FlagAt(m, UpdateRestrictedKey), true), data))))
  }

  function ClassFromRaw(c: Codecs, id: Id, uri: bytes, raw: bytes): Outcome<Class>
  {
    if !DenomBoundsOk([], raw) then Fail(TooLarge)
    else Done(Class(id, [], [], [], uri, [], ClassMeta(DenomMetadata(c.moduleAddr, [], true, true, raw))))
  }

  function ClassOf(c: Codecs, id: Id, uri: bytes, packet: bytes): Outcome<Class>
  {
    match c.decode64(packet)
    case None => Fail(BadPacket)
    case Some(raw) =>
      match c.parse(raw)
      case NotObject(_) => ClassFromRaw(c, id, uri, raw)
      case NullDocument => ClassFromObject(c, id, uri, map[])
      case Object(m) => ClassFromObject(c, id, uri, m)
  }

  /** ClassBuilder.BuildMetadata */
  method BuildClassMetadata(c: Codecs, cls: Class) returns (r: Outcome<bytes>)
    ensures r == ClassPacket(c, cls)
  {
    var metadata := NO_DENOM_METADATA;
    if cls.data.GarbledClassData? || cls.data.ForeignClassData? { return Fail(Undecodable); }
    if cls.data.ClassMeta? { metadata := cls.data.meta; }
    var kvals: JsonObject := map[];
    if |metadata.data| > 0 {
      var parsed := c.parse(metadata.data);
      match parsed {
        case NotObject(partial) =>
          if IsIBCDenom(cls.id) { return Done(c.encode64(metadata.data)); }
          kvals := partial;
        case NullDocument => kvals := map[];
        case Object(m) => kvals := m;
      }
    }
    var creatorText := metadata.creator;
    if creatorText == [] { creatorText := c.moduleAddr; }
    var creator := c.parseAddr(creatorText);
    if creator.None? { return Fail(InvalidAddress); }
    var hexCreator := c.encodeHex(creator.value);
    kvals := kvals[NameKey := TextField(c, cls.name)];
    kvals := kvals[SymbolKey := TextField(c, cls.symbol)];
    kvals := kvals[DescriptionKey := TextField(c, cls.description)];
    kvals := kvals[UriHashKey := TextField(c, cls.uriHash)];
    kvals := kvals[MintRestrictedKey := FlagField(metadata.mintRestricted)];
    kvals := kvals[UpdateRestrictedKey := FlagField(metadata.updateRestricted)];
    kvals := kvals[CreatorKey := TextField(c, hexCreator)];
    kvals := kvals[SchemaKey := TextField(c, metadata.schema)];
    return Done(c.encode64(c.render(kvals)));
  }

  /** One `if v, ok := dataMap[key]` block: the string is taken and its entry deleted, or the default stays. */
  method TakeText(dataMap: JsonObject, k: MemberName) returns (text: Option<bytes>, rest: JsonObject)
    ensures text == TextAt(dataMap, k)
    ensures rest == if text.Some? then dataMap - {k} else dataMap
  {
    text, rest := None, dataMap;
    if k in dataMap {
      var v := dataMap[k];
      if v.Obj? && ValueKey in v.fields && v.fields[ValueKey].Str? {
        text, rest := Some(v.fields[ValueKey].s), dataMap - {k};
      }
    }
  }

  method TakeFlag(dataMap: JsonObject, k: MemberName) returns (flag: Option<bool>, rest: JsonObject)
    ensures flag == FlagAt(dataMap, k)
    ensures rest == if flag.Some? then dataMap - {k} else dataMap
  {
    flag, rest := None, dataMap;
    if k in dataMap {
      var v := dataMap[k];
      if v.Obj? && ValueKey in v.fields && v.fields[ValueKey].Bool? {
        flag, rest := Some(v.fields[ValueKey].b), dataMap - {k};
      }
    }
  }

  /** The order in which Build looks for the reserved entries. */
  function KeyAt(n: nat): MemberName
  {
    if n == 0 then NameKey else if n == 1 then SymbolKey else if n == 2 then DescriptionKey else if n == 3 then UriHashKey
    else if n == 4 then MintRestrictedKey else if n == 5 then UpdateRestrictedKey else if n == 6 then CreatorKey else SchemaKey
  }

  /** The keys already looked for. */
  function Tried(n: nat): set<MemberName>
  {
    set i | 0 <= i < n :: KeyAt(i)
  }

  /** What is left of the object then. */
  function Left(m: JsonObject, n: nat): JsonObject
  {
    Without(m, Tried(n) * Recognized(m))
  }

  lemma TriedNext(n: nat)
    requires n < 8
    ensures KeyAt(n) !in Tried(n) && Tried(n + 1) == Tried(n) + {KeyAt(n)}
  {
  }

  lemma LeftStarts(m: JsonObject)
    ensures Left(m, 0) == m
  {
    hide Recognized;
    assert Tried(0) * Recognized(m) == {};
  }

  lemma LeftEnds(m: JsonObject)
    ensures Left(m, 8) == Without(m, Recognized(m))
  {
    assert Tried(8) >= Recognized(m) by {
      assert KeyAt(0) in Tried(8) && KeyAt(1) in Tried(8) && KeyAt(2) in Tried(8) && KeyAt(3) in Tried(8);
      assert KeyAt(4) in Tried(8) && KeyAt(5) in Tried(8) && KeyAt(6) in Tried(8) && KeyAt(7) in Tried(8);
    }
    assert Tried(8) * Recognized(m) == Recognized(m);
  }

  /** The next key has not been touched yet; it goes exactly when it is recognized. */
  lemma LeftNext(m: JsonObject, n: nat)
    requires n < 8
    ensures var k, rest := KeyAt(n), Left(m, n);
            && (k in rest <==> k in m) && (k in m ==> rest[k] == m[k])
            && Left(m, n + 1) == if k in Recognized(m) then rest - {k} else rest
  {
    hide Recognized, KeyAt, Tried;
    TriedNext(n);
  }

  lemma TextRecognized(m: JsonObject, k: MemberName)
    requires k in {NameKey, SymbolKey, DescriptionKey, UriHashKey, CreatorKey, SchemaKey}
    ensures k in Recognized(m) <==> TextAt(m, k).Some?
  {
  }

  lemma FlagRecognized(m: JsonObject, k: MemberName)
    requires k in {MintRestrictedKey, UpdateRestrictedKey}
    ensures k in Recognized(m) <==> FlagAt(m, k).Some?
  {
  }

  /** Taking the string under the next reserved key. */
  method TakeNextText(m: JsonObject, dataMap: JsonObject, k: MemberName, ghost n: nat)
    returns (text: Option<bytes>, rest: JsonObject)
    requires n < 8 && n != 4 && n != 5 && k == KeyAt(n) && dataMap == Left(m, n)
    ensures text == TextAt(m, k) && rest == Left(m, n + 1)
  {
    hide Recognized, Left, Tried;
    LeftNext(m, n);
    TextRecognized(m, k);
    text, rest := TakeText(dataMap, k);
  }

  method TakeNextFlag(m: JsonObject, dataMap: JsonObject, k: MemberName, ghost n: nat)
    returns (flag: Option<bool>, rest: JsonObject)
    requires 4 <= n <= 5 && k == KeyAt(n) && dataMap == Left(m, n)
    ensures flag == FlagAt(m, k) && rest == Left(m, n + 1)
  {
    hide Recognized, Left, Tried;
    LeftNext(m, n);
    FlagRecognized(m, k);
    flag, rest := TakeFlag(dataMap, k);
  }

  /** The creator arrives as hex; without one the module account stands in. */
  method TakeCreator(c: Codecs, m: JsonObject, hex: Option<bytes>) returns (r: Outcome<bytes>)
    requires hex == TextAt(m, CreatorKey)
    ensures r == CreatorOf(c, m)
  {
    if hex.None? { return Done(c.moduleAddr); }
    var acc := c.decodeHex(hex.value);
    if acc.None? { return Fail(InvalidAddress); }
    return Done(c.printAddr(acc.value));
  }

  /** The object branch of ClassBuilder.Build: recognized entries are taken out one by one, the rest becomes the blob. */
  method BuildClassFromObject(c: Codecs, id: Id, uri: bytes, m: JsonObject) returns (r: Outcome<Class>)
    ensures r == ClassFromObject(c, id, uri, m)
  {
    hide Recognized, TextAt, FlagAt, Without, Left, Tried, CreatorOf, DenomBoundsOk, Or, BlobOf;
    LeftStarts(m);
    var name, dataMap := TakeNextText(m, m, NameKey, 0);
    var symbol, description, uriHash, creatorHex, schema;
    var mint, update;
    symbol, dataMap := TakeNextText(m, dataMap, SymbolKey, 1);
    description, dataMap := TakeNextText(m, dataMap, DescriptionKey, 2);
    uriHash, dataMap := TakeNextText(m, dataMap, UriHashKey, 3);
    mint, dataMap := TakeNextFlag(m, dataMap, MintRestrictedKey, 4);
    update, dataMap := TakeNextFlag(m, dataMap, UpdateRestrictedKey, 5);
    creatorHex, dataMap := TakeNextText(m, dataMap, CreatorKey, 6);
    var creator := TakeCreator(c, m, creatorHex);
    if creator.Fail? { return Fail(creator.why); }
    schema, dataMap := TakeNextText(m, dataMap, SchemaKey, 7);
    LeftEnds(m);
    var data := PackRest(c, dataMap);
    if !DenomBoundsOk(Or(schema, []), data) { return Fail(TooLarge); }
    return Done(Class(
      id, Or(name, []), Or(symbol, []), Or(description, []), uri, Or(uriHash, []),
      ClassMeta(DenomMetadata(creator.value, Or(schema, []), Or(mint, true), Or(update, true), data))));
  }

  /** What is left of the object, rendered; nothing when nothing is left. */
  method PackRest(c: Codecs, rest: JsonObject) returns (data: bytes)
    ensures data == BlobOf(c, rest)
  {
    data := [];
    if |rest| > 0 { data := c.render(rest); }
  }

  /** ClassBuilder.Build */
  method BuildClass(c: Codecs, id: Id, uri: bytes, packet: bytes) returns (r: Outcome<Class>)
    ensures r == ClassOf(c, id, uri, packet)
  {
    hide ClassFromObject;
    var bz := c.decode64(packet);
    if bz.None? { return Fail(BadPacket); }
    var parsed := c.parse(bz.value);
    if parsed.NotObject? {
      var rawData := bz.value;
      if !DenomBoundsOk([], rawData) { return Fail(TooLarge); }
      return Done(Class(id, [], [], [], uri, [], ClassMeta(DenomMetadata(c.moduleAddr, [], true, true, rawData))));
    }
    r := BuildClassFromObject(c, id, uri, if parsed.Object? then parsed.m else map[]);
  }

  // ------------------------------------------------- hops of a class

  /** One hop: printed on the sending side, parsed under `id` on the receiving side. */
  function ClassHop(c: Codecs, cls: Class, id: Id): Outcome<Class>
  {
    var packet :- ClassPacket(c, cls);
    ClassOf(c, id, cls.uri, packet)
  }

  lemma BlobCanonical(c: Codecs, data: bytes)
    requires c.Lawful()
    ensures c.canonical(BlobObject(c, data))
  {
  }

  lemma FieldsPlain(c: Codecs, s: bytes, b: bool)
    requires c.Lawful()
    ensures c.Plain(TextField(c, s)) && c.Plain(FlagField(b))
  {
  }

  lemma PutCanonical(c: Codecs, m: JsonObject, k: MemberName, s: bytes, b: bool)
    requires c.Lawful() && c.canonical(m) && k in CLASS_KEYS
    ensures c.canonical(Put(m, k, TextField(c, s))) && c.canonical(Put(m, k, FlagField(b)))
  {
    FieldsPlain(c, s, b);
  }

  lemma ObjectCanonical(c: Codecs, cls: Class, meta: DenomMetadata, creator: Addr)
    requires c.Lawful()
    ensures c.canonical(ClassObject(c, cls, meta, creator))
  {
    hide c.Lawful, Put, BlobObject, TextField, FlagField;
    BlobCanonical(c, meta.data);
    var m1 := Put(BlobObject(c, meta.data), NameKey, TextField(c, cls.name));
    var m2 := Put(m1, SymbolKey, TextField(c, cls.symbol));
    var m3 := Put(m2, DescriptionKey, TextField(c, cls.description));
    var m4 := Put(m3, UriHashKey, TextField(c, cls.uriHash));
    var m5 := Put(m4, MintRestrictedKey, FlagField(meta.mintRestricted));
    var m6 := Put(m5, UpdateRestrictedKey, FlagField(meta.updateRestricted));
    var m7 := Put(m6, CreatorKey, TextField(c, c.encodeHex(creator)));
    PutCanonical(c, BlobObject(c, meta.data), NameKey, cls.name, false);
    PutCanonical(c, m1, SymbolKey, cls.symbol, false);
    PutCanonical(c, m2, DescriptionKey, cls.description, false);
    PutCanonical(c, m3, UriHashKey, cls.uriHash, false);
    PutCanonical(c, m4, MintRestrictedKey, [], meta.mintRestricted);
    PutCanonical(c, m5, UpdateRestrictedKey, [], meta.updateRestricted);
    PutCanonical(c, m6, CreatorKey, c.encodeHex(creator), false);
    PutCanonical(c, m7, SchemaKey, meta.schema, false);
  }

  /** Every reserved entry of a printed class is read back, and the rest is what the blob contributed. */
  lemma ObjectFields(c: Codecs, cls: Class, meta: DenomMetadata, creator: Addr)
    ensures var m := ClassObject(c, cls, meta, creator);
            && TextAt(m, NameKey) == Some(c.scrub(cls.name)) && TextAt(m, SymbolKey) == Some(c.scrub(cls.symbol))
            && TextAt(m, DescriptionKey) == Some(c.scrub(cls.description))
            && TextAt(m, UriHashKey) == Some(c.scrub(cls.uriHash))
            && FlagAt(m, MintRestrictedKey) == Some(meta.mintRestricted)
            && FlagAt(m, UpdateRestrictedKey) == Some(meta.updateRestricted)
            && TextAt(m, CreatorKey) == Some(c.scrub(c.encodeHex(creator)))
            && TextAt(m, SchemaKey) == Some(c.scrub(meta.schema))
  {
    hide ClassObject, TextAt, FlagAt, TextField, FlagField;
    var m := ClassObject(c, cls, meta, creator);
    ObjectEntries(c, cls, meta, creator);
    TextOf(c, m, NameKey, cls.name);
    TextOf(c, m, SymbolKey, cls.symbol);
    TextOf(c, m, DescriptionKey, cls.description);
    TextOf(c, m, UriHashKey, cls.uriHash);
    FlagOf(m, MintRestrictedKey, meta.mintRestricted);
    FlagOf(m, UpdateRestrictedKey, meta.updateRestricted);
    TextOf(c, m, CreatorKey, c.encodeHex(creator));
    TextOf(c, m, SchemaKey, meta.schema);
  }

  predicate Maps(m: JsonObject, k: MemberName, v: Json)
  {
    k in m && m[k] == v
  }

  lemma ObjectEntries(c: Codecs, cls: Class, meta: DenomMetadata, creator: Addr)
    ensures var m := ClassObject(c, cls, meta, creator);
            && Maps(m, NameKey, TextField(c, cls.name)) && Maps(m, SymbolKey, TextField(c, cls.symbol))
            && Maps(m, DescriptionKey, TextField(c, cls.description)) && Maps(m, UriHashKey, TextField(c, cls.uriHash))
            && Maps(m, MintRestrictedKey, FlagField(meta.mintRestricted))
            && Maps(m, UpdateRestrictedKey, FlagField(meta.updateRestricted))
            && Maps(m, CreatorKey, TextField(c, c.encodeHex(creator))) && Maps(m, SchemaKey, TextField(c, meta.schema))
  {
    hide BlobObject, TextField, FlagField;
  }

  lemma TextOf(c: Codecs, m: JsonObject, k: MemberName, s: bytes)
    requires Maps(m, k, TextField(c, s))
    ensures TextAt(m, k) == Some(c.scrub(s))
  {
  }

  lemma FlagOf(m: JsonObject, k: MemberName, b: bool)
    requires Maps(m, k, FlagField(b))
    ensures FlagAt(m, k) == Some(b)
  {
  }

  lemma ObjectRest(c: Codecs, cls: Class, meta: DenomMetadata, creator: Addr)
    ensures var m := ClassObject(c, cls, meta, creator);
            Recognized(m) == CLASS_KEYS && Without(m, Recognized(m)) == Without(BlobObject(c, meta.data), CLASS_KEYS)
  {
    hide BlobObject, TextAt, FlagAt, ClassObject;
    ObjectFields(c, cls, meta, creator);
    ObjectOutside(c, cls, meta, creator);
    var m := ClassObject(c, cls, meta, creator);
    assert Recognized(m) == CLASS_KEYS;
  }

  lemma ObjectOutside(c: Codecs, cls: Class, meta: DenomMetadata, creator: Addr)
    ensures Without(ClassObject(c, cls, meta, creator), CLASS_KEYS) == Without(BlobObject(c, meta.data), CLASS_KEYS)
  {
    hide BlobObject, TextField, FlagField;
  }

  /** The creator an outbound class names: its own, or the module account when it has none. */
  function EffectiveCreator(c: Codecs, meta: DenomMetadata): Option<Addr>
  {
    c.parseAddr(if meta.creator == [] then c.moduleAddr else meta.creator)
  }

  /** A media field of a packet: an object with a string or boolean under "value". */
  lemma EntryRead(m: JsonObject, k: MemberName)
    ensures forall x :: TextAt(m, k) == Some(x) <==> k in m && m[k].Obj? && ValueKey in m[k].fields && m[k].fields[ValueKey] == Str(x)
    ensures forall b :: FlagAt(m, k) == Some(b) <==> k in m && m[k].Obj? && ValueKey in m[k].fields && m[k].fields[ValueKey] == Bool(b)
  {
  }

  /** The value read under a key, or the default a packet without it gets. */
  ghost predicate TextOr(m: JsonObject, k: MemberName, default: bytes, now: bytes)
  {
    if TextAt(m, k).Some? then TextAt(m, k) == Some(now) else now == default
  }

  ghost predicate FlagOr(m: JsonObject, k: MemberName, default: bool, now: bool)
  {
    if FlagAt(m, k).Some? then FlagAt(m, k) == Some(now) else now == default
  }

  /**
   Any packet, also one this module did not print: each field is what its entry says, or its
   default, which is empty for texts, on for both restrictions and the module account for the
   creator. It is refused exactly for a creator that is no hex address, or for size.
   */
  lemma ForeignPacket(c: Codecs, id: Id, uri: bytes, packet: bytes, m: JsonObject)
    requires c.decode64(packet).Some? && c.parse(c.decode64(packet).value) == Object(m)
    ensures var r, hex := ClassOf(c, id, uri, packet), TextAt(m, CreatorKey);
            var schema, data := if TextAt(m, SchemaKey).Some? then TextAt(m, SchemaKey).value else [], BlobOf(c, Without(m, Recognized(m)));
            && (r.Done? <==> (hex.Some? ==> c.decodeHex(hex.value).Some?) && |schema| <= 8192 && |data| <= 65536)
            && (r.Done? ==>
                  && r.value.id == id && r.value.uri == uri && r.value.data.ClassMeta?
                  && TextOr(m, NameKey, [], r.value.name) && TextOr(m, SymbolKey, [], r.value.symbol)
                  && TextOr(m, DescriptionKey, [], r.value.description) && TextOr(m, UriHashKey, [], r.value.uriHash)
                  && FlagOr(m, MintRestrictedKey, true, r.value.data.meta.mintRestricted)
                  && FlagOr(m, UpdateRestrictedKey, true, r.value.data.meta.updateRestricted)
                  && r.value.data.meta.schema == schema && r.value.data.meta.data == data
                  && r.value.data.meta.creator
                     == if hex.Some? then c.printAddr(c.decodeHex(hex.value).value) else c.moduleAddr)
  {
    hide TextAt, FlagAt, BlobOf, Recognized, Without;
  }

  /** The blob keeps exactly the entries that are not taken: every unreserved one, and reserved ones of another shape. */
  lemma RestKept(c: Codecs, m: JsonObject, k: MemberName)
    ensures k in Without(m, Recognized(m))
            <==> k in m && !(k in {NameKey, SymbolKey, DescriptionKey, UriHashKey, CreatorKey, SchemaKey} && TextAt(m, k).Some?)
                 && !(k in {MintRestrictedKey, UpdateRestrictedKey} && FlagAt(m, k).Some?)
    ensures k in Without(m, Recognized(m)) ==> Without(m, Recognized(m))[k] == m[k]
    ensures BlobOf(c, Without(m, Recognized(m))) == if Without(m, Recognized(m)) == map[] then [] else c.render(Without(m, Recognized(m)))
  {
    hide TextAt, FlagAt;
    var rest := Without(m, Recognized(m));
    assert |rest| == 0 <==> rest == map[];
  }

  /** A packet that is no object is stored as it came, restricted both ways, under the module account. */
  lemma RawPacket(c: Codecs, id: Id, uri: bytes, packet: bytes)
    ensures c.decode64(packet).None? ==> ClassOf(c, id, uri, packet).Fail?
    ensures c.decode64(packet).Some? && c.parse(c.decode64(packet).value).NotObject? ==>
              var raw, r := c.decode64(packet).value, ClassOf(c, id, uri, packet);
              && (r.Done? <==> |raw| <= 65536)
              && (r.Done? ==> r.value == Class(id, [], [], [], uri, [], ClassMeta(DenomMetadata(c.moduleAddr, [], true, true, raw))))
    ensures c.decode64(packet).Some? && c.parse(c.decode64(packet).value).NullDocument? ==>
              ClassOf(c, id, uri, packet) == Done(Class(id, [], [], [], uri, [], ClassMeta(DenomMetadata(c.moduleAddr, [], true, true, []))))
  {
    assert Without(map[], Recognized(map[])) == map[];
  }

  /** The class one hop delivers on the object path. */
  function Delivered(c: Codecs, cls: Class, meta: DenomMetadata, creator: Addr, id: Id): Class
  {
    Class(id, c.scrub(cls.name), c.scrub(cls.symbol), c.scrub(cls.description), cls.uri, c.scrub(cls.uriHash),
          ClassMeta(DenomMetadata(c.printAddr(creator), c.scrub(meta.schema), meta.mintRestricted, meta.updateRestricted,
                                  BlobOf(c, Without(BlobObject(c, meta.data), CLASS_KEYS)))))
  }

  /**
   One hop on the object path recovers name, symbol, description, hash, both restrictions,
   creator, schema and every entry of the data object that is not reserved; strings are
   recovered up to the replacement of invalid UTF-8. It fails exactly when the creator does
   not parse or the result is over the size bounds.
   */
  lemma ClassHopRecovers(c: Codecs, cls: Class, meta: DenomMetadata, id: Id)
    requires c.Lawful() && ClassMetaOf(cls) == Done(meta) && !TravelsRaw(c, cls.id, meta.data)
    ensures ClassHop(c, cls, id)
            == match EffectiveCreator(c, meta)
               case None => Fail(InvalidAddress)
               case Some(creator) =>
                 var d := Delivered(c, cls, meta, creator, id);
                 if DenomBoundsOk(d.data.meta.schema, d.data.meta.data) then Done(d) else Fail(TooLarge)
  {
    hide BlobObject, TextAt, FlagAt, ClassObject, Recognized, Without, BlobOf;
    var creator := EffectiveCreator(c, meta);
    if creator.Some? {
      ObjectFields(c, cls, meta, creator.value);
      ObjectRest(c, cls, meta, creator.value);
      ObjectCanonical(c, cls, meta, creator.value);
      assert c.decodeHex(c.encodeHex(creator.value)) == Some(creator.value);
    }
  }

  /** The blob a hop delivers: the unreserved entries of an object, nothing for no blob or the literal null, and what a failed parse has left otherwise. */
  lemma HopCarries(c: Codecs, data: bytes, reserved: set<MemberName>)
    ensures data == [] || c.parse(data).NullDocument? ==> Without(BlobObject(c, data), reserved) == map[]
    ensures forall obj | data != [] && c.parse(data) == Object(obj) :: Without(BlobObject(c, data), reserved) == obj - reserved
    ensures forall part | data != [] && c.parse(data) == NotObject(part) :: Without(BlobObject(c, data), reserved) == part - reserved
    ensures forall m :: BlobOf(c, m) == if m == map[] then [] else c.render(m)
  {
    assert forall m: JsonObject :: |m| == 0 <==> m == map[];
  }

  /** A class is printed unless its metadata is undecodable or of another type, or its creator does not parse; without metadata it is printed like an empty one. */
  lemma PrintedExactly(c: Codecs, cls: Class)
    ensures cls.data.GarbledClassData? || cls.data.ForeignClassData? ==> ClassPacket(c, cls).Fail?
    ensures cls.data.NoClassData? ==> ClassPacket(c, cls) == ClassPacket(c, cls.(data := ClassMeta(DenomMetadata([], [], false, false, []))))
    ensures cls.data.ClassMeta? ==>
              (ClassPacket(c, cls).Done?
               <==> TravelsRaw(c, cls.id, cls.data.meta.data)
                    || c.parseAddr(if cls.data.meta.creator == [] then c.moduleAddr else cls.data.meta.creator).Some?)
  {
    hide Put, TextField, FlagField, BlobObject, TravelsRaw;
  }

  lemma TokenPrintedExactly(c: Codecs, t: Token)
    ensures TokenPacket(c, t).Fail? <==> t.data.GarbledTokenData? || t.data.ForeignTokenData?
    ensures t.data.NoTokenData? ==> TokenPacket(c, t) == TokenPacket(c, t.(data := TokenMeta(NFTMetadata([], []))))
  {
    hide TravelsRaw;
    var t' := t.(data := TokenMeta(NFTMetadata([], [])));
    if t.data.NoTokenData? { assert TokenObject(c, t, NFTMetadata([], [])) == TokenObject(c, t', NFTMetadata([], [])); }
  }

  /** A raw blob is delivered as it is, under the module account and with both restrictions; nothing else travels. */
  lemma ClassHopRaw(c: Codecs, cls: Class, meta: DenomMetadata, id: Id)
    requires c.Lawful() && ClassMetaOf(cls) == Done(meta) && TravelsRaw(c, cls.id, meta.data)
    ensures ClassHop(c, cls, id) == ClassFromRaw(c, id, cls.uri, meta.data)
  {
  }

  /** The blob a hop stores reads back as the object it was printed from. */
  lemma BlobReadsBack(c: Codecs, data: bytes, reserved: set<MemberName>)
    requires c.Lawful()
    ensures var blob := BlobOf(c, Without(BlobObject(c, data), reserved));
            && (blob != [] ==> !c.parse(blob).NotObject?)
            && Without(BlobObject(c, blob), reserved) == Without(BlobObject(c, data), reserved)
  {
    BlobCanonical(c, data);
    var rest := Without(BlobObject(c, data), reserved);
    assert c.canonical(rest);
    assert Without(rest, reserved) == rest;
    if |rest| == 0 {
      assert rest == map[];
      assert Without(map[], reserved) == map[];
    } else {
      assert c.parse(c.render(rest)) == Object(rest);
      assert c.render(rest) != [];
    }
  }

  /** The class is sent on as its bare blob. */
  predicate LeavesRaw(c: Codecs, cls: Class)
  {
    var meta := ClassMetaOf(cls);
    meta.Done? && TravelsRaw(c, cls.id, meta.value.data)
  }

  /** A hop ends with a raw blob exactly when it carried one raw. */
  lemma ClassHopKeepsRaw(c: Codecs, cls: Class, id: Id)
    requires c.Lawful() && ClassHop(c, cls, id).Done?
    ensures var first := ClassHop(c, cls, id).value;
            && first.id == id && first.data.ClassMeta?
            && (IsRaw(c, first.data.meta.data) <==> LeavesRaw(c, cls))
  {
    hide BlobObject, Without, BlobOf, ClassObject, ClassOf, ClassFromObject, IsRaw;
    var meta := ClassMetaOf(cls).value;
    if TravelsRaw(c, cls.id, meta.data) {
      ClassHopRaw(c, cls, meta, id);
    } else {
      ClassHopRecovers(c, cls, meta, id);
      BlobReadsBack(c, meta.data, CLASS_KEYS);
      NotRaw(c, ClassHop(c, cls, id).value.data.meta.data);
    }
  }

  lemma NotRaw(c: Codecs, data: bytes)
    requires data != [] ==> !c.parse(data).NotObject?
    ensures !IsRaw(c, data)
  {
  }

  /**
   If a hop succeeds, the next one, under whatever id, succeeds and changes nothing but the
   id, exactly unless a raw blob has been delivered under an id that is not a voucher's:
   there the next hop drops the blob.
   */
  lemma ClassHopIdentity(c: Codecs, cls: Class, id: Id, next: Id)
    requires c.Lawful() && ClassHop(c, cls, id).Done?
    ensures var first := ClassHop(c, cls, id).value;
            ClassHop(c, first, next) == Done(first.(id := next))
            <==> !LeavesRaw(c, cls) || IsIBCDenom(id)
  {
    hide BlobObject, Without, BlobOf, ClassObject, ClassOf, ClassFromObject;
    var meta := ClassMetaOf(cls).value;
    var first := ClassHop(c, cls, id).value;
    if TravelsRaw(c, cls.id, meta.data) {
      ClassHopRaw(c, cls, meta, id);
      var meta1 := first.data.meta;
      if IsIBCDenom(id) {
        ClassHopRaw(c, first, meta1, next);
      } else if ClassHop(c, first, next).Done? {
        ClassHopKeepsRaw(c, first, next);
      }
    } else {
      ClassHopRecovers(c, cls, meta, id);
      BlobReadsBack(c, meta.data, CLASS_KEYS);
      ClassHopRecovers(c, first, first.data.meta, next);
      assert EffectiveCreator(c, first.data.meta) == EffectiveCreator(c, meta);
    }
  }

  /** A class sent from chain to chain, with the id it gets on each. */
  function ClassRoute(c: Codecs, cls: Class, ids: seq<Id>): Outcome<Class>
  {
    if ids == [] then Done(cls)
    else
      var before :- ClassRoute(c, cls, ids[..|ids| - 1]);
      ClassHop(c, before, ids[|ids| - 1])
  }

  /** Every id it leaves from is a voucher's. */
  ghost predicate Vouchers(ids: seq<Id>)
  {
    forall i | 0 <= i < |ids| :: IsIBCDenom(ids[i])
  }

  lemma VouchersSnoc(ids: seq<Id>)
    ensures Vouchers(ids) <==> ids == [] || (Vouchers(ids[..|ids| - 1]) && IsIBCDenom(ids[|ids| - 1]))
  {
    hide IsIBCDenom;
    if ids != [] { assert ids == ids[..|ids| - 1] + [ids[|ids| - 1]]; }
  }

  lemma SentFrom(c: Codecs, cls: Class)
    requires cls.data.ClassMeta?
    ensures LeavesRaw(c, cls) <==> IsRaw(c, cls.data.meta.data) && IsIBCDenom(cls.id)
  {
  }

  lemma {:induction false} ClassRouteRaw(c: Codecs, cls: Class, ids: seq<Id>)
    requires c.Lawful() && ids != [] && ClassRoute(c, cls, ids).Done?
    ensures var end := ClassRoute(c, cls, ids).value;
            && end.id == ids[|ids| - 1] && end.data.ClassMeta?
            && (IsRaw(c, end.data.meta.data)
                <==> LeavesRaw(c, cls) && Vouchers(ids[..|ids| - 1]))
  {
    hide ClassHop, IsRaw, IsIBCDenom, Vouchers, LeavesRaw, c.Lawful;
    var init := ids[..|ids| - 1];
    var before := ClassRoute(c, cls, init).value;
    ClassHopKeepsRaw(c, before, ids[|ids| - 1]);
    VouchersSnoc(init);
    if init != [] {
      ClassRouteRaw(c, cls, init);
      SentFrom(c, before);
    }
  }

  /**
   Every further hop after a successful first one succeeds and is the identity but for the
   id, over every route, exactly unless a raw blob has to leave a chain from an id that is
   not a voucher's.
   */
  lemma {:induction false} ClassRouteStable(c: Codecs, cls: Class, ids: seq<Id>)
    requires c.Lawful() && ids != [] && ClassHop(c, cls, ids[0]).Done?
    ensures ClassRoute(c, cls, ids) == Done(ClassHop(c, cls, ids[0]).value.(id := ids[|ids| - 1]))
            <==> !LeavesRaw(c, cls) || Vouchers(ids[..|ids| - 1])
  {
    hide ClassHop, IsRaw, IsIBCDenom, Vouchers, LeavesRaw, c.Lawful;
    var init, last := ids[..|ids| - 1], ids[|ids| - 1];
    var first := ClassHop(c, cls, ids[0]).value;
    ClassHopKeepsRaw(c, cls, ids[0]);
    VouchersSnoc(init);
    if init == [] {
      assert ClassRoute(c, cls, init) == Done(cls);
    } else {
      ClassRouteStable(c, cls, init);
      if !LeavesRaw(c, cls) || Vouchers(init[..|init| - 1]) {
        ClassHopUnder(c, cls, ids[0], init[|init| - 1]);
        ClassHopIdentity(c, cls, init[|init| - 1], last);
      } else if ClassRoute(c, cls, ids).Done? {
        ClassRouteRaw(c, cls, ids);
        assert LeavesRaw(c, cls) && !Vouchers(init);
      }
    }
  }

  /** The id a class is delivered under matters for nothing else. */
  lemma ClassHopUnder(c: Codecs, cls: Class, id: Id, other: Id)
    requires c.Lawful() && ClassHop(c, cls, id).Done?
    ensures ClassHop(c, cls, other) == Done(ClassHop(c, cls, id).value.(id := other))
  {
    hide ClassFromObject, BlobObject, BlobOf, Without, ClassObject, ClassOf;
    var meta := ClassMetaOf(cls).value;
    if TravelsRaw(c, cls.id, meta.data) {
      ClassHopRaw(c, cls, meta, id);
      ClassHopRaw(c, cls, meta, other);
    } else {
      ClassHopRecovers(c, cls, meta, id);
      ClassHopRecovers(c, cls, meta, other);
    }
  }

  /** Any number of hops under one id. */
  lemma ClassHopsStable(c: Codecs, cls: Class, id: Id, n: nat)
    requires c.Lawful() && ClassHop(c, cls, id).Done? && n >= 2
    ensures ClassRoute(c, cls, seq(n, _ => id)) == ClassHop(c, cls, id)
            <==> !LeavesRaw(c, cls) || IsIBCDenom(id)
  {
    hide ClassHop, IsRaw, IsIBCDenom, LeavesRaw, c.Lawful;
    var ids := seq(n, _ => id);
    ClassHopKeepsRaw(c, cls, id);
    ClassRouteStable(c, cls, ids);
    if Vouchers(ids[..n - 1]) { assert IsIBCDenom(ids[..n - 1][0]); }
  }

  // ------------------------------------------------- tokens

  function TokenMetaOf(t: Token): Outcome<NFTMetadata>
  {
    match t.data
    case NoTokenData => Done(NO_NFT_METADATA)
    case GarbledTokenData => Fail(Undecodable)
    case ForeignTokenData(_) => Fail(Undecodable)
    case TokenMeta(m) => Done(m)
  }

  function TokenObject(c: Codecs, t: Token, meta: NFTMetadata): JsonObject
  {
    Put(Put(BlobObject(c, meta.data), NameKey, TextField(c, meta.name)), UriHashKey, TextField(c, t.uriHash))
  }

  function TokenPacket(c: Codecs, t: Token): Outcome<bytes>
  {
    var meta :- TokenMetaOf(t);
    if TravelsRaw(c, t.classId, meta.data) then Done(c.encode64(meta.data))
    else Done(c.encode64(c.render(TokenObject(c, t, meta))))
  }

  function TokenRecognized(m: JsonObject): set<MemberName>
  {
    set k | k in TOKEN_KEYS && TextAt(m, k).Some?
  }

  function TokenFromObject(c: Codecs, classId: Id, id: Id, uri: bytes, m: JsonObject): Outcome<Token>
  {
    var data := BlobOf(c, Without(m, TokenRecognized(m)));
    if |data| > MAX_TOKEN_DATA_LEN then Fail(TooLarge)
    else Done(Token(classId, id, uri, Or(TextAt(m, UriHashKey), []),
                    TokenMeta(NFTMetadata(Or(TextAt(m, NameKey), []), data))))
  }

  function TokenFromRaw(classId: Id, id: Id, uri: bytes, raw: bytes): Outcome<Token>
  {
    if |raw| > MAX_TOKEN_DATA_LEN then Fail(TooLarge)
    else Done(Token(classId, id, uri, [], TokenMeta(NFTMetadata([], raw))))
  }

  function TokenOf(c: Codecs, classId: Id, id: Id, uri: bytes, packet: bytes): Outcome<Token>
  {
    match c.decode64(packet)
    case None => Fail(BadPacket)
    case Some(raw) =>
      match c.parse(raw)
      case NotObject(_) => TokenFromRaw(classId, id, uri, raw)
      case NullDocument => TokenFromObject(c, classId, id, uri, map[])
      case Object(m) => TokenFromObject(c, classId, id, uri, m)
  }

  /** TokenBuilder.BuildMetadata */
  method BuildTokenMetadata(c: Codecs, t: Token) returns (r: Outcome<bytes>)
    ensures r == TokenPacket(c, t)
  {
    var metadata := NO_NFT_METADATA;
    if t.data.GarbledTokenData? || t.data.ForeignTokenData? { return Fail(Undecodable); }
    if t.data.TokenMeta? { metadata := t.data.meta; }
    var kvals: JsonObject := map[];
    if |metadata.data| > 0 {
      var parsed := c.parse(metadata.data);
      match parsed {
        case NotObject(partial) =>
          if IsIBCDenom(t.classId) { return Done(c.encode64(metadata.data)); }
          kvals := partial;
        case NullDocument => kvals := map[];
        case Object(m) => kvals := m;
      }
    }
    kvals := kvals[NameKey := TextField(c, metadata.name)];
    kvals := kvals[UriHashKey := TextField(c, t.uriHash)];
    return Done(c.encode64(c.render(kvals)));
  }

  /** TokenBuilder.Build */
  method BuildToken(c: Codecs, classId: Id, id: Id, uri: bytes, packet: bytes) returns (r: Outcome<Token>)
    ensures r == TokenOf(c, classId, id, uri, packet)
  {
    hide TextAt, TokenRecognized, Without;
    var bz := c.decode64(packet);
    if bz.None? { return Fail(BadPacket); }
    var parsed := c.parse(bz.value);
    if parsed.NotObject? {
      var rawData := bz.value;
      if |rawData| > MAX_TOKEN_DATA_LEN { return Fail(TooLarge); }
      return Done(Token(classId, id, uri, [], TokenMeta(NFTMetadata([], rawData))));
    }
    var m: JsonObject := if parsed.Object? then parsed.m else map[];
    var name, dataMap := TakeText(m, NameKey);
    var uriHash;
    TokenTaken(m, dataMap);
    uriHash, dataMap := TakeText(dataMap, UriHashKey);
    var data: bytes := [];
    if |dataMap| > 0 { data := c.render(dataMap); }
    if |data| > MAX_TOKEN_DATA_LEN { return Fail(TooLarge); }
    return Done(Token(classId, id, uri, Or(uriHash, []), TokenMeta(NFTMetadata(Or(name, []), data))));
  }

  /** Any token packet: name and hash from their entries or empty, the rest as the blob; refused for size alone. */
  lemma ForeignTokenPacket(c: Codecs, classId: Id, id: Id, uri: bytes, packet: bytes, m: JsonObject)
    requires c.decode64(packet).Some? && c.parse(c.decode64(packet).value) == Object(m)
    ensures var r, data := TokenOf(c, classId, id, uri, packet), BlobOf(c, Without(m, TokenRecognized(m)));
            && (r.Done? <==> |data| <= 65536)
            && (r.Done? ==>
                  && r.value.classId == classId && r.value.id == id && r.value.uri == uri && r.value.data.TokenMeta?
                  && TextOr(m, UriHashKey, [], r.value.uriHash) && TextOr(m, NameKey, [], r.value.data.meta.name)
                  && r.value.data.meta.data == data)
  {
    hide TextAt, BlobOf, TokenRecognized, Without;
  }

  lemma TokenRestKept(m: JsonObject, k: MemberName)
    ensures k in Without(m, TokenRecognized(m)) <==> k in m && !(k in {NameKey, UriHashKey} && TextAt(m, k).Some?)
    ensures k in Without(m, TokenRecognized(m)) ==> Without(m, TokenRecognized(m))[k] == m[k]
  {
  }

  lemma RawTokenPacket(c: Codecs, classId: Id, id: Id, uri: bytes, packet: bytes)
    ensures c.decode64(packet).None? ==> TokenOf(c, classId, id, uri, packet).Fail?
    ensures c.decode64(packet).Some? && c.parse(c.decode64(packet).value).NotObject? ==>
              var raw, r := c.decode64(packet).value, TokenOf(c, classId, id, uri, packet);
              && (r.Done? <==> |raw| <= 65536)
              && (r.Done? ==> r.value == Token(classId, id, uri, [], TokenMeta(NFTMetadata([], raw))))
    ensures c.decode64(packet).Some? && c.parse(c.decode64(packet).value).NullDocument? ==>
              TokenOf(c, classId, id, uri, packet) == Done(Token(classId, id, uri, [], TokenMeta(NFTMetadata([], []))))
  {
    assert Without(map[], TokenRecognized(map[])) == map[];
  }

  lemma TokenTaken(m: JsonObject, rest: JsonObject)
    requires rest == if TextAt(m, NameKey).Some? then m - {NameKey} else m
    ensures TextAt(rest, UriHashKey) == TextAt(m, UriHashKey)
    ensures Without(m, TokenRecognized(m)) == if TextAt(rest, UriHashKey).Some? then rest - {UriHashKey} else rest
  {
    assert TokenRecognized(m) == (if TextAt(m, NameKey).Some? then {NameKey} else {})
                                 + (if TextAt(m, UriHashKey).Some? then {UriHashKey} else {});
  }

  function TokenHop(c: Codecs, t: Token, classId: Id): Outcome<Token>
  {
    var packet :- TokenPacket(c, t);
    TokenOf(c, classId, t.id, t.uri, packet)
  }

  function DeliveredToken(c: Codecs, t: Token, meta: NFTMetadata, classId: Id): Token
  {
    Token(classId, t.id, t.uri, c.scrub(t.uriHash),
          TokenMeta(NFTMetadata(c.scrub(meta.name), BlobOf(c, Without(BlobObject(c, meta.data), TOKEN_KEYS)))))
  }

  lemma TokenObjectFields(c: Codecs, t: Token, meta: NFTMetadata)
    requires c.Lawful()
    ensures var m := TokenObject(c, t, meta);
            && c.canonical(m) && TextAt(m, NameKey) == Some(c.scrub(meta.name)) && TextAt(m, UriHashKey) == Some(c.scrub(t.uriHash))
            && TokenRecognized(m) == TOKEN_KEYS && Without(m, TOKEN_KEYS) == Without(BlobObject(c, meta.data), TOKEN_KEYS)
  {
    BlobCanonical(c, meta.data);
    FieldsPlain(c, meta.name, false);
    FieldsPlain(c, t.uriHash, false);
  }

  /** One hop of a token on the object path recovers name, hash and the entries of its data object that are not reserved. */
  lemma TokenHopRecovers(c: Codecs, t: Token, meta: NFTMetadata, classId: Id)
    requires c.Lawful() && TokenMetaOf(t) == Done(meta) && !TravelsRaw(c, t.classId, meta.data)
    ensures TokenHop(c, t, classId)
            == var d := DeliveredToken(c, t, meta, classId);
               if |d.data.meta.data| <= MAX_TOKEN_DATA_LEN then Done(d) else Fail(TooLarge)
  {
    hide BlobObject, TextAt, TokenObject, TokenRecognized, Without, BlobOf;
    TokenObjectFields(c, t, meta);
  }

  lemma TokenHopRaw(c: Codecs, t: Token, meta: NFTMetadata, classId: Id)
    requires c.Lawful() && TokenMetaOf(t) == Done(meta) && TravelsRaw(c, t.classId, meta.data)
    ensures TokenHop(c, t, classId) == TokenFromRaw(classId, t.id, t.uri, meta.data)
  {
  }

  /** The token is sent on as its bare blob. */
  predicate TokenLeavesRaw(c: Codecs, t: Token)
  {
    var meta := TokenMetaOf(t);
    meta.Done? && TravelsRaw(c, t.classId, meta.value.data)
  }

  lemma TokenHopKeepsRaw(c: Codecs, t: Token, classId: Id)
    requires c.Lawful() && TokenHop(c, t, classId).Done?
    ensures var first := TokenHop(c, t, classId).value;
            && first.classId == classId && first.data.TokenMeta?
            && (IsRaw(c, first.data.meta.data) <==> TokenLeavesRaw(c, t))
  {
    hide BlobObject, Without, BlobOf, TokenObject, TokenOf, TokenFromObject, IsRaw;
    var meta := TokenMetaOf(t).value;
    if TravelsRaw(c, t.classId, meta.data) {
      TokenHopRaw(c, t, meta, classId);
    } else {
      TokenHopRecovers(c, t, meta, classId);
      BlobReadsBack(c, meta.data, TOKEN_KEYS);
      NotRaw(c, TokenHop(c, t, classId).value.data.meta.data);
    }
  }

  /** The same law as for classes: after one successful hop the next one changes only the class id, with the same exception. */
  lemma TokenHopIdentity(c: Codecs, t: Token, classId: Id, next: Id)
    requires c.Lawful() && TokenHop(c, t, classId).Done?
    ensures var first := TokenHop(c, t, classId).value;
            TokenHop(c, first, next) == Done(first.(classId := next))
            <==> !TokenLeavesRaw(c, t) || IsIBCDenom(classId)
  {
    hide BlobObject, Without, BlobOf, TokenObject, TokenOf, TokenFromObject;
    var meta := TokenMetaOf(t).value;
    var first := TokenHop(c, t, classId).value;
    if TravelsRaw(c, t.classId, meta.data) {
      TokenHopRaw(c, t, meta, classId);
      if IsIBCDenom(classId) {
        TokenHopRaw(c, first, first.data.meta, next);
      } else if TokenHop(c, first, next).Done? {
        TokenHopKeepsRaw(c, first, next);
      }
    } else {
      TokenHopRecovers(c, t, meta, classId);
      BlobReadsBack(c, meta.data, TOKEN_KEYS);
      TokenHopRecovers(c, first, first.data.meta, next);
    }
  }

  function TokenRoute(c: Codecs, t: Token, ids: seq<Id>): Outcome<Token>
  {
    if ids == [] then Done(t)
    else
      var before :- TokenRoute(c, t, ids[..|ids| - 1]);
      TokenHop(c, before, ids[|ids| - 1])
  }

  lemma TokenSentFrom(c: Codecs, t: Token)
    requires t.data.TokenMeta?
    ensures TokenLeavesRaw(c, t) <==> IsRaw(c, t.data.meta.data) && IsIBCDenom(t.classId)
  {
  }

  lemma {:induction false} TokenRouteRaw(c: Codecs, t: Token, ids: seq<Id>)
    requires c.Lawful() && ids != [] && TokenRoute(c, t, ids).Done?
    ensures var end := TokenRoute(c, t, ids).value;
            && end.classId == ids[|ids| - 1] && end.data.TokenMeta?
            && (IsRaw(c, end.data.meta.data)
                <==> TokenLeavesRaw(c, t) && Vouchers(ids[..|ids| - 1]))
  {
    hide TokenHop, IsRaw, IsIBCDenom, Vouchers, TokenLeavesRaw, c.Lawful;
    var init := ids[..|ids| - 1];
    var before := TokenRoute(c, t, init).value;
    TokenHopKeepsRaw(c, before, ids[|ids| - 1]);
    VouchersSnoc(init);
    if init != [] {
      TokenRouteRaw(c, t, init);
      TokenSentFrom(c, before);
    }
  }

  lemma TokenHopUnder(c: Codecs, t: Token, classId: Id, other: Id)
    requires c.Lawful() && TokenHop(c, t, classId).Done?
    ensures TokenHop(c, t, other) == Done(TokenHop(c, t, classId).value.(classId := other))
  {
    hide TokenFromObject, BlobObject, BlobOf, Without, TokenObject, TokenOf;
    var meta := TokenMetaOf(t).value;
    if TravelsRaw(c, t.classId, meta.data) {
      TokenHopRaw(c, t, meta, classId);
      TokenHopRaw(c, t, meta, other);
    } else {
      TokenHopRecovers(c, t, meta, classId);
      TokenHopRecovers(c, t, meta, other);
    }
  }

  /** The law of routes, for tokens. */
  lemma {:induction false} TokenRouteStable(c: Codecs, t: Token, ids: seq<Id>)
    requires c.Lawful() && ids != [] && TokenHop(c, t, ids[0]).Done?
    ensures TokenRoute(c, t, ids) == Done(TokenHop(c, t, ids[0]).value.(classId := ids[|ids| - 1]))
            <==> !TokenLeavesRaw(c, t) || Vouchers(ids[..|ids| - 1])
  {
    hide TokenHop, IsRaw, IsIBCDenom, Vouchers, TokenLeavesRaw, c.Lawful;
    var init, last := ids[..|ids| - 1], ids[|ids| - 1];
    TokenHopKeepsRaw(c, t, ids[0]);
    VouchersSnoc(init);
    if init == [] {
      assert TokenRoute(c, t, init) == Done(t);
    } else {
      TokenRouteStable(c, t, init);
      if !TokenLeavesRaw(c, t) || Vouchers(init[..|init| - 1]) {
        TokenHopUnder(c, t, ids[0], init[|init| - 1]);
        TokenHopIdentity(c, t, init[|init| - 1], last);
      } else if TokenRoute(c, t, ids).Done? {
        TokenRouteRaw(c, t, ids);
      }
    }
  }

  lemma TokenHopsStable(c: Codecs, t: Token, classId: Id, n: nat)
    requires c.Lawful() && TokenHop(c, t, classId).Done? && n >= 2
    ensures TokenRoute(c, t, seq(n, _ => classId)) == TokenHop(c, t, classId)
            <==> !TokenLeavesRaw(c, t) || IsIBCDenom(classId)
  {
    hide TokenHop, IsRaw, IsIBCDenom, TokenLeavesRaw, c.Lawful;
    var ids := seq(n, _ => classId);
    TokenHopKeepsRaw(c, t, classId);
    TokenRouteStable(c, t, ids);
    if Vouchers(ids[..n - 1]) { assert IsIBCDenom(ids[..n - 1][0]); }
  }
}
