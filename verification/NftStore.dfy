/**
 The upstream x/nft store as the collection module relies on it: classes, tokens, one owner
 per token with its by-owner index, and a 64-bit supply counter per class that wraps.
 */
module NftStore {
  import opened Wire
  import opened Messages

  type Id = bytes

  /** An account address; the empty one is nobody. */
  type Addr = bytes

  datatype Key = Key(cls: Id, token: Id)

  /**
   A class' metadata blob: none, bytes that do not decode as DenomMetadata, bytes that do but
   under another type URL, or proper metadata.
   */
  datatype ClassData = NoClassData | GarbledClassData | ForeignClassData(meta: DenomMetadata) | ClassMeta(meta: DenomMetadata)

  datatype Class = Class(
    id: Id, name: bytes, symbol: bytes, description: bytes, uri: bytes, uriHash: bytes, data: ClassData)

  datatype TokenData = NoTokenData | GarbledTokenData | ForeignTokenData(meta: NFTMetadata) | TokenMeta(meta: NFTMetadata)

  datatype Token = Token(classId: Id, id: Id, uri: bytes, uriHash: bytes, data: TokenData)

  /** An entry of the by-owner index. */
  datatype Holding = Holding(cls: Id, owner: Addr, token: Id)

  datatype Store = Store(
    classes: map<Id, Class>, tokens: map<Key, Token>, owners: map<Key, Addr>, held: set<Holding>,
    supply: map<Id, uint64>)

  const EMPTY_STORE := Store(map[], map[], map[], {}, map[])

  /** Why an operation of the module is refused. */
  datatype Why =
    | ClassExists | UnknownClass | TokenExists | UnknownToken
    | InvalidAddress | InvalidId | InvalidUri | TooLarge | EmptyInput | Duplicate
    | Undecodable | Unauthorized | Restricted | BoundToContract | BadPacket

  datatype Outcome<+T> = Done(value: T) | Fail(why: Why)
  {
    predicate IsFailure() { Fail? }
    function PropagateFailure<U>(): Outcome<U> requires Fail? { Fail(why) }
    function Extract(): T requires Done? { value }
  }

  // ------------------------------------------------- reads

  function GetOwner(s: Store, k: Key): Addr
  {
    if k in s.owners then s.owners[k] else []
  }

  function GetTotalSupply(s: Store, c: Id): uint64
  {
    if c in s.supply then s.supply[c] else 0
  }

  /** The tokens stored under a class. */
  function TokensOf(s: Store, c: Id): set<Key>
  {
    set k | k in s.tokens && k.cls == c
  }

  // ------------------------------------------------- writes

  function SetOwner(s: Store, k: Key, owner: Addr): Store
  {
    s.(owners := s.owners[k := owner], held := s.held + {Holding(k.cls, owner, k.token)})
  }

  function DeleteOwner(s: Store, k: Key, owner: Addr): Store
  {
    s.(owners := s.owners - {k}, held := s.held - {Holding(k.cls, owner, k.token)})
  }

  function AddSupply(s: Store, c: Id, delta: int): Store
  {
    s.(supply := s.supply[c := (GetTotalSupply(s, c) + delta) % TWO64])
  }

  function SaveClass(s: Store, cls: Class): Outcome<Store>
  {
    if cls.id in s.classes then Fail(ClassExists) else Done(s.(classes := s.classes[cls.id := cls]))
  }

  function UpdateClass(s: Store, cls: Class): Outcome<Store>
  {
    if cls.id !in s.classes then Fail(UnknownClass) else Done(s.(classes := s.classes[cls.id := cls]))
  }

  function Mint(s: Store, t: Token, receiver: Addr): Outcome<Store>
  {
    var k := Key(t.classId, t.id);
    if t.classId !in s.classes then Fail(UnknownClass)
    else if k in s.tokens then Fail(TokenExists)
    else Done(AddSupply(SetOwner(s.(tokens := s.tokens[k := t]), k, receiver), t.classId, 1))
  }

  function UpdateToken(s: Store, t: Token): Outcome<Store>
  {
    var k := Key(t.classId, t.id);
    if t.classId !in s.classes then Fail(UnknownClass)
    else if k !in s.tokens then Fail(UnknownToken)
    else Done(s.(tokens := s.tokens[k := t]))
  }

  function Transfer(s: Store, k: Key, receiver: Addr): Outcome<Store>
  {
    if k.cls !in s.classes then Fail(UnknownClass)
    else if k !in s.tokens then Fail(UnknownToken)
    else Done(SetOwner(DeleteOwner(s, k, GetOwner(s, k)), k, receiver))
  }

  /** The counter is decremented without a check: at zero it wraps to 2^64 - 1. */
  function Burn(s: Store, k: Key): Outcome<Store>
  {
    if k.cls !in s.classes then Fail(UnknownClass)
    else if k !in s.tokens then Fail(UnknownToken)
    else Done(AddSupply(DeleteOwner(s.(tokens := s.tokens - {k}), k, GetOwner(s, k)), k.cls, -1))
  }

  // ------------------------------------------------- consistency

  /** Records are filed under their own ids, and every token has a class. */
  ghost predicate Filed(s: Store)
  {
    && (forall c | c in s.classes :: s.classes[c].id == c)
    && (forall k | k in s.tokens :: s.tokens[k].classId == k.cls && s.tokens[k].id == k.token && k.cls in s.classes)
  }

  /** Every token has exactly one owner, and the by-owner index says the same. */
  ghost predicate Owned(s: Store)
  {
    s.owners.Keys == s.tokens.Keys
    && (forall h :: h in s.held <==> Key(h.cls, h.token) in s.owners && s.owners[Key(h.cls, h.token)] == h.owner)
  }

  /** Every counter is the number of stored tokens, as a uint64. */
  ghost predicate Counted(s: Store)
  {
    forall c :: GetTotalSupply(s, c) == |TokensOf(s, c)| % TWO64
  }

  ghost predicate Consistent(s: Store)
  {
    Filed(s) && Owned(s) && Counted(s)
  }

  lemma EmptyConsistent()
    ensures Consistent(EMPTY_STORE)
  {
    forall c ensures TokensOf(EMPTY_STORE, c) == {} {}
  }

  lemma ClassesConsistent(s: Store, cls: Class)
    requires Consistent(s)
    ensures SaveClass(s, cls).Done? ==> Consistent(SaveClass(s, cls).value)
    ensures UpdateClass(s, cls).Done? ==> Consistent(UpdateClass(s, cls).value)
  {
    var s' := s.(classes := s.classes[cls.id := cls]);
    assert forall c :: TokensOf(s', c) == TokensOf(s, c);
  }

  lemma SucMod(n: nat)
    ensures (n % TWO64 + 1) % TWO64 == (n + 1) % TWO64
    ensures n > 0 ==> (n % TWO64 - 1) % TWO64 == (n - 1) % TWO64
  {
  }

  lemma MintCounted(s: Store, t: Token, receiver: Addr)
    requires Counted(s) && Mint(s, t, receiver).Done?
    ensures Counted(Mint(s, t, receiver).value)
  {
    hide Counted;
    var s', k := Mint(s, t, receiver).value, Key(t.classId, t.id);
    forall c ensures GetTotalSupply(s', c) == |TokensOf(s', c)| % TWO64 {
      CountedAt(s, c);
      if c == t.classId {
        assert TokensOf(s', c) == TokensOf(s, c) + {k};
        SucMod(|TokensOf(s, c)|);
      } else {
        assert TokensOf(s', c) == TokensOf(s, c);
      }
    }
    CountedFrom(s');
  }

  lemma CountedAt(s: Store, c: Id)
    requires Counted(s)
    ensures GetTotalSupply(s, c) == |TokensOf(s, c)| % TWO64
  {
  }

  lemma CountedFrom(s: Store)
    requires forall c :: GetTotalSupply(s, c) == |TokensOf(s, c)| % TWO64
    ensures Counted(s)
  {
  }

  lemma BurnCounted(s: Store, k: Key)
    requires Counted(s) && Burn(s, k).Done?
    ensures Counted(Burn(s, k).value)
  {
    hide Counted;
    var s' := Burn(s, k).value;
    forall c ensures GetTotalSupply(s', c) == |TokensOf(s', c)| % TWO64 {
      CountedAt(s, c);
      if c == k.cls {
        assert k in TokensOf(s, c);
        assert TokensOf(s', c) == TokensOf(s, c) - {k};
        SucMod(|TokensOf(s, c)|);
      } else {
        assert TokensOf(s', c) == TokensOf(s, c);
      }
    }
    CountedFrom(s');
  }

  lemma MintConsistent(s: Store, t: Token, receiver: Addr)
    requires Consistent(s) && Mint(s, t, receiver).Done?
    ensures Consistent(Mint(s, t, receiver).value)
  {
    hide Filed, Owned, Counted, Mint;
    MintFiled(s, t, receiver);
    MintOwned(s, t, receiver);
    MintCounted(s, t, receiver);
  }

  lemma MintFiled(s: Store, t: Token, receiver: Addr)
    requires Filed(s) && Mint(s, t, receiver).Done?
    ensures Filed(Mint(s, t, receiver).value)
  {
  }

  lemma MintOwned(s: Store, t: Token, receiver: Addr)
    requires Owned(s) && Mint(s, t, receiver).Done?
    ensures Owned(Mint(s, t, receiver).value)
  {
  }

  /** A burn finds at least one token behind the counter it decrements. */
  lemma BurnConsistent(s: Store, k: Key)
    requires Consistent(s) && Burn(s, k).Done?
    ensures Consistent(Burn(s, k).value)
    ensures |TokensOf(s, k.cls)| > 0
    ensures |TokensOf(s, k.cls)| < TWO64 ==> GetTotalSupply(s, k.cls) > 0
  {
    hide Counted;
    BurnCounted(s, k);
    CountedAt(s, k.cls);
    assert k in TokensOf(s, k.cls);
  }

  lemma UpdateConsistent(s: Store, t: Token)
    requires Consistent(s) && UpdateToken(s, t).Done?
    ensures Consistent(UpdateToken(s, t).value)
  {
    var s' := UpdateToken(s, t).value;
    assert s'.tokens.Keys == s.tokens.Keys;
    forall c ensures GetTotalSupply(s', c) == |TokensOf(s', c)| % TWO64 {
      assert TokensOf(s', c) == TokensOf(s, c);
    }
  }

  lemma TransferConsistent(s: Store, k: Key, receiver: Addr)
    requires Consistent(s) && Transfer(s, k, receiver).Done?
    ensures Consistent(Transfer(s, k, receiver).value)
  {
    var s' := Transfer(s, k, receiver).value;
    assert s'.owners.Keys == s.owners.Keys;
    forall c ensures GetTotalSupply(s', c) == |TokensOf(s', c)| % TWO64 {
      assert TokensOf(s', c) == TokensOf(s, c);
    }
  }

  /** Each write is refused exactly for a class or token that is missing, or there already. */
  lemma WritesExact(s: Store, cls: Class, t: Token, k: Key, receiver: Addr)
    ensures SaveClass(s, cls).Done? <==> cls.id !in s.classes
    ensures UpdateClass(s, cls).Done? <==> cls.id in s.classes
    ensures Mint(s, t, receiver).Done? <==> t.classId in s.classes && Key(t.classId, t.id) !in s.tokens
    ensures UpdateToken(s, t).Done? <==> t.classId in s.classes && Key(t.classId, t.id) in s.tokens
    ensures Transfer(s, k, receiver).Done? <==> k.cls in s.classes && k in s.tokens
    ensures Burn(s, k).Done? <==> k.cls in s.classes && k in s.tokens
  {
  }
}
