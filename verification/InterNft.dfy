/**
 The ICS-721 adapter: what nft-transfer calls. It writes straight into the nft store, so it
 carries its own use of the burn guard.
 */
module InterNft {
  import opened Wire
  import opened Messages
  import opened NftStore
  import opened Ics721
  import opened CollectionKeeper

  /** The class of a packet that carries no class data. */
  function BareClass(c: Codecs, id: Id, uri: bytes): Class
  {
    Class(id, [], [], [], uri, [], ClassMeta(DenomMetadata(c.moduleAddr, [], true, true, [])))
  }

  /** CreateOrUpdateClass */
  function ClassReceived(c: Codecs, s: Store, id: Id, uri: bytes, data: bytes): Outcome<Store>
  {
    var cls :- if data != [] then ClassOf(c, id, uri, data) else Done(BareClass(c, id, uri));
    if id in s.classes then UpdateClass(s, cls) else SaveClass(s, cls)
  }

  function TokenReceived(c: Codecs, s: Store, k: Key, uri: bytes, data: bytes, receiver: Addr): Outcome<Store>
  {
    var t :- TokenOf(c, k.cls, k.token, uri, data);
    Mint(s, t, receiver)
  }

  /** Transfer: the new owner first, then the token rewritten from the packet. */
  function TokenReturned(c: Codecs, s: Store, k: Key, data: bytes, receiver: Addr): Outcome<Store>
  {
    var s1 :- Transfer(s, k, receiver);
    if data == [] || k !in s1.tokens then Done(s1)
    else
      var t :- TokenOf(c, k.cls, k.token, s1.tokens[k].uri, data);
      UpdateToken(s1, t)
  }

  /** The store with the ownership moved, if it can be. */
  function Moved(s: Store, k: Key, receiver: Addr): Store
  {
    match NftStore.Transfer(s, k, receiver)
    case Done(s1) => s1
    case Fail(_) => s
  }

  /** Burn: a token that is already gone is skipped, a bound one refused. */
  function TokenBurned(s: Store, k: Key, guarded: set<Key>): Outcome<Store>
  {
    if k !in s.tokens then Done(s)
    else if k in guarded then Fail(BoundToContract)
    else Burn(s, k)
  }

  /** The adapter holds a copy of the collection keeper, and through it the store and the guard's slot. */
  datatype InterNftKeeper = InterNftKeeper(codecs: Codecs, ck: Keeper)
  {
    method CreateOrUpdateClass(id: Id, uri: bytes, data: bytes) returns (r: Outcome<()>)
      modifies ck.nk
      ensures ck.nk.Performed(ClassReceived(codecs, old(ck.nk.s), id, uri, data), r, old(ck.nk.s))
    {
      hide ClassOf;
      var cls := BareClass(codecs, id, uri);
      if |data| != 0 {
        var built := BuildClass(codecs, id, uri, data);
        if built.Fail? { return Fail(built.why); }
        cls := built.value;
      }
      if id in ck.nk.s.classes {
        r := ck.nk.UpdateClass(cls);
      } else {
        r := ck.nk.SaveClass(cls);
      }
    }

    method Mint(k: Key, uri: bytes, data: bytes, receiver: Addr) returns (r: Outcome<()>)
      modifies ck.nk
      ensures ck.nk.Performed(TokenReceived(codecs, old(ck.nk.s), k, uri, data, receiver), r, old(ck.nk.s))
    {
      hide TokenOf;
      var token := BuildToken(codecs, k.cls, k.token, uri, data);
      if token.Fail? { return Fail(token.why); }
      r := ck.nk.Mint(token.value, receiver);
    }

    /** A packet that does not build fails after the ownership has moved; the caller discards its cached context then. */
    method Transfer(k: Key, data: bytes, receiver: Addr) returns (r: Outcome<()>)
      modifies ck.nk
      ensures match TokenReturned(codecs, old(ck.nk.s), k, data, receiver)
              case Done(s') => r.Done? && ck.nk.s == s'
              case Fail(why) => r == Fail(why) && ck.nk.s == Moved(old(ck.nk.s), k, receiver)
    {
      hide TokenOf;
      r := ck.nk.Transfer(k, receiver);
      if r.Fail? { return; }
      if |data| == 0 { return Done(()); }
      if k !in ck.nk.s.tokens { return Done(()); }
      var token := BuildToken(codecs, k.cls, k.token, ck.nk.s.tokens[k].uri, data);
      if token.Fail? { return Fail(token.why); }
      r := ck.nk.Update(token.value);
    }

    method Burn(k: Key) returns (r: Outcome<()>)
      modifies ck.nk
      ensures ck.nk.Performed(TokenBurned(old(ck.nk.s), k, old(ck.Protected())), r, old(ck.nk.s))
    {
      if k !in ck.nk.s.tokens { return Done(()); }
      if ck.IsConvertedNFT(k) { return Fail(BoundToContract); }
      r := ck.nk.Burn(k);
    }
  }
}
