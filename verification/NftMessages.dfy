/**
 The six messages one by one: when each is accepted, and what it leaves, said about the
 records themselves. And over runs: who can add to a class that restricts minting.
 */
module NftMessages {
  import opened Options
  import opened Wire
  import opened Messages
  import opened NftStore
  import opened Ics721
  import opened CollectionKeeper
  import opened InterNft
  import opened Genesis
  import opened GenesisRoundTrip
  import opened NftRuns

  // ------------------------------------------------- reading and changing fields

  /** The stored metadata is `m`: absent metadata is the zero value, and the type URL does not matter. */
  ghost predicate ClassReads(cls: Class, m: DenomMetadata)
  {
    || (cls.data == NoClassData && m == DenomMetadata([], [], false, false, []))
    || cls.data == ForeignClassData(m) || cls.data == ClassMeta(m)
  }

  ghost predicate TokenReads(t: Token, m: NFTMetadata)
  {
    || (t.data == NoTokenData && m == NFTMetadata([], []))
    || t.data == ForeignTokenData(m) || t.data == TokenMeta(m)
  }

  lemma MetadataRead(cls: Class, t: Token)
    ensures forall m :: ClassMetaRead(cls) == Done(m) <==> ClassReads(cls, m)
    ensures ClassMetaRead(cls).Fail? <==> cls.data == GarbledClassData
    ensures forall m :: TokenMetaRead(t) == Done(m) <==> TokenReads(t, m)
    ensures TokenMetaRead(t).Fail? <==> t.data == GarbledTokenData
  {
  }

  /** "" and "[do-not-modify]" keep a field, "[remove]" empties it, anything else replaces it. */
  ghost predicate Edited(was: bytes, target: bytes, now: bytes)
  {
    if Keeps(target) then now == was
    else if target == REMOVE_FIELD then now == []
    else now == target
  }

  predicate Keeps(target: bytes)
  {
    target == [] || target == DO_NOT_MODIFY
  }

  /** Nothing but the tokens, classes and owners named has changed. */
  ghost predicate SameBut(s: Store, s': Store, classes: set<Id>, tokens: set<Key>)
  {
    && (forall c | c !in classes :: c in s'.classes <==> c in s.classes)
    && (forall c | c !in classes && c in s.classes && c in s'.classes :: s'.classes[c] == s.classes[c])
    && (forall k | k !in tokens :: (k in s'.tokens <==> k in s.tokens) && GetOwner(s', k) == GetOwner(s, k))
    && (forall k | k !in tokens && k in s.tokens && k in s'.tokens :: s'.tokens[k] == s.tokens[k])
  }

  // ------------------------------------------------- issuing

  lemma IssueExact(e: Env, s: Store, guarded: set<Key>, d: Denom, sender: bytes)
    ensures AfterMsg(e, s, guarded, IssueDenom(d, sender)).Done?
            <==> && e.parseAddr(sender).Some? && e.issueIdOk(d.id) && e.denomIdOk(d.id)
                 && |d.schema| <= 8192 && |d.data| <= 65536 && d.id !in s.classes
  {
  }

  /** What was issued reads back as issued, with the sender as its creator. */
  lemma IssueWrites(e: Env, s: Store, guarded: set<Key>, d: Denom, sender: bytes)
    requires AfterMsg(e, s, guarded, IssueDenom(d, sender)).Done?
    ensures var s' := AfterMsg(e, s, guarded, IssueDenom(d, sender)).value;
            && SameBut(s, s', {d.id}, {}) && s'.supply == s.supply
            && DenomInfo(s', d.id) == Done(d.(creator := e.printAddr(e.parseAddr(sender).value)))
            && s'.classes[d.id].data.ClassMeta?
  {
  }

  // ------------------------------------------------- minting

  /** The class lets this account mint. */
  ghost predicate MayMint(e: Env, cls: Class, sender: Addr)
  {
    exists m :: ClassReads(cls, m) && (m.mintRestricted ==> m.creator == e.printAddr(sender))
  }

  lemma MayMintRead(e: Env, cls: Class, sender: Addr)
    ensures MayMint(e, cls, sender)
            <==> ClassMetaRead(cls).Done?
                 && (ClassMetaRead(cls).value.mintRestricted ==> ClassMetaRead(cls).value.creator == e.printAddr(sender))
  {
    if ClassMetaRead(cls).Done? { assert ClassReads(cls, ClassMetaRead(cls).value); }
  }

  lemma MintExact(e: Env, s: Store, guarded: set<Key>, msg: Msg)
    requires msg.MintNFT?
    ensures AfterMsg(e, s, guarded, msg).Done?
            <==> && e.parseAddr(msg.sender).Some? && e.parseAddr(msg.recipient).Some? && e.parseAddr(msg.recipient).value != []
                 && msg.key.cls in s.classes && MayMint(e, s.classes[msg.key.cls], e.parseAddr(msg.sender).value)
                 && msg.key.cls != [] && msg.key.token != [] && msg.key !in s.tokens
  {
    if msg.key.cls in s.classes && e.parseAddr(msg.sender).Some? {
      MayMintRead(e, s.classes[msg.key.cls], e.parseAddr(msg.sender).value);
    }
  }

  lemma MintWrites(e: Env, s: Store, guarded: set<Key>, msg: Msg)
    requires msg.MintNFT? && AfterMsg(e, s, guarded, msg).Done?
    ensures var s', k := AfterMsg(e, s, guarded, msg).value, msg.key;
            && SameBut(s, s', {}, {k}) && k in s'.tokens && GetOwner(s', k) == e.parseAddr(msg.recipient).value
            && s'.tokens[k] == Token(k.cls, k.token, msg.uri, msg.uriHash, TokenMeta(NFTMetadata(msg.name, msg.data)))
            && GetTotalSupply(s', k.cls) == (GetTotalSupply(s, k.cls) + 1) % TWO64
  {
  }

  // ------------------------------------------------- editing

  lemma EditExact(e: Env, s: Store, guarded: set<Key>, k: Key, ch: Change, sender: bytes)
    requires Filed(s)
    ensures AfterMsg(e, s, guarded, EditNFT(k, ch, sender)).Done?
            <==> && e.parseAddr(sender).Some? && k in s.tokens && e.parseAddr(sender).value == GetOwner(s, k)
                 && s.classes[k.cls].data != GarbledClassData && !UpdateRestricted(s, k.cls)
                 && (s.tokens[k].data == GarbledTokenData ==> Keeps(ch.name) && Keeps(ch.data))
  {
    hide Modify;
  }

  lemma EditWritesAll(e: Env, s: Store, guarded: set<Key>, k: Key, ch: Change, sender: bytes)
    requires Filed(s) && AfterMsg(e, s, guarded, EditNFT(k, ch, sender)).Done?
    ensures k in s.tokens
    ensures var s', t := AfterMsg(e, s, guarded, EditNFT(k, ch, sender)).value, s.tokens[k];
            && SameBut(s, s', {}, {k}) && k in s'.tokens && GetOwner(s', k) == GetOwner(s, k) && s'.supply == s.supply
            && s'.tokens[k].classId == t.classId && s'.tokens[k].id == t.id
            && Edited(t.uri, ch.uri, s'.tokens[k].uri) && Edited(t.uriHash, ch.uriHash, s'.tokens[k].uriHash)
            && (Keeps(ch.name) && Keeps(ch.data) ==> s'.tokens[k].data == t.data)
            && (!(Keeps(ch.name) && Keeps(ch.data)) ==> MetaEdited(t, ch, s'.tokens[k]))
  {
    hide DenomInfo, TokenChanged, Edited, MetaEdited, UpdateToken;
    var t, metaToo := s.tokens[k], !(Keeps(ch.name) && Keeps(ch.data));
    if metaToo || !Keeps(ch.uri) || !Keeps(ch.uriHash) {
      ChangeAccepted(t, ch);
      ChangeWrites(t, ch, metaToo);
      UpdateIs(s, TokenChanged(t, ch, metaToo).value);
    } else {
      Unedited(t.uri, ch.uri);
      Unedited(t.uriHash, ch.uriHash);
    }
  }

  lemma Unedited(was: bytes, target: bytes)
    requires Keeps(target)
    ensures Edited(was, target, was)
  {
  }

  lemma UpdateIs(s: Store, t: Token)
    requires UpdateToken(s, t).Done?
    ensures var s', k := UpdateToken(s, t).value, Key(t.classId, t.id);
            SameBut(s, s', {}, {k}) && k in s.tokens && k in s'.tokens && s'.tokens[k] == t && s'.owners == s.owners && s'.supply == s.supply
  {
  }

  /** Name and data have been edited, and the blob is proper metadata now. */
  ghost predicate MetaEdited(t: Token, ch: Change, t': Token)
  {
    t'.data.TokenMeta? && exists m :: TokenReads(t, m) && Edited(m.name, ch.name, t'.data.meta.name) && Edited(m.data, ch.data, t'.data.meta.data)
  }

  // ------------------------------------------------- transferring

  /** The change asks for a name or data other than the stored ones. */
  ghost predicate MetaAsked(t: Token, ch: Change)
  {
    !(Keeps(ch.name) && Keeps(ch.data))
    && (t.data == NoTokenData
        || exists m :: TokenReads(t, m) && ((!Keeps(ch.name) && ch.name != m.name) || (!Keeps(ch.data) && ch.data != m.data)))
  }

  ghost predicate FieldsAsked(t: Token, ch: Change)
  {
    (!Keeps(ch.uri) && ch.uri != t.uri) || (!Keeps(ch.uriHash) && ch.uriHash != t.uriHash)
  }

  lemma AskedRead(t: Token, ch: Change)
    ensures FieldsAsked(t, ch) <==> FieldsDiffer(t, ch)
    ensures t.data != GarbledTokenData || (Keeps(ch.name) && Keeps(ch.data)) ==> MetaDiffers(t, ch) == Done(MetaAsked(t, ch))
    ensures t.data == GarbledTokenData && !(Keeps(ch.name) && Keeps(ch.data)) ==> MetaDiffers(t, ch).Fail?
  {
    if TokenMetaRead(t).Done? { assert TokenReads(t, TokenMetaRead(t).value); }
  }

  lemma MoveExact(e: Env, s: Store, guarded: set<Key>, k: Key, ch: Change, sender: bytes, to: bytes)
    requires Filed(s)
    ensures AfterMsg(e, s, guarded, TransferNFT(k, ch, sender, to)).Done?
            <==> && e.parseAddr(sender).Some? && e.parseAddr(to).Some?
                 && k in s.tokens && e.parseAddr(sender).value == GetOwner(s, k)
                 && s.classes[k.cls].data != GarbledClassData
                 && (s.tokens[k].data == GarbledTokenData ==> Keeps(ch.name) && Keeps(ch.data))
                 && (UpdateRestricted(s, k.cls) ==> !FieldsAsked(s.tokens[k], ch) && !MetaAsked(s.tokens[k], ch))
  {
    hide Modify, FieldsDiffer, MetaDiffers, Modified, Keeps, FieldsAsked, MetaAsked;
    if k in s.tokens { AskedRead(s.tokens[k], ch); ChangeAccepted(s.tokens[k], ch); }
  }

  lemma ChangeAccepted(t: Token, ch: Change)
    ensures forall metaToo: bool :: TokenChanged(t, ch, metaToo).Done? <==> !metaToo || t.data != GarbledTokenData
    ensures forall metaToo: bool | TokenChanged(t, ch, metaToo).Done? ::
              TokenChanged(t, ch, metaToo).value.classId == t.classId && TokenChanged(t, ch, metaToo).value.id == t.id
    ensures MetaAsked(t, ch) ==> !(Keeps(ch.name) && Keeps(ch.data))
  {
  }

  lemma MoveWritesAll(e: Env, s: Store, guarded: set<Key>, k: Key, ch: Change, sender: bytes, to: bytes)
    requires Filed(s) && AfterMsg(e, s, guarded, TransferNFT(k, ch, sender, to)).Done?
    ensures k in s.tokens
    ensures var s', t := AfterMsg(e, s, guarded, TransferNFT(k, ch, sender, to)).value, s.tokens[k];
            && SameBut(s, s', {}, {k}) && k in s'.tokens && GetOwner(s', k) == e.parseAddr(to).value && s'.supply == s.supply
            && (!FieldsAsked(t, ch) && !MetaAsked(t, ch) ==> s'.tokens[k] == t)
            && (FieldsAsked(t, ch) || MetaAsked(t, ch) ==>
                  Edited(t.uri, ch.uri, s'.tokens[k].uri) && Edited(t.uriHash, ch.uriHash, s'.tokens[k].uriHash))
            && (MetaAsked(t, ch) ==> MetaEdited(t, ch, s'.tokens[k]))
            && (!MetaAsked(t, ch) ==> s'.tokens[k].data == t.data)
  {
    hide DenomInfo, FieldsDiffer, MetaDiffers, FieldsAsked, MetaAsked, MetaEdited, Edited, Transfer, UpdateToken, TokenChanged;
    var t, dst := s.tokens[k], e.parseAddr(to).value;
    MoveExact(e, s, guarded, k, ch, sender, to);
    AskedRead(t, ch);
    if FieldsAsked(t, ch) || MetaAsked(t, ch) {
      var t' := TokenChanged(t, ch, MetaAsked(t, ch)).value;
      ChangeAccepted(t, ch);
      ChangeWrites(t, ch, MetaAsked(t, ch));
      UpdateThenTransfer(s, t', k, dst);
    } else {
      TransferIs(s, k, dst);
    }
  }

  lemma ChangeWrites(t: Token, ch: Change, metaToo: bool)
    requires TokenChanged(t, ch, metaToo).Done?
    ensures var t' := TokenChanged(t, ch, metaToo).value;
            && Edited(t.uri, ch.uri, t'.uri) && Edited(t.uriHash, ch.uriHash, t'.uriHash)
            && (metaToo ==> MetaEdited(t, ch, t')) && (!metaToo ==> t'.data == t.data)
  {
    if metaToo { assert TokenReads(t, TokenMetaRead(t).value); }
  }

  lemma TransferIs(s: Store, k: Key, dst: Addr)
    requires Transfer(s, k, dst).Done?
    ensures var s' := Transfer(s, k, dst).value;
            SameBut(s, s', {}, {k}) && s'.tokens == s.tokens && GetOwner(s', k) == dst && s'.supply == s.supply && k in s.tokens
  {
  }

  lemma UpdateThenTransfer(s: Store, t: Token, k: Key, dst: Addr)
    requires Key(t.classId, t.id) == k && UpdateToken(s, t).Done? && Transfer(UpdateToken(s, t).value, k, dst).Done?
    ensures var s' := Transfer(UpdateToken(s, t).value, k, dst).value;
            && SameBut(s, s', {}, {k}) && k in s'.tokens && s'.tokens[k] == t && GetOwner(s', k) == dst && s'.supply == s.supply
  {
  }

  // ------------------------------------------------- burning and handing over

  lemma BurnExact(e: Env, s: Store, guarded: set<Key>, k: Key, sender: bytes)
    requires Filed(s)
    ensures AfterMsg(e, s, guarded, BurnNFT(k, sender)).Done?
            <==> e.parseAddr(sender).Some? && k in s.tokens && e.parseAddr(sender).value == GetOwner(s, k) && k !in guarded
    ensures AfterMsg(e, s, guarded, BurnNFT(k, sender)).Done? ==>
              var s' := AfterMsg(e, s, guarded, BurnNFT(k, sender)).value;
              && SameBut(s, s', {}, {k}) && k !in s'.tokens && k !in s'.owners
              && GetTotalSupply(s', k.cls) == (GetTotalSupply(s, k.cls) - 1) % TWO64
  {
    hide Burn, SameBut;
    BurnIs(s, k);
  }

  lemma BurnIs(s: Store, k: Key)
    requires Filed(s)
    ensures Burn(s, k).Done? <==> k in s.tokens
    ensures Burn(s, k).Done? ==>
              var s' := Burn(s, k).value;
              && SameBut(s, s', {}, {k}) && k !in s'.tokens && k !in s'.owners
              && GetTotalSupply(s', k.cls) == (GetTotalSupply(s, k.cls) - 1) % TWO64
  {
  }

  /** Only the present creator hands a class over, and nothing else about the class changes. */
  lemma DenomMoveExact(e: Env, s: Store, guarded: set<Key>, id: Id, sender: bytes, to: bytes)
    requires Filed(s)
    ensures var r := AfterMsg(e, s, guarded, TransferDenom(id, sender, to));
            && (r.Done? <==> && e.parseAddr(sender).Some? && e.parseAddr(to).Some? && id in s.classes
                             && exists m :: ClassReads(s.classes[id], m) && e.parseAddr(m.creator) == e.parseAddr(sender))
            && (r.Done? ==> && SameBut(s, r.value, {id}, {}) && r.value.supply == s.supply
                            && DenomInfo(r.value, id) == Done(DenomInfo(s, id).value.(creator := e.printAddr(e.parseAddr(to).value)))
                            && r.value.classes[id].data.ClassMeta?)
  {
    hide Filed;
    FiledClass(s, id);
    if id in s.classes && ClassMetaRead(s.classes[id]).Done? {
      assert ClassReads(s.classes[id], ClassMetaRead(s.classes[id]).value);
    }
  }

  lemma FiledClass(s: Store, c: Id)
    requires Filed(s)
    ensures c in s.classes ==> s.classes[c].id == c
  {
  }

  // ------------------------------------------------- the ICS-721 callbacks

  /** The class of a packet without data is restricted both ways and belongs to the module. */
  lemma BareClassIs(c: Codecs, id: Id, uri: bytes)
    ensures var b := BareClass(c, id, uri);
            && b.id == id && b.uri == uri && b.name == [] && b.symbol == [] && b.description == [] && b.uriHash == []
            && b.data == ClassMeta(DenomMetadata(c.moduleAddr, [], true, true, []))
  {
  }

  /** A class callback fails exactly when its packet does not build; it creates or overwrites that class and nothing else. */
  lemma ClassCallbackExact(c: Codecs, s: Store, id: Id, uri: bytes, data: bytes)
    ensures var r := ClassReceived(c, s, id, uri, data);
            && (r.Done? <==> data == [] || ClassOf(c, id, uri, data).Done?)
            && (r.Done? ==> && SameBut(s, r.value, {id}, {}) && r.value.supply == s.supply && id in r.value.classes
                            && r.value.classes[id] == if data == [] then BareClass(c, id, uri) else ClassOf(c, id, uri, data).value)
  {
    hide ClassOf, BareClass, SameBut;
    BuiltIds(c, Key(id, []), uri, data);
    BareClassIs(c, id, uri);
    ClassPut(s, if data == [] || ClassOf(c, id, uri, data).Fail? then BareClass(c, id, uri) else ClassOf(c, id, uri, data).value);
  }

  lemma ClassPut(s: Store, cls: Class)
    ensures SameBut(s, s.(classes := s.classes[cls.id := cls]), {cls.id}, {})
  {
  }

  lemma MintCallbackExact(c: Codecs, s: Store, k: Key, uri: bytes, data: bytes, receiver: Addr)
    ensures var r := TokenReceived(c, s, k, uri, data, receiver);
            && (r.Done? <==> TokenOf(c, k.cls, k.token, uri, data).Done? && k.cls in s.classes && k !in s.tokens)
            && (r.Done? ==> && SameBut(s, r.value, {}, {k}) && k in r.value.tokens && GetOwner(r.value, k) == receiver
                            && r.value.tokens[k] == TokenOf(c, k.cls, k.token, uri, data).value
                            && GetTotalSupply(r.value, k.cls) == (GetTotalSupply(s, k.cls) + 1) % TWO64)
  {
    hide TokenOf;
    BuiltIds(c, k, uri, data);
  }

  /** A transfer callback moves the token, and rewrites it from its packet, if there is one, under the stored URI. */
  lemma TransferCallbackExact(c: Codecs, s: Store, k: Key, data: bytes, receiver: Addr)
    requires Filed(s)
    ensures var r := TokenReturned(c, s, k, data, receiver);
            && (r.Done? <==> k in s.tokens && (data == [] || TokenOf(c, k.cls, k.token, s.tokens[k].uri, data).Done?))
            && (r.Done? ==> && SameBut(s, r.value, {}, {k}) && k in r.value.tokens && GetOwner(r.value, k) == receiver && r.value.supply == s.supply
                            && r.value.tokens[k] == if data == [] then s.tokens[k] else TokenOf(c, k.cls, k.token, s.tokens[k].uri, data).value)
  {
    hide TokenOf;
    if k in s.tokens { BuiltIds(c, k, s.tokens[k].uri, data); }
  }

  /** What a transfer callback whose packet does not build has done by then. */
  lemma MovedExactly(s: Store, k: Key, receiver: Addr)
    requires Filed(s)
    ensures k !in s.tokens ==> Moved(s, k, receiver) == s
    ensures k in s.tokens ==>
              var s' := Moved(s, k, receiver);
              SameBut(s, s', {}, {k}) && s'.tokens == s.tokens && s'.supply == s.supply && GetOwner(s', k) == receiver
  {
  }

  lemma BurnCallbackExact(s: Store, k: Key, guarded: set<Key>)
    requires Filed(s)
    ensures var r := TokenBurned(s, k, guarded);
            && (r.Done? <==> k !in s.tokens || k !in guarded)
            && (r.Done? && k !in s.tokens ==> r.value == s)
            && (r.Done? && k in s.tokens ==>
                  && SameBut(s, r.value, {}, {k}) && k !in r.value.tokens && k !in r.value.owners
                  && GetTotalSupply(r.value, k.cls) == (GetTotalSupply(s, k.cls) - 1) % TWO64)
  {
  }

  // ------------------------------------------------- who can add to a class

  /** The class restricts minting to the account with this text. */
  predicate MintRestrictedTo(s: Store, c: Id, creator: bytes)
  {
    c in s.classes && ClassMetaRead(s.classes[c]).Done?
    && ClassMetaRead(s.classes[c]).value.mintRestricted && ClassMetaRead(s.classes[c]).value.creator == creator
  }

  /** Not a mint or handover of the class by its creator, and no ICS-721 callback that mints into it or rewrites it. */
  predicate Outsider(e: Env, step: Step, c: Id, creator: bytes)
  {
    match step
    case Message(MintNFT(k, _, _, _, _, sender, _)) =>
      k.cls == c && e.parseAddr(sender).Some? ==> e.printAddr(e.parseAddr(sender).value) != creator
    case Message(TransferDenom(id, sender, _)) => id == c ==> e.parseAddr(sender) != e.parseAddr(creator)
    case IcsClass(id, _, _) => id != c
    case IcsMint(k, _, _, _) => k.cls != c
    case _ => true
  }

  /** The class is as it was and has no token it did not have. */
  ghost predicate NothingAdded(s: Store, s': Store, c: Id)
  {
    && c in s.classes && c in s'.classes && s'.classes[c] == s.classes[c]
    && (forall k | k in s'.tokens && k.cls == c :: k in s.tokens)
  }

  lemma NothingAddedTrans(s: Store, s1: Store, s2: Store, c: Id)
    requires NothingAdded(s, s1, c) && NothingAdded(s1, s2, c)
    ensures NothingAdded(s, s2, c)
  {
  }

  lemma {:induction false} TokensImportedElsewhere(e: Env, s: Store, id: Id, nfts: seq<BaseNFT>, c: Id)
    requires TokensImported(e, s, id, nfts).Done? && c in s.classes && c != id
    ensures NothingAdded(s, TokensImported(e, s, id, nfts).value, c)
  {
    if nfts != [] { TokensImportedElsewhere(e, s, id, nfts[..|nfts| - 1], c); }
  }

  lemma CollectionImportedElsewhere(e: Env, s: Store, col: Collection, c: Id)
    requires CollectionImported(e, s, col).Done? && c in s.classes
    ensures NothingAdded(s, CollectionImported(e, s, col).value, c)
  {
    hide TokensImported;
    var creator := if col.denom.creator == [] then [] else e.parseAddr(col.denom.creator).value;
    var s1 := DenomSaved(e, s, col.denom, creator).value;
    TokensImportedElsewhere(e, s1, col.denom.id, col.nfts, c);
  }

  /** An import adds nothing to a class that is there already. */
  lemma {:induction false} ImportElsewhere(e: Env, s: Store, cs: seq<Collection>, c: Id)
    requires CollectionsImported(e, s, cs).Done? && c in s.classes
    ensures NothingAdded(s, CollectionsImported(e, s, cs).value, c)
  {
    hide CollectionImported;
    if cs != [] {
      ImportElsewhere(e, s, cs[..|cs| - 1], c);
      var s1 := CollectionsImported(e, s, cs[..|cs| - 1]).value;
      CollectionImportedElsewhere(e, s1, cs[|cs| - 1], c);
      NothingAddedTrans(s, s1, CollectionsImported(e, s, cs).value, c);
    }
  }

  lemma MsgAdds(e: Env, s: Store, guarded: set<Key>, msg: Msg, c: Id, creator: bytes)
    requires Filed(s) && AfterMsg(e, s, guarded, msg).Done? && MintRestrictedTo(s, c, creator) && Outsider(e, Message(msg), c, creator)
    ensures NothingAdded(s, AfterMsg(e, s, guarded, msg).value, c)
  {
    hide NFTUpdated, OwnershipTransferred, Filed, AfterMsg;
    match msg
    case IssueDenom(d, sender) =>
      IssueExact(e, s, guarded, d, sender);
      IssueWrites(e, s, guarded, d, sender);
    case MintNFT(k, _, _, _, _, sender, _) =>
      MintExact(e, s, guarded, msg);
      MintWrites(e, s, guarded, msg);
      if k.cls == c { MayMintRead(e, s.classes[c], e.parseAddr(sender).value); }
    case EditNFT(k, ch, sender) => EditWritesAll(e, s, guarded, k, ch, sender);
    case TransferNFT(k, ch, sender, to) => MoveWritesAll(e, s, guarded, k, ch, sender, to);
    case BurnNFT(k, sender) => BurnExact(e, s, guarded, k, sender);
    case TransferDenom(id, sender, to) =>
      DenomMoveExact(e, s, guarded, id, sender, to);
      if id == c { MetadataRead(s.classes[c], Token([], [], [], [], NoTokenData)); }
  }

  lemma StepAdds(e: Env, c: Codecs, w: World, step: Step, id: Id, creator: bytes)
    requires Consistent(w.s) && MintRestrictedTo(w.s, id, creator) && Outsider(e, step, id, creator)
    ensures NothingAdded(w.s, After(e, c, w, step).s, id)
  {
    hide AfterMsg, CollectionsImported, ClassReceived, TokenReceived, TokenReturned, Owned, Counted, Filed;
    if Asked(e, c, w, step).Done? {
      match step
      case Message(msg) => MsgAdds(e, w.s, Guarded(w), msg, id, creator);
      case Import(g) => ImportElsewhere(e, w.s, g, id);
      case IcsClass(x, uri, data) => ReceivedElsewhere(c, w.s, x, uri, data, id);
      case IcsMint(k, uri, data, receiver) => MintedElsewhere(c, w.s, k, uri, data, receiver, id);
      case IcsTransfer(k, data, receiver) => ReturnedNothingNew(c, w.s, k, data, receiver, id);
      case _ =>
    }
  }

  lemma ReceivedElsewhere(c: Codecs, s: Store, x: Id, uri: bytes, data: bytes, id: Id)
    requires ClassReceived(c, s, x, uri, data).Done? && id in s.classes && id != x
    ensures NothingAdded(s, ClassReceived(c, s, x, uri, data).value, id)
  {
    hide ClassOf;
    BuiltIds(c, Key(x, []), uri, data);
  }

  lemma MintedElsewhere(c: Codecs, s: Store, k: Key, uri: bytes, data: bytes, receiver: Addr, id: Id)
    requires TokenReceived(c, s, k, uri, data, receiver).Done? && id in s.classes && id != k.cls
    ensures NothingAdded(s, TokenReceived(c, s, k, uri, data, receiver).value, id)
  {
    hide TokenOf;
    BuiltIds(c, k, uri, data);
  }

  lemma ReturnedNothingNew(c: Codecs, s: Store, k: Key, data: bytes, receiver: Addr, id: Id)
    requires TokenReturned(c, s, k, data, receiver).Done? && id in s.classes
    ensures NothingAdded(s, TokenReturned(c, s, k, data, receiver).value, id)
  {
    hide TokenOf;
    if k in s.tokens { BuiltIds(c, k, s.tokens[k].uri, data); }
  }

  /** A class that restricts minting gains no token and stays as it is while its creator signs nothing about it and ICS-721 leaves it alone. */
  lemma {:induction false} MintNeedsCreator(e: Env, c: Codecs, w: World, steps: seq<Step>, id: Id, creator: bytes)
    requires Consistent(w.s) && MintRestrictedTo(w.s, id, creator)
    requires forall i | 0 <= i < |steps| :: Outsider(e, steps[i], id, creator)
    ensures Consistent(Run(e, c, w, steps).s) && NothingAdded(w.s, Run(e, c, w, steps).s, id)
  {
    hide After, Consistent, Outsider;
    if steps != [] {
      var init := steps[..|steps| - 1];
      MintNeedsCreator(e, c, w, init, id, creator);
      var w1 := Run(e, c, w, init);
      StepConsistent(e, c, w1, steps[|steps| - 1]);
      StepAdds(e, c, w1, steps[|steps| - 1], id, creator);
    }
  }
}
