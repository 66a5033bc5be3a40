/**
 Runs and exports together: which steps keep a store exportable, which keep it restorable,
 and what export and import then give back. Both questions are asked of every record a step
 writes, so the steps are examined once, for any condition on records.
 */
module NftExports {
  import opened Options
  import opened Wire
  import opened Messages
  import opened NftStore
  import opened Ics721
  import opened CollectionKeeper
  import opened InterNft
  import opened Genesis
  import opened GenesisRoundTrip
  import opened NftRuns
  import Utf8

  type ClassRule = Class -> bool
  type TokenRule = (Key, Token, Addr) -> bool

  /** Every class and every token, with its owner, meets its rule. */
  ghost predicate All(s: Store, p: ClassRule, q: TokenRule)
  {
    && (forall c | c in s.classes :: p(s.classes[c]))
    && (forall k | k in s.tokens :: q(k, s.tokens[k], GetOwner(s, k)))
  }

  // ------------------------------------------------- one write

  lemma TokenReplaced(s: Store, s': Store, k: Key, p: ClassRule, q: TokenRule)
    requires All(s, p, q) && OnlyToken(s, s', k) && k in s.tokens && s'.tokens.Keys == s.tokens.Keys
    ensures k in s'.tokens && (All(s', p, q) <==> q(k, s'.tokens[k], GetOwner(s', k)))
  {
    assert k in s'.tokens.Keys;
    forall x | x in s'.tokens && x != k ensures q(x, s'.tokens[x], GetOwner(s', x)) {
      assert x in s.tokens.Keys;
      assert Untouched(s, s', x);
    }
  }

  lemma TokenAdded(s: Store, s': Store, k: Key, p: ClassRule, q: TokenRule)
    requires OnlyToken(s, s', k) && k !in s.tokens && s'.tokens.Keys == s.tokens.Keys + {k}
    ensures k in s'.tokens && (All(s', p, q) <==> All(s, p, q) && q(k, s'.tokens[k], GetOwner(s', k)))
  {
    assert k in s'.tokens.Keys;
    forall x | x in s.tokens ensures x in s'.tokens && s'.tokens[x] == s.tokens[x] && GetOwner(s', x) == GetOwner(s, x) {
      assert Untouched(s, s', x);
    }
    forall x | x in s'.tokens && x != k ensures x in s.tokens { assert x in s'.tokens.Keys; }
  }

  lemma TokenGone(s: Store, k: Key, p: ClassRule, q: TokenRule)
    requires All(s, p, q) && Burn(s, k).Done?
    ensures All(Burn(s, k).value, p, q)
  {
  }

  lemma ClassWritten(s: Store, cls: Class, p: ClassRule, q: TokenRule)
    requires cls.id in s.classes ==> All(s, p, q)
    ensures All(s.(classes := s.classes[cls.id := cls]), p, q) <==> All(s, p, q) && p(cls)
  {
    var s' := s.(classes := s.classes[cls.id := cls]);
    assert s'.classes[cls.id] == cls;
    if All(s', p, q) {
      forall c | c in s.classes ensures p(s.classes[c]) { if c != cls.id { assert s'.classes[c] == s.classes[c]; } }
    }
  }

  lemma Minting(s: Store, t: Token, receiver: Addr, p: ClassRule, q: TokenRule)
    requires Mint(s, t, receiver).Done?
    ensures All(Mint(s, t, receiver).value, p, q) <==> All(s, p, q) && q(Key(t.classId, t.id), t, receiver)
  {
    hide All;
    var s', k := Mint(s, t, receiver).value, Key(t.classId, t.id);
    assert s'.tokens.Keys == s.tokens.Keys + {k};
    TokenAdded(s, s', k, p, q);
  }

  // ------------------------------------------------- what the operations write

  lemma EditWrites(s: Store, k: Key, ch: Change, owner: Addr)
    requires Filed(s) && NFTUpdated(s, k, ch, owner).Done?
    ensures var s' := NFTUpdated(s, k, ch, owner).value;
            && OnlyToken(s, s', k) && k in s.tokens && s'.tokens.Keys == s.tokens.Keys
            && s'.tokens[k].uri == Modify(s.tokens[k].uri, ch.uri) && GetOwner(s', k) == GetOwner(s, k)
            && (s.tokens[k].data.TokenMeta? ==> s'.tokens[k].data.TokenMeta?)
  {
    hide DenomInfo;
    var s' := NFTUpdated(s, k, ch, owner).value;
    assert s'.tokens.Keys == s.tokens.Keys;
  }

  /** Whether a transfer rewrites the token. */
  predicate Rewrites(t: Token, ch: Change)
  {
    FieldsDiffer(t, ch) || MetaDiffers(t, ch) == Done(true)
  }

  lemma MoveWrites(s: Store, k: Key, ch: Change, src: Addr, dst: Addr)
    requires Filed(s) && OwnershipTransferred(s, k, ch, src, dst).Done?
    ensures var s' := OwnershipTransferred(s, k, ch, src, dst).value;
            && OnlyToken(s, s', k) && k in s.tokens && s'.tokens.Keys == s.tokens.Keys && GetOwner(s', k) == dst
            && s'.tokens[k].uri == (if Rewrites(s.tokens[k], ch) then Modify(s.tokens[k].uri, ch.uri) else s.tokens[k].uri)
            && (s.tokens[k].data.TokenMeta? ==> s'.tokens[k].data.TokenMeta?)
  {
    hide DenomInfo, Modified, Modify, FieldsDiffer, MetaDiffers, TokenChanged, UpdateToken, Transfer, OnlyToken;
    var t := s.tokens[k];
    if Rewrites(t, ch) {
      var t' := TokenChanged(t, ch, MetaDiffers(t, ch).value).value;
      ChangedIs(t, ch, MetaDiffers(t, ch).value);
      assert Key(t'.classId, t'.id) == k;
      var s1 := UpdateToken(s, t').value;
      UpdateWrites(s, t');
      TransferWrites(s1, k, dst);
      OnlyTokenTrans(s, s1, Transfer(s1, k, dst).value, k);
    } else {
      TransferWrites(s, k, dst);
    }
  }

  lemma ChangedIs(t: Token, ch: Change, metaToo: bool)
    requires TokenChanged(t, ch, metaToo).Done?
    ensures var t' := TokenChanged(t, ch, metaToo).value;
            && t'.classId == t.classId && t'.id == t.id && t'.uri == Modify(t.uri, ch.uri)
            && (t.data.TokenMeta? ==> t'.data.TokenMeta?)
  {
  }

  lemma UpdateWrites(s: Store, t: Token)
    requires UpdateToken(s, t).Done?
    ensures var s', k := UpdateToken(s, t).value, Key(t.classId, t.id);
            OnlyToken(s, s', k) && k in s.tokens && s'.tokens.Keys == s.tokens.Keys && s'.tokens[k] == t
  {
    assert UpdateToken(s, t).value.tokens.Keys == s.tokens.Keys;
  }

  lemma TransferWrites(s: Store, k: Key, receiver: Addr)
    requires Transfer(s, k, receiver).Done?
    ensures var s' := Transfer(s, k, receiver).value;
            OnlyToken(s, s', k) && k in s.tokens && s'.tokens == s.tokens && GetOwner(s', k) == receiver
  {
  }

  lemma OnlyTokenTrans(s: Store, s1: Store, s2: Store, k: Key)
    requires OnlyToken(s, s1, k) && OnlyToken(s1, s2, k)
    ensures OnlyToken(s, s2, k)
  {
    forall x | x in s.tokens && x != k ensures Untouched(s, s2, x) {
      assert Untouched(s, s1, x);
      assert Untouched(s1, s2, x);
    }
  }

  lemma BuiltToken(c: Codecs, k: Key, uri: bytes, data: bytes)
    requires TokenOf(c, k.cls, k.token, uri, data).Done?
    ensures var t := TokenOf(c, k.cls, k.token, uri, data).value;
            t.classId == k.cls && t.id == k.token && t.uri == uri && t.data.TokenMeta?
  {
  }

  lemma ReturnWrites(c: Codecs, s: Store, k: Key, data: bytes, receiver: Addr)
    requires TokenReturned(c, s, k, data, receiver).Done?
    ensures var s' := TokenReturned(c, s, k, data, receiver).value;
            && OnlyToken(s, s', k) && k in s.tokens && s'.tokens.Keys == s.tokens.Keys && GetOwner(s', k) == receiver
            && s'.tokens[k].uri == s.tokens[k].uri
            && (s.tokens[k].data.TokenMeta? ==> s'.tokens[k].data.TokenMeta?)
  {
    hide TokenOf;
    var s' := TokenReturned(c, s, k, data, receiver).value;
    if data != [] { BuiltToken(c, k, s.tokens[k].uri, data); }
    assert s'.tokens.Keys == s.tokens.Keys;
  }

  /** The class an ICS-721 packet describes. */
  function PacketClass(c: Codecs, id: Id, uri: bytes, data: bytes): Outcome<Class>
  {
    if data != [] then ClassOf(c, id, uri, data) else Done(BareClass(c, id, uri))
  }

  lemma PacketClassIs(c: Codecs, id: Id, uri: bytes, data: bytes)
    requires PacketClass(c, id, uri, data).Done?
    ensures var cls := PacketClass(c, id, uri, data).value;
            cls.id == id && cls.data.ClassMeta? && DenomBoundsOk(cls.data.meta.schema, cls.data.meta.data)
  {
  }

  lemma ReceivesClass(c: Codecs, s: Store, id: Id, uri: bytes, data: bytes, p: ClassRule, q: TokenRule)
    requires All(s, p, q) && ClassReceived(c, s, id, uri, data).Done?
    ensures PacketClass(c, id, uri, data).Done?
    ensures All(ClassReceived(c, s, id, uri, data).value, p, q) <==> p(PacketClass(c, id, uri, data).value)
  {
    hide ClassOf, BareClass, All;
    var cls := PacketClass(c, id, uri, data).value;
    PacketClassIs(c, id, uri, data);
    ClassWritten(s, cls, p, q);
  }

  // ------------------------------------------------- imports

  /** Every record a genesis brings meets its rule. */
  ghost predicate Brings(e: Env, cs: seq<Collection>, p: ClassRule, q: TokenRule)
  {
    forall i | 0 <= i < |cs| :: p(ClassFrom(e, cs[i].denom)) && BringsTokens(e, cs[i].denom.id, cs[i].nfts, q)
  }

  ghost predicate BringsTokens(e: Env, c: Id, nfts: seq<BaseNFT>, q: TokenRule)
  {
    forall j | 0 <= j < |nfts| ::
      e.parseAddr(nfts[j].owner).Some? && q(Key(c, nfts[j].id), TokenFrom(c, nfts[j]), e.parseAddr(nfts[j].owner).value)
  }

  lemma BringsTokensSnoc(e: Env, c: Id, init: seq<BaseNFT>, n: BaseNFT, q: TokenRule)
    requires e.parseAddr(n.owner).Some?
    ensures BringsTokens(e, c, init + [n], q)
            <==> BringsTokens(e, c, init, q) && q(Key(c, n.id), TokenFrom(c, n), e.parseAddr(n.owner).value)
  {
    var nfts := init + [n];
    assert forall j | 0 <= j < |init| :: nfts[j] == init[j];
    assert nfts[|init|] == n;
    if BringsTokens(e, c, nfts, q) {
      forall j | 0 <= j < |init|
        ensures e.parseAddr(init[j].owner).Some? && q(Key(c, init[j].id), TokenFrom(c, init[j]), e.parseAddr(init[j].owner).value)
      { assert nfts[j] == init[j]; }
    }
  }

  lemma {:induction false} TokensBring(e: Env, s: Store, c: Id, nfts: seq<BaseNFT>, p: ClassRule, q: TokenRule)
    requires TokensImported(e, s, c, nfts).Done?
    ensures All(TokensImported(e, s, c, nfts).value, p, q) <==> All(s, p, q) && BringsTokens(e, c, nfts, q)
  {
    hide All, Mint;
    if nfts == [] {
    } else {
      hide BringsTokens;
      var init, n := nfts[..|nfts| - 1], nfts[|nfts| - 1];
      assert nfts == init + [n];
      TokensBring(e, s, c, init, p, q);
      Minting(TokensImported(e, s, c, init).value, TokenFrom(c, n), e.parseAddr(n.owner).value, p, q);
      BringsTokensSnoc(e, c, init, n, q);
    }
  }

  lemma CollectionBrings(e: Env, s: Store, c: Collection, p: ClassRule, q: TokenRule)
    requires e.Lawful() && CollectionImported(e, s, c).Done?
    ensures All(CollectionImported(e, s, c).value, p, q)
            <==> All(s, p, q) && p(ClassFrom(e, c.denom)) && BringsTokens(e, c.denom.id, c.nfts, q)
  {
    hide All, TokensImported, BringsTokens;
    var cls := ClassFrom(e, c.denom);
    var s1 := s.(classes := s.classes[cls.id := cls]);
    ClassWritten(s, cls, p, q);
    TokensBring(e, s1, c.denom.id, c.nfts, p, q);
  }

  lemma {:induction false} ImportBrings(e: Env, s: Store, cs: seq<Collection>, p: ClassRule, q: TokenRule)
    requires e.Lawful() && CollectionsImported(e, s, cs).Done?
    ensures All(CollectionsImported(e, s, cs).value, p, q) <==> All(s, p, q) && Brings(e, cs, p, q)
  {
    hide All, CollectionImported, Env.Lawful, BringsTokens;
    if cs != [] {
      var init, last := cs[..|cs| - 1], cs[|cs| - 1];
      assert cs == init + [last];
      ImportBrings(e, s, init, p, q);
      CollectionBrings(e, CollectionsImported(e, s, init).value, last, p, q);
      assert forall i | 0 <= i < |init| :: cs[i] == init[i];
    }
  }

  // ------------------------------------------------- one step, any rules

  ghost predicate TokenMeets(s: Store, k: Key, q: TokenRule)
  {
    k in s.tokens && q(k, s.tokens[k], GetOwner(s, k))
  }

  ghost predicate ClassMeets(s: Store, c: Id, p: ClassRule)
  {
    c in s.classes && p(s.classes[c])
  }

  /** The records the step has written in `s` meet their rules. */
  ghost predicate Met(e: Env, step: Step, s: Store, p: ClassRule, q: TokenRule)
  {
    match step
    case Message(msg) => MsgMet(msg, s, p, q)
    case IcsClass(id, _, _) => ClassMeets(s, id, p)
    case IcsMint(k, _, _, _) => TokenMeets(s, k, q)
    case IcsTransfer(k, _, _) => TokenMeets(s, k, q)
    case Import(g) => Brings(e, g, p, q)
    case _ => true
  }

  ghost predicate MsgMet(msg: Msg, s: Store, p: ClassRule, q: TokenRule)
  {
    match msg
    case IssueDenom(d, _) => ClassMeets(s, d.id, p)
    case MintNFT(k, _, _, _, _, _, _) => TokenMeets(s, k, q)
    case EditNFT(k, _, _) => TokenMeets(s, k, q)
    case TransferNFT(k, _, _, _) => TokenMeets(s, k, q)
    case BurnNFT(_, _) => true
    case TransferDenom(id, _, _) => ClassMeets(s, id, p)
  }

  lemma IssueMeets(e: Env, s: Store, d: Denom, creator: Addr, p: ClassRule, q: TokenRule)
    requires All(s, p, q) && DenomSaved(e, s, d, creator).Done?
    ensures var s' := DenomSaved(e, s, d, creator).value; All(s', p, q) <==> ClassMeets(s', d.id, p)
  {
    hide All;
    ClassWritten(s, DenomSaved(e, s, d, creator).value.classes[d.id], p, q);
  }

  lemma DenomMoveMeets(e: Env, s: Store, id: Id, src: Addr, dst: Addr, p: ClassRule, q: TokenRule)
    requires Filed(s) && All(s, p, q) && DenomTransferred(e, s, id, src, dst).Done?
    ensures var s' := DenomTransferred(e, s, id, src, dst).value; All(s', p, q) <==> ClassMeets(s', id, p)
  {
    hide All;
    ClassWritten(s, DenomTransferred(e, s, id, src, dst).value.classes[id], p, q);
  }

  lemma MsgMeets(e: Env, s: Store, guarded: set<Key>, msg: Msg, p: ClassRule, q: TokenRule)
    requires Filed(s) && All(s, p, q) && AfterMsg(e, s, guarded, msg).Done?
    ensures var s' := AfterMsg(e, s, guarded, msg).value; All(s', p, q) <==> MsgMet(msg, s', p, q)
  {
    hide All, Filed, DenomSaved, NFTUpdated, OwnershipTransferred, DenomTransferred, Mint, Burn, DenomInfo, OnlyToken;
    var s', sender := AfterMsg(e, s, guarded, msg).value, e.parseAddr(msg.sender).value;
    match msg
    case IssueDenom(d, _) => IssueMeets(e, s, d, sender, p, q);
    case MintNFT(k, name, uri, uriHash, data, _, to) =>
      var t := Token(k.cls, k.token, uri, uriHash, TokenMeta(NFTMetadata(name, data)));
      Minting(s, t, e.parseAddr(to).value, p, q);
      MintedAt(s, t, e.parseAddr(to).value);
    case EditNFT(k, ch, _) =>
      EditWrites(s, k, ch, sender);
      TokenReplaced(s, s', k, p, q);
    case TransferNFT(k, ch, _, to) =>
      MoveWrites(s, k, ch, sender, e.parseAddr(to).value);
      TokenReplaced(s, s', k, p, q);
    case BurnNFT(k, _) => TokenGone(s, k, p, q);
    case TransferDenom(id, _, to) => DenomMoveMeets(e, s, id, sender, e.parseAddr(to).value, p, q);
  }

  lemma MintedAt(s: Store, t: Token, receiver: Addr)
    requires Mint(s, t, receiver).Done?
    ensures var s', k := Mint(s, t, receiver).value, Key(t.classId, t.id);
            k in s'.tokens && s'.tokens[k] == t && GetOwner(s', k) == receiver
  {
  }

  /** From a store whose records meet their rules, a step leads to one exactly when the records it writes do. */
  lemma StepMeets(e: Env, c: Codecs, w: World, step: Step, p: ClassRule, q: TokenRule)
    requires e.Lawful() && Filed(w.s) && All(w.s, p, q) && Asked(e, c, w, step).Done?
    ensures var s' := Asked(e, c, w, step).value; All(s', p, q) <==> Met(e, step, s', p, q)
  {
    hide All, Filed, AfterMsg, ClassReceived, TokenReturned, CollectionsImported, Brings, MsgMet, Mint, Burn, ClassOf, TokenOf, BareClass, Env.Lawful;
    var s, s' := w.s, Asked(e, c, w, step).value;
    match step
    case Message(msg) => MsgMeets(e, s, Guarded(w), msg, p, q);
    case IcsClass(id, uri, data) =>
      ReceivesClass(c, s, id, uri, data, p, q);
      ReceivedAt(c, s, id, uri, data);
    case IcsMint(k, uri, data, receiver) =>
      var t := TokenOf(c, k.cls, k.token, uri, data).value;
      BuiltToken(c, k, uri, data);
      Minting(s, t, receiver, p, q);
      MintedAt(s, t, receiver);
    case IcsTransfer(k, data, receiver) =>
      ReturnWrites(c, s, k, data, receiver);
      TokenReplaced(s, s', k, p, q);
    case IcsBurn(k) => if k in s.tokens { TokenGone(s, k, p, q); }
    case Import(g) => ImportBrings(e, s, g, p, q);
    case _ =>
  }

  lemma ReceivedAt(c: Codecs, s: Store, id: Id, uri: bytes, data: bytes)
    requires ClassReceived(c, s, id, uri, data).Done?
    ensures PacketClass(c, id, uri, data).Done?
    ensures var s' := ClassReceived(c, s, id, uri, data).value;
            id in s'.classes && s'.classes[id] == PacketClass(c, id, uri, data).value
  {
    hide ClassOf, BareClass;
    PacketClassIs(c, id, uri, data);
  }

  // ------------------------------------------------- exportable stores

  function CreatorText(cls: Class): bytes
  {
    var meta := ClassMetaRead(cls);
    if meta.Done? then meta.value.creator else []
  }

  ghost predicate CreatorOk(e: Env, creator: bytes)
  {
    creator == [] || e.parseAddr(creator).Some?
  }

  ghost predicate GoodClass(e: Env, cls: Class)
  {
    cls.id != [] && e.denomIdOk(cls.id) && CreatorOk(e, CreatorText(cls))
  }

  ghost predicate GoodToken(e: Env, k: Key, t: Token, owner: Addr)
  {
    TokenIdOk(k.cls, k.token) && e.uriOk(t.uri) && e.parseAddr(e.printAddr(owner)).Some?
  }

  ghost predicate AllGood(e: Env, s: Store)
  {
    All(s, cls => GoodClass(e, cls), (k, t, owner) => GoodToken(e, k, t, owner))
  }

  lemma ExportableIsAllGood(e: Env, s: Store)
    requires Filed(s)
    ensures Exportable(e, s) <==> AllGood(e, s)
  {
    hide TokenIdOk;
    if Exportable(e, s) {
      forall c | c in s.classes ensures GoodClass(e, s.classes[c]) { assert ClassExportable(e, s, c); }
      forall k | k in s.tokens ensures GoodToken(e, k, s.tokens[k], GetOwner(s, k)) {
        assert ClassExportable(e, s, k.cls);
        assert Key(k.cls, k.token) == k;
        assert TokenExportable(e, s, Key(k.cls, k.token));
      }
    }
    if AllGood(e, s) {
      forall c | c in s.classes ensures ClassExportable(e, s, c) {
        assert GoodClass(e, s.classes[c]);
        forall t | Key(c, t) in s.tokens ensures TokenExportable(e, s, Key(c, t)) {
          assert GoodToken(e, Key(c, t), s.tokens[Key(c, t)], GetOwner(s, Key(c, t)));
        }
      }
    }
  }

  /** What a step must be given for the export to stay valid; most of it is what the messages' own checks ask. */
  ghost predicate Admissible(e: Env, c: Codecs, s: Store, step: Step)
  {
    match step
    case Message(msg) => AdmissibleMsg(e, s, msg)
    case IcsClass(id, uri, data) =>
      var cls := PacketClass(c, id, uri, data);
      id != [] && e.denomIdOk(id) && (cls.Done? ==> CreatorOk(e, CreatorText(cls.value)))
    case IcsMint(k, uri, _, receiver) => TokenIdOk(k.cls, k.token) && e.uriOk(uri) && e.parseAddr(e.printAddr(receiver)).Some?
    case IcsTransfer(k, _, receiver) => e.parseAddr(e.printAddr(receiver)).Some?
    case _ => true
  }

  ghost predicate AdmissibleMsg(e: Env, s: Store, msg: Msg)
  {
    match msg
    case IssueDenom(d, _) => d.id != []
    case MintNFT(k, _, uri, _, _, _, _) => TokenIdOk(k.cls, k.token) && e.uriOk(uri)
    case EditNFT(k, ch, _) => k in s.tokens ==> e.uriOk(Modify(s.tokens[k].uri, ch.uri))
    case TransferNFT(k, ch, _, _) =>
      k in s.tokens && Rewrites(s.tokens[k], ch) ==> e.uriOk(Modify(s.tokens[k].uri, ch.uri))
    case BurnNFT(_, _) => true
    case TransferDenom(_, _, _) => true
  }

  lemma MsgAdmissible(e: Env, s: Store, guarded: set<Key>, msg: Msg)
    requires e.Lawful() && Filed(s) && AllGood(e, s) && AfterMsg(e, s, guarded, msg).Done?
    ensures var s' := AfterMsg(e, s, guarded, msg).value;
            MsgMet(msg, s', cls => GoodClass(e, cls), (k, t, owner) => GoodToken(e, k, t, owner)) <==> AdmissibleMsg(e, s, msg)
  {
    hide Filed, NFTUpdated, OwnershipTransferred, Mint, Burn, OnlyToken, TokenIdOk, Modify, Rewrites;
    var s', sender := AfterMsg(e, s, guarded, msg).value, e.parseAddr(msg.sender).value;
    match msg
    case IssueDenom(d, _) =>
    case MintNFT(k, name, uri, uriHash, data, _, to) =>
      MintedAt(s, Token(k.cls, k.token, uri, uriHash, TokenMeta(NFTMetadata(name, data))), e.parseAddr(to).value);
    case EditNFT(k, ch, _) => EditWrites(s, k, ch, sender);
    case TransferNFT(k, ch, _, to) => MoveWrites(s, k, ch, sender, e.parseAddr(to).value);
    case BurnNFT(k, _) =>
    case TransferDenom(id, _, to) => DenomMoveGood(e, s, id, sender, e.parseAddr(to).value);
  }

  lemma DenomMoveGood(e: Env, s: Store, id: Id, src: Addr, dst: Addr)
    requires Filed(s) && AllGood(e, s) && DenomTransferred(e, s, id, src, dst).Done? && e.parseAddr(e.printAddr(dst)).Some?
    ensures ClassMeets(DenomTransferred(e, s, id, src, dst).value, id, cls => GoodClass(e, cls))
  {
    assert GoodClass(e, s.classes[id]);
  }

  /** A valid genesis brings good records only. */
  lemma ImportAdmissible(e: Env, g: seq<Collection>)
    requires e.Lawful() && GenesisOk(e, g)
    ensures Brings(e, g, cls => GoodClass(e, cls), (k, t, owner) => GoodToken(e, k, t, owner))
  {
    hide TokenIdOk;
    forall i | 0 <= i < |g|
      ensures GoodClass(e, ClassFrom(e, g[i].denom))
      ensures BringsTokens(e, g[i].denom.id, g[i].nfts, (k, t, owner) => GoodToken(e, k, t, owner))
    {
      assert CollectionOk(e, g[i]);
    }
  }

  /** A step that is carried out leaves an exportable store exportable exactly when it is admissible. */
  lemma ExportableStep(e: Env, c: Codecs, w: World, step: Step)
    requires e.Lawful() && Consistent(w.s) && Exportable(e, w.s)
    ensures Exportable(e, After(e, c, w, step).s) <==> (Asked(e, c, w, step).Done? ==> Admissible(e, c, w.s, step))
  {
    hide Exportable, AllGood, All, Owned, Counted, Filed, Asked, AfterMsg;
    StepConsistent(e, c, w, step);
    ExportableIsAllGood(e, w.s);
    ExportableIsAllGood(e, After(e, c, w, step).s);
    if Asked(e, c, w, step).Done? { StepAdmissible(e, c, w, step); }
  }

  lemma StepAdmissible(e: Env, c: Codecs, w: World, step: Step)
    requires e.Lawful() && Filed(w.s) && AllGood(e, w.s) && Asked(e, c, w, step).Done?
    ensures AllGood(e, Asked(e, c, w, step).value) <==> Admissible(e, c, w.s, step)
  {
    hide All, Filed, AfterMsg, ClassReceived, TokenReturned, CollectionsImported, Brings, MsgMet, AdmissibleMsg, Mint, Burn, ClassOf, TokenOf, BareClass, Env.Lawful, TokenIdOk, GenesisOk;
    var s, s' := w.s, Asked(e, c, w, step).value;
    StepMeets(e, c, w, step, cls => GoodClass(e, cls), (k, t, owner) => GoodToken(e, k, t, owner));
    match step
    case Message(msg) => MsgAdmissible(e, s, Guarded(w), msg);
    case IcsClass(id, uri, data) =>
      ReceivedAt(c, s, id, uri, data);
      PacketClassIs(c, id, uri, data);
    case IcsMint(k, uri, data, receiver) =>
      BuiltToken(c, k, uri, data);
      MintedAt(s, TokenOf(c, k.cls, k.token, uri, data).value, receiver);
    case IcsTransfer(k, data, receiver) =>
      ReturnWrites(c, s, k, data, receiver);
      GoodAt(e, s, k);
    case Import(g) => ImportAdmissible(e, g);
    case _ =>
  }

  lemma GoodAt(e: Env, s: Store, k: Key)
    requires AllGood(e, s) && k in s.tokens
    ensures GoodToken(e, k, s.tokens[k], GetOwner(s, k))
  {
  }

  // ------------------------------------------------- restorable stores

  /** Schema and data within their bounds and well-formed. */
  predicate TextsFit(schema: bytes, data: bytes)
  {
    DenomBoundsOk(schema, data) && Utf8.Valid(schema) && Utf8.Valid(data)
  }

  ghost predicate WholeClass(e: Env, cls: Class)
  {
    cls.data.ClassMeta? && Reprint(e, cls.data.meta.creator) == cls.data.meta.creator
    && TextsFit(cls.data.meta.schema, cls.data.meta.data)
  }

  ghost predicate WholeToken(e: Env, t: Token, owner: Addr)
  {
    t.data.TokenMeta? && e.parseAddr(e.printAddr(owner)) == Some(owner)
  }

  ghost predicate AllWhole(e: Env, s: Store)
  {
    All(s, cls => WholeClass(e, cls), (k, t, owner) => WholeToken(e, t, owner))
  }

  lemma NoBoundsIssue(d: Denom)
    ensures BoundsIssue(d) == [] <==> TextsFit(d.schema, d.data)
  {
    hide Utf8.Clamped, Utf8.Valid;
    Utf8.ClampedFits(d.schema, MAX_DENOM_SCHEMA_LEN);
    Utf8.ClampedFits(d.data, MAX_DENOM_DATA_LEN);
  }

  lemma WholeClassIs(e: Env, order: Order, s: Store, c: Id)
    requires Orderly(order) && Consistent(s) && c in s.classes
    ensures IssuesOf(order, s, c) == [] && ClassSurvives(e, s, c) <==> WholeClass(e, s.classes[c])
  {
    hide Counted, Owned, TextsFit, BoundsIssue, SupplyIssue, TokenIds, Reprint;
    NoBoundsIssue(RawDenom(s, c));
    NoSupplyIssue(order, s, c);
  }

  lemma LosslessIsAllWhole(e: Env, order: Order, s: Store)
    requires Orderly(order) && Consistent(s)
    ensures Lossless(e, order, s) <==> AllWhole(e, s)
  {
    hide Consistent, IssuesOf, ClassSurvives, WholeClass;
    var ids := order(s.classes.Keys);
    forall c | c in s.classes ensures IssuesOf(order, s, c) == [] && ClassSurvives(e, s, c) <==> WholeClass(e, s.classes[c]) {
      WholeClassIs(e, order, s, c);
    }
    if Lossless(e, order, s) {
      forall c | c in s.classes ensures WholeClass(e, s.classes[c]) { NoIssuesAt(order, s, ids, c); }
      forall k | k in s.tokens ensures WholeToken(e, s.tokens[k], GetOwner(s, k)) { assert TokenSurvives(e, s, k); }
    }
    if AllWhole(e, s) {
      NoIssues(order, s, ids);
      forall k | k in s.tokens ensures TokenSurvives(e, s, k) { assert WholeToken(e, s.tokens[k], GetOwner(s, k)); }
    }
  }

  /** What a step must be given for export and import to keep restoring the store. */
  ghost predicate Restorable(e: Env, c: Codecs, step: Step)
  {
    match step
    case Message(IssueDenom(d, _)) => Utf8.Valid(d.schema) && Utf8.Valid(d.data)
    case IcsClass(id, uri, data) =>
      var cls := PacketClass(c, id, uri, data);
      cls.Done? && cls.value.data.ClassMeta? ==>
        var meta := cls.value.data.meta;
        Reprint(e, meta.creator) == meta.creator && Utf8.Valid(meta.schema) && Utf8.Valid(meta.data)
    case IcsMint(_, _, _, receiver) => e.parseAddr(e.printAddr(receiver)) == Some(receiver)
    case IcsTransfer(_, _, receiver) => e.parseAddr(e.printAddr(receiver)) == Some(receiver)
    case Import(g) => forall i | 0 <= i < |g| :: Utf8.Valid(g[i].denom.schema) && Utf8.Valid(g[i].denom.data)
    case _ => true
  }

  lemma MsgRestorable(e: Env, c: Codecs, s: Store, guarded: set<Key>, msg: Msg)
    requires e.Lawful() && Filed(s) && AllWhole(e, s) && AfterMsg(e, s, guarded, msg).Done?
    ensures var s' := AfterMsg(e, s, guarded, msg).value;
            MsgMet(msg, s', cls => WholeClass(e, cls), (k, t, owner) => WholeToken(e, t, owner)) <==> Restorable(e, c, Message(msg))
  {
    hide Filed, NFTUpdated, OwnershipTransferred, Mint, Burn, OnlyToken, Modify, Rewrites, Utf8.Valid;
    var s', sender := AfterMsg(e, s, guarded, msg).value, e.parseAddr(msg.sender).value;
    match msg
    case IssueDenom(d, _) =>
    case MintNFT(k, name, uri, uriHash, data, _, to) =>
      MintedAt(s, Token(k.cls, k.token, uri, uriHash, TokenMeta(NFTMetadata(name, data))), e.parseAddr(to).value);
    case EditNFT(k, ch, _) =>
      EditWrites(s, k, ch, sender);
      WholeAt(e, s, k);
    case TransferNFT(k, ch, _, to) =>
      MoveWrites(s, k, ch, sender, e.parseAddr(to).value);
      WholeAt(e, s, k);
    case BurnNFT(k, _) =>
    case TransferDenom(id, _, to) => DenomMoveWhole(e, s, id, sender, e.parseAddr(to).value);
  }

  lemma WholeAt(e: Env, s: Store, k: Key)
    requires AllWhole(e, s) && k in s.tokens
    ensures WholeToken(e, s.tokens[k], GetOwner(s, k))
  {
  }

  lemma DenomMoveWhole(e: Env, s: Store, id: Id, src: Addr, dst: Addr)
    requires Filed(s) && AllWhole(e, s) && DenomTransferred(e, s, id, src, dst).Done?
    requires e.parseAddr(e.printAddr(dst)) == Some(dst)
    ensures ClassMeets(DenomTransferred(e, s, id, src, dst).value, id, cls => WholeClass(e, cls))
  {
    hide TextsFit;
    assert WholeClass(e, s.classes[id]);
  }

  lemma ImportRestorable(e: Env, c: Codecs, g: seq<Collection>)
    requires e.Lawful() && GenesisOk(e, g)
    ensures Brings(e, g, cls => WholeClass(e, cls), (k, t, owner) => WholeToken(e, t, owner)) <==> Restorable(e, c, Import(g))
  {
    hide Utf8.Valid;
    var p: ClassRule, q: TokenRule := cls => WholeClass(e, cls), (k, t, owner) => WholeToken(e, t, owner);
    forall i | 0 <= i < |g|
      ensures BringsTokens(e, g[i].denom.id, g[i].nfts, q)
      ensures WholeClass(e, ClassFrom(e, g[i].denom)) <==> Utf8.Valid(g[i].denom.schema) && Utf8.Valid(g[i].denom.data)
    {
      assert CollectionOk(e, g[i]);
    }
    if Brings(e, g, p, q) {
      forall i | 0 <= i < |g| ensures Utf8.Valid(g[i].denom.schema) && Utf8.Valid(g[i].denom.data) {
        assert p(ClassFrom(e, g[i].denom));
      }
    }
  }

  lemma StepRestorable(e: Env, c: Codecs, w: World, step: Step)
    requires e.Lawful() && Filed(w.s) && AllWhole(e, w.s) && Asked(e, c, w, step).Done?
    ensures AllWhole(e, Asked(e, c, w, step).value) <==> Restorable(e, c, step)
  {
    hide All, Filed, AfterMsg, ClassReceived, TokenReturned, CollectionsImported, Brings, MsgMet, Mint, Burn, ClassOf, TokenOf, BareClass, Env.Lawful, GenesisOk, Utf8.Valid;
    var s, s' := w.s, Asked(e, c, w, step).value;
    StepMeets(e, c, w, step, cls => WholeClass(e, cls), (k, t, owner) => WholeToken(e, t, owner));
    match step
    case Message(msg) => MsgRestorable(e, c, s, Guarded(w), msg);
    case IcsClass(id, uri, data) =>
      ReceivedAt(c, s, id, uri, data);
      PacketClassIs(c, id, uri, data);
    case IcsMint(k, uri, data, receiver) =>
      BuiltToken(c, k, uri, data);
      MintedAt(s, TokenOf(c, k.cls, k.token, uri, data).value, receiver);
    case IcsTransfer(k, data, receiver) =>
      ReturnWrites(c, s, k, data, receiver);
      WholeAt(e, s, k);
    case Import(g) => ImportRestorable(e, c, g);
    case _ =>
  }

  /** A step that is carried out leaves a lossless store lossless exactly when it is restorable. */
  lemma LosslessStep(e: Env, c: Codecs, order: Order, w: World, step: Step)
    requires e.Lawful() && Orderly(order) && Lossless(e, order, w.s)
    ensures Lossless(e, order, After(e, c, w, step).s) <==> (Asked(e, c, w, step).Done? ==> Restorable(e, c, step))
  {
    hide AllWhole, All, Owned, Counted, Filed, Asked, AfterMsg, Restorable, Reported;
    StepConsistent(e, c, w, step);
    LosslessIsAllWhole(e, order, w.s);
    LosslessIsAllWhole(e, order, After(e, c, w, step).s);
    if Asked(e, c, w, step).Done? { StepRestorable(e, c, w, step); }
  }

  // ------------------------------------------------- whole runs

  /** Whatever the run carries out is admissible where it is carried out. */
  ghost predicate AdmissibleRun(e: Env, c: Codecs, steps: seq<Step>)
  {
    forall i | 0 <= i < |steps| :: AdmissibleAt(e, c, Run(e, c, START, steps[..i]), steps[i])
  }

  ghost predicate AdmissibleAt(e: Env, c: Codecs, w: World, step: Step)
  {
    Asked(e, c, w, step).Done? ==> Admissible(e, c, w.s, step)
  }

  ghost predicate RestorableRun(e: Env, c: Codecs, steps: seq<Step>)
  {
    forall i | 0 <= i < |steps| :: RestorableAt(e, c, Run(e, c, START, steps[..i]), steps[i])
  }

  ghost predicate RestorableAt(e: Env, c: Codecs, w: World, step: Step)
  {
    Asked(e, c, w, step).Done? ==> Restorable(e, c, step)
  }

  /** The store has been exportable all along. */
  ghost predicate AlwaysExportable(e: Env, c: Codecs, steps: seq<Step>)
  {
    forall i | 0 <= i <= |steps| :: Exportable(e, Run(e, c, START, steps[..i]).s)
  }

  ghost predicate AlwaysLossless(e: Env, c: Codecs, order: Order, steps: seq<Step>)
    requires Orderly(order)
  {
    forall i | 0 <= i <= |steps| :: Lossless(e, order, Run(e, c, START, steps[..i]).s)
  }

  lemma RunPrefix(e: Env, c: Codecs, steps: seq<Step>, i: nat)
    requires i < |steps|
    ensures Run(e, c, START, steps[..i + 1]) == After(e, c, Run(e, c, START, steps[..i]), steps[i])
  {
    hide After;
    assert steps[..i + 1][..i] == steps[..i];
  }

  /** Over every run from an empty store: each export along the way validates exactly when each step is admissible. */
  lemma ExportableRuns(e: Env, c: Codecs, steps: seq<Step>)
    requires e.Lawful()
    ensures AlwaysExportable(e, c, steps) <==> AdmissibleRun(e, c, steps)
  {
    hide Exportable, AdmissibleAt, Run;
    if AlwaysExportable(e, c, steps) {
      forall i | 0 <= i < |steps| ensures AdmissibleAt(e, c, Run(e, c, START, steps[..i]), steps[i]) {
        ExportableNext(e, c, steps, i);
      }
    }
    if AdmissibleRun(e, c, steps) {
      forall i | 0 <= i <= |steps| ensures Exportable(e, Run(e, c, START, steps[..i]).s) { ExportableUpTo(e, c, steps, i); }
    }
  }

  lemma ExportableNext(e: Env, c: Codecs, steps: seq<Step>, i: nat)
    requires e.Lawful() && i < |steps| && Exportable(e, Run(e, c, START, steps[..i]).s)
    ensures Exportable(e, Run(e, c, START, steps[..i + 1]).s) <==> AdmissibleAt(e, c, Run(e, c, START, steps[..i]), steps[i])
  {
    hide Exportable, Run, After, Admissible, Asked, Consistent;
    RunPrefix(e, c, steps, i);
    RunConsistent(e, c, steps[..i]);
    ExportableStep(e, c, Run(e, c, START, steps[..i]), steps[i]);
  }

  lemma {:induction false} ExportableUpTo(e: Env, c: Codecs, steps: seq<Step>, i: nat)
    requires e.Lawful() && AdmissibleRun(e, c, steps) && i <= |steps|
    ensures Exportable(e, Run(e, c, START, steps[..i]).s)
  {
    hide AdmissibleAt;
    if i > 0 {
      ExportableUpTo(e, c, steps, i - 1);
      ExportableNext(e, c, steps, i - 1);
    }
  }

  /** Likewise: nothing would be lost along the way exactly when each step is restorable. */
  lemma LosslessRuns(e: Env, c: Codecs, order: Order, steps: seq<Step>)
    requires e.Lawful() && Orderly(order)
    ensures AlwaysLossless(e, c, order, steps) <==> RestorableRun(e, c, steps)
  {
    hide Lossless, RestorableAt, Run;
    if AlwaysLossless(e, c, order, steps) {
      forall i | 0 <= i < |steps| ensures RestorableAt(e, c, Run(e, c, START, steps[..i]), steps[i]) {
        LosslessNext(e, c, order, steps, i);
      }
    }
    if RestorableRun(e, c, steps) {
      forall i | 0 <= i <= |steps| ensures Lossless(e, order, Run(e, c, START, steps[..i]).s) {
        LosslessUpTo(e, c, order, steps, i);
      }
    }
  }

  lemma LosslessNext(e: Env, c: Codecs, order: Order, steps: seq<Step>, i: nat)
    requires e.Lawful() && Orderly(order) && i < |steps| && Lossless(e, order, Run(e, c, START, steps[..i]).s)
    ensures Lossless(e, order, Run(e, c, START, steps[..i + 1]).s) <==> RestorableAt(e, c, Run(e, c, START, steps[..i]), steps[i])
  {
    hide Lossless, Run, After, Restorable, Asked;
    RunPrefix(e, c, steps, i);
    LosslessStep(e, c, order, Run(e, c, START, steps[..i]), steps[i]);
  }

  lemma {:induction false} LosslessUpTo(e: Env, c: Codecs, order: Order, steps: seq<Step>, i: nat)
    requires e.Lawful() && Orderly(order) && RestorableRun(e, c, steps) && i <= |steps|
    ensures Lossless(e, order, Run(e, c, START, steps[..i]).s)
  {
    hide RestorableAt, Lossless;
    if i == 0 {
      EmptyConsistent();
      LosslessIsAllWhole(e, order, EMPTY_STORE);
    } else {
      LosslessUpTo(e, c, order, steps, i - 1);
      LosslessNext(e, c, order, steps, i - 1);
    }
  }

  /** After a run of such steps, exporting and importing gives the very store back. */
  lemma RunsRestore(e: Env, c: Codecs, order: Order, steps: seq<Step>)
    requires e.Lawful() && Orderly(order) && AdmissibleRun(e, c, steps) && RestorableRun(e, c, steps)
    ensures var s := Run(e, c, START, steps).s;
            var r := CollectionsImported(e, EMPTY_STORE, Exported(e, order, s));
            GenesisOk(e, Exported(e, order, s)) && r.Done? && SameStore(r.value, s)
  {
    hide Exportable, Lossless, Run, AdmissibleRun, RestorableRun, SameStore, Exported, GenesisOk, Owned, Counted;
    assert steps[..|steps|] == steps;
    ExportableUpTo(e, c, steps, |steps|);
    LosslessUpTo(e, c, order, steps, |steps|);
    RunConsistent(e, c, steps);
    ExportValidates(e, order, Run(e, c, START, steps).s);
    RestoresExactly(e, order, Run(e, c, START, steps).s);
  }
}
