/**
 Whole runs of the NFT modules: messages, ICS-721 callbacks, genesis imports, and the
 bookkeeping of contract-bound tokens, in any order. A refused step leaves no trace.
 */
module NftRuns {
  import opened Options
  import opened Wire
  import opened Messages
  import opened NftStore
  import opened Ics721
  import opened CollectionKeeper
  import opened InterNft
  import opened Genesis
  import opened GenesisRoundTrip

  datatype World = World(s: Store, bound: set<Key>, wired: bool)

  datatype Step =
    | Message(msg: Msg)
    | IcsClass(id: Id, uri: bytes, data: bytes)
    | IcsMint(key: Key, uri: bytes, data: bytes, receiver: Addr)
    | IcsTransfer(key: Key, data: bytes, receiver: Addr)
    | IcsBurn(key: Key)
    | Import(genesis: seq<Collection>)
    | Bind(key: Key)
    | Unbind(key: Key)
    | Wire

  const START := World(EMPTY_STORE, {}, false)

  function Guarded(w: World): set<Key>
  {
    if w.wired then w.bound else {}
  }

  /** What a step asks of the store. */
  ghost function Asked(e: Env, c: Codecs, w: World, step: Step): Outcome<Store>
  {
    match step
    case Message(msg) => AfterMsg(e, w.s, Guarded(w), msg)
    case IcsClass(id, uri, data) => ClassReceived(c, w.s, id, uri, data)
    case IcsMint(k, uri, data, receiver) => TokenReceived(c, w.s, k, uri, data, receiver)
    case IcsTransfer(k, data, receiver) => TokenReturned(c, w.s, k, data, receiver)
    case IcsBurn(k) => TokenBurned(w.s, k, Guarded(w))
    case Import(g) => if GenesisOk(e, g) then CollectionsImported(e, w.s, g) else Fail(InvalidId)
    case Bind(_) => Done(w.s)
    case Unbind(_) => Done(w.s)
    case Wire => Done(w.s)
  }

  /** Only a token that exists is bound to a contract. */
  ghost function After(e: Env, c: Codecs, w: World, step: Step): World
  {
    var r := Asked(e, c, w, step);
    World(if r.Done? then r.value else w.s,
          match step
          case Bind(k) => if k in w.s.tokens then w.bound + {k} else w.bound
          case Unbind(k) => w.bound - {k}
          case _ => w.bound,
          w.wired || step.Wire?)
  }

  ghost function Run(e: Env, c: Codecs, w: World, steps: seq<Step>): World
  {
    if steps == [] then w else After(e, c, Run(e, c, w, steps[..|steps| - 1]), steps[|steps| - 1])
  }

  // ------------------------------------------------- supply and ownership

  lemma MsgConsistent(e: Env, s: Store, guarded: set<Key>, msg: Msg)
    requires Consistent(s) && AfterMsg(e, s, guarded, msg).Done?
    ensures Consistent(AfterMsg(e, s, guarded, msg).value)
  {
    hide Filed, Owned, Counted, SaveClass, UpdateClass, Mint, Burn, NFTUpdated, OwnershipTransferred, DenomTransferred, GetOwner, DenomInfo;
    match msg
    case IssueDenom(d, _) =>
      ClassesConsistent(s, Class(d.id, d.name, d.symbol, d.description, d.uri, d.uriHash,
        ClassMeta(DenomMetadata(e.printAddr(e.parseAddr(msg.sender).value), d.schema, d.mintRestricted, d.updateRestricted, d.data))));
    case MintNFT(k, name, uri, uriHash, data, _, to) =>
      MintConsistent(s, Token(k.cls, k.token, uri, uriHash, TokenMeta(NFTMetadata(name, data))), e.parseAddr(to).value);
    case EditNFT(k, ch, _) => EditConsistent(s, k, ch, e.parseAddr(msg.sender).value);
    case TransferNFT(k, ch, _, to) => MoveConsistent(s, k, ch, e.parseAddr(msg.sender).value, e.parseAddr(to).value);
    case BurnNFT(k, _) => BurnConsistent(s, k);
    case TransferDenom(id, _, to) => DenomMoveConsistent(e, s, id, e.parseAddr(msg.sender).value, e.parseAddr(to).value);
  }

  lemma EditConsistent(s: Store, k: Key, ch: Change, owner: Addr)
    requires Consistent(s) && NFTUpdated(s, k, ch, owner).Done?
    ensures Consistent(NFTUpdated(s, k, ch, owner).value)
  {
    hide Consistent, Modified, UpdateToken, DenomInfo, TokenChanged;
    if Modified(ch.uri) || Modified(ch.uriHash) || Modified(ch.name) || Modified(ch.data) {
      UpdateConsistent(s, TokenChanged(s.tokens[k], ch, Modified(ch.name) || Modified(ch.data)).value);
    }
  }

  lemma MoveConsistent(s: Store, k: Key, ch: Change, src: Addr, dst: Addr)
    requires Consistent(s) && OwnershipTransferred(s, k, ch, src, dst).Done?
    ensures Consistent(OwnershipTransferred(s, k, ch, src, dst).value)
  {
    hide Consistent, Modified, UpdateToken, DenomInfo, TokenChanged, FieldsDiffer, MetaDiffers, Transfer, GetOwner;
    var metaDiffers := MetaDiffers(s.tokens[k], ch).value;
    if !FieldsDiffer(s.tokens[k], ch) && !metaDiffers {
      TransferConsistent(s, k, dst);
    } else {
      var t := TokenChanged(s.tokens[k], ch, metaDiffers).value;
      UpdateConsistent(s, t);
      TransferConsistent(UpdateToken(s, t).value, k, dst);
    }
  }

  lemma DenomMoveConsistent(e: Env, s: Store, id: Id, src: Addr, dst: Addr)
    requires Consistent(s) && DenomTransferred(e, s, id, src, dst).Done?
    ensures Consistent(DenomTransferred(e, s, id, src, dst).value)
  {
    hide Consistent, UpdateClass, DenomInfo;
    var d := DenomInfo(s, id).value;
    ClassesConsistent(s, Class(d.id, d.name, d.symbol, d.description, d.uri, d.uriHash,
      ClassMeta(DenomMetadata(e.printAddr(dst), d.schema, d.mintRestricted, d.updateRestricted, d.data))));
  }

  lemma {:induction false} TokensImportedConsistent(e: Env, s: Store, c: Id, nfts: seq<BaseNFT>)
    requires Consistent(s) && TokensImported(e, s, c, nfts).Done?
    ensures Consistent(TokensImported(e, s, c, nfts).value)
  {
    hide Consistent, Mint;
    if nfts != [] {
      var init, n := nfts[..|nfts| - 1], nfts[|nfts| - 1];
      TokensImportedConsistent(e, s, c, init);
      MintConsistent(TokensImported(e, s, c, init).value, TokenFrom(c, n), e.parseAddr(n.owner).value);
    }
  }

  lemma CollectionImportedConsistent(e: Env, s: Store, c: Collection)
    requires Consistent(s) && CollectionImported(e, s, c).Done?
    ensures Consistent(CollectionImported(e, s, c).value)
  {
    hide Consistent, SaveClass, TokensImported;
    var d := c.denom;
    var creator := if d.creator == [] then [] else e.parseAddr(d.creator).value;
    ClassesConsistent(s, Class(d.id, d.name, d.symbol, d.description, d.uri, d.uriHash,
      ClassMeta(DenomMetadata(e.printAddr(creator), d.schema, d.mintRestricted, d.updateRestricted, d.data))));
    TokensImportedConsistent(e, DenomSaved(e, s, d, creator).value, d.id, c.nfts);
  }

  lemma {:induction false} ImportConsistent(e: Env, s: Store, cs: seq<Collection>)
    requires Consistent(s) && CollectionsImported(e, s, cs).Done?
    ensures Consistent(CollectionsImported(e, s, cs).value)
  {
    hide Consistent, CollectionImported;
    if cs != [] {
      ImportConsistent(e, s, cs[..|cs| - 1]);
      CollectionImportedConsistent(e, CollectionsImported(e, s, cs[..|cs| - 1]).value, cs[|cs| - 1]);
    }
  }

  lemma IcsConsistent(c: Codecs, s: Store, guarded: set<Key>, step: Step, r: Outcome<Store>)
    requires Consistent(s) && r.Done?
    requires match step
             case IcsClass(id, uri, data) => r == ClassReceived(c, s, id, uri, data)
             case IcsMint(k, uri, data, receiver) => r == TokenReceived(c, s, k, uri, data, receiver)
             case IcsTransfer(k, data, receiver) => r == TokenReturned(c, s, k, data, receiver)
             case IcsBurn(k) => r == TokenBurned(s, k, guarded)
             case _ => false
    ensures Consistent(r.value)
  {
    hide Consistent, SaveClass, UpdateClass, Mint, Burn, Transfer, UpdateToken, ClassOf, TokenOf, BareClass;
    match step
    case IcsClass(id, uri, data) =>
      ClassesConsistent(s, if data != [] then ClassOf(c, id, uri, data).value else BareClass(c, id, uri));
    case IcsMint(k, uri, data, receiver) => MintConsistent(s, TokenOf(c, k.cls, k.token, uri, data).value, receiver);
    case IcsTransfer(k, data, receiver) =>
      TransferConsistent(s, k, receiver);
      var s1 := Transfer(s, k, receiver).value;
      if data != [] && k in s1.tokens {
        UpdateConsistent(s1, TokenOf(c, k.cls, k.token, s1.tokens[k].uri, data).value);
      }
    case IcsBurn(k) => if k in s.tokens { BurnConsistent(s, k); }
  }

  lemma StepConsistent(e: Env, c: Codecs, w: World, step: Step)
    requires Consistent(w.s)
    ensures Consistent(After(e, c, w, step).s)
  {
    hide Consistent, AfterMsg, ClassReceived, TokenReceived, TokenReturned, TokenBurned, CollectionsImported;
    var r := Asked(e, c, w, step);
    if r.Done? {
      match step
      case Message(msg) => MsgConsistent(e, w.s, Guarded(w), msg);
      case Import(g) => ImportConsistent(e, w.s, g);
      case Bind(_) =>
      case Unbind(_) =>
      case Wire =>
      case _ => IcsConsistent(c, w.s, Guarded(w), step, r);
    }
  }

  /** Whatever the modules do from an empty store, records stay filed, each token has one owner, and counters count. */
  lemma {:induction false} RunConsistent(e: Env, c: Codecs, steps: seq<Step>)
    ensures Consistent(Run(e, c, START, steps).s)
  {
    hide Consistent, After;
    if steps == [] {
      EmptyConsistent();
    } else {
      RunConsistent(e, c, steps[..|steps| - 1]);
      StepConsistent(e, c, Run(e, c, START, steps[..|steps| - 1]), steps[|steps| - 1]);
    }
  }

  /** The export never reports a supply mismatch, and no burn takes a zero counter below zero. */
  lemma SupplyNeverDiverges(e: Env, c: Codecs, order: Order, steps: seq<Step>, id: Id, k: Key)
    requires Orderly(order)
    ensures var s := Run(e, c, START, steps).s;
            && SupplyIssue(s, id, |order(TokenIds(s, id))|) == []
            && (k in s.tokens ==> Burn(s, k).Done? && |TokensOf(s, k.cls)| > 0)
            && (k in s.tokens && |TokensOf(s, k.cls)| < TWO64 ==> GetTotalSupply(s, k.cls) > 0)
  {
    hide Owned, Counted, SupplyIssue, TokenIds, Run;
    var s := Run(e, c, START, steps).s;
    RunConsistent(e, c, steps);
    NoSupplyIssue(order, s, id);
    if k in s.tokens { BurnConsistent(s, k); }
  }

  // ------------------------------------------------- bound tokens exist

  /** Only tokens outside `guarded` have disappeared. */
  ghost predicate GuardedStay(s: Store, s': Store, guarded: set<Key>)
  {
    forall k | k in s.tokens && k in guarded :: k in s'.tokens
  }

  lemma MsgGuards(e: Env, s: Store, guarded: set<Key>, msg: Msg)
    requires AfterMsg(e, s, guarded, msg).Done?
    ensures GuardedStay(s, AfterMsg(e, s, guarded, msg).value, guarded)
  {
    hide Modified, TokenChanged, FieldsDiffer, MetaDiffers, GetOwner, DenomInfo, DenomBoundsOk;
  }

  lemma {:induction false} TokensImportedStay(e: Env, s: Store, c: Id, nfts: seq<BaseNFT>)
    requires TokensImported(e, s, c, nfts).Done?
    ensures Grown(s, TokensImported(e, s, c, nfts).value)
  {
    if nfts != [] { TokensImportedStay(e, s, c, nfts[..|nfts| - 1]); }
  }

  /** Everything stored before is stored after, as it was. */
  ghost predicate Grown(s: Store, s': Store)
  {
    && (forall c | c in s.classes :: c in s'.classes && s'.classes[c] == s.classes[c])
    && (forall k | k in s.tokens :: Untouched(s, s', k))
  }

  /** Token `k` has kept its record and its owner. */
  ghost predicate Untouched(s: Store, s': Store, k: Key)
  {
    k in s.tokens && k in s'.tokens && s'.tokens[k] == s.tokens[k] && GetOwner(s', k) == GetOwner(s, k)
  }

  lemma GrownTrans(s: Store, s1: Store, s2: Store)
    requires Grown(s, s1) && Grown(s1, s2)
    ensures Grown(s, s2)
  {
    forall k | k in s.tokens ensures Untouched(s, s2, k) {
      assert Untouched(s, s1, k);
      assert Untouched(s1, s2, k);
    }
  }

  lemma CollectionImportedStay(e: Env, s: Store, c: Collection)
    requires CollectionImported(e, s, c).Done?
    ensures Grown(s, CollectionImported(e, s, c).value)
  {
    hide TokensImported;
    var creator := if c.denom.creator == [] then [] else e.parseAddr(c.denom.creator).value;
    var s1 := DenomSaved(e, s, c.denom, creator).value;
    TokensImportedStay(e, s1, c.denom.id, c.nfts);
    GrownTrans(s, s1, CollectionImported(e, s, c).value);
  }

  /** An import only adds. */
  lemma {:induction false} ImportStays(e: Env, s: Store, cs: seq<Collection>)
    requires CollectionsImported(e, s, cs).Done?
    ensures Grown(s, CollectionsImported(e, s, cs).value)
  {
    hide CollectionImported;
    if cs != [] {
      ImportStays(e, s, cs[..|cs| - 1]);
      var s1 := CollectionsImported(e, s, cs[..|cs| - 1]).value;
      CollectionImportedStay(e, s1, cs[|cs| - 1]);
      GrownTrans(s, s1, CollectionsImported(e, s, cs).value);
    }
  }

  lemma StepGuards(e: Env, c: Codecs, w: World, step: Step)
    ensures GuardedStay(w.s, After(e, c, w, step).s, Guarded(w))
  {
    hide AfterMsg, ClassOf, TokenOf, CollectionsImported;
    if Asked(e, c, w, step).Done? {
      match step
      case Message(msg) => MsgGuards(e, w.s, Guarded(w), msg);
      case Import(g) => ImportStays(e, w.s, g);
      case _ =>
    }
  }

  ghost predicate BoundExist(w: World)
  {
    w.wired && w.bound <= w.s.tokens.Keys
  }

  lemma StepKeepsBound(e: Env, c: Codecs, w: World, step: Step)
    requires BoundExist(w)
    ensures BoundExist(After(e, c, w, step))
  {
    hide AfterMsg, ClassReceived, TokenReceived, TokenReturned, TokenBurned, CollectionsImported;
    StepGuards(e, c, w, step);
  }

  /** Once the guard is wired, no run of steps strands a contract token: every bound token stays stored. */
  lemma {:induction false} RunKeepsBound(e: Env, c: Codecs, w: World, steps: seq<Step>)
    requires BoundExist(w)
    ensures BoundExist(Run(e, c, w, steps))
  {
    hide After, BoundExist;
    if steps != [] {
      RunKeepsBound(e, c, w, steps[..|steps| - 1]);
      StepKeepsBound(e, c, Run(e, c, w, steps[..|steps| - 1]), steps[|steps| - 1]);
    }
  }

  /** Of the tokens its owner asks to burn, exactly the guarded ones remain, by either way of burning. */
  lemma BurnRefusedExactly(e: Env, c: Codecs, w: World, k: Key, sender: bytes)
    requires Consistent(w.s) && k in w.s.tokens && e.parseAddr(sender) == Some(GetOwner(w.s, k))
    ensures k in After(e, c, w, Message(BurnNFT(k, sender))).s.tokens <==> k in Guarded(w)
    ensures k in After(e, c, w, IcsBurn(k)).s.tokens <==> k in Guarded(w)
  {
  }

  // ------------------------------------------------- whose hand changes a token

  /** Neither an ICS-721 callback that moves or burns `k` nor a message about it signed by `owner`. */
  predicate Foreign(e: Env, step: Step, k: Key, owner: Addr)
  {
    match step
    case Message(msg) =>
      (msg.EditNFT? || msg.TransferNFT? || msg.BurnNFT?) && msg.key == k ==> e.parseAddr(msg.sender) != Some(owner)
    case IcsTransfer(x, _, _) => x != k
    case IcsBurn(x) => x != k
    case _ => true
  }

  lemma EditTouches(s: Store, k: Key, ch: Change, owner: Addr, other: Key)
    requires Filed(s) && NFTUpdated(s, k, ch, owner).Done? && other in s.tokens
    ensures k == other ==> owner == GetOwner(s, k)
    ensures k != other ==> Untouched(s, NFTUpdated(s, k, ch, owner).value, other)
    ensures NFTUpdated(s, k, ch, owner).value.classes == s.classes
  {
    hide Modified, Modify;
  }

  lemma MoveTouches(s: Store, k: Key, ch: Change, src: Addr, dst: Addr, other: Key)
    requires Filed(s) && OwnershipTransferred(s, k, ch, src, dst).Done? && other in s.tokens
    ensures k == other ==> src == GetOwner(s, k)
    ensures k != other ==> Untouched(s, OwnershipTransferred(s, k, ch, src, dst).value, other)
    ensures OwnershipTransferred(s, k, ch, src, dst).value.classes == s.classes
  {
    hide Modified, Modify, DenomInfo, FieldsDiffer, MetaDiffers;
  }

  lemma MsgTouches(e: Env, s: Store, guarded: set<Key>, msg: Msg, k: Key)
    requires Filed(s) && k in s.tokens && AfterMsg(e, s, guarded, msg).Done? && Foreign(e, Message(msg), k, GetOwner(s, k))
    ensures Untouched(s, AfterMsg(e, s, guarded, msg).value, k)
  {
    hide NFTUpdated, OwnershipTransferred, DenomInfo, Filed;
    match msg
    case EditNFT(x, ch, _) => EditTouches(s, x, ch, e.parseAddr(msg.sender).value, k);
    case TransferNFT(x, ch, _, to) => MoveTouches(s, x, ch, e.parseAddr(msg.sender).value, e.parseAddr(to).value, k);
    case _ =>
  }

  lemma BuiltIds(c: Codecs, k: Key, uri: bytes, data: bytes)
    ensures TokenOf(c, k.cls, k.token, uri, data).Done? ==>
              Key(TokenOf(c, k.cls, k.token, uri, data).value.classId, TokenOf(c, k.cls, k.token, uri, data).value.id) == k
    ensures ClassOf(c, k.cls, uri, data).Done? ==> ClassOf(c, k.cls, uri, data).value.id == k.cls
  {
  }

  /** Nothing but token `x` has changed. */
  ghost predicate OnlyToken(s: Store, s': Store, x: Key)
  {
    s'.classes == s.classes && forall k | k in s.tokens && k != x :: Untouched(s, s', k)
  }

  lemma TransferTouches(s: Store, x: Key, receiver: Addr)
    requires Transfer(s, x, receiver).Done?
    ensures OnlyToken(s, Transfer(s, x, receiver).value, x)
  {
  }

  lemma ReturnTouches(c: Codecs, s: Store, x: Key, data: bytes, receiver: Addr)
    requires TokenReturned(c, s, x, data, receiver).Done?
    ensures OnlyToken(s, TokenReturned(c, s, x, data, receiver).value, x)
  {
    hide TokenOf, Transfer;
    TransferTouches(s, x, receiver);
    var s1 := Transfer(s, x, receiver).value;
    if x in s1.tokens { BuiltIds(c, x, s1.tokens[x].uri, data); }
  }

  lemma ReceiveTouches(c: Codecs, s: Store, x: Key, uri: bytes, data: bytes, receiver: Addr)
    requires TokenReceived(c, s, x, uri, data, receiver).Done?
    ensures Grown(s, TokenReceived(c, s, x, uri, data, receiver).value)
  {
    hide TokenOf;
    BuiltIds(c, x, uri, data);
  }

  lemma ClassTouches(c: Codecs, s: Store, id: Id, uri: bytes, data: bytes)
    requires ClassReceived(c, s, id, uri, data).Done?
    ensures var s' := ClassReceived(c, s, id, uri, data).value;
            && (forall k | k in s.tokens :: Untouched(s, s', k))
            && (forall x | x in s.classes && x != id :: x in s'.classes && s'.classes[x] == s.classes[x])
  {
    hide ClassOf;
    BuiltIds(c, Key(id, []), uri, data);
  }

  /** A callback touches the token or the class it is about, and nothing else. */
  lemma IcsTouches(e: Env, c: Codecs, w: World, step: Step, k: Key)
    requires k in w.s.tokens && Asked(e, c, w, step).Done?
    requires step.IcsClass? || step.IcsMint? || ((step.IcsTransfer? || step.IcsBurn?) && step.key != k)
    ensures Untouched(w.s, Asked(e, c, w, step).value, k)
    ensures forall x | x in w.s.classes && !(step.IcsClass? && step.id == x) ::
              x in Asked(e, c, w, step).value.classes && Asked(e, c, w, step).value.classes[x] == w.s.classes[x]
  {
    hide ClassReceived, TokenReceived, TokenReturned;
    match step
    case IcsClass(id, uri, data) => ClassTouches(c, w.s, id, uri, data);
    case IcsMint(x, uri, data, receiver) => ReceiveTouches(c, w.s, x, uri, data, receiver);
    case IcsTransfer(x, data, receiver) => ReturnTouches(c, w.s, x, data, receiver);
    case IcsBurn(_) =>
  }

  lemma StepTouches(e: Env, c: Codecs, w: World, step: Step, k: Key)
    requires Consistent(w.s) && k in w.s.tokens && Foreign(e, step, k, GetOwner(w.s, k))
    ensures Untouched(w.s, After(e, c, w, step).s, k)
  {
    hide AfterMsg, CollectionsImported, ClassReceived, TokenReceived, TokenReturned, TokenBurned, Owned, Counted, Filed;
    if Asked(e, c, w, step).Done? {
      match step
      case Message(msg) => MsgTouches(e, w.s, Guarded(w), msg, k);
      case Import(g) => ImportStays(e, w.s, g);
      case Bind(_) =>
      case Unbind(_) =>
      case Wire =>
      case _ => IcsTouches(e, c, w, step, k);
    }
  }

  /** While its owner signs nothing about it and ICS-721 does not move it, no run changes a token or its owner. */
  lemma {:induction false} OwnerDecides(e: Env, c: Codecs, w: World, steps: seq<Step>, k: Key)
    requires Consistent(w.s) && k in w.s.tokens
    requires forall i | 0 <= i < |steps| :: Foreign(e, steps[i], k, GetOwner(w.s, k))
    ensures Consistent(Run(e, c, w, steps).s) && Untouched(w.s, Run(e, c, w, steps).s, k)
  {
    hide After, Consistent, Foreign;
    if steps != [] {
      var init := steps[..|steps| - 1];
      OwnerDecides(e, c, w, init, k);
      StepConsistent(e, c, Run(e, c, w, init), steps[|steps| - 1]);
      StepTouches(e, c, Run(e, c, w, init), steps[|steps| - 1], k);
    }
  }

  // ------------------------------------------------- update-restricted classes

  predicate UpdateRestricted(s: Store, c: Id)
  {
    c in s.classes && ClassMetaRead(s.classes[c]).Done? && ClassMetaRead(s.classes[c]).value.updateRestricted
  }

  /** Anything but a burn of `k` and an ICS-721 callback about `k` or its class. */
  predicate Mundane(step: Step, k: Key)
  {
    match step
    case Message(msg) => !(msg.BurnNFT? && msg.key == k)
    case IcsClass(id, _, _) => id != k.cls
    case IcsTransfer(x, _, _) => x != k
    case IcsBurn(x) => x != k
    case _ => true
  }

  /** Token `k` has kept its record, and its class the restriction. */
  ghost predicate Frozen(s: Store, s': Store, k: Key)
  {
    k in s.tokens && k in s'.tokens && s'.tokens[k] == s.tokens[k] && UpdateRestricted(s', k.cls)
  }

  lemma EditRefused(s: Store, k: Key, ch: Change, owner: Addr)
    requires UpdateRestricted(s, k.cls)
    ensures NFTUpdated(s, k, ch, owner).Fail?
  {
  }

  lemma MoveFreezes(s: Store, k: Key, ch: Change, src: Addr, dst: Addr)
    requires Filed(s) && UpdateRestricted(s, k.cls) && OwnershipTransferred(s, k, ch, src, dst).Done?
    ensures Frozen(s, OwnershipTransferred(s, k, ch, src, dst).value, k)
  {
    hide FieldsDiffer, MetaDiffers, TokenChanged;
  }

  lemma DenomMoveFreezes(e: Env, s: Store, id: Id, src: Addr, dst: Addr, k: Key)
    requires Filed(s) && UpdateRestricted(s, k.cls) && k in s.tokens && DenomTransferred(e, s, id, src, dst).Done?
    ensures Frozen(s, DenomTransferred(e, s, id, src, dst).value, k)
  {
  }

  lemma MsgFreezes(e: Env, s: Store, guarded: set<Key>, msg: Msg, k: Key)
    requires Filed(s) && k in s.tokens && UpdateRestricted(s, k.cls) && AfterMsg(e, s, guarded, msg).Done?
    requires Mundane(Message(msg), k)
    ensures Frozen(s, AfterMsg(e, s, guarded, msg).value, k)
  {
    hide NFTUpdated, OwnershipTransferred, DenomTransferred, DenomInfo, Filed;
    match msg
    case EditNFT(x, ch, _) =>
      if x == k { EditRefused(s, k, ch, e.parseAddr(msg.sender).value); }
      EditTouches(s, x, ch, e.parseAddr(msg.sender).value, k);
    case TransferNFT(x, ch, _, to) =>
      if x == k { MoveFreezes(s, k, ch, e.parseAddr(msg.sender).value, e.parseAddr(to).value); }
      MoveTouches(s, x, ch, e.parseAddr(msg.sender).value, e.parseAddr(to).value, k);
    case TransferDenom(id, _, to) => DenomMoveFreezes(e, s, id, e.parseAddr(msg.sender).value, e.parseAddr(to).value, k);
    case _ =>
  }

  lemma StepFreezes(e: Env, c: Codecs, w: World, step: Step, k: Key)
    requires Consistent(w.s) && k in w.s.tokens && UpdateRestricted(w.s, k.cls) && Mundane(step, k)
    ensures Frozen(w.s, After(e, c, w, step).s, k)
  {
    hide AfterMsg, CollectionsImported, ClassReceived, TokenReceived, TokenReturned, TokenBurned, Owned, Counted, Filed;
    if Asked(e, c, w, step).Done? {
      match step
      case Message(msg) => MsgFreezes(e, w.s, Guarded(w), msg, k);
      case Import(g) => ImportStays(e, w.s, g);
      case Bind(_) =>
      case Unbind(_) =>
      case Wire =>
      case _ => IcsTouches(e, c, w, step, k);
    }
  }

  /** Under an update-restricted class a token keeps URI, hash, name and data until it is burned, whoever signs. */
  lemma {:induction false} RestrictedTokensFrozen(e: Env, c: Codecs, w: World, steps: seq<Step>, k: Key)
    requires Consistent(w.s) && k in w.s.tokens && UpdateRestricted(w.s, k.cls)
    requires forall i | 0 <= i < |steps| :: Mundane(steps[i], k)
    ensures Consistent(Run(e, c, w, steps).s) && Frozen(w.s, Run(e, c, w, steps).s, k)
  {
    hide After, Consistent, Mundane, UpdateRestricted;
    if steps != [] {
      var init := steps[..|steps| - 1];
      RestrictedTokensFrozen(e, c, w, init, k);
      StepConsistent(e, c, Run(e, c, w, init), steps[|steps| - 1]);
      StepFreezes(e, c, Run(e, c, w, init), steps[|steps| - 1], k);
    }
  }

  predicate HasMeta(t: Token)
  {
    t.data.ForeignTokenData? || t.data.TokenMeta?
  }

  /** The change repeats stored values or leaves fields alone. */
  predicate Repeats(t: Token, ch: Change)
  {
    && (Modified(ch.uri) ==> ch.uri == t.uri) && (Modified(ch.uriHash) ==> ch.uriHash == t.uriHash)
    && (Modified(ch.name) ==> HasMeta(t) && ch.name == t.data.meta.name)
    && (Modified(ch.data) ==> HasMeta(t) && ch.data == t.data.meta.data)
  }

  /** Under the restriction, exactly the transfers that repeat what is stored pass, and they move only the owner. */
  lemma PureTransferPasses(e: Env, s: Store, guarded: set<Key>, k: Key, ch: Change, sender: bytes, to: bytes)
    requires Consistent(s) && k in s.tokens && UpdateRestricted(s, k.cls)
    requires e.parseAddr(sender) == Some(GetOwner(s, k)) && e.parseAddr(to).Some?
    ensures var r := AfterMsg(e, s, guarded, TransferNFT(k, ch, sender, to));
            && (r.Done? <==> Repeats(s.tokens[k], ch))
            && (r.Done? ==> r == Transfer(s, k, e.parseAddr(to).value) && r.value.tokens == s.tokens && r.value.classes == s.classes
                            && GetOwner(r.value, k) == e.parseAddr(to).value)
  {
    hide Modified, Owned, Counted, TokenChanged;
  }

  // ------------------------------------------------- the objects take these steps

  /** The keepers and the bindings as one value. */
  ghost function Seen(ik: InterNftKeeper, bindings: Bindings): World
    requires ik.ck.slot != null && ik.ck.slot.checker in {null, bindings}
    reads ik.ck.nk, ik.ck.slot, bindings
  {
    World(ik.ck.nk.s, bindings.bound, ik.ck.slot.checker != null)
  }

  /** One step on the keepers. A refused one ran in a context that is thrown away. */
  method Take(ik: InterNftKeeper, bindings: Bindings, step: Step)
    requires ik.ck.slot != null && ik.ck.slot.checker in {null, bindings}
    requires Consistent(ik.ck.nk.s)
    modifies ik.ck.nk, ik.ck.slot, bindings
    ensures ik.ck.slot.checker in {null, bindings}
    ensures Seen(ik, bindings) == After(ik.ck.env, ik.codecs, old(Seen(ik, bindings)), step)
    ensures Consistent(ik.ck.nk.s)
  {
    hide AfterMsg, ClassReceived, TokenReceived, TokenReturned, TokenBurned, CollectionsImported, Owned, Counted, GenesisOk;
    StepConsistent(ik.ck.env, ik.codecs, Seen(ik, bindings), step);
    var committed, r := ik.ck.nk.s, Done(());
    match step {
      case Message(msg) => r := ik.ck.Deliver(msg);
      case IcsClass(id, uri, data) => r := ik.CreateOrUpdateClass(id, uri, data);
      case IcsMint(k, uri, data, receiver) => r := ik.Mint(k, uri, data, receiver);
      case IcsTransfer(k, data, receiver) => r := ik.Transfer(k, data, receiver);
      case IcsBurn(k) => r := ik.Burn(k);
      case Import(g) => r := InitGenesis(ik.ck, g);
      case Bind(k) => if k in ik.ck.nk.s.tokens { bindings.bound := bindings.bound + {k}; }
      case Unbind(k) => bindings.bound := bindings.bound - {k};
      case Wire => var wired := ik.ck.SetConvertedNFTChecker(bindings);
    }
    if r.Fail? { ik.ck.nk.s := committed; }
  }
}
