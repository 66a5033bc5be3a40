/**
 The collection keeper: issuing, minting, editing, transferring and burning over the nft
 store, with the restriction flags of a class and the guard for tokens bound to a contract.
 */
module CollectionKeeper {
  import opened Options
  import opened Wire
  import opened Messages
  import opened NftStore
  import opened Ics721

  /** Address text, and the checks whose rules live elsewhere. */
  datatype Env = Env(
    parseAddr: bytes -> Option<Addr>, printAddr: Addr -> bytes,
    denomIdOk: Id -> bool, issueIdOk: Id -> bool, uriOk: bytes -> bool)
  {
    /** Printing an address that was parsed gives text that parses to it again; the empty address prints as "". */
    ghost predicate Lawful()
    {
      && printAddr([]) == [] && parseAddr([]).None?
      && (forall x | parseAddr(x).Some? ::
            parseAddr(x).value != [] && parseAddr(printAddr(parseAddr(x).value)) == parseAddr(x))
    }
  }

  const DO_NOT_MODIFY: bytes := [0x5b, 0x64, 0x6f, 0x2d, 0x6e, 0x6f, 0x74, 0x2d, 0x6d, 0x6f, 0x64, 0x69, 0x66, 0x79, 0x5d]  // "[do-not-modify]"
  const REMOVE_FIELD: bytes := [0x5b, 0x72, 0x65, 0x6d, 0x6f, 0x76, 0x65, 0x5d]  // "[remove]"

  predicate Modified(target: bytes)
  {
    target != DO_NOT_MODIFY && target != []
  }

  function Modify(origin: bytes, target: bytes): bytes
  {
    if target == DO_NOT_MODIFY || target == [] then origin else if target == REMOVE_FIELD then [] else target
  }

  /** The four optional fields of an edit or a transfer. */
  datatype Change = Change(name: bytes, uri: bytes, uriHash: bytes, data: bytes)

  // ------------------------------------------------- specification

  /** The class metadata as this module reads it: the bytes, whatever their type URL. */
  function ClassMetaRead(cls: Class): Outcome<DenomMetadata>
  {
    match cls.data
    case NoClassData => Done(NO_DENOM_METADATA)
    case GarbledClassData => Fail(Undecodable)
    case ForeignClassData(m) => Done(m)
    case ClassMeta(m) => Done(m)
  }

  function TokenMetaRead(t: Token): Outcome<NFTMetadata>
  {
    match t.data
    case NoTokenData => Done(NO_NFT_METADATA)
    case GarbledTokenData => Fail(Undecodable)
    case ForeignTokenData(m) => Done(m)
    case TokenMeta(m) => Done(m)
  }

  /** GetDenomInfo: a class without a blob has zero metadata; one that does not decode is an error. */
  function DenomInfo(s: Store, id: Id): Outcome<Denom>
  {
    if id !in s.classes then Fail(UnknownClass)
    else
      var meta :- ClassMetaRead(s.classes[id]);
      var c := s.classes[id];
      Done(Denom(c.id, c.name, meta.schema, meta.creator, c.symbol, meta.mintRestricted, meta.updateRestricted,
                 c.description, c.uri, c.uriHash, meta.data))
  }

  /** SaveDenom; `d.creator` is replaced by the text of `creator`. */
  function DenomSaved(e: Env, s: Store, d: Denom, creator: Addr): Outcome<Store>
  {
    if !e.denomIdOk(d.id) then Fail(InvalidId)
    else if !DenomBoundsOk(d.schema, d.data) then Fail(TooLarge)
    else SaveClass(s, Class(d.id, d.name, d.symbol, d.description, d.uri, d.uriHash,
                            ClassMeta(DenomMetadata(e.printAddr(creator), d.schema, d.mintRestricted, d.updateRestricted, d.data))))
  }

  /** SaveNFT */
  function NFTSaved(s: Store, k: Key, name: bytes, uri: bytes, uriHash: bytes, data: bytes, receiver: Addr): Outcome<Store>
  {
    if k.cls == [] || k.token == [] || receiver == [] then Fail(EmptyInput)
    else Mint(s, Token(k.cls, k.token, uri, uriHash, TokenMeta(NFTMetadata(name, data))), receiver)
  }

  /** The token with the modified fields written in. */
  function TokenChanged(t: Token, ch: Change, metaToo: bool): Outcome<Token>
  {
    var t' := t.(uri := Modify(t.uri, ch.uri), uriHash := Modify(t.uriHash, ch.uriHash));
    if !metaToo then Done(t')
    else
      var meta :- TokenMetaRead(t);
      Done(t'.(data := TokenMeta(NFTMetadata(Modify(meta.name, ch.name), Modify(meta.data, ch.data)))))
  }

  /** UpdateNFT */
  function NFTUpdated(s: Store, k: Key, ch: Change, owner: Addr): Outcome<Store>
  {
    var denom :- DenomInfo(s, k.cls);
    if denom.updateRestricted then Fail(Restricted)
    else if k !in s.tokens then Fail(UnknownToken)
    else if owner != GetOwner(s, k) then Fail(Unauthorized)
    else if !Modified(ch.uri) && !Modified(ch.uriHash) && !Modified(ch.name) && !Modified(ch.data) then Done(s)
    else
      var t :- TokenChanged(s.tokens[k], ch, Modified(ch.name) || Modified(ch.data));
      UpdateToken(s, t)
  }

  /** Whether the fields outside the blob would change: a repeated stored value is no change. */
  predicate FieldsDiffer(t: Token, ch: Change)
  {
    (Modified(ch.uri) && ch.uri != t.uri) || (Modified(ch.uriHash) && ch.uriHash != t.uriHash)
  }

  /** Whether the blob would change. */
  function MetaDiffers(t: Token, ch: Change): Outcome<bool>
  {
    if !Modified(ch.name) && !Modified(ch.data) then Done(false)
    else if t.data.NoTokenData? then Done(true)
    else
      var meta :- TokenMetaRead(t);
      Done((Modified(ch.name) && ch.name != meta.name) || (Modified(ch.data) && ch.data != meta.data))
  }

  /** TransferOwnership */
  function OwnershipTransferred(s: Store, k: Key, ch: Change, src: Addr, dst: Addr): Outcome<Store>
  {
    if k !in s.tokens then Fail(UnknownToken)
    else if src != GetOwner(s, k) then Fail(Unauthorized)
    else
      var denom :- DenomInfo(s, k.cls);
      var t := s.tokens[k];
      var metaDiffers :- MetaDiffers(t, ch);
      if denom.updateRestricted && (FieldsDiffer(t, ch) || metaDiffers) then Fail(Restricted)
      else if !FieldsDiffer(t, ch) && !metaDiffers then Transfer(s, k, dst)
      else
        var t' :- TokenChanged(t, ch, metaDiffers);
        var s' :- UpdateToken(s, t');
        Transfer(s', k, dst)
  }

  /** RemoveNFT; `bound` is the guard's answer for this token. */
  function NFTRemoved(s: Store, k: Key, owner: Addr, bound: bool): Outcome<Store>
  {
    if k !in s.tokens then Fail(UnknownToken)
    else if owner != GetOwner(s, k) then Fail(Unauthorized)
    else if bound then Fail(BoundToContract)
    else Burn(s, k)
  }

  /** TransferDenomOwner: only the creator field changes. */
  function DenomTransferred(e: Env, s: Store, id: Id, src: Addr, dst: Addr): Outcome<Store>
  {
    var d :- DenomInfo(s, id);
    var creator := e.parseAddr(d.creator);
    if creator.None? then Fail(InvalidAddress)
    else if src != creator.value then Fail(Unauthorized)
    else UpdateClass(s, Class(d.id, d.name, d.symbol, d.description, d.uri, d.uriHash,
                              ClassMeta(DenomMetadata(e.printAddr(dst), d.schema, d.mintRestricted, d.updateRestricted, d.data))))
  }

  // ------------------------------------------------- the store as an object

  class NftKeeper {
    var s: Store

    constructor ()
      ensures s == EMPTY_STORE
    {
      s := EMPTY_STORE;
    }

    method SaveClass(c: Class) returns (r: Outcome<()>)
      modifies this
      ensures Performed(NftStore.SaveClass(old(s), c), r, old(s))
    {
      if c.id in s.classes { return Fail(ClassExists); }
      s := s.(classes := s.classes[c.id := c]);
      return Done(());
    }

    method UpdateClass(c: Class) returns (r: Outcome<()>)
      modifies this
      ensures Performed(NftStore.UpdateClass(old(s), c), r, old(s))
    {
      if c.id !in s.classes { return Fail(UnknownClass); }
      s := s.(classes := s.classes[c.id := c]);
      return Done(());
    }

    method Mint(t: Token, receiver: Addr) returns (r: Outcome<()>)
      modifies this
      ensures Performed(NftStore.Mint(old(s), t, receiver), r, old(s))
    {
      var k := Key(t.classId, t.id);
      if t.classId !in s.classes { return Fail(UnknownClass); }
      if k in s.tokens { return Fail(TokenExists); }
      s := s.(tokens := s.tokens[k := t]);
      s := SetOwner(s, k, receiver);
      s := AddSupply(s, t.classId, 1);
      return Done(());
    }

    method Update(t: Token) returns (r: Outcome<()>)
      modifies this
      ensures Performed(UpdateToken(old(s), t), r, old(s))
    {
      var k := Key(t.classId, t.id);
      if t.classId !in s.classes { return Fail(UnknownClass); }
      if k !in s.tokens { return Fail(UnknownToken); }
      s := s.(tokens := s.tokens[k := t]);
      return Done(());
    }

    method Transfer(k: Key, receiver: Addr) returns (r: Outcome<()>)
      modifies this
      ensures Performed(NftStore.Transfer(old(s), k, receiver), r, old(s))
    {
      if k.cls !in s.classes { return Fail(UnknownClass); }
      if k !in s.tokens { return Fail(UnknownToken); }
      s := DeleteOwner(s, k, GetOwner(s, k));
      s := SetOwner(s, k, receiver);
      return Done(());
    }

    method Burn(k: Key) returns (r: Outcome<()>)
      modifies this
      ensures Performed(NftStore.Burn(old(s), k), r, old(s))
    {
      if k.cls !in s.classes { return Fail(UnknownClass); }
      if k !in s.tokens { return Fail(UnknownToken); }
      var owner := GetOwner(s, k);
      s := s.(tokens := s.tokens - {k});
      s := DeleteOwner(s, k, owner);
      s := AddSupply(s, k.cls, -1);
      return Done(());
    }

    /** The store moved as `spec` says and the caller was told so; a refused operation leaves it as it was. */
    ghost predicate Performed(spec: Outcome<Store>, r: Outcome<()>, was: Store)
      reads this
    {
      match spec
      case Done(s') => r.Done? && s == s'
      case Fail(why) => r == Fail(why) && s == was
    }
  }

  // ------------------------------------------------- the burn guard

  /** The contract-side bookkeeping of x/erc721 and x/cw721: the tokens that have a contract half. */
  class Bindings {
    var bound: set<Key>

    constructor ()
      ensures bound == {}
    {
      bound := {};
    }
  }

  /** The slot every copy of a keeper shares; it is filled after the copies have been taken. */
  class CheckerSlot {
    var checker: Bindings?

    constructor ()
      ensures checker == null
    {
      checker := null;
    }
  }

  // ------------------------------------------------- the keeper

  /** The six messages. Addresses are still text. */
  datatype Msg =
    | IssueDenom(denom: Denom, sender: bytes)
    | MintNFT(key: Key, name: bytes, uri: bytes, uriHash: bytes, data: bytes, sender: bytes, recipient: bytes)
    | EditNFT(key: Key, change: Change, sender: bytes)
    | TransferNFT(key: Key, change: Change, sender: bytes, recipient: bytes)
    | BurnNFT(key: Key, sender: bytes)
    | TransferDenom(id: Id, sender: bytes, recipient: bytes)

  /** What a message does to the store, given the tokens the guard protects. */
  function AfterMsg(e: Env, s: Store, guarded: set<Key>, msg: Msg): Outcome<Store>
  {
    var sender := e.parseAddr(msg.sender);
    if sender.None? then Fail(InvalidAddress)
    else
      match msg
      case IssueDenom(d, _) => if e.issueIdOk(d.id) then DenomSaved(e, s, d, sender.value) else Fail(InvalidId)
      case MintNFT(k, name, uri, uriHash, data, _, recipient) =>
        var to := e.parseAddr(recipient);
        if to.None? then Fail(InvalidAddress)
        else
          var denom :- DenomInfo(s, k.cls);
          if denom.mintRestricted && denom.creator != e.printAddr(sender.value) then Fail(Unauthorized)
          else NFTSaved(s, k, name, uri, uriHash, data, to.value)
      case EditNFT(k, ch, _) => NFTUpdated(s, k, ch, sender.value)
      case TransferNFT(k, ch, _, recipient) =>
        var to := e.parseAddr(recipient);
        if to.None? then Fail(InvalidAddress) else OwnershipTransferred(s, k, ch, sender.value, to.value)
      case BurnNFT(k, _) => NFTRemoved(s, k, sender.value, k in guarded)
      case TransferDenom(id, _, recipient) =>
        var to := e.parseAddr(recipient);
        if to.None? then Fail(InvalidAddress) else DenomTransferred(e, s, id, sender.value, to.value)
  }

  /** A keeper is copied by value: copies share the store and the guard's slot, not the handle. */
  datatype Keeper = Keeper(env: Env, nk: NftKeeper, slot: CheckerSlot?)
  {
    static method NewKeeper(env: Env) returns (k: Keeper)
      ensures k.env == env && fresh(k.nk) && k.nk.s == EMPTY_STORE
      ensures k.slot != null && fresh(k.slot) && k.slot.checker == null
    {
      var nk := new NftKeeper();
      var slot := new CheckerSlot();
      k := Keeper(env, nk, slot);
    }

    /** The tokens the guard protects: none while it is not wired. */
    function Protected(): set<Key>
      reads slot, if slot == null then {} else {slot.checker}
    {
      if slot == null || slot.checker == null then {} else slot.checker.bound
    }

    predicate IsConvertedNFT(k: Key)
      reads slot, if slot == null then {} else {slot.checker}
    {
      k in Protected()
    }

    /** The handle afterwards: the same one, unless it had no slot yet. */
    method SetConvertedNFTChecker(checker: Bindings) returns (k: Keeper)
      modifies slot
      ensures k.env == env && k.nk == nk && k.slot != null && k.slot.checker == checker
      ensures slot != null ==> k.slot == slot
      ensures slot == null ==> fresh(k.slot)
    {
      k := this;
      if k.slot == null {
        var s := new CheckerSlot();
        k := k.(slot := s);
      }
      k.slot.checker := checker;
    }

    method SaveDenom(d: Denom, creator: Addr) returns (r: Outcome<()>)
      modifies nk
      ensures nk.Performed(DenomSaved(env, old(nk.s), d, creator), r, old(nk.s))
    {
      if !env.denomIdOk(d.id) { return Fail(InvalidId); }
      if !DenomBoundsOk(d.schema, d.data) { return Fail(TooLarge); }
      var meta := DenomMetadata(env.printAddr(creator), d.schema, d.mintRestricted, d.updateRestricted, d.data);
      r := nk.SaveClass(Class(d.id, d.name, d.symbol, d.description, d.uri, d.uriHash, ClassMeta(meta)));
    }

    method SaveNFT(k: Key, name: bytes, uri: bytes, uriHash: bytes, data: bytes, receiver: Addr) returns (r: Outcome<()>)
      modifies nk
      ensures nk.Performed(NFTSaved(old(nk.s), k, name, uri, uriHash, data, receiver), r, old(nk.s))
    {
      if k.cls == [] { return Fail(EmptyInput); }
      if k.token == [] { return Fail(EmptyInput); }
      if receiver == [] { return Fail(EmptyInput); }
      r := nk.Mint(Token(k.cls, k.token, uri, uriHash, TokenMeta(NFTMetadata(name, data))), receiver);
    }

    method UpdateNFT(k: Key, ch: Change, owner: Addr) returns (r: Outcome<()>)
      modifies nk
      ensures nk.Performed(NFTUpdated(old(nk.s), k, ch, owner), r, old(nk.s))
    {
      hide Modify;
      var denom := DenomInfo(nk.s, k.cls);
      if denom.Fail? { return Fail(denom.why); }
      if denom.value.updateRestricted { return Fail(Restricted); }
      if k !in nk.s.tokens { return Fail(UnknownToken); }
      var token := nk.s.tokens[k];
      if owner != GetOwner(nk.s, k) { return Fail(Unauthorized); }
      if !Modified(ch.uri) && !Modified(ch.uriHash) && !Modified(ch.name) && !Modified(ch.data) { return Done(()); }
      var was := token;
      token := token.(uri := Modify(token.uri, ch.uri));
      token := token.(uriHash := Modify(token.uriHash, ch.uriHash));
      if Modified(ch.name) || Modified(ch.data) {
        var meta := TokenMetaRead(was);
        if meta.Fail? { return Fail(meta.why); }
        token := token.(data := TokenMeta(NFTMetadata(Modify(meta.value.name, ch.name), Modify(meta.value.data, ch.data))));
      }
      r := nk.Update(token);
    }

    method TransferOwnership(k: Key, ch: Change, src: Addr, dst: Addr) returns (r: Outcome<()>)
      modifies nk
      ensures nk.Performed(OwnershipTransferred(old(nk.s), k, ch, src, dst), r, old(nk.s))
    {
      hide Modify, Modified;
      if k !in nk.s.tokens { return Fail(UnknownToken); }
      var token := nk.s.tokens[k];
      if src != GetOwner(nk.s, k) { return Fail(Unauthorized); }
      var denom := DenomInfo(nk.s, k.cls);
      if denom.Fail? { return Fail(denom.why); }
      var tokenChanged := FieldsDiffer(token, ch);
      var metaChanged := MetaDiffers(token, ch);
      if metaChanged.Fail? { return Fail(metaChanged.why); }
      if denom.value.updateRestricted && (tokenChanged || metaChanged.value) { return Fail(Restricted); }
      if !tokenChanged && !metaChanged.value {
        r := nk.Transfer(k, dst);
        return;
      }
      var changed := TokenChanged(token, ch, metaChanged.value);
      if changed.Fail? { return Fail(changed.why); }
      r := nk.Update(changed.value);
      if r.Fail? { return; }
      r := nk.Transfer(k, dst);
    }

    method RemoveNFT(k: Key, owner: Addr) returns (r: Outcome<()>)
      modifies nk
      ensures nk.Performed(NFTRemoved(old(nk.s), k, owner, old(IsConvertedNFT(k))), r, old(nk.s))
    {
      if k !in nk.s.tokens { return Fail(UnknownToken); }
      if owner != GetOwner(nk.s, k) { return Fail(Unauthorized); }
      if IsConvertedNFT(k) { return Fail(BoundToContract); }
      r := nk.Burn(k);
    }

    method TransferDenomOwner(id: Id, src: Addr, dst: Addr) returns (r: Outcome<()>)
      modifies nk
      ensures nk.Performed(DenomTransferred(env, old(nk.s), id, src, dst), r, old(nk.s))
    {
      var denom := DenomInfo(nk.s, id);
      if denom.Fail? { return Fail(denom.why); }
      var d := denom.value;
      var creator := env.parseAddr(d.creator);
      if creator.None? { return Fail(InvalidAddress); }
      if src != creator.value { return Fail(Unauthorized); }
      var meta := DenomMetadata(env.printAddr(dst), d.schema, d.mintRestricted, d.updateRestricted, d.data);
      r := nk.UpdateClass(Class(d.id, d.name, d.symbol, d.description, d.uri, d.uriHash, ClassMeta(meta)));
    }

    /** The message server. */
    method Deliver(msg: Msg) returns (r: Outcome<()>)
      modifies nk
      ensures nk.Performed(AfterMsg(env, old(nk.s), old(Protected()), msg), r, old(nk.s))
    {
      hide OwnershipTransferred, NFTUpdated, DenomTransferred;
      var sender := env.parseAddr(msg.sender);
      if msg.MintNFT? || msg.TransferNFT? || msg.TransferDenom? {
        if sender.None? { return Fail(InvalidAddress); }
        var to := env.parseAddr(msg.recipient);
        if to.None? { return Fail(InvalidAddress); }
        match msg {
          case MintNFT(k, name, uri, uriHash, data, _, _) =>
            var denom := DenomInfo(nk.s, k.cls);
            if denom.Fail? { return Fail(denom.why); }
            if denom.value.mintRestricted && denom.value.creator != env.printAddr(sender.value) {
              return Fail(Unauthorized);
            }
            r := SaveNFT(k, name, uri, uriHash, data, to.value);
          case TransferNFT(k, ch, _, _) => r := TransferOwnership(k, ch, sender.value, to.value);
          case TransferDenom(id, _, _) => r := TransferDenomOwner(id, sender.value, to.value);
        }
        return;
      }
      if sender.None? { return Fail(InvalidAddress); }
      match msg {
        case IssueDenom(d, _) =>
          if !env.issueIdOk(d.id) { return Fail(InvalidId); }
          r := SaveDenom(d, sender.value);
        case EditNFT(k, ch, _) => r := UpdateNFT(k, ch, sender.value);
        case BurnNFT(k, _) => r := RemoveNFT(k, sender.value);
      }
    }
  }

  /** Wiring the guard through one handle is seen through every copy made from the same NewKeeper. */
  method WireThroughOneHandle(k: Keeper, copy: Keeper, checker: Bindings)
    requires k.slot != null && copy.slot == k.slot
    modifies k.slot
    ensures forall key :: copy.IsConvertedNFT(key) <==> key in checker.bound
  {
    var wired := k.SetConvertedNFTChecker(checker);
  }
}
