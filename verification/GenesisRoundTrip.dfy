/**
 What genesis promises as a whole: validation accepts exactly what can be imported, an
 import stores exactly what the genesis says, and an export survives the way back.
 */
module GenesisRoundTrip {
  import opened Options
  import opened Wire
  import opened Messages
  import opened NftStore
  import opened Ics721
  import opened CollectionKeeper
  import opened Genesis
  import Utf8

  // ------------------------------------------------- what an import stores

  /** Address text after one trip through the codec; "" stays "". */
  function Reprint(e: Env, text: bytes): bytes
  {
    match e.parseAddr(text)
    case None => []
    case Some(a) => e.printAddr(a)
  }

  function ClassFrom(e: Env, d: Denom): Class
  {
    Class(d.id, d.name, d.symbol, d.description, d.uri, d.uriHash,
          ClassMeta(DenomMetadata(Reprint(e, d.creator), d.schema, d.mintRestricted, d.updateRestricted, d.data)))
  }

  function TokenFrom(c: Id, n: BaseNFT): Token
  {
    Token(c, n.id, n.uri, n.uriHash, TokenMeta(NFTMetadata(n.name, n.data)))
  }

  ghost predicate HasToken(nfts: seq<BaseNFT>, t: Id)
  {
    exists j :: 0 <= j < |nfts| && nfts[j].id == t
  }

  ghost predicate HasClass(cs: seq<Collection>, c: Id)
  {
    exists i :: 0 <= i < |cs| && cs[i].denom.id == c
  }

  ghost predicate Stored(e: Env, s: Store, c: Id, n: BaseNFT)
  {
    var k := Key(c, n.id);
    k in s.tokens && s.tokens[k] == TokenFrom(c, n) && e.parseAddr(n.owner) == Some(GetOwner(s, k))
  }

  /** The tokens of class `c` are those listed, as listed. */
  ghost predicate TokensHeld(e: Env, s: Store, c: Id, nfts: seq<BaseNFT>)
  {
    && (forall t :: Key(c, t) in s.tokens <==> HasToken(nfts, t))
    && (forall j | 0 <= j < |nfts| :: Stored(e, s, c, nfts[j]))
  }

  ghost predicate Carried(e: Env, s: Store, c: Collection)
  {
    && c.denom.id in s.classes && s.classes[c.denom.id] == ClassFrom(e, c.denom)
    && TokensHeld(e, s, c.denom.id, c.nfts)
  }

  /** The store holds this genesis and nothing else. */
  ghost predicate Holds(e: Env, s: Store, cs: seq<Collection>)
  {
    && Consistent(s)
    && (forall c :: c in s.classes <==> HasClass(cs, c))
    && (forall i | 0 <= i < |cs| :: Carried(e, s, cs[i]))
  }

  /** Classes and the tokens of classes other than `c` are the same in both. */
  ghost predicate SameElsewhere(s: Store, s': Store, c: Id)
  {
    && s'.classes == s.classes
    && (forall k: Key | k.cls != c :: (k in s'.tokens <==> k in s.tokens) && GetOwner(s', k) == GetOwner(s, k))
    && (forall k | k in s.tokens && k in s'.tokens && k.cls != c :: s'.tokens[k] == s.tokens[k])
  }

  lemma SameElsewhereTrans(s: Store, s1: Store, s2: Store, c: Id)
    requires SameElsewhere(s, s1, c) && SameElsewhere(s1, s2, c)
    ensures SameElsewhere(s, s2, c)
  {
  }

  lemma HasTokenSnoc(init: seq<BaseNFT>, n: BaseNFT, t: Id)
    ensures HasToken(init + [n], t) <==> HasToken(init, t) || t == n.id
  {
    if HasToken(init, t) { var j :| 0 <= j < |init| && init[j].id == t; assert (init + [n])[j].id == t; }
    if t == n.id { assert (init + [n])[|init|].id == t; }
  }

  /** `s'` is `s` with token `n` minted under class `c`. */
  ghost predicate Minted(e: Env, s: Store, s': Store, c: Id, n: BaseNFT)
  {
    && SameElsewhere(s, s', c) && Stored(e, s', c, n)
    && (forall t :: Key(c, t) in s'.tokens <==> Key(c, t) in s.tokens || t == n.id)
    && (forall m: BaseNFT | m.id != n.id && Stored(e, s, c, m) :: Stored(e, s', c, m))
  }

  lemma NFTSavedDoes(e: Env, s: Store, c: Id, n: BaseNFT)
    requires e.Lawful() && Consistent(s) && c in s.classes && c != [] && NFTOk(e, c, n) && Key(c, n.id) !in s.tokens
    ensures var r := NFTSaved(s, Key(c, n.id), n.name, n.uri, n.uriHash, n.data, e.parseAddr(n.owner).value);
            r.Done? && Consistent(r.value) && Minted(e, s, r.value, c, n)
  {
    hide Consistent;
    MintConsistent(s, TokenFrom(c, n), e.parseAddr(n.owner).value);
  }

  lemma TokensHeldSnoc(e: Env, s: Store, s': Store, c: Id, init: seq<BaseNFT>, n: BaseNFT)
    requires TokensHeld(e, s, c, init) && Minted(e, s, s', c, n) && !HasToken(init, n.id)
    ensures TokensHeld(e, s', c, init + [n])
  {
    hide Stored, HasToken;
    forall t ensures Key(c, t) in s'.tokens <==> HasToken(init + [n], t) { HasTokenSnoc(init, n, t); }
    forall j | 0 <= j < |init + [n]| ensures Stored(e, s', c, (init + [n])[j]) {
      if j < |init| {
        assert init[j].id != n.id by { HasTokenAt(init, j); }
      }
    }
  }

  lemma HasTokenAt(nfts: seq<BaseNFT>, j: nat)
    requires j < |nfts|
    ensures HasToken(nfts, nfts[j].id)
  {
  }

  lemma NFTsOkInit(e: Env, c: Id, nfts: seq<BaseNFT>)
    requires NFTsOk(e, c, nfts) && nfts != []
    ensures var init, n := nfts[..|nfts| - 1], nfts[|nfts| - 1];
            init + [n] == nfts && NFTsOk(e, c, init) && NFTOk(e, c, n) && !HasToken(init, n.id) && e.parseAddr(n.owner).Some?
  {
  }

  lemma {:induction false} TokensImport(e: Env, s: Store, c: Id, nfts: seq<BaseNFT>)
    requires e.Lawful() && Consistent(s) && c in s.classes && c != [] && NFTsOk(e, c, nfts)
    requires forall t :: Key(c, t) !in s.tokens
    ensures var r := TokensImported(e, s, c, nfts);
            r.Done? && Consistent(r.value) && SameElsewhere(s, r.value, c) && TokensHeld(e, r.value, c, nfts)
  {
    hide Consistent, NFTSaved, NFTOk, NFTsOk, Env.Lawful, TokensHeld, HasToken;
    if nfts == [] {
      NothingHeld(e, s, c);
    } else {
      var init, n := nfts[..|nfts| - 1], nfts[|nfts| - 1];
      NFTsOkInit(e, c, nfts);
      TokensImport(e, s, c, init);
      var s1 := TokensImported(e, s, c, init).value;
      HeldExactly(e, s1, c, init, n.id);
      NFTSavedDoes(e, s1, c, n);
      var s2 := TokensImported(e, s, c, nfts).value;
      SameElsewhereTrans(s, s1, s2, c);
      TokensHeldSnoc(e, s1, s2, c, init, n);
    }
  }

  lemma NothingHeld(e: Env, s: Store, c: Id)
    requires forall t :: Key(c, t) !in s.tokens
    ensures TokensHeld(e, s, c, [])
  {
  }

  lemma HeldExactly(e: Env, s: Store, c: Id, nfts: seq<BaseNFT>, t: Id)
    requires TokensHeld(e, s, c, nfts)
    ensures Key(c, t) in s.tokens <==> HasToken(nfts, t)
  {
  }

  /** Everything outside class `c` is the same in both. */
  ghost predicate Beside(s: Store, s': Store, c: Id)
  {
    && (forall x | x != c :: x in s'.classes <==> x in s.classes)
    && (forall x | x in s.classes && x in s'.classes && x != c :: s'.classes[x] == s.classes[x])
    && (forall k: Key | k.cls != c :: (k in s'.tokens <==> k in s.tokens) && GetOwner(s', k) == GetOwner(s, k))
    && (forall k | k in s.tokens && k in s'.tokens && k.cls != c :: s'.tokens[k] == s.tokens[k])
  }

  lemma ImportUnfolds(e: Env, s: Store, c: Collection)
    requires e.Lawful() && CollectionOk(e, c) && c.denom.id !in s.classes
    ensures CollectionImported(e, s, c) == TokensImported(e, SaveClass(s, ClassFrom(e, c.denom)).value, c.denom.id, c.nfts)
    ensures c.denom.id != [] && NFTsOk(e, c.denom.id, c.nfts)
  {
    hide TokensImported, NFTOk;
  }

  lemma CollectionImport(e: Env, s: Store, c: Collection)
    requires e.Lawful() && Consistent(s) && CollectionOk(e, c) && c.denom.id !in s.classes
    ensures var r := CollectionImported(e, s, c);
            r.Done? && Consistent(r.value) && Carried(e, r.value, c) && Beside(s, r.value, c.denom.id)
  {
    hide Counted, Owned, NFTsOk, TokensImported, TokensHeld, CollectionImported, CollectionOk, Env.Lawful, ClassFrom;
    var cls := ClassFrom(e, c.denom);
    assert cls.id == c.denom.id by { ClassFromId(e, c.denom); }
    ImportUnfolds(e, s, c);
    ClassesConsistent(s, cls);
    TokensImport(e, SaveClass(s, cls).value, c.denom.id, c.nfts);
  }

  lemma ClassFromId(e: Env, d: Denom)
    ensures ClassFrom(e, d).id == d.id
  {
  }

  lemma CarriedBeside(e: Env, s: Store, s': Store, c: Id, col: Collection)
    requires Carried(e, s, col) && Beside(s, s', c) && col.denom.id != c
    ensures Carried(e, s', col)
  {
    hide HasToken;
    forall j | 0 <= j < |col.nfts| ensures Stored(e, s', col.denom.id, col.nfts[j]) {
      assert Stored(e, s, col.denom.id, col.nfts[j]);
    }
  }

  lemma HasClassSnoc(init: seq<Collection>, last: Collection, c: Id)
    ensures HasClass(init + [last], c) <==> HasClass(init, c) || c == last.denom.id
  {
    if HasClass(init, c) { var j :| 0 <= j < |init| && init[j].denom.id == c; assert (init + [last])[j].denom.id == c; }
    if c == last.denom.id { assert (init + [last])[|init|].denom.id == c; }
  }

  lemma HasClassAt(cs: seq<Collection>, i: nat)
    requires i < |cs|
    ensures HasClass(cs, cs[i].denom.id)
  {
  }

  lemma HoldsSnoc(e: Env, s: Store, s': Store, init: seq<Collection>, last: Collection)
    requires Holds(e, s, init) && Consistent(s') && Carried(e, s', last) && Beside(s, s', last.denom.id)
    requires !HasClass(init, last.denom.id)
    ensures Holds(e, s', init + [last])
  {
    hide Carried, HasClass, Consistent;
    CarriedHasClass(e, s', last);
    forall c ensures c in s'.classes <==> HasClass(init + [last], c) { HasClassSnoc(init, last, c); }
    forall i | 0 <= i < |init + [last]| ensures Carried(e, s', (init + [last])[i]) {
      if i < |init| {
        HasClassAt(init, i);
        CarriedBeside(e, s, s', last.denom.id, init[i]);
      }
    }
  }

  lemma CarriedHasClass(e: Env, s: Store, c: Collection)
    requires Carried(e, s, c)
    ensures c.denom.id in s.classes
  {
  }

  lemma GenesisOkInit(e: Env, cs: seq<Collection>)
    requires GenesisOk(e, cs) && cs != []
    ensures var init, last := cs[..|cs| - 1], cs[|cs| - 1];
            init + [last] == cs && GenesisOk(e, init) && CollectionOk(e, last) && !HasClass(init, last.denom.id)
  {
    hide CollectionOk;
  }

  /** A genesis that validates is imported whole: the store then holds it and nothing else. */
  lemma {:induction false} ValidImports(e: Env, cs: seq<Collection>)
    requires e.Lawful() && GenesisOk(e, cs)
    ensures var r := CollectionsImported(e, EMPTY_STORE, cs); r.Done? && Holds(e, r.value, cs)
  {
    hide GenesisOk, CollectionOk, CollectionImported, Consistent, Carried, Beside, HasClass, Env.Lawful, Holds;
    if cs == [] {
      EmptyHolds(e);
    } else {
      var init, last := cs[..|cs| - 1], cs[|cs| - 1];
      GenesisOkInit(e, cs);
      ValidImports(e, init);
      var s1 := CollectionsImported(e, EMPTY_STORE, init).value;
      HoldsClass(e, s1, init, last.denom.id);
      CollectionImport(e, s1, last);
      HoldsSnoc(e, s1, CollectionsImported(e, EMPTY_STORE, cs).value, init, last);
    }
  }

  lemma EmptyHolds(e: Env)
    ensures Holds(e, EMPTY_STORE, [])
  {
    EmptyConsistent();
  }

  lemma HoldsClass(e: Env, s: Store, cs: seq<Collection>, c: Id)
    requires Holds(e, s, cs)
    ensures Consistent(s) && (c in s.classes <==> HasClass(cs, c))
  {
  }

  /** On an empty chain, InitGenesis succeeds exactly on what ValidateGenesis accepts. */
  method StartChain(env: Env, cs: seq<Collection>) returns (k: Keeper, ok: bool)
    requires env.Lawful()
    ensures ok <==> GenesisOk(env, cs)
    ensures ok ==> Holds(env, k.nk.s, cs)
  {
    hide GenesisOk, Holds, Env.Lawful;
    k := Keeper.NewKeeper(env);
    var r := InitGenesis(k, cs);
    if GenesisOk(env, cs) { ValidImports(env, cs); }
    ok := r.Done?;
  }

  // ------------------------------------------------- when an export validates

  ghost predicate TokenExportable(e: Env, s: Store, k: Key)
    requires k in s.tokens
  {
    TokenIdOk(k.cls, k.token) && e.uriOk(s.tokens[k].uri) && e.parseAddr(e.printAddr(GetOwner(s, k))).Some?
  }

  ghost predicate ClassExportable(e: Env, s: Store, c: Id)
    requires c in s.classes
  {
    var creator := RawDenom(s, c).creator;
    && c != [] && e.denomIdOk(c) && (creator == [] || e.parseAddr(creator).Some?)
    && (forall t | Key(c, t) in s.tokens :: TokenExportable(e, s, Key(c, t)))
  }

  /** What a store must offer; sizes, blobs and counters are not part of it. */
  ghost predicate Exportable(e: Env, s: Store)
  {
    forall c | c in s.classes :: ClassExportable(e, s, c)
  }

  lemma ClampedDenomIs(d: Denom)
    ensures var d' := ClampedDenom(d);
            && d' == d.(schema := d'.schema, data := d'.data) && DenomBoundsOk(d'.schema, d'.data)
            && ClampedDenom(d') == d' && BoundsIssue(d') == []
            && (BoundsIssue(d) == [] <==> d' == d)
  {
    hide Utf8.Clamped;
    Utf8.ClampedFits(d.schema, MAX_DENOM_SCHEMA_LEN);
    Utf8.ClampedFits(d.data, MAX_DENOM_DATA_LEN);
  }

  lemma RawDenomId(s: Store, c: Id)
    requires Filed(s) && c in s.classes
    ensures RawDenom(s, c).id == c && s.classes[c].id == c
  {
  }

  lemma NFTOkOf(e: Env, s: Store, k: Key)
    requires Filed(s) && k in s.tokens
    ensures BaseOf(e, s, k).id == k.token
    ensures NFTOk(e, k.cls, BaseOf(e, s, k)) <==> TokenExportable(e, s, k)
  {
  }

  lemma CollectionOfOk(e: Env, order: Order, s: Store, c: Id)
    requires Orderly(order) && Filed(s) && c in s.classes
    ensures CollectionOf(e, order, s, c).denom.id == c
    ensures CollectionOk(e, CollectionOf(e, order, s, c)) <==> ClassExportable(e, s, c)
  {
    hide RawDenom, ClampedDenom, BaseOf, NFTOk, TokenExportable, TokenIds, DenomBoundsOk, Filed, BoundsIssue;
    var col, ids := CollectionOf(e, order, s, c), order(TokenIds(s, c));
    RawDenomId(s, c);
    ClampedDenomIs(RawDenom(s, c));
    forall j | 0 <= j < |ids|
      ensures Key(c, ids[j]) in s.tokens && col.nfts[j] == BaseOf(e, s, Key(c, ids[j])) && col.nfts[j].id == ids[j]
      ensures NFTOk(e, c, col.nfts[j]) <==> TokenExportable(e, s, Key(c, ids[j]))
    {
      assert ids[j] in ids;
      NFTOkOf(e, s, Key(c, ids[j]));
    }
    if CollectionOk(e, col) {
      forall t | Key(c, t) in s.tokens ensures TokenExportable(e, s, Key(c, t)) {
        assert t in ids;
        var j :| 0 <= j < |ids| && ids[j] == t;
        assert NFTOk(e, c, col.nfts[j]);
      }
    }
  }

  /** An export of any store validates exactly when its ids, URIs and addresses do. */
  lemma ExportValidates(e: Env, order: Order, s: Store)
    requires Orderly(order) && Filed(s)
    ensures GenesisOk(e, Exported(e, order, s)) <==> Exportable(e, s)
  {
    hide CollectionOf, CollectionOk, ClassExportable, Filed;
    var ids, cs := order(s.classes.Keys), Exported(e, order, s);
    forall i | 0 <= i < |ids|
      ensures ids[i] in s.classes && cs[i].denom.id == ids[i]
      ensures CollectionOk(e, cs[i]) <==> ClassExportable(e, s, ids[i])
    {
      assert ids[i] in ids;
      CollectionOfOk(e, order, s, ids[i]);
    }
    if GenesisOk(e, cs) {
      forall c | c in s.classes ensures ClassExportable(e, s, c) {
        assert c in ids;
        var i :| 0 <= i < |ids| && ids[i] == c;
        assert CollectionOk(e, cs[i]);
      }
    }
  }

  // ------------------------------------------------- the way back

  /** A collection whose address texts have been parsed and printed once. */
  function Reprinted(e: Env, c: Collection): Collection
  {
    Collection(c.denom.(creator := Reprint(e, c.denom.creator)),
               seq(|c.nfts|, j requires 0 <= j < |c.nfts| => c.nfts[j].(owner := Reprint(e, c.nfts[j].owner))))
  }

  /** Every address text is the one its address prints as. */
  ghost predicate Canonical(e: Env, c: Collection)
  {
    && Reprint(e, c.denom.creator) == c.denom.creator
    && (forall j | 0 <= j < |c.nfts| :: Reprint(e, c.nfts[j].owner) == c.nfts[j].owner)
  }

  lemma ReprintedSame(e: Env, c: Collection)
    ensures Reprinted(e, c) == c <==> Canonical(e, c)
  {
    hide Reprint;
    var c' := Reprinted(e, c);
    if c' == c {
      forall j | 0 <= j < |c.nfts| ensures Reprint(e, c.nfts[j].owner) == c.nfts[j].owner {
        assert c'.nfts[j] == c.nfts[j].(owner := Reprint(e, c.nfts[j].owner));
      }
    }
    if Canonical(e, c) {
      assert c'.nfts == c.nfts;
    }
  }

  lemma {:induction false} CountKeys(xs: seq<Id>, c: Id, ks: set<Key>)
    requires forall i, j | 0 <= i < j < |xs| :: xs[i] != xs[j]
    requires forall k :: k in ks <==> k.cls == c && k.token in xs
    ensures |ks| == |xs|
  {
    if xs == [] {
      assert ks == {};
    } else {
      var init, x := xs[..|xs| - 1], xs[|xs| - 1];
      assert xs == init + [x];
      CountKeys(init, c, ks - {Key(c, x)});
      assert Key(c, x) in ks;
    }
  }

  /** A consistent store has the supply its export walk counts. */
  lemma NoSupplyIssue(order: Order, s: Store, c: Id)
    requires Orderly(order) && Consistent(s)
    ensures SupplyIssue(s, c, |order(TokenIds(s, c))|) == []
  {
    hide Filed, Owned, Counted, TokenIds;
    var ids := order(TokenIds(s, c));
    forall k ensures k in TokensOf(s, c) <==> k.cls == c && k.token in ids {
      assert k.cls == c ==> Key(c, k.token) == k;
    }
    CountKeys(ids, c, TokensOf(s, c));
    CountedAt(s, c);
  }

  lemma ReexportDenom(e: Env, s: Store, d: Denom)
    requires d.id in s.classes && s.classes[d.id] == ClassFrom(e, d) && ClampedDenom(d) == d
    ensures ClampedDenom(RawDenom(s, d.id)) == d.(creator := Reprint(e, d.creator))
    ensures MetadataIssue(s.classes[d.id]) + BoundsIssue(RawDenom(s, d.id)) == []
  {
    hide Utf8.Clamped;
    ClampedDenomIs(RawDenom(s, d.id));
    assert ClampedDenom(RawDenom(s, d.id)).schema == ClampedDenom(d).schema;
  }

  lemma ReexportToken(e: Env, s: Store, c: Id, n: BaseNFT)
    requires Stored(e, s, c, n)
    ensures BaseOf(e, s, Key(c, n.id)) == n.(owner := Reprint(e, n.owner))
  {
  }

  /** A class imported from an export is exported the same again, and nothing about it is reported. */
  lemma Reexport(e: Env, order: Order, s: Store, s': Store, c: Id)
    requires Orderly(order) && Filed(s) && c in s.classes && Consistent(s')
    requires Carried(e, s', CollectionOf(e, order, s, c))
    ensures c in s'.classes && TokenIds(s', c) == TokenIds(s, c)
    ensures CollectionOf(e, order, s', c) == Reprinted(e, CollectionOf(e, order, s, c))
    ensures IssuesOf(order, s', c) == []
  {
    hide Filed, Owned, Counted, TokenIds, RawDenom, ClampedDenom, MetadataIssue, BoundsIssue, SupplyIssue, BaseOf, Stored, Reprint, ClassFrom;
    var col, ids := CollectionOf(e, order, s, c), order(TokenIds(s, c));
    CollectionOfOk(e, order, s, c);
    ClampedDenomIs(RawDenom(s, c));
    SameIds(e, order, s, s', c);
    RawDenomId(s, c);
    RawDenomId(s', c);
    ReexportDenom(e, s', col.denom);
    NoSupplyIssue(order, s', c);
    var again := CollectionOf(e, order, s', c);
    forall j | 0 <= j < |ids| ensures again.nfts[j] == Reprinted(e, col).nfts[j] {
      assert Stored(e, s', c, col.nfts[j]);
      BaseAt(e, order, s, c, j);
      ReexportToken(e, s', c, col.nfts[j]);
    }
  }

  lemma BaseAt(e: Env, order: Order, s: Store, c: Id, j: nat)
    requires Orderly(order) && Filed(s) && c in s.classes && j < |order(TokenIds(s, c))|
    ensures var t := order(TokenIds(s, c))[j];
            Key(c, t) in s.tokens && CollectionOf(e, order, s, c).nfts[j] == BaseOf(e, s, Key(c, t)) && BaseOf(e, s, Key(c, t)).id == t
  {
    hide RawDenom, ClampedDenom, TokenIds;
    assert order(TokenIds(s, c))[j] in order(TokenIds(s, c));
  }

  lemma SameIds(e: Env, order: Order, s: Store, s': Store, c: Id)
    requires Orderly(order) && Filed(s) && c in s.classes
    requires TokensHeld(e, s', c, CollectionOf(e, order, s, c).nfts)
    ensures TokenIds(s', c) == TokenIds(s, c)
  {
    hide Filed, TokenIds, CollectionOf, BaseOf, Stored;
    var nfts, ids := CollectionOf(e, order, s, c).nfts, order(TokenIds(s, c));
    CollectionLen(e, order, s, c);
    forall t ensures t in TokenIds(s', c) <==> t in TokenIds(s, c) {
      if t in TokenIds(s, c) {
        assert t in ids;
        var j :| 0 <= j < |ids| && ids[j] == t;
        BaseAt(e, order, s, c, j);
        HasTokenAt(nfts, j);
      }
      if t in TokenIds(s', c) {
        assert HasToken(nfts, t);
        var j :| 0 <= j < |nfts| && nfts[j].id == t;
        BaseAt(e, order, s, c, j);
      }
    }
  }

  lemma CollectionLen(e: Env, order: Order, s: Store, c: Id)
    requires Orderly(order) && Filed(s) && c in s.classes
    ensures |CollectionOf(e, order, s, c).nfts| == |order(TokenIds(s, c))|
  {
    hide RawDenom, ClampedDenom, TokenIds;
  }

  lemma {:induction false} NoIssues(order: Order, s: Store, ids: seq<Id>)
    requires forall c | c in ids :: c in s.classes && IssuesOf(order, s, c) == []
    ensures AllIssues(order, s, ids) == []
  {
    if ids != [] { NoIssues(order, s, ids[..|ids| - 1]); }
  }

  /** The genesis as it comes back out of a chain started from it. */
  function AllReprinted(e: Env, cs: seq<Collection>): seq<Collection>
  {
    seq(|cs|, i requires 0 <= i < |cs| => Reprinted(e, cs[i]))
  }

  lemma SameClasses(e: Env, order: Order, s: Store, s': Store)
    requires Orderly(order) && Filed(s) && Holds(e, s', Exported(e, order, s))
    ensures s'.classes.Keys == s.classes.Keys
  {
    hide Filed, CollectionOf, Carried, Consistent;
    var cs, ids := Exported(e, order, s), order(s.classes.Keys);
    forall c ensures c in s'.classes <==> c in s.classes {
      if c in s.classes {
        assert c in ids;
        var i :| 0 <= i < |ids| && ids[i] == c;
        CollectionOfOk(e, order, s, c);
        HasClassAt(cs, i);
      }
      if c in s'.classes {
        assert HasClass(cs, c);
        var i :| 0 <= i < |cs| && cs[i].denom.id == c;
        assert ids[i] in ids;
        CollectionOfOk(e, order, s, ids[i]);
      }
    }
  }

  lemma ExportedAt(e: Env, order: Order, s: Store, s': Store, c: Id)
    requires Orderly(order) && Filed(s) && Holds(e, s', Exported(e, order, s)) && c in s.classes
    ensures Carried(e, s', CollectionOf(e, order, s, c))
  {
    hide Filed, CollectionOf, Carried, Consistent, HasClass;
    var ids := order(s.classes.Keys);
    assert c in ids;
    var i :| 0 <= i < |ids| && ids[i] == c;
    assert Carried(e, s', Exported(e, order, s)[i]);
  }

  lemma ReexportAll(e: Env, order: Order, s: Store, s': Store)
    requires Orderly(order) && Filed(s) && Holds(e, s', Exported(e, order, s))
    ensures Exported(e, order, s') == AllReprinted(e, Exported(e, order, s))
    ensures Reported(order, s') == []
  {
    hide Filed, CollectionOf, Carried, HasClass, IssuesOf, Holds, Reprinted, TokenIds, Consistent;
    var ids := order(s.classes.Keys);
    SameClasses(e, order, s, s');
    forall c | c in ids ensures c in s'.classes && IssuesOf(order, s', c) == []
      ensures CollectionOf(e, order, s', c) == Reprinted(e, CollectionOf(e, order, s, c))
    {
      HoldsClass(e, s', Exported(e, order, s), c);
      ExportedAt(e, order, s, s', c);
      Reexport(e, order, s, s', c);
    }
    NoIssues(order, s', ids);
  }

  /** Whatever blobs and counters a store has, its export starts a healthy chain that exports the same again. */
  lemma RoundTrip(e: Env, order: Order, s: Store)
    requires e.Lawful() && Orderly(order) && Filed(s) && Exportable(e, s)
    ensures var r, g := CollectionsImported(e, EMPTY_STORE, Exported(e, order, s)), Exported(e, order, s);
            && r.Done? && Consistent(r.value) && Reported(order, r.value) == []
            && Exported(e, order, r.value) == AllReprinted(e, g)
            && (Exported(e, order, r.value) == g <==> forall i | 0 <= i < |g| :: Canonical(e, g[i]))
  {
    hide Filed, Exported, Holds, Exportable, GenesisOk, Reported, Canonical, Reprinted, Env.Lawful, Consistent;
    var g := Exported(e, order, s);
    ExportValidates(e, order, s);
    ValidImports(e, g);
    var s' := CollectionsImported(e, EMPTY_STORE, g).value;
    HoldsClass(e, s', g, []);
    ReexportAll(e, order, s, s');
    forall i | 0 <= i < |g| ensures Reprinted(e, g[i]) == g[i] <==> Canonical(e, g[i]) { ReprintedSame(e, g[i]); }
    if AllReprinted(e, g) == g {
      forall i | 0 <= i < |g| ensures Canonical(e, g[i]) { assert AllReprinted(e, g)[i] == Reprinted(e, g[i]); }
    }
  }

  // ------------------------------------------------- when nothing is lost

  /** Two stores no query can tell apart. */
  ghost predicate SameStore(s: Store, s': Store)
  {
    && s.classes == s'.classes && s.tokens == s'.tokens && s.owners == s'.owners && s.held == s'.held
    && (forall c :: GetTotalSupply(s, c) == GetTotalSupply(s', c))
  }

  /** Nothing is reported, every blob is proper metadata, and addresses survive their text form. */
  ghost predicate Lossless(e: Env, order: Order, s: Store)
    requires Orderly(order)
  {
    && Consistent(s) && Reported(order, s) == []
    && (forall c | c in s.classes :: ClassSurvives(e, s, c))
    && (forall k | k in s.tokens :: TokenSurvives(e, s, k))
  }

  ghost predicate ClassSurvives(e: Env, s: Store, c: Id)
    requires c in s.classes
  {
    var creator := RawDenom(s, c).creator;
    Reprint(e, creator) == creator && !s.classes[c].data.ForeignClassData?
  }

  ghost predicate TokenSurvives(e: Env, s: Store, k: Key)
    requires k in s.tokens
  {
    s.tokens[k].data.TokenMeta? && e.parseAddr(e.printAddr(GetOwner(s, k))) == Some(GetOwner(s, k))
  }

  lemma {:induction false} NoIssuesAt(order: Order, s: Store, ids: seq<Id>, c: Id)
    requires (forall x | x in ids :: x in s.classes) && AllIssues(order, s, ids) == [] && c in ids
    ensures IssuesOf(order, s, c) == []
  {
    hide IssuesOf;
    var init, last := ids[..|ids| - 1], ids[|ids| - 1];
    assert ids == init + [last];
    if c != last { NoIssuesAt(order, s, init, c); }
  }

  /** A class comes back as it was exactly when nothing about its metadata is reported, its blob has the right type and its creator survives. */
  lemma ClassRestored(e: Env, s: Store, c: Id)
    requires Filed(s) && c in s.classes
    ensures ClassFrom(e, ClampedDenom(RawDenom(s, c))) == s.classes[c]
            <==> MetadataIssue(s.classes[c]) + BoundsIssue(RawDenom(s, c)) == [] && ClassSurvives(e, s, c)
  {
    hide BoundsIssue, ClampedDenom, Reprint;
    ClampedDenomIs(RawDenom(s, c));
  }

  lemma TokenRestored(e: Env, s: Store, s': Store, k: Key)
    requires Filed(s) && k in s.tokens && Stored(e, s', k.cls, BaseOf(e, s, k))
    ensures k in s'.tokens
    ensures s'.tokens[k] == s.tokens[k] && GetOwner(s', k) == GetOwner(s, k) <==> TokenSurvives(e, s, k)
  {
  }

  lemma TokenStored(e: Env, order: Order, s: Store, s': Store, k: Key)
    requires Orderly(order) && Filed(s) && k in s.tokens && Holds(e, s', Exported(e, order, s))
    ensures Stored(e, s', k.cls, BaseOf(e, s, k))
  {
    hide Exported, Holds, CollectionOf, Stored, TokenIds, BaseOf;
    ExportedAt(e, order, s, s', k.cls);
    var ids := order(TokenIds(s, k.cls));
    assert Key(k.cls, k.token) == k;
    assert k.token in ids;
    var j :| 0 <= j < |ids| && ids[j] == k.token;
    BaseAt(e, order, s, k.cls, j);
    CollectionLen(e, order, s, k.cls);
    CollectionOfOk(e, order, s, k.cls);
    assert Stored(e, s', k.cls, CollectionOf(e, order, s, k.cls).nfts[j]);
  }

  lemma ClassStored(e: Env, order: Order, s: Store, s': Store, c: Id)
    requires Orderly(order) && Filed(s) && c in s.classes && Holds(e, s', Exported(e, order, s))
    ensures c in s'.classes && s'.classes[c] == ClassFrom(e, ClampedDenom(RawDenom(s, c)))
  {
    hide Exported, Holds, ClassFrom, ClampedDenom, RawDenom, TokensHeld, TokenIds, BasesOf;
    ExportedAt(e, order, s, s', c);
    CollectionOfOk(e, order, s, c);
  }

  lemma SameKeys(e: Env, order: Order, s: Store, s': Store, k: Key)
    requires Orderly(order) && Filed(s) && Holds(e, s', Exported(e, order, s))
    ensures k in s'.tokens <==> k in s.tokens
  {
    hide Exported, Holds, CollectionOf, TokenIds, Stored, BaseOf, HasClass;
    if k in s.tokens {
      TokenStored(e, order, s, s', k);
      NFTOkOf(e, s, k);
      StoredAt(e, s', k.cls, BaseOf(e, s, k));
      assert Key(k.cls, k.token) == k;
    }
    if k in s'.tokens {
      HoldsClass(e, s', Exported(e, order, s), k.cls);
      SameClasses(e, order, s, s');
      ExportedAt(e, order, s, s', k.cls);
      CollectionOfOk(e, order, s, k.cls);
      SameIds(e, order, s, s', k.cls);
      assert Key(k.cls, k.token) == k;
      assert k.token in TokenIds(s', k.cls);
    }
  }

  lemma StoredAt(e: Env, s: Store, c: Id, n: BaseNFT)
    requires Stored(e, s, c, n)
    ensures Key(c, n.id) in s.tokens
  {
  }

  lemma LosslessRestores(e: Env, order: Order, s: Store, s': Store)
    requires Orderly(order) && Lossless(e, order, s) && Holds(e, s', Exported(e, order, s))
    ensures SameStore(s', s)
  {
    hide Filed, Counted, Owned, Carried, HasClass, CollectionOf, Exported, ClassFrom, ClampedDenom, RawDenom, TokenIds, ClassSurvives, TokenSurvives, Stored, MetadataIssue, BoundsIssue, BaseOf;
    SameClasses(e, order, s, s');
    forall c | c in s.classes ensures s'.classes[c] == s.classes[c] {
      ClassStored(e, order, s, s', c);
      NoIssuesAt(order, s, order(s.classes.Keys), c);
      ClassRestored(e, s, c);
    }
    forall k ensures k in s'.tokens <==> k in s.tokens { SameKeys(e, order, s, s', k); }
    forall k | k in s.tokens ensures s'.tokens[k] == s.tokens[k] && GetOwner(s', k) == GetOwner(s, k) {
      TokenStored(e, order, s, s', k);
      TokenRestored(e, s, s', k);
    }
    SameIndex(s, s');
  }

  /** In consistent stores the ownership index and the counters follow from the tokens and their owners. */
  lemma SameIndex(s: Store, s': Store)
    requires Consistent(s) && Consistent(s') && s'.tokens == s.tokens
    requires forall k | k in s.tokens :: GetOwner(s', k) == GetOwner(s, k)
    ensures s'.owners == s.owners && s'.held == s.held && forall c :: GetTotalSupply(s', c) == GetTotalSupply(s, c)
  {
    hide Filed;
    assert s'.owners.Keys == s.owners.Keys;
    forall k | k in s.owners ensures s'.owners[k] == s.owners[k] { assert GetOwner(s', k) == GetOwner(s, k); }
    forall c ensures GetTotalSupply(s', c) == GetTotalSupply(s, c) { assert TokensOf(s', c) == TokensOf(s, c); }
  }

  lemma SameConsistent(s: Store, s': Store)
    requires SameStore(s', s) && Consistent(s')
    ensures Consistent(s)
  {
    forall c ensures GetTotalSupply(s, c) == |TokensOf(s, c)| % TWO64 { assert TokensOf(s', c) == TokensOf(s, c); }
  }

  lemma RestoredIsLossless(e: Env, order: Order, s: Store, s': Store)
    requires Orderly(order) && Filed(s) && Holds(e, s', Exported(e, order, s)) && SameStore(s', s)
    ensures Lossless(e, order, s)
  {
    hide Filed, Counted, Owned, Carried, HasClass, CollectionOf, Exported, ClassFrom, ClampedDenom, RawDenom, TokenIds, ClassSurvives, TokenSurvives, Stored, MetadataIssue, BoundsIssue, BaseOf, SupplyIssue;
    SameConsistent(s, s');
    forall c | c in s.classes ensures ClassSurvives(e, s, c) && IssuesOf(order, s, c) == [] {
      ClassStored(e, order, s, s', c);
      ClassRestored(e, s, c);
      RawDenomId(s, c);
      NoSupplyIssue(order, s, c);
    }
    NoIssues(order, s, order(s.classes.Keys));
    forall k | k in s.tokens ensures TokenSurvives(e, s, k) {
      TokenStored(e, order, s, s', k);
      TokenRestored(e, s, s', k);
    }
  }

  /** Export then import gives the same store back exactly when nothing was lost on the way. */
  lemma RestoresExactly(e: Env, order: Order, s: Store)
    requires e.Lawful() && Orderly(order) && Filed(s) && Exportable(e, s)
    ensures var r := CollectionsImported(e, EMPTY_STORE, Exported(e, order, s));
            r.Done? && (SameStore(r.value, s) <==> Lossless(e, order, s))
  {
    hide Filed, Exported, Holds, Exportable, GenesisOk, Env.Lawful, SameStore, Lossless;
    ExportValidates(e, order, s);
    ValidImports(e, Exported(e, order, s));
    var s' := CollectionsImported(e, EMPTY_STORE, Exported(e, order, s)).value;
    if Lossless(e, order, s) { LosslessRestores(e, order, s, s'); }
    if SameStore(s', s) { RestoredIsLossless(e, order, s, s'); }
  }

  // ------------------------------------------------- what an export carries

  /** Whatever the state of its blob, an exported class keeps the fields outside it; an undecodable blob reads as none. */
  lemma ExportKeepsClass(e: Env, order: Order, s: Store, c: Id)
    requires Orderly(order) && Filed(s) && c in s.classes
    ensures var d, cls := CollectionOf(e, order, s, c).denom, s.classes[c];
            && d.id == c && d.name == cls.name && d.symbol == cls.symbol && d.description == cls.description
            && d.uri == cls.uri && d.uriHash == cls.uriHash
            && (cls.data.GarbledClassData? || cls.data.NoClassData? ==>
                  d.creator == [] && d.schema == [] && d.data == [] && !d.mintRestricted && !d.updateRestricted)
            && (cls.data.ForeignClassData? || cls.data.ClassMeta? ==>
                  && d.creator == cls.data.meta.creator
                  && d.mintRestricted == cls.data.meta.mintRestricted && d.updateRestricted == cls.data.meta.updateRestricted
                  && d.schema == Utf8.Clamped(cls.data.meta.schema, 8192).0 && d.data == Utf8.Clamped(cls.data.meta.data, 65536).0)
  {
    hide Utf8.Clamped, TokenIds, BasesOf;
    Utf8.ClampedFits([], 8192);
    Utf8.ClampedFits([], 65536);
    assert Utf8.Valid([]);
  }

  /** An exported token has the fields of the stored one and the text of its owner; name and data are those of a blob that decodes. */
  lemma ExportKeepsToken(e: Env, order: Order, s: Store, k: Key)
    requires Orderly(order) && Filed(s) && k in s.tokens
    ensures exists j | 0 <= j < |CollectionOf(e, order, s, k.cls).nfts| ::
              var n, t := CollectionOf(e, order, s, k.cls).nfts[j], s.tokens[k];
              && n.id == k.token && n.uri == t.uri && n.uriHash == t.uriHash && n.owner == e.printAddr(GetOwner(s, k))
              && (t.data.TokenMeta? || t.data.ForeignTokenData? ==> n.name == t.data.meta.name && n.data == t.data.meta.data)
              && (t.data.NoTokenData? || t.data.GarbledTokenData? ==> n.name == [] && n.data == [])
  {
    hide RawDenom, ClampedDenom, TokenIds;
    var ids := order(TokenIds(s, k.cls));
    assert Key(k.cls, k.token) == k;
    assert k.token in ids;
    var j :| 0 <= j < |ids| && ids[j] == k.token;
    BaseAt(e, order, s, k.cls, j);
    CollectionLen(e, order, s, k.cls);
    var n := CollectionOf(e, order, s, k.cls).nfts[j];
    assert n == BaseOf(e, s, k);
  }

  /** Each kind of issue is reported for a class exactly when it is there. */
  lemma ReportedExactly(order: Order, s: Store, c: Id)
    requires Orderly(order) && Filed(s) && c in s.classes
    ensures var issues, data := IssuesOf(order, s, c), s.classes[c].data;
            && (Issue(c, ClassMetadataMissing) in issues <==> data.NoClassData?)
            && (Issue(c, ClassMetadataUndecodable) in issues <==> data.GarbledClassData?)
            && (Issue(c, ClassMetadataTooLarge) in issues
                <==> (data.ForeignClassData? || data.ClassMeta?)
                     && !(|data.meta.schema| <= 8192 && Utf8.Valid(data.meta.schema) && |data.meta.data| <= 65536 && Utf8.Valid(data.meta.data)))
            && (Issue(c, SupplyMismatch) in issues <==> GetTotalSupply(s, c) != |TokensOf(s, c)| % TWO64)
            && |issues| <= 3 && (forall x | x in issues :: x.classId == c)
  {
    hide Utf8.Clamped, Utf8.Valid, TokenIds;
    var d := RawDenom(s, c);
    Utf8.ClampedFits(d.schema, 8192);
    Utf8.ClampedFits(d.data, 65536);
    EmptyValid();
    TokensListed(order, s, c);
  }

  lemma EmptyValid()
    ensures Utf8.Valid([])
  {
  }

  lemma TokensListed(order: Order, s: Store, c: Id)
    requires Orderly(order)
    ensures |order(TokenIds(s, c))| == |TokensOf(s, c)|
  {
    hide TokenIds;
    var ids := order(TokenIds(s, c));
    forall k ensures k in TokensOf(s, c) <==> k.cls == c && k.token in ids {
      assert k.cls == c ==> Key(c, k.token) == k;
    }
    CountKeys(ids, c, TokensOf(s, c));
  }

  /** The report is the issues of every class, in store order. */
  lemma {:induction false} ReportedAll(order: Order, s: Store, ids: seq<Id>, x: Issue)
    requires forall c | c in ids :: c in s.classes
    ensures x in AllIssues(order, s, ids) <==> exists c :: c in ids && x in IssuesOf(order, s, c)
  {
    hide IssuesOf;
    if ids != [] {
      var init, last := ids[..|ids| - 1], ids[|ids| - 1];
      assert ids == init + [last];
      ReportedAll(order, s, init, x);
    }
  }
}
