/**
 Genesis of the collection module: an export that degrades and reports instead of failing,
 the validation of a genesis, and its import.
 */
module Genesis {
  import opened Options
  import opened Wire
  import opened Messages
  import opened NftStore
  import opened Ics721
  import opened CollectionKeeper
  import Utf8

  /** The order in which the store iterates over a set of keys; any fixed order will do. */
  type Order = set<Id> -> seq<Id>

  ghost predicate Orderly(order: Order)
  {
    forall ids: set<Id> :: Lists(order(ids), ids)
  }

  /** `xs` lists `ids`, each once. */
  ghost predicate Lists(xs: seq<Id>, ids: set<Id>)
  {
    (forall x :: x in xs <==> x in ids) && (forall i, j | 0 <= i < j < |xs| :: xs[i] != xs[j])
  }

  function TokenIds(s: Store, c: Id): (ids: set<Id>)
    ensures forall t :: t in ids <==> Key(c, t) in s.tokens
  {
    var ids := set k | k in s.tokens && k.cls == c :: k.token;
    assert forall t | t in ids :: Key(c, t) in s.tokens by {
      assert forall k | k in s.tokens && k.cls == c :: Key(c, k.token) == k;
    }
    ids
  }

  // ------------------------------------------------- export

  datatype IssueKind = ClassMetadataUndecodable | ClassMetadataMissing | ClassMetadataTooLarge | SupplyMismatch

  datatype Issue = Issue(classId: Id, kind: IssueKind)

  /** A token as the genesis carries it; a blob that is missing or does not decode counts as empty. */
  function BaseOf(e: Env, s: Store, k: Key): BaseNFT
    requires k in s.tokens
  {
    var t := s.tokens[k];
    var meta := if TokenMetaRead(t).Done? then TokenMetaRead(t).value else NO_NFT_METADATA;
    BaseNFT(t.id, meta.name, t.uri, meta.data, e.printAddr(GetOwner(s, Key(k.cls, t.id))), t.uriHash)
  }

  function BasesOf(e: Env, s: Store, c: Id, ids: seq<Id>): seq<BaseNFT>
    requires forall t | t in ids :: Key(c, t) in s.tokens
  {
    seq(|ids|, i requires 0 <= i < |ids| => BaseOf(e, s, Key(c, ids[i])))
  }

  /** denomFromClass */
  function DenomFromClass(c: Class): Denom
  {
    Denom(c.id, c.name, [], [], c.symbol, false, false, c.description, c.uri, c.uriHash, [])
  }

  /** The class record before clamping: the undecodable blob is dropped, the class is not. */
  function RawDenom(s: Store, c: Id): Denom
    requires c in s.classes
  {
    match DenomInfo(s, s.classes[c].id)
    case Done(d) => d
    case Fail(_) => DenomFromClass(s.classes[c])
  }

  function ClampedDenom(d: Denom): Denom
  {
    d.(schema := Utf8.Clamped(d.schema, MAX_DENOM_SCHEMA_LEN).0, data := Utf8.Clamped(d.data, MAX_DENOM_DATA_LEN).0)
  }

  function CollectionOf(e: Env, order: Order, s: Store, c: Id): Collection
    requires Orderly(order) && c in s.classes
  {
    var id := s.classes[c].id;
    Collection(ClampedDenom(RawDenom(s, c)), BasesOf(e, s, id, order(TokenIds(s, id))))
  }

  /** classMetadataIssue */
  function MetadataIssue(cls: Class): seq<Issue>
  {
    match cls.data
    case NoClassData => [Issue(cls.id, ClassMetadataMissing)]
    case GarbledClassData => [Issue(cls.id, ClassMetadataUndecodable)]
    case ForeignClassData(_) => []
    case ClassMeta(_) => []
  }

  /** classMetadataBoundsIssue */
  function BoundsIssue(d: Denom): seq<Issue>
  {
    if Utf8.Clamped(d.schema, MAX_DENOM_SCHEMA_LEN).1 || Utf8.Clamped(d.data, MAX_DENOM_DATA_LEN).1
    then [Issue(d.id, ClassMetadataTooLarge)] else []
  }

  /** supplyIssue: the stored counter against `uint64(len(nfts))`. */
  function SupplyIssue(s: Store, c: Id, held: nat): seq<Issue>
  {
    if GetTotalSupply(s, c) == held % TWO64 then [] else [Issue(c, SupplyMismatch)]
  }

  function IssuesOf(order: Order, s: Store, c: Id): seq<Issue>
    requires c in s.classes
  {
    var id := s.classes[c].id;
    MetadataIssue(s.classes[c]) + BoundsIssue(RawDenom(s, c)) + SupplyIssue(s, id, |order(TokenIds(s, id))|)
  }

  function CollectionsOf(e: Env, order: Order, s: Store, ids: seq<Id>): seq<Collection>
    requires Orderly(order) && forall c | c in ids :: c in s.classes
  {
    seq(|ids|, i requires 0 <= i < |ids| => CollectionOf(e, order, s, ids[i]))
  }

  function AllIssues(order: Order, s: Store, ids: seq<Id>): seq<Issue>
    requires forall c | c in ids :: c in s.classes
  {
    if ids == [] then [] else AllIssues(order, s, ids[..|ids| - 1]) + IssuesOf(order, s, ids[|ids| - 1])
  }

  function Exported(e: Env, order: Order, s: Store): seq<Collection>
    requires Orderly(order)
  {
    CollectionsOf(e, order, s, order(s.classes.Keys))
  }

  function Reported(order: Order, s: Store): seq<Issue>
    requires Orderly(order)
  {
    AllIssues(order, s, order(s.classes.Keys))
  }

  /** GetNFTs; it cannot fail, so no class is ever left out for its token list. */
  method GetNFTs(e: Env, order: Order, s: Store, c: Id) returns (nfts: seq<BaseNFT>)
    requires Orderly(order)
    ensures nfts == BasesOf(e, s, c, order(TokenIds(s, c)))
  {
    hide TokenIds;
    var ids := order(TokenIds(s, c));
    nfts := [];
    for i := 0 to |ids|
      invariant nfts == BasesOf(e, s, c, ids[..i])
    {
      var token := s.tokens[Key(c, ids[i])];
      var meta := NO_NFT_METADATA;
      if token.data.ForeignTokenData? || token.data.TokenMeta? { meta := token.data.meta; }
      var owner := e.printAddr(GetOwner(s, Key(c, token.id)));
      nfts := nfts + [BaseNFT(token.id, meta.name, token.uri, meta.data, owner, token.uriHash)];
    }
    assert ids[..|ids|] == ids;
  }

  /** GetCollectionsWithReport */
  method GetCollectionsWithReport(e: Env, order: Order, s: Store) returns (cs: seq<Collection>, issues: seq<Issue>)
    requires Orderly(order)
    ensures cs == Exported(e, order, s) && issues == Reported(order, s)
  {
    hide TokenIds, BasesOf, DenomInfo, RawDenom, ClampedDenom, MetadataIssue, BoundsIssue, SupplyIssue, CollectionOf, IssuesOf;
    var ids := order(s.classes.Keys);
    cs, issues := [], [];
    for i := 0 to |ids|
      invariant cs == CollectionsOf(e, order, s, ids[..i]) && issues == AllIssues(order, s, ids[..i])
    {
      var c, found := ExportClass(e, order, s, ids[i]);
      assert ids[..i + 1][..i] == ids[..i];
      cs := cs + [c];
      issues := issues + found;
    }
    assert ids[..|ids|] == ids;
  }

  /** One round of the export: the class is downgraded and reported, never dropped. */
  method ExportClass(e: Env, order: Order, s: Store, key: Id) returns (c: Collection, issues: seq<Issue>)
    requires Orderly(order) && key in s.classes
    ensures c == CollectionOf(e, order, s, key) && issues == IssuesOf(order, s, key)
  {
    hide TokenIds, Utf8.Clamped;
    var cls := s.classes[key];
    var nfts := GetNFTs(e, order, s, cls.id);
    var denom: Denom;
    var info := DenomInfo(s, cls.id);
    if info.Fail? { denom := DenomFromClass(cls); } else { denom := info.value; }
    issues := MetadataIssue(cls);
    var schema, cutSchema := Utf8.Clamp(denom.schema, MAX_DENOM_SCHEMA_LEN);
    var data, cutData := Utf8.Clamp(denom.data, MAX_DENOM_DATA_LEN);
    if cutSchema || cutData {
      issues := issues + [Issue(denom.id, ClassMetadataTooLarge)];
    }
    denom := denom.(schema := schema, data := data);
    issues := issues + SupplyIssue(s, cls.id, |nfts|);
    c := Collection(denom, nfts);
  }

  // ------------------------------------------------- validation

  const MIN_DENOM_LEN := 3
  const MAX_DENOM_LEN := 128

  /** ValidateTokenIDForDenom: vouchers may have short token ids. */
  predicate TokenIdOk(c: Id, t: Id)
  {
    (if IsIBCDenom(c) then 1 else MIN_DENOM_LEN) <= |t| <= MAX_DENOM_LEN && 0 !in t && 0x2f !in t
  }

  lemma TokenIdOkExactly(c: Id, t: Id)
    ensures TokenIdOk(c, t)
            <==> && |t| <= 128 && (if IsIBCDenom(c) then t != [] else |t| >= 3)
                 && forall i | 0 <= i < |t| :: t[i] != 0 && t[i] != '/' as int
  {
  }

  predicate NFTOk(e: Env, c: Id, n: BaseNFT)
  {
    e.parseAddr(n.owner).Some? && TokenIdOk(c, n.id) && e.uriOk(n.uri)
  }

  predicate DenomOk(e: Env, d: Denom)
  {
    && d.id != [] && e.denomIdOk(d.id) && (d.creator == [] || e.parseAddr(d.creator).Some?)
    && DenomBoundsOk(d.schema, d.data)
  }

  ghost predicate NFTsOk(e: Env, c: Id, nfts: seq<BaseNFT>)
  {
    && (forall j | 0 <= j < |nfts| :: NFTOk(e, c, nfts[j]))
    && (forall i, j | 0 <= i < j < |nfts| :: nfts[i].id != nfts[j].id)
  }

  ghost predicate CollectionOk(e: Env, c: Collection)
  {
    DenomOk(e, c.denom) && NFTsOk(e, c.denom.id, c.nfts)
  }

  ghost predicate GenesisOk(e: Env, cs: seq<Collection>)
  {
    && (forall i | 0 <= i < |cs| :: CollectionOk(e, cs[i]))
    && (forall i, j | 0 <= i < j < |cs| :: cs[i].denom.id != cs[j].denom.id)
  }

  /** ValidateGenesis returns an error, or dies on an owner that is no address. */
  datatype Verdict = Accepted | Rejected(why: Why) | Panicked

  /** Scanning the tokens in order, the first fault met is an owner that is no address. */
  ghost predicate OwnerPanics(e: Env, c: Id, nfts: seq<BaseNFT>)
  {
    exists k | 0 <= k < |nfts| :: NFTsOk(e, c, nfts[..k]) && e.parseAddr(nfts[k].owner).None?
  }

  /** The same for the whole genesis. */
  ghost predicate GenesisPanics(e: Env, cs: seq<Collection>)
  {
    exists k | 0 <= k < |cs| :: GenesisOk(e, cs[..k]) && HeadOk(e, cs, k) && OwnerPanics(e, cs[k].denom.id, cs[k].nfts)
  }

  /** The class record of a collection is valid and its id is new. */
  ghost predicate HeadOk(e: Env, cs: seq<Collection>, k: nat)
    requires k < |cs|
  {
    DenomOk(e, cs[k].denom) && forall i | 0 <= i < k :: cs[i].denom.id != cs[k].denom.id
  }

  lemma NFTsOkPrefix(e: Env, c: Id, nfts: seq<BaseNFT>, k: nat, n: nat)
    requires k <= n <= |nfts| && NFTsOk(e, c, nfts[..n])
    ensures NFTsOk(e, c, nfts[..k])
    ensures forall j | 0 <= j < n :: NFTOk(e, c, nfts[j])
  {
    assert forall j | 0 <= j < n :: nfts[..n][j] == nfts[j];
  }

  /** A scan that is fine up to `k` and ends there for another reason does not die. */
  lemma NoOwnerPanic(e: Env, c: Id, nfts: seq<BaseNFT>, k: nat)
    requires k <= |nfts| && NFTsOk(e, c, nfts[..k])
    requires k < |nfts| ==> e.parseAddr(nfts[k].owner).Some? && !NFTsOk(e, c, nfts[..k + 1])
    ensures !OwnerPanics(e, c, nfts)
  {
    hide NFTsOk;
    forall j | 0 <= j < |nfts| && NFTsOk(e, c, nfts[..j]) ensures e.parseAddr(nfts[j].owner).Some? {
      if j < k { NFTsOkPrefix(e, c, nfts, j, k); }
      if j > k { NFTsOkPrefix(e, c, nfts, k + 1, j); }
    }
  }

  lemma NoGenesisPanic(e: Env, cs: seq<Collection>, k: nat)
    requires k <= |cs| && GenesisOk(e, cs[..k])
    requires k < |cs| ==> !GenesisOk(e, cs[..k + 1]) && !(HeadOk(e, cs, k) && OwnerPanics(e, cs[k].denom.id, cs[k].nfts))
    ensures !GenesisPanics(e, cs)
  {
    hide GenesisOk, HeadOk, OwnerPanics;
    forall j | 0 <= j < |cs| && GenesisOk(e, cs[..j]) && HeadOk(e, cs, j)
      ensures !OwnerPanics(e, cs[j].denom.id, cs[j].nfts)
    {
      if j < k { GenesisOkPrefix(e, cs, j, k); }
      if j > k { GenesisOkPrefix(e, cs, k, j); }
    }
  }

  lemma GenesisOkPrefix(e: Env, cs: seq<Collection>, k: nat, n: nat)
    requires k < n <= |cs| && GenesisOk(e, cs[..n])
    ensures GenesisOk(e, cs[..k + 1]) && !OwnerPanics(e, cs[k].denom.id, cs[k].nfts)
  {
    hide CollectionOk, OwnerPanics;
    assert forall j | 0 <= j < n :: cs[..n][j] == cs[j];
    assert CollectionOk(e, cs[..n][k]);
    CollectionOkNoPanic(e, cs[k]);
  }

  lemma CollectionOkNoPanic(e: Env, c: Collection)
    requires CollectionOk(e, c)
    ensures !OwnerPanics(e, c.denom.id, c.nfts)
  {
    assert c.nfts[..|c.nfts|] == c.nfts;
    NoOwnerPanic(e, c.denom.id, c.nfts, |c.nfts|);
  }

  lemma NFTsOkSnoc(e: Env, c: Id, nfts: seq<BaseNFT>, k: nat)
    requires k < |nfts| && NFTsOk(e, c, nfts[..k])
    ensures NFTsOk(e, c, nfts[..k + 1]) <==> NFTOk(e, c, nfts[k]) && forall j | 0 <= j < k :: nfts[j].id != nfts[k].id
    ensures !NFTsOk(e, c, nfts[..k + 1]) ==> !NFTsOk(e, c, nfts)
  {
    hide NFTOk;
    var a, b := nfts[..k], nfts[..k + 1];
    assert b == a + [nfts[k]];
    assert forall j | 0 <= j < k :: b[j] == a[j] == nfts[j];
    assert b[k] == nfts[k];
    if NFTsOk(e, c, nfts) { assert nfts[..|nfts|] == nfts; NFTsOkPrefix(e, c, nfts, k + 1, |nfts|); }
  }

  /** The inner loop of ValidateGenesis. */
  method ValidateNFTs(e: Env, c: Id, nfts: seq<BaseNFT>) returns (v: Verdict)
    ensures v.Accepted? <==> NFTsOk(e, c, nfts)
    ensures v.Panicked? <==> OwnerPanics(e, c, nfts)
  {
    hide NFTsOk, OwnerPanics;
    var seen: set<Id> := {};
    NFTsOkNone(e, c);
    for k := 0 to |nfts|
      invariant forall x :: x in seen <==> exists j | 0 <= j < k :: nfts[j].id == x
      invariant NFTsOk(e, c, nfts[..k])
    {
      var n := nfts[k];
      NFTsOkSnoc(e, c, nfts, k);
      if e.parseAddr(n.owner).None? {
        PanicsAt(e, c, nfts, k);
        return Panicked;
      }
      if !(NFTOk(e, c, n) && n.id !in seen) { NoOwnerPanic(e, c, nfts, k); }
      if !TokenIdOk(c, n.id) { return Rejected(InvalidId); }
      if n.id in seen { return Rejected(Duplicate); }
      seen := seen + {n.id};
      if !e.uriOk(n.uri) { return Rejected(InvalidUri); }
    }
    assert nfts[..|nfts|] == nfts;
    NoOwnerPanic(e, c, nfts, |nfts|);
    return Accepted;
  }

  lemma NFTsOkNone(e: Env, c: Id)
    ensures NFTsOk(e, c, [])
  {
  }

  lemma PanicsAt(e: Env, c: Id, nfts: seq<BaseNFT>, k: nat)
    requires k < |nfts| && NFTsOk(e, c, nfts[..k]) && e.parseAddr(nfts[k].owner).None?
    ensures OwnerPanics(e, c, nfts)
  {
  }

  lemma GenesisOkSnoc(e: Env, cs: seq<Collection>, k: nat)
    requires k < |cs| && GenesisOk(e, cs[..k])
    ensures GenesisOk(e, cs[..k + 1]) <==> HeadOk(e, cs, k) && NFTsOk(e, cs[k].denom.id, cs[k].nfts)
    ensures !GenesisOk(e, cs[..k + 1]) ==> !GenesisOk(e, cs)
  {
    hide NFTsOk, DenomOk;
    var a, b := cs[..k], cs[..k + 1];
    assert b == a + [cs[k]];
    assert forall j | 0 <= j < k :: b[j] == a[j] == cs[j];
    assert b[k] == cs[k];
    if GenesisOk(e, cs) { assert cs[..|cs|] == cs; GenesisOkPrefix(e, cs, k, |cs|); }
  }

  lemma GenesisOkNone(e: Env)
    ensures GenesisOk(e, [])
  {
  }

  lemma GenesisPanicsAt(e: Env, cs: seq<Collection>, k: nat)
    requires k < |cs| && GenesisOk(e, cs[..k]) && HeadOk(e, cs, k) && OwnerPanics(e, cs[k].denom.id, cs[k].nfts)
    ensures GenesisPanics(e, cs)
  {
  }

  lemma HeadIs(e: Env, cs: seq<Collection>, k: nat)
    requires k < |cs|
    ensures HeadOk(e, cs, k) <==> DenomOk(e, cs[k].denom) && forall i | 0 <= i < k :: cs[i].denom.id != cs[k].denom.id
  {
  }

  /** ValidateGenesis */
  method ValidateGenesis(e: Env, cs: seq<Collection>) returns (v: Verdict)
    ensures v.Accepted? <==> GenesisOk(e, cs)
    ensures v.Panicked? <==> GenesisPanics(e, cs)
  {
    hide GenesisOk, GenesisPanics, HeadOk, OwnerPanics, NFTsOk;
    var seen: set<Id> := {};
    GenesisOkNone(e);
    for k := 0 to |cs|
      invariant forall x :: x in seen <==> exists j | 0 <= j < k :: cs[j].denom.id == x
      invariant GenesisOk(e, cs[..k])
    {
      var c := cs[k];
      GenesisOkSnoc(e, cs, k);
      HeadIs(e, cs, k);
      if !(DenomOk(e, c.denom) && c.denom.id !in seen) { NoGenesisPanic(e, cs, k); }
      if c.denom.id == [] { return Rejected(InvalidId); }
      if !e.denomIdOk(c.denom.id) { return Rejected(InvalidId); }
      if c.denom.id in seen { return Rejected(Duplicate); }
      seen := seen + {c.denom.id};
      if c.denom.creator != [] && e.parseAddr(c.denom.creator).None? { return Rejected(InvalidAddress); }
      if !DenomBoundsOk(c.denom.schema, c.denom.data) { return Rejected(TooLarge); }
      v := ValidateNFTs(e, c.denom.id, c.nfts);
      if v.Panicked? {
        GenesisPanicsAt(e, cs, k);
        PanicsIsBad(e, c.denom.id, c.nfts);
        return;
      }
      if v.Rejected? {
        NoGenesisPanic(e, cs, k);
        return;
      }
    }
    assert cs[..|cs|] == cs;
    NoGenesisPanic(e, cs, |cs|);
    return Accepted;
  }

  lemma PanicsIsBad(e: Env, c: Id, nfts: seq<BaseNFT>)
    requires OwnerPanics(e, c, nfts)
    ensures !NFTsOk(e, c, nfts)
  {
  }

  // ------------------------------------------------- import

  /** SaveCollection over the first tokens of a list. */
  function TokensImported(e: Env, s: Store, c: Id, nfts: seq<BaseNFT>): Outcome<Store>
  {
    if nfts == [] then Done(s)
    else
      var s1 :- TokensImported(e, s, c, nfts[..|nfts| - 1]);
      var n := nfts[|nfts| - 1];
      match e.parseAddr(n.owner)
      case None => Fail(InvalidAddress)
      case Some(owner) => NFTSaved(s1, Key(c, n.id), n.name, n.uri, n.uriHash, n.data, owner)
  }

  function CollectionImported(e: Env, s: Store, c: Collection): Outcome<Store>
  {
    var creator :- if c.denom.creator == [] then Done([])
                   else match e.parseAddr(c.denom.creator)
                        case None => Fail(InvalidAddress)
                        case Some(a) => Done(a);
    var s1 :- DenomSaved(e, s, c.denom, creator);
    TokensImported(e, s1, c.denom.id, c.nfts)
  }

  function CollectionsImported(e: Env, s: Store, cs: seq<Collection>): Outcome<Store>
  {
    if cs == [] then Done(s)
    else
      var s1 :- CollectionsImported(e, s, cs[..|cs| - 1]);
      CollectionImported(e, s1, cs[|cs| - 1])
  }

  /** InitGenesis: a refused genesis, on which the source panics, leaves the chain unstarted. */
  method InitGenesis(k: Keeper, cs: seq<Collection>) returns (r: Outcome<()>)
    modifies k.nk
    ensures r.Done? <==> GenesisOk(k.env, cs) && CollectionsImported(k.env, old(k.nk.s), cs).Done?
    ensures r.Done? ==> k.nk.s == CollectionsImported(k.env, old(k.nk.s), cs).value
  {
    hide GenesisOk, NFTSaved, DenomSaved;
    var v := ValidateGenesis(k.env, cs);
    if !v.Accepted? { return Fail(if v.Rejected? then v.why else InvalidAddress); }
    for i := 0 to |cs|
      invariant CollectionsImported(k.env, old(k.nk.s), cs[..i]) == Done(k.nk.s)
    {
      var c := cs[i];
      assert cs[..i + 1][..i] == cs[..i];
      r := ImportCollection(k, c);
      if r.Fail? {
        ImportFails(k.env, old(k.nk.s), cs, i + 1);
        return;
      }
    }
    assert cs[..|cs|] == cs;
    return Done(());
  }

  lemma {:induction false} ImportFails(e: Env, s: Store, cs: seq<Collection>, n: nat)
    requires n <= |cs| && CollectionsImported(e, s, cs[..n]).Fail?
    ensures CollectionsImported(e, s, cs).Fail?
  {
    hide CollectionImported;
    if n < |cs| {
      assert cs[..|cs| - 1][..n] == cs[..n];
      ImportFails(e, s, cs[..|cs| - 1], n);
    } else {
      assert cs[..n] == cs;
    }
  }

  method ImportCollection(k: Keeper, c: Collection) returns (r: Outcome<()>)
    modifies k.nk
    ensures match CollectionImported(k.env, old(k.nk.s), c)
            case Done(s') => r.Done? && k.nk.s == s'
            case Fail(_) => r.Fail?
  {
    hide NFTSaved, DenomSaved;
    var creator: Addr := [];
    if c.denom.creator != [] {
      var acc := k.env.parseAddr(c.denom.creator);
      if acc.None? { return Fail(InvalidAddress); }
      creator := acc.value;
    }
    r := k.SaveDenom(c.denom, creator);
    if r.Fail? { return; }
    r := SaveCollection(k, c);
  }

  /** SaveCollection: the first refused token stops it. */
  method SaveCollection(k: Keeper, c: Collection) returns (r: Outcome<()>)
    modifies k.nk
    ensures match TokensImported(k.env, old(k.nk.s), c.denom.id, c.nfts)
            case Done(s') => r.Done? && k.nk.s == s'
            case Fail(_) => r.Fail?
  {
    hide NFTSaved, TokensImported;
    NothingImported(k.env, k.nk.s, c.denom.id);
    for i := 0 to |c.nfts|
      invariant TokensImported(k.env, old(k.nk.s), c.denom.id, c.nfts[..i]) == Done(k.nk.s)
    {
      var n := c.nfts[i];
      NextImported(k.env, old(k.nk.s), c.denom.id, c.nfts, i);
      var owner := k.env.parseAddr(n.owner);
      if owner.None? {
        TokensFail(k.env, old(k.nk.s), c.denom.id, c.nfts, i + 1);
        return Fail(InvalidAddress);
      }
      r := k.SaveNFT(Key(c.denom.id, n.id), n.name, n.uri, n.uriHash, n.data, owner.value);
      if r.Fail? {
        TokensFail(k.env, old(k.nk.s), c.denom.id, c.nfts, i + 1);
        return;
      }
    }
    assert c.nfts[..|c.nfts|] == c.nfts;
    return Done(());
  }

  lemma NothingImported(e: Env, s: Store, c: Id)
    ensures TokensImported(e, s, c, []) == Done(s)
  {
  }

  lemma NextImported(e: Env, s: Store, c: Id, nfts: seq<BaseNFT>, i: nat)
    requires i < |nfts| && TokensImported(e, s, c, nfts[..i]).Done?
    ensures var n := nfts[i];
            TokensImported(e, s, c, nfts[..i + 1])
            == match e.parseAddr(n.owner)
               case None => Fail(InvalidAddress)
               case Some(owner) =>
                 NFTSaved(TokensImported(e, s, c, nfts[..i]).value, Key(c, n.id), n.name, n.uri, n.uriHash, n.data, owner)
  {
    hide NFTSaved;
    assert nfts[..i + 1][..i] == nfts[..i];
  }

  lemma {:induction false} TokensFail(e: Env, s: Store, c: Id, nfts: seq<BaseNFT>, n: nat)
    requires n <= |nfts| && TokensImported(e, s, c, nfts[..n]).Fail?
    ensures TokensImported(e, s, c, nfts).Fail?
  {
    hide NFTSaved;
    if n < |nfts| {
      assert nfts[..|nfts| - 1][..n] == nfts[..n];
      TokensFail(e, s, c, nfts[..|nfts| - 1], n);
    } else {
      assert nfts[..n] == nfts;
    }
  }
}
