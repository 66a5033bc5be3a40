/**
 Where the genesis laws end: blobs that are lost or retyped without a report, an address text
 that does not come back as it was, and a run whose export does not validate.
 */
module GenesisLimits {
  import opened Options
  import opened Wire
  import opened Messages
  import opened NftStore
  import opened Ics721
  import opened CollectionKeeper
  import opened Genesis
  import opened GenesisRoundTrip
  import opened InterNft
  import opened NftRuns
  import opened NftExports
  import opened Ics721Limits
  import Utf8

  const OWNER: Addr := [1]
  const UPPER: bytes := [0x41]
  const LOWER: bytes := [0x61]
  const CLASS: Id := [0x61, 0x62, 0x63]
  const TOKEN: Key := Key(CLASS, [0x74, 0x6f, 0x6b])

  /** One account, written in upper or lower case and printed in lower case; no other rules. */
  function SmallEnv(): Env
  {
    Env(x => if x == UPPER || x == LOWER then Some(OWNER) else None, a => if a == OWNER then LOWER else [],
        _ => true, _ => true, _ => true)
  }

  function OneClass(creator: bytes): Store
  {
    SaveClass(EMPTY_STORE, Class(CLASS, [], [], [], [], [], ClassMeta(DenomMetadata(creator, [], false, false, [])))).value
  }

  /** The class with one token whose blob does not decode. */
  function GarbledToken(): Store
  {
    Mint(OneClass([]), Token(CLASS, TOKEN.token, [], [], GarbledTokenData), OWNER).value
  }

  lemma SmallEnvLawful()
    ensures SmallEnv().Lawful()
  {
  }

  lemma StoresConsistent(creator: bytes)
    ensures Consistent(OneClass(creator)) && Consistent(GarbledToken())
  {
    hide Consistent, SaveClass, Mint;
    EmptyConsistent();
    SavesFresh(creator);
    SavesFresh([]);
    ClassesConsistent(EMPTY_STORE, Class(CLASS, [], [], [], [], [], ClassMeta(DenomMetadata(creator, [], false, false, []))));
    ClassesConsistent(EMPTY_STORE, Class(CLASS, [], [], [], [], [], ClassMeta(DenomMetadata([], [], false, false, []))));
    MintConsistent(OneClass([]), Token(CLASS, TOKEN.token, [], [], GarbledTokenData), OWNER);
  }

  lemma SavesFresh(creator: bytes)
    ensures SaveClass(EMPTY_STORE, Class(CLASS, [], [], [], [], [], ClassMeta(DenomMetadata(creator, [], false, false, [])))).Done?
    ensures Mint(OneClass([]), Token(CLASS, TOKEN.token, [], [], GarbledTokenData), OWNER).Done?
  {
  }

  lemma StoresExportable(creator: bytes)
    requires creator == [] || creator == UPPER
    ensures Exportable(SmallEnv(), OneClass(creator)) && Exportable(SmallEnv(), GarbledToken())
  {
  }

  lemma NothingReported(order: Order)
    requires Orderly(order)
    ensures Reported(order, GarbledToken()) == []
  {
    hide Consistent, TokenIds, SupplyIssue;
    var s := GarbledToken();
    StoresConsistent([]);
    NoSupplyIssue(order, s, CLASS);
    assert BoundsIssue(RawDenom(s, CLASS)) == [];
    NoIssues(order, s, order(s.classes.Keys));
  }

  /** A token blob that does not decode is exported as an empty one: nothing is reported, and the way back does not restore it. */
  lemma TokenBlobLostUnreported(order: Order)
    requires Orderly(order)
    ensures var e, s := SmallEnv(), GarbledToken();
            && e.Lawful() && Consistent(s) && Exportable(e, s) && Reported(order, s) == []
            && CollectionsImported(e, EMPTY_STORE, Exported(e, order, s)).Done?
            && !SameStore(CollectionsImported(e, EMPTY_STORE, Exported(e, order, s)).value, s)
  {
    hide Exported, Reported, SameStore, Owned, Counted, Exportable;
    var e, s := SmallEnv(), GarbledToken();
    SmallEnvLawful();
    StoresConsistent([]);
    StoresExportable([]);
    NothingReported(order);
    RestoresExactly(e, order, s);
    assert TOKEN in s.tokens && !TokenSurvives(e, s, TOKEN);
  }

  /** A creator in upper case comes back in lower case: the second export differs from the first. */
  lemma AddressTextChanges(order: Order)
    requires Orderly(order)
    ensures var e, s := SmallEnv(), OneClass(UPPER);
            var r := CollectionsImported(e, EMPTY_STORE, Exported(e, order, s));
            && e.Lawful() && Consistent(s) && Exportable(e, s) && r.Done? && Exported(e, order, r.value) != Exported(e, order, s)
  {
    hide Reported, Owned, Counted, Exportable, CollectionsImported, Exported;
    var e, s := SmallEnv(), OneClass(UPPER);
    SmallEnvLawful();
    StoresConsistent(UPPER);
    StoresExportable(UPPER);
    RoundTrip(e, order, s);
    var i := UpperCreator(order);
    assert !Canonical(e, Exported(e, order, s)[i]);
  }

  lemma UpperCreator(order: Order) returns (i: nat)
    requires Orderly(order)
    ensures var g := Exported(SmallEnv(), order, OneClass(UPPER)); i < |g| && g[i].denom.creator == UPPER
  {
    hide Utf8.Clamped, TokenIds;
    var s := OneClass(UPPER);
    var ids := order(s.classes.Keys);
    assert CLASS in ids;
    i :| 0 <= i < |ids| && ids[i] == CLASS;
  }

  /** The class with its metadata under another type URL. */
  function ForeignClass(): Store
  {
    SaveClass(EMPTY_STORE, Class(CLASS, [], [], [], [], [], ForeignClassData(DenomMetadata([], [], false, false, [])))).value
  }

  /** Class metadata under another type URL is read all the same: nothing is reported, and it comes back under its own. */
  lemma ForeignBlobRetypedUnreported(order: Order)
    requires Orderly(order)
    ensures var e, s := SmallEnv(), ForeignClass();
            && e.Lawful() && Consistent(s) && Exportable(e, s) && Reported(order, s) == []
            && CollectionsImported(e, EMPTY_STORE, Exported(e, order, s)).Done?
            && !SameStore(CollectionsImported(e, EMPTY_STORE, Exported(e, order, s)).value, s)
  {
    hide Exported, SameStore, Reported, Exportable, CollectionsImported, Owned, Counted;
    var e, s := SmallEnv(), ForeignClass();
    SmallEnvLawful();
    ForeignConsistent();
    ForeignExportable();
    ForeignUnreported(order);
    RestoresExactly(e, order, s);
    assert CLASS in s.classes && !ClassSurvives(e, s, CLASS);
  }

  lemma ForeignConsistent()
    ensures Consistent(ForeignClass())
  {
    hide Consistent;
    EmptyConsistent();
    ClassesConsistent(EMPTY_STORE, ForeignClass().classes[CLASS]);
  }

  lemma ForeignExportable()
    ensures Exportable(SmallEnv(), ForeignClass())
  {
  }

  lemma ForeignUnreported(order: Order)
    requires Orderly(order)
    ensures Reported(order, ForeignClass()) == []
  {
    hide Consistent, TokenIds, SupplyIssue;
    var s := ForeignClass();
    ForeignConsistent();
    NoSupplyIssue(order, s, CLASS);
    assert BoundsIssue(RawDenom(s, CLASS)) == [];
    NoIssues(order, s, order(s.classes.Keys));
  }

  /** An ICS-721 class and a token whose id has a slash: the callbacks take both, and the export no longer validates. */
  lemma SlashedTokenBlocksExport(order: Order)
    requires Orderly(order)
    ensures var e, c := SmallEnv(), SmallCodec();
            var w := After(e, c, START, IcsClass(VOUCHER, [], []));
            var s := After(e, c, w, IcsMint(Key(VOUCHER, [0x2f]), [], RAW, OWNER)).s;
            && e.Lawful() && Exportable(e, w.s) && Consistent(s) && Key(VOUCHER, [0x2f]) in s.tokens
            && !GenesisOk(e, Exported(e, order, s))
  {
    hide Exported, GenesisOk, Exportable, Owned, Counted, Filed, Parse, Render;
    var e, c := SmallEnv(), SmallCodec();
    var issue, mint := IcsClass(VOUCHER, [], []), IcsMint(Key(VOUCHER, [0x2f]), [], RAW, OWNER);
    var w := After(e, c, START, issue);
    SmallEnvLawful();
    ShortIsRaw(RAW);
    EmptyConsistent();
    NothingToExport(e);
    StepConsistent(e, c, START, issue);
    ExportableStep(e, c, START, issue);
    StepConsistent(e, c, w, mint);
    ExportableStep(e, c, w, mint);
    assert !TokenIdOk(VOUCHER, [0x2f]);
    ExportValidates(e, order, After(e, c, w, mint).s);
  }

  lemma NothingToExport(e: Env)
    ensures Exportable(e, EMPTY_STORE)
  {
  }

  /** Some order there is. */
  ghost function AnyOrder(ids: set<Id>): (xs: seq<Id>)
    ensures Lists(xs, ids)
  {
    if ids == {} then []
    else
      var x :| x in ids;
      [x] + AnyOrder(ids - {x})
  }

  lemma OrderExists()
    ensures Orderly(AnyOrder)
  {
  }
}
