/**
 Repair of the bank metadata of IBC vouchers, so that the ERC20 precompile reads the right
 decimals, and the companion that makes an exported genesis pass the bank module's own rules.
 */
module Voucher {
  import opened Options

  datatype DenomUnit = DenomUnit(denom: string, exponent: nat, aliases: seq<string>)

  /** A unit list may carry nil elements. */
  datatype Metadata = Metadata(
    description: string, units: seq<Option<DenomUnit>>, base: string, display: string,
    name: string, symbol: string, uri: string, uriHash: string)

  /**
   What the code calls but does not define: the SDK's denom syntax, blank test and alias
   test, and cosmos/evm's DeriveDecimalsFromDenom.
   */
  datatype Rules = Rules(
    validDenom: string -> bool, blank: string -> bool, aliasesOk: seq<string> -> bool,
    deriveDecimals: string -> Option<nat>)

  const VOUCHER_PREFIX := "ibc/"

  predicate IsVoucher(denom: string)
  {
    VOUCHER_PREFIX <= denom
  }

  // ------------------------------------------------- x/bank's Metadata.Validate

  predicate HasNilUnit(units: seq<Option<DenomUnit>>)
  {
    None in units
  }

  /**
   x/bank's Metadata.Validate: the first unit is the base with exponent 0, exponents strictly
   increase, no unit occurs twice, and Display is among the units.
   */
  predicate BankValid(r: Rules, md: Metadata)
    requires !HasNilUnit(md.units)
  {
    && !r.blank(md.name) && !r.blank(md.symbol)
    && r.validDenom(md.base) && r.validDenom(md.display)
    && |md.units| > 0 && md.units[0].value.denom == md.base && md.units[0].value.exponent == 0
    && (forall i, j | 0 <= i < j < |md.units| ::
          md.units[i].value.exponent < md.units[j].value.exponent && md.units[i].value.denom != md.units[j].value.denom)
    && (forall u | u in md.units :: r.validDenom(u.value.denom) && r.aliasesOk(u.value.aliases))
    && (exists u :: u in md.units && u.value.denom == md.display)
  }

  // ------------------------------------------------- the rewrite

  /** The part of `s` behind its last '/', or all of it. */
  function LastSegment(s: string): (t: string)
    ensures '/' !in t && |t| <= |s|
  {
    if '/' in s then LastSegment(s[1..]) else s
  }

  lemma {:induction false} LastSegmentOfPath(path: string, t: string)
    requires '/' !in t
    ensures LastSegment(path + "/" + t) == t
  {
    var s := path + "/" + t;
    assert s[|path|] == '/';
    if path == "" {
      assert s[1..] == t;
    } else {
      assert s[1..] == path[1..] + "/" + t;
      LastSegmentOfPath(path[1..], t);
    }
  }

  /** The first non-zero exponent recorded for `denom`. */
  function NonZeroUnitExponent(units: seq<Option<DenomUnit>>, denom: string): (r: Option<nat>)
    ensures r.Some? ==> r.value > 0
    ensures r.Some? ==> exists u :: u in units && u.Some? && u.value.denom == denom && u.value.exponent == r.value
    ensures r.None? <==> forall u | u in units && u.Some? :: !(u.value.denom == denom && u.value.exponent > 0)
  {
    if units == [] then None
    else if units[0].Some? && units[0].value.denom == denom && units[0].value.exponent > 0 then
      Some(units[0].value.exponent)
    else NonZeroUnitExponent(units[1..], denom)
  }

  datatype Rewrite = Rewritten(md: Metadata) | Unrepairable

  /** The shape the precompile and the bank module agree on. */
  function ShapeC(md: Metadata, source: string, decimals: nat): Metadata
  {
    md.(display := source, units := [Some(DenomUnit(md.base, 0, [])), Some(DenomUnit(source, decimals, []))])
  }

  function Decimals(r: Rules, md: Metadata, source: string): Option<nat>
  {
    var recorded := NonZeroUnitExponent(md.units, source);
    if recorded.Some? then recorded else r.deriveDecimals(source)
  }

  /** NormalizeVoucherMetadata */
  function Normalize(r: Rules, md: Metadata): Rewrite
  {
    var source := LastSegment(md.display);
    if HasNilUnit(md.units) || md.display == md.base || source == "" || source == md.base then Unrepairable
    else
      var decimals := Decimals(r, md, source);
      if decimals.None? then Unrepairable
      else
        var updated := ShapeC(md, source, decimals.value);
        if BankValid(r, updated) then Rewritten(updated) else Unrepairable
  }

  /** SameDenomUnits: order, denoms and exponents; aliases are not compared. */
  predicate SameUnits(a: seq<Option<DenomUnit>>, b: seq<Option<DenomUnit>>)
  {
    |a| == |b| && forall i | 0 <= i < |a| ::
      match (a[i], b[i])
      case (None, None) => true
      case (Some(x), Some(y)) => x.denom == y.denom && x.exponent == y.exponent
      case _ => false
  }

  /** Normalizing such a record writes nothing. */
  predicate Settled(r: Rules, md: Metadata)
  {
    match Normalize(r, md)
    case Unrepairable => true
    case Rewritten(u) => u.display == md.display && SameUnits(u.units, md.units)
  }

  /** What the ERC20 precompile reports: the exponent of the unit named by the last segment of Display. */
  function PrecompileDecimals(units: seq<Option<DenomUnit>>, display: string): Option<nat>
  {
    if units == [] then None
    else if units[0].Some? && units[0].value.denom == LastSegment(display) then Some(units[0].value.exponent)
    else PrecompileDecimals(units[1..], display)
  }

  lemma LastSegmentPlain(s: string)
    requires '/' !in s
    ensures LastSegment(s) == s
  {
  }

  /**
   Every accepted record comes out bank-valid, keeps its identity, and makes the precompile
   report a positive exponent: the one already recorded for the source denom, else the derived one.
   */
  lemma NormalizeSound(r: Rules, md: Metadata)
    requires Normalize(r, md).Rewritten?
    ensures var u := Normalize(r, md).md;
            && !HasNilUnit(u.units) && BankValid(r, u)
            && u == md.(display := u.display, units := u.units)
            && u.display == LastSegment(md.display)
            && PrecompileDecimals(u.units, u.display) == Decimals(r, md, u.display)
            && Decimals(r, md, u.display).Some? && Decimals(r, md, u.display).value > 0
            && |u.units| == 2 && u.units[1] == Some(DenomUnit(u.display, Decimals(r, md, u.display).value, []))
  {
    var u := Normalize(r, md).md;
    LastSegmentPlain(u.display);
    assert u.units[0].value.exponent < u.units[1].value.exponent;
    assert u.units[1..][0] == u.units[1];
    assert PrecompileDecimals(u.units, u.display) == PrecompileDecimals(u.units[1..], u.display);
  }

  /** The unit at `i` is the first that records a positive exponent for the denom. */
  ghost predicate FirstRecorded(units: seq<Option<DenomUnit>>, denom: string, i: nat)
  {
    i < |units| && Records(units[i], denom) && forall j | 0 <= j < i :: !Records(units[j], denom)
  }

  predicate Records(u: Option<DenomUnit>, denom: string)
  {
    u.Some? && u.value.denom == denom && u.value.exponent > 0
  }

  lemma {:induction false} FirstRecordedIs(units: seq<Option<DenomUnit>>, denom: string, i: nat)
    requires FirstRecorded(units, denom, i)
    ensures NonZeroUnitExponent(units, denom) == Some(units[i].value.exponent)
  {
    if i > 0 {
      assert !Records(units[0], denom);
      assert units[1..][i - 1] == units[i];
      FirstRecordedIs(units[1..], denom, i - 1);
    }
  }

  /** A recorded exponent wins over the derived one; the first positive one counts. Without one, the derived exponent is written. */
  lemma RecordedWins(r: Rules, md: Metadata)
    requires Normalize(r, md).Rewritten?
    ensures var source, u := LastSegment(md.display), Normalize(r, md).md.units;
            && |u| == 2 && u[0] == Some(DenomUnit(md.base, 0, [])) && u[1].Some? && u[1].value.denom == source && u[1].value.aliases == []
            && (forall i: nat | FirstRecorded(md.units, source, i) :: u[1].value.exponent == md.units[i].value.exponent)
            && ((forall x | x in md.units :: !Records(x, source)) ==> r.deriveDecimals(source) == Some(u[1].value.exponent))
  {
    var source := LastSegment(md.display);
    forall i: nat | FirstRecorded(md.units, source, i)
      ensures Normalize(r, md).md.units[1].value.exponent == md.units[i].value.exponent
    { FirstRecordedIs(md.units, source, i); }
    if forall x | x in md.units :: !Records(x, source) {
      assert forall x | x in md.units && x.Some? :: !(x.value.denom == source && x.value.exponent > 0);
    }
  }

  /** The record is accepted exactly when it has no nil unit, its display names a source other than its base, a positive exponent is recorded or derived, and the bank accepts its texts. */
  lemma NormalizeAccepts(r: Rules, md: Metadata)
    ensures var source := LastSegment(md.display);
            Normalize(r, md).Rewritten?
            <==> && None !in md.units && md.display != md.base && source != "" && source != md.base
                 && ((exists x :: x in md.units && Records(x, source)) || (r.deriveDecimals(source).Some? && r.deriveDecimals(source).value > 0))
                 && !r.blank(md.name) && !r.blank(md.symbol) && r.validDenom(md.base) && r.validDenom(source) && r.aliasesOk([])
  {
    hide LastSegment;
    var source := LastSegment(md.display);
    var d := Decimals(r, md, source);
    assert d.Some? && d.value > 0
           <==> (exists x :: x in md.units && Records(x, source)) || (r.deriveDecimals(source).Some? && r.deriveDecimals(source).value > 0) by {
      var n := NonZeroUnitExponent(md.units, source);
      if n.None? { assert forall x | x in md.units && x.Some? :: !(x.value.denom == source && x.value.exponent > 0); }
      else {
        var u :| u in md.units && u.Some? && u.value.denom == source && u.value.exponent == n.value;
        assert Records(u, source);
      }
    }
    if d.Some? { ShapeValid(r, md, source, d.value); }
  }

  lemma ShapeValid(r: Rules, md: Metadata, source: string, decimals: nat)
    ensures var u := ShapeC(md, source, decimals);
            && !HasNilUnit(u.units)
            && (BankValid(r, u) <==> && !r.blank(md.name) && !r.blank(md.symbol) && r.validDenom(md.base) && r.validDenom(source)
                                     && r.aliasesOk([]) && decimals > 0 && source != md.base)
  {
    var u := ShapeC(md, source, decimals);
    assert u.units[0] in u.units && u.units[1] in u.units;
    if BankValid(r, u) { assert u.units[0].value.exponent < u.units[1].value.exponent && u.units[0].value.denom != u.units[1].value.denom; }
  }

  /** Normalizing a normalized record gives it back: the second pass performs no write. */
  lemma NormalizeIdempotent(r: Rules, md: Metadata)
    requires Normalize(r, md).Rewritten?
    ensures Normalize(r, Normalize(r, md).md) == Normalize(r, md)
    ensures Settled(r, Normalize(r, md).md)
  {
    var u := Normalize(r, md).md;
    LastSegmentPlain(u.display);
    assert u.units[0].value.exponent < u.units[1].value.exponent;
    assert u.units[1..][0] == u.units[1];
    assert NonZeroUnitExponent(u.units, u.display) == NonZeroUnitExponent(u.units[1..], u.display);
  }

  // ------------------------------------------------- on the bank store

  datatype Outcome = NoMetadata | AlreadyNormalized(decimals: nat) | Applied(decimals: nat) | Skipped

  type Book = map<string, Metadata>

  /** The bank keeper files every record under its own base. */
  ghost predicate KeyedByBase(book: Book)
  {
    forall d | d in book :: book[d].base == d
  }

  /** The state after NormalizeVoucherDecimals on one denom. */
  function Repaired(r: Rules, book: Book, denom: string): Book
  {
    if !IsVoucher(denom) || denom !in book || Settled(r, book[denom]) then book
    else
      var u := Normalize(r, book[denom]).md;
      book[u.base := u]
  }

  class Bank {
    const rules: Rules
    var book: Book

    constructor (rules: Rules, book: Book)
      ensures this.rules == rules && this.book == book
    {
      this.rules, this.book := rules, book;
    }

    /** NormalizeVoucherDecimals */
    method NormalizeVoucherDecimals(denom: string) returns (o: Outcome)
      modifies this`book
      ensures book == Repaired(rules, old(book), denom)
      ensures o.Applied? <==> IsVoucher(denom) && denom in old(book) && !Settled(rules, old(book)[denom])
      ensures o.NoMetadata? <==> IsVoucher(denom) && denom !in old(book)
      ensures o.Applied? || o.AlreadyNormalized? ==>
                denom in old(book) && o.decimals > 0
                && Some(o.decimals) == Decimals(rules, old(book)[denom], LastSegment(old(book)[denom].display))
    {
      hide Normalize, BankValid, SameUnits, LastSegment, Decimals, PrecompileDecimals;
      if !IsVoucher(denom) { return Skipped; }
      if denom !in book { return NoMetadata; }
      var md := book[denom];
      var rewrite := Normalize(rules, md);
      if rewrite.Unrepairable? { return Skipped; }
      NormalizeSound(rules, md);
      var updated := rewrite.md;
      var decimals := updated.units[|updated.units| - 1].value.exponent;
      if updated.display == md.display && SameUnits(updated.units, md.units) {
        return AlreadyNormalized(decimals);
      }
      book := book[updated.base := updated];
      return Applied(decimals);
    }
  }

  /** After the repair of a denom nothing is left to write for it, and no other record moved. */
  lemma RepairedIsSettled(r: Rules, book: Book, denom: string)
    requires KeyedByBase(book) && IsVoucher(denom)
    ensures var after := Repaired(r, book, denom);
            && KeyedByBase(after) && after.Keys == book.Keys
            && (denom in after ==> Settled(r, after[denom]))
            && (forall d | d in book && d != denom :: after[d] == book[d])
            && Repaired(r, after, denom) == after
  {
    if denom in book && !Settled(r, book[denom]) {
      NormalizeSound(r, book[denom]);
      NormalizeIdempotent(r, book[denom]);
    }
  }

  // ------------------------------------------------- the export-side normalization

  datatype Kind = DenomMetadataNormalized | DenomMetadataDropped

  datatype Diagnostic = Diagnostic(kind: Kind, key: string)

  /** The fallback the export writes: the base as the only unit. */
  function BaseOnly(md: Metadata): Metadata
  {
    md.(units := [Some(DenomUnit(md.base, 0, []))], display := md.base)
  }

  predicate Exportable(r: Rules, md: Metadata)
  {
    !HasNilUnit(md.units) && BankValid(r, md)
  }

  /** What the export carries for one record: itself, a repaired form, or nothing. */
  function Carried(r: Rules, md: Metadata): Option<Metadata>
  {
    if Exportable(r, md) then Some(md)
    else if HasNilUnit(md.units) || !BankValid(r, BaseOnly(md)) then None
    else Some(BaseOnly(md))
  }

  function Reported(r: Rules, md: Metadata): Option<Diagnostic>
  {
    if Exportable(r, md) then None
    else if Carried(r, md).Some? then Some(Diagnostic(DenomMetadataNormalized, md.base))
    else Some(Diagnostic(DenomMetadataDropped, md.base))
  }

  /** The records a list is exported as, in order. */
  function CarriedAll(r: Rules, mds: seq<Metadata>): seq<Metadata>
  {
    if mds == [] then []
    else
      var before, last := CarriedAll(r, mds[..|mds| - 1]), Carried(r, mds[|mds| - 1]);
      if last.Some? then before + [last.value] else before
  }

  function ReportedAll(r: Rules, mds: seq<Metadata>): seq<Diagnostic>
  {
    if mds == [] then []
    else
      var before, last := ReportedAll(r, mds[..|mds| - 1]), Reported(r, mds[|mds| - 1]);
      if last.Some? then before + [last.value] else before
  }

  lemma ExportedNone(r: Rules)
    ensures CarriedAll(r, []) == [] && ReportedAll(r, []) == []
  {
  }

  lemma ExportedSnoc(r: Rules, mds: seq<Metadata>, md: Metadata)
    ensures CarriedAll(r, mds + [md])
            == CarriedAll(r, mds) + if Carried(r, md).Some? then [Carried(r, md).value] else []
    ensures ReportedAll(r, mds + [md])
            == ReportedAll(r, mds) + if Reported(r, md).Some? then [Reported(r, md).value] else []
  {
    hide Carried, Reported;
    assert (mds + [md])[..|mds|] == mds;
  }

  /** normalizeExportedBankDenomMetadata on the decoded list; nothing is re-encoded when nothing changed. */
  method NormalizeExported(r: Rules, mds: seq<Metadata>)
    returns (out: seq<Metadata>, diags: seq<Diagnostic>, changed: bool)
    ensures out == CarriedAll(r, mds) && diags == ReportedAll(r, mds)
    ensures changed <==> exists md :: md in mds && !Exportable(r, md)
  {
    hide BankValid, CarriedAll, ReportedAll;
    ExportedNone(r);
    out, diags, changed := [], [], false;
    for i := 0 to |mds|
      invariant out == CarriedAll(r, mds[..i]) && diags == ReportedAll(r, mds[..i])
      invariant changed <==> exists md :: md in mds[..i] && !Exportable(r, md)
    {
      var md := mds[i];
      assert mds[..i + 1] == mds[..i] + [md];
      ExportedSnoc(r, mds[..i], md);
      if HasNilUnit(md.units) {
        changed := true;
        diags := diags + [Diagnostic(DenomMetadataDropped, md.base)];
      } else if BankValid(r, md) {
        out := out + [md];
      } else {
        changed := true;
        var repaired := BaseOnly(md);
        if !BankValid(r, repaired) {
          diags := diags + [Diagnostic(DenomMetadataDropped, md.base)];
        } else {
          out := out + [repaired];
          diags := diags + [Diagnostic(DenomMetadataNormalized, md.base)];
        }
      }
    }
    assert mds[..|mds|] == mds;
  }

  lemma CarriedExportable(r: Rules, md: Metadata)
    ensures Carried(r, md).Some? ==> Exportable(r, Carried(r, md).value) && Carried(r, md).value.base == md.base
  {
  }

  /** Every exported record passes the bank module's rules. */
  lemma {:induction false} ExportedAllValid(r: Rules, mds: seq<Metadata>)
    ensures forall md | md in CarriedAll(r, mds) :: Exportable(r, md)
  {
    hide Exportable, Carried;
    if mds != [] {
      ExportedAllValid(r, mds[..|mds| - 1]);
      CarriedExportable(r, mds[|mds| - 1]);
    }
  }

  /** A list of valid records is exported as it is, without a report. */
  lemma {:induction false} ExportedUntouched(r: Rules, mds: seq<Metadata>)
    requires forall md | md in mds :: Exportable(r, md)
    ensures CarriedAll(r, mds) == mds && ReportedAll(r, mds) == []
  {
    if mds != [] {
      var init, last := mds[..|mds| - 1], mds[|mds| - 1];
      assert mds == init + [last];
      ExportedUntouched(r, init);
      assert last in mds;
    }
  }

  /** Exporting twice changes nothing the second time. */
  lemma ExportIdempotent(r: Rules, mds: seq<Metadata>)
    ensures CarriedAll(r, CarriedAll(r, mds)) == CarriedAll(r, mds) && ReportedAll(r, CarriedAll(r, mds)) == []
  {
    hide Exportable, CarriedAll, ReportedAll;
    ExportedAllValid(r, mds);
    ExportedUntouched(r, CarriedAll(r, mds));
  }

  /** The number of records of a list that are not valid as they stand. */
  function Faulty(r: Rules, mds: seq<Metadata>): nat
  {
    if mds == [] then 0
    else Faulty(r, mds[..|mds| - 1]) + if Exportable(r, mds[|mds| - 1]) then 0 else 1
  }

  function Dropped(diags: seq<Diagnostic>): nat
  {
    if diags == [] then 0
    else Dropped(diags[..|diags| - 1]) + if diags[|diags| - 1].kind == DenomMetadataDropped then 1 else 0
  }

  /** Each rewrite and each drop is reported exactly once, and each drop shortens the list by one. */
  lemma {:induction false} ReportedOnce(r: Rules, mds: seq<Metadata>)
    ensures |ReportedAll(r, mds)| == Faulty(r, mds)
    ensures |CarriedAll(r, mds)| + Dropped(ReportedAll(r, mds)) == |mds|
  {
    hide Exportable;
    if mds != [] {
      ReportedOnce(r, mds[..|mds| - 1]);
      var before, last := ReportedAll(r, mds[..|mds| - 1]), Reported(r, mds[|mds| - 1]);
      if last.Some? { assert (before + [last.value])[..|before|] == before; }
    }
  }

  /** What the voucher repair writes, the export leaves alone. */
  lemma RepairedSurvivesExport(r: Rules, md: Metadata)
    requires Normalize(r, md).Rewritten?
    ensures Carried(r, Normalize(r, md).md) == Some(Normalize(r, md).md) && Reported(r, Normalize(r, md).md).None?
  {
    NormalizeSound(r, md);
  }

  /**
   The export of one record: valid ones as they are, others reduced to the base unit with every
   other text kept, and dropped exactly when a unit is nil or the bank rejects name, symbol or base.
   */
  lemma CarriedExactly(r: Rules, md: Metadata)
    ensures Exportable(r, md) ==> Carried(r, md) == Some(md)
    ensures !Exportable(r, md) ==>
              (Carried(r, md).Some? <==> None !in md.units && !r.blank(md.name) && !r.blank(md.symbol) && r.validDenom(md.base) && r.aliasesOk([]))
    ensures !Exportable(r, md) && Carried(r, md).Some? ==>
              var u := Carried(r, md).value;
              && u.units == [Some(DenomUnit(md.base, 0, []))] && u.display == md.base && u.base == md.base && u.name == md.name
              && u.symbol == md.symbol && u.description == md.description && u.uri == md.uri && u.uriHash == md.uriHash
    ensures Reported(r, md) == if Exportable(r, md) then None
                               else Some(Diagnostic(if Carried(r, md).Some? then DenomMetadataNormalized else DenomMetadataDropped, md.base))
  {
    var u := BaseOnly(md);
    assert u.units[0] in u.units && u.units[0].value.denom == u.display;
  }

  // ------------------------------------------------- the bank's rules, said once more

  /** As the bank walks the list: each unit above the one before it, no denom met twice. */
  ghost predicate Climbs(units: seq<DenomUnit>)
  {
    units == [] ||
    var init, last := units[..|units| - 1], units[|units| - 1];
    Climbs(init) && (init != [] ==> init[|init| - 1].exponent < last.exponent) && forall u | u in init :: u.denom != last.denom
  }

  ghost predicate Increasing(units: seq<DenomUnit>)
  {
    forall i, j | 0 <= i < j < |units| :: units[i].exponent < units[j].exponent && units[i].denom != units[j].denom
  }

  lemma {:induction false} ClimbsIsIncreasing(units: seq<DenomUnit>)
    ensures Climbs(units) <==> Increasing(units)
  {
    if units != [] {
      var init, last := units[..|units| - 1], units[|units| - 1];
      ClimbsIsIncreasing(init);
      if Increasing(units) {
        assert forall i, j | 0 <= i < j < |init| :: init[i] == units[i] && init[j] == units[j];
      }
      if Climbs(units) {
        forall i, j | 0 <= i < j < |units| ensures units[i].exponent < units[j].exponent && units[i].denom != units[j].denom {
          assert units[i] == init[i];
          assert init[i] in init;
          if j < |init| { assert units[j] == init[j]; }
        }
      }
    }
  }

  function Values(units: seq<Option<DenomUnit>>): (us: seq<DenomUnit>)
    requires !HasNilUnit(units)
    ensures |us| == |units| && forall i | 0 <= i < |us| :: units[i] == Some(us[i])
  {
    if units == [] then []
    else
      assert units[|units| - 1] in units;
      Values(units[..|units| - 1]) + [units[|units| - 1].value]
  }

  /** A record is valid exactly when its texts are, its units climb from the base at exponent 0, and its display is one of them. */
  lemma BankValidExactly(r: Rules, md: Metadata)
    requires !HasNilUnit(md.units)
    ensures var us := Values(md.units);
            BankValid(r, md)
            <==> && !r.blank(md.name) && !r.blank(md.symbol) && r.validDenom(md.base) && r.validDenom(md.display)
                 && us != [] && us[0].denom == md.base && us[0].exponent == 0 && Climbs(us)
                 && (exists u :: u in us && u.denom == md.display)
                 && (forall u | u in us :: r.validDenom(u.denom) && r.aliasesOk(u.aliases))
  {
    hide Climbs, Values;
    var us := Values(md.units);
    ClimbsIsIncreasing(us);
    SameMembers(md.units);
    PairwiseSame(md.units);
  }

  lemma SameMembers(units: seq<Option<DenomUnit>>)
    requires !HasNilUnit(units)
    ensures forall u: DenomUnit :: u in Values(units) <==> Some(u) in units
    ensures forall u | u in units :: u.Some?
  {
    hide Values;
    var us := Values(units);
    forall u: DenomUnit ensures u in us <==> Some(u) in units {
      if u in us { var i :| 0 <= i < |us| && us[i] == u; assert units[i] == Some(u); }
      if Some(u) in units { var i :| 0 <= i < |units| && units[i] == Some(u); assert us[i] == u; }
    }
  }

  lemma PairwiseSame(units: seq<Option<DenomUnit>>)
    requires !HasNilUnit(units)
    ensures forall i | 0 <= i < |units| :: units[i].Some?
    ensures Increasing(Values(units))
            <==> forall i, j | 0 <= i < j < |units| ::
                   units[i].value.exponent < units[j].value.exponent && units[i].value.denom != units[j].value.denom
  {
    hide Values, HasNilUnit;
    var us := Values(units);
    forall i | 0 <= i < |units| ensures units[i].Some? { assert units[i] == Some(us[i]); }
    if Increasing(us) {
      forall i, j | 0 <= i < j < |units|
        ensures units[i].value.exponent < units[j].value.exponent && units[i].value.denom != units[j].value.denom
      { assert us[i].exponent < us[j].exponent && us[i].denom != us[j].denom; }
    }
  }

  /** Every exported record is free of nil units and passes the bank's rules. */
  lemma ExportedPassesBank(r: Rules, mds: seq<Metadata>)
    ensures forall md | md in CarriedAll(r, mds) :: None !in md.units && BankValid(r, md)
  {
    hide BankValid;
    ExportedAllValid(r, mds);
  }

  /** What two unit lists are compared by. */
  function UnitKeys(units: seq<Option<DenomUnit>>): seq<Option<(string, nat)>>
  {
    seq(|units|, i requires 0 <= i < |units| =>
      match units[i] case None => None case Some(u) => Some((u.denom, u.exponent)))
  }

  lemma SameUnitsExactly(a: seq<Option<DenomUnit>>, b: seq<Option<DenomUnit>>)
    ensures SameUnits(a, b) <==> UnitKeys(a) == UnitKeys(b)
  {
    var x, y := UnitKeys(a), UnitKeys(b);
    if SameUnits(a, b) {
      assert forall i | 0 <= i < |a| :: x[i] == y[i];
    }
    if x == y {
      forall i | 0 <= i < |a| ensures match (a[i], b[i])
                                      case (None, None) => true
                                      case (Some(u), Some(v)) => u.denom == v.denom && u.exponent == v.exponent
                                      case _ => false
      { assert x[i] == y[i]; }
    }
  }

  /** Nothing is left to write exactly when the record cannot be repaired, or already has the two units and the plain display the repair gives. */
  lemma SettledExactly(r: Rules, md: Metadata)
    ensures Settled(r, md)
            <==> || Normalize(r, md).Unrepairable?
                 || (&& Normalize(r, md).Rewritten? && md.display == LastSegment(md.display)
                     && |md.units| == 2 && md.units[0].Some? && md.units[1].Some?
                     && md.units[0].value.denom == md.base && md.units[0].value.exponent == 0
                     && md.units[1].value.denom == md.display && md.units[1].value.exponent > 0)
  {
    hide BankValid, LastSegment;
    if Normalize(r, md).Rewritten? {
      RecordedWins(r, md);
      NormalizeSound(r, md);
      var u := Normalize(r, md).md;
      if |md.units| == 2 && md.units[0].Some? && md.units[1].Some? && md.units[0].value.exponent == 0
         && md.units[1].value.denom == LastSegment(md.display) && md.units[1].value.exponent > 0 {
        assert FirstRecorded(md.units, LastSegment(md.display), 1);
      }
    }
  }
}
