/**
 The v0.5.0 upgrade plan: the v0.4.0 change set (once, and only from the legacy state), the
 v0.4.1 repairs, the three tail migrations, the failure record and the replay marker, with
 the block's writes discarded when a stage fails.
 */
module Upgrade {
  import opened Options
  import opened Voucher
  import opened Strings
  import opened IbcGate
  import BaseFee

  datatype Owner = OwnerModule | OwnerExternal

  datatype Params = Params(enableErc20: bool, permissionless: bool)

  /** The stores the plan reads and writes. `supply` lists the bank's supply keys, in store order. */
  datatype Chain = Chain(
    marker: bool, failures: Record,
    coinInfo: bool,
    precompiles: seq<string>, icaController: bool, baseFee: Option<int>,
    params: Params, pairs: map<string, Owner>,
    supply: seq<string>, book: Book,
    made: seq<Creation>)

  /** What the plan meets: foreign rules, denoms whose registration fails, the legacy EnableErc20 value. */
  datatype Env = Env(
    rules: Rules, refuses: string -> bool, evmDenom: string, legacyEnableErc20: bool, defaultPrecompiles: seq<string>)

  /** Which fallible stages of one attempt return an error. */
  datatype Faults = Faults(legacy: bool, repairs: bool, params: bool, moduleMigrations: bool)

  // ------------------------------------------------- stages

  /** deleteLegacyOwnerModulePairs: external pairs stay. */
  function WithoutModulePairs(pairs: map<string, Owner>): map<string, Owner>
  {
    map d | d in pairs && pairs[d] != OwnerModule :: pairs[d]
  }

  predicate HasUnit(units: seq<Option<DenomUnit>>, denom: string)
  {
    exists i :: 0 <= i < |units| && units[i].Some? && units[i].value.denom == denom
  }

  /** The first of the units with the largest exponent, if any exponent is positive; a nil unit has none. */
  function LargestUnit(units: seq<Option<DenomUnit>>): (u: Option<DenomUnit>)
    ensures u.Some? ==> u in units && u.value.exponent > 0
    ensures forall x | x in units && x.Some? :: x.value.exponent <= if u.Some? then u.value.exponent else 0
  {
    if units == [] then None
    else
      var before, x := LargestUnit(units[..|units| - 1]), units[|units| - 1];
      assert units == units[..|units| - 1] + [x];
      if x.Some? && x.value.exponent > (if before.Some? then before.value.exponent else 0) then x else before
  }

  const EVM_DECIMALS := 18

  /** What repairEvmDenomMetadata writes for a record whose display unit is missing. */
  function WithDisplayUnit(md: Metadata): Metadata
  {
    if HasUnit(md.units, md.display) then md
    else
      match LargestUnit(md.units)
      case Some(u) => md.(display := u.denom)
      case None => md.(units := md.units + [Some(DenomUnit(md.display, EVM_DECIMALS, []))])
  }

  function EvmDenomRepaired(env: Env, book: Book): Book
  {
    if env.evmDenom !in book then book
    else
      var md := WithDisplayUnit(book[env.evmDenom]);
      if md == book[env.evmDenom] then book else book[md.base := md]
  }

  /** The v0.4.0 change set, as far as it touches these stores. */
  function Legacy(env: Env, c: Chain): Chain
  {
    c.(coinInfo := true, book := EvmDenomRepaired(env, c.book), params := Params(env.legacyEnableErc20, false), pairs := WithoutModulePairs(c.pairs))
  }

  /** The v0.4.1 repairs. */
  function Repairs(env: Env, c: Chain): Chain
  {
    c.(precompiles := if c.precompiles == [] then env.defaultPrecompiles else c.precompiles,
       icaController := true,
       baseFee := BaseFee.Repair(c.baseFee).0)
  }

  function Vouchers(supply: seq<string>): seq<string>
  {
    if supply == [] then []
    else
      var before := Vouchers(supply[..|supply| - 1]);
      if IsVoucher(supply[|supply| - 1]) then before + [supply[|supply| - 1]] else before
  }

  /** ibcVoucherDenoms */
  function VoucherDenoms(c: Chain): seq<string>
  {
    SortStrings(Vouchers(c.supply))
  }

  function NormalizeAll(r: Rules, book: Book, denoms: seq<string>): Book
  {
    if denoms == [] then book
    else Repaired(r, NormalizeAll(r, book, denoms[..|denoms| - 1]), denoms[|denoms| - 1])
  }

  /** The outcome of a backfill over a list of denoms. */
  datatype Filled = Filled(pairs: map<string, Owner>, made: seq<Creation>, failed: seq<string>, registered: nat, skipped: nat)

  function Fill(env: Env, pairs: map<string, Owner>, book: Book, made: seq<Creation>, denoms: seq<string>): Filled
  {
    if denoms == [] then Filled(pairs, made, [], 0, 0)
    else
      var f := Fill(env, pairs, book, made, denoms[..|denoms| - 1]);
      var d := denoms[|denoms| - 1];
      if d in f.pairs then f.(skipped := f.skipped + 1)
      else if env.refuses(d) then f.(failed := f.failed + [d])
      else f.(pairs := f.pairs[d := OwnerModule], made := f.made + [Creation(d, Lookup(book, d))],
              registered := f.registered + 1)
  }

  /** The three migrations v0.5.1 reuses, and the failure record. */
  function Tail(env: Env, c: Chain): Chain
  {
    var c1 := c.(params := c.params.(permissionless := true));
    var c2 := c1.(book := NormalizeAll(env.rules, c1.book, VoucherDenoms(c1)));
    var f := Fill(env, c2.pairs, c2.book, c2.made, VoucherDenoms(c2));
    c2.(pairs := f.pairs, made := f.made, failures := RecordOf(f.failed))
  }

  /** A run of the whole migration set that meets no error. */
  function FullRun(env: Env, c: Chain): Chain
  {
    var c1 := Repairs(env, if c.coinInfo then c else Legacy(env, c));
    Tail(env, c1).(marker := true)
  }

  /** The repair dereferences every unit of the EVM denom's record: a nil one ends the attempt. */
  predicate DiesOnUnits(env: Env, c: Chain)
  {
    env.evmDenom in c.book && HasNilUnit(c.book[env.evmDenom].units)
  }

  predicate Succeeds(env: Env, c: Chain, f: Faults)
  {
    if c.marker then !f.moduleMigrations
    else !((f.legacy || DiesOnUnits(env, c)) && !c.coinInfo) && !f.repairs && !(f.params && !PermissionlessAfterRepairs(c))
  }

  /** The registration switch only has to be written when it is off by then. */
  predicate PermissionlessAfterRepairs(c: Chain)
  {
    c.coinInfo && c.params.permissionless
  }

  /** One attempt of the plan: a failing handler aborts the block and none of its writes are kept. */
  function Attempt(env: Env, c: Chain, f: Faults): Chain
  {
    if !Succeeds(env, c, f) || c.marker then c else FullRun(env, c)
  }

  /** The loop over the units: whether one is the display unit, and the first with the largest positive exponent. It dies on a nil unit. */
  method ScanUnits(units: seq<Option<DenomUnit>>, display: string) returns (died: bool, found: bool, largest: Option<DenomUnit>)
    ensures died == HasNilUnit(units)
    ensures !died ==> found == HasUnit(units, display) && largest == LargestUnit(units)
  {
    hide HasUnit;
    died, found, largest := false, false, None;
    NoUnit(display);
    for i := 0 to |units|
      invariant !died && !HasNilUnit(units[..i])
      invariant found == HasUnit(units[..i], display)
      invariant largest == LargestUnit(units[..i])
    {
      assert units[..i + 1][..i] == units[..i];
      HasUnitSnoc(units, display, i);
      var unit := units[i];
      if unit.None? { return true, found, largest; }
      if unit.value.denom == display { found := true; }
      if unit.value.exponent > (if largest.Some? then largest.value.exponent else 0) { largest := unit; }
    }
    assert units[..|units|] == units;
  }

  lemma NoUnit(denom: string)
    ensures !HasUnit([], denom)
  {
  }

  lemma HasUnitSnoc(units: seq<Option<DenomUnit>>, denom: string, n: nat)
    requires n < |units|
    ensures HasUnit(units[..n + 1], denom)
            <==> HasUnit(units[..n], denom) || (units[n].Some? && units[n].value.denom == denom)
  {
    var a, b := units[..n], units[..n + 1];
    if HasUnit(a, denom) { var i :| 0 <= i < |a| && a[i].Some? && a[i].value.denom == denom; assert b[i] == a[i]; }
    if HasUnit(b, denom) {
      var i :| 0 <= i < |b| && b[i].Some? && b[i].value.denom == denom;
      if i < n { assert a[i] == b[i]; }
    }
    assert b[n] == units[n];
  }

  /**
   After the repair the display unit is among the units, so decimals can be derived; a record
   that already had it stays, and otherwise its exponent is the largest one, or 18.
   */
  lemma WithDisplayUnitHas(md: Metadata)
    ensures var md' := WithDisplayUnit(md);
            && md'.base == md.base && HasUnit(md'.units, md'.display)
            && (md' == md <==> HasUnit(md.units, md.display))
            && WithDisplayUnit(md') == md'
            && (md' != md ==> exists u: Option<DenomUnit> :: u in md'.units && u.Some? && u.value.denom == md'.display
                               && u.value.exponent == (if LargestUnit(md.units).Some? then LargestUnit(md.units).value.exponent else EVM_DECIMALS))
  {
    var md' := WithDisplayUnit(md);
    if !HasUnit(md.units, md.display) {
      var u := LargestUnit(md.units);
      if u.Some? {
        var i :| 0 <= i < |md.units| && md.units[i] == u;
        assert md'.units[i].value.denom == md'.display;
      } else {
        assert md'.units[|md.units|] == Some(DenomUnit(md.display, EVM_DECIMALS, []));
        assert md'.units[|md.units|] in md'.units;
      }
    }
  }

  lemma EvmDenomRepairedKeyed(env: Env, book: Book)
    requires KeyedByBase(book)
    ensures KeyedByBase(EvmDenomRepaired(env, book)) && EvmDenomRepaired(env, EvmDenomRepaired(env, book)) == EvmDenomRepaired(env, book)
  {
    if env.evmDenom in book { WithDisplayUnitHas(book[env.evmDenom]); }
  }

  /** The EVM denom's record gets its display unit; every other record stays. */
  lemma EvmDenomRepairExact(env: Env, book: Book)
    requires KeyedByBase(book)
    ensures var after := EvmDenomRepaired(env, book);
            && after.Keys == book.Keys && (forall d | d in book && d != env.evmDenom :: after[d] == book[d])
            && (env.evmDenom in book ==> after[env.evmDenom] == WithDisplayUnit(book[env.evmDenom])
                                         && HasUnit(after[env.evmDenom].units, after[env.evmDenom].display))
  {
    if env.evmDenom in book { WithDisplayUnitHas(book[env.evmDenom]); }
  }

  /** The legacy stage: the probe set, registration off, the flag carried over, module pairs gone, the EVM denom repaired, and nothing else. */
  lemma LegacyLeaves(env: Env, c: Chain)
    ensures var c' := Legacy(env, c);
            && c'.coinInfo && !c'.params.permissionless && c'.params.enableErc20 == env.legacyEnableErc20
            && (forall d :: d in c'.pairs <==> d in c.pairs && c.pairs[d] == OwnerExternal)
            && c'.book == EvmDenomRepaired(env, c.book)
            && c' == c.(coinInfo := true, book := c'.book, params := c'.params, pairs := c'.pairs)
  {
  }

  /**
   When an attempt succeeds. Behind the marker only the module migrations can fail. From the
   legacy state the legacy stage, a nil unit of the EVM denom, the repairs and the write of
   the switch can; from any other the repairs can, and that write if the switch is off.
   */
  lemma SucceedsExactly(env: Env, c: Chain, f: Faults)
    ensures c.marker ==> (Succeeds(env, c, f) <==> !f.moduleMigrations)
    ensures !c.marker && !c.coinInfo ==>
              (Succeeds(env, c, f) <==> && !f.legacy && !f.repairs && !f.params
                                        && (env.evmDenom in c.book ==> None !in c.book[env.evmDenom].units))
    ensures !c.marker && c.coinInfo ==> (Succeeds(env, c, f) <==> !f.repairs && (c.params.permissionless || !f.params))
  {
  }

  // ------------------------------------------------- implementation

  class App {
    var c: Chain

    constructor (c: Chain)
      ensures this.c == c
    {
      this.c := c;
    }

    /** deleteLegacyOwnerModulePairs */
    method DeleteLegacyOwnerModulePairs()
      modifies this
      ensures c == old(c).(pairs := WithoutModulePairs(old(c.pairs)))
    {
      var all, todo := c.pairs, c.pairs.Keys;
      while todo != {}
        invariant todo <= all.Keys
        invariant c == old(c).(pairs := c.pairs)
        invariant c.pairs == map d | d in all && (d in todo || all[d] != OwnerModule) :: all[d]
        decreases |todo|
      {
        var d :| d in todo;
        todo := todo - {d};
        if all[d] == OwnerModule {
          c := c.(pairs := c.pairs - {d});
        }
      }
    }

    /** repairEvmDenomMetadata; a missing record is left for the coin-info step to report. */
    method RepairEvmDenomMetadata(env: Env) returns (died: bool)
      modifies this
      ensures died == DiesOnUnits(env, old(c))
      ensures c == if died then old(c) else old(c).(book := EvmDenomRepaired(env, old(c).book))
    {
      hide HasUnit, LargestUnit;
      if env.evmDenom !in c.book { return false; }
      var md := c.book[env.evmDenom];
      var displayInUnits, largest;
      died, displayInUnits, largest := ScanUnits(md.units, md.display);
      if died || displayInUnits { return; }
      WithDisplayUnitHas(md);
      if largest.Some? {
        md := md.(display := largest.value.denom);
      } else {
        md := md.(units := md.units + [Some(DenomUnit(md.display, EVM_DECIMALS, []))]);
      }
      c := c.(book := c.book[md.base := md]);
    }

    /** The v0.4.0 handler. */
    method RunLegacy(env: Env, fails: bool) returns (ok: bool)
      modifies this
      ensures ok == (!fails && !DiesOnUnits(env, old(c)))
      ensures ok ==> c == Legacy(env, old(c))
    {
      var died := RepairEvmDenomMetadata(env);
      if died { return false; }
      c := c.(coinInfo := true);
      c := c.(params := Params(env.legacyEnableErc20, false));
      DeleteLegacyOwnerModulePairs();
      return !fails;
    }

    /** The v0.4.1 handler. */
    method RunRepairs(env: Env, fails: bool) returns (ok: bool)
      modifies this
      ensures ok == !fails && (ok ==> c == Repairs(env, old(c)))
    {
      if c.precompiles == [] {
        c := c.(precompiles := env.defaultPrecompiles);
      }
      if !c.icaController {
        c := c.(icaController := true);
      }
      var repaired := BaseFee.Repair(c.baseFee);
      if repaired.1 {
        c := c.(baseFee := repaired.0);
      } else {
        BaseFee.RepairTouches(c.baseFee);
      }
      return !fails;
    }

    /** ibcVoucherDenoms */
    method IbcVoucherDenoms() returns (denoms: seq<string>)
      ensures denoms == VoucherDenoms(c)
    {
      denoms := [];
      for i := 0 to |c.supply|
        invariant denoms == Vouchers(c.supply[..i])
      {
        assert c.supply[..i + 1][..i] == c.supply[..i];
        if IsVoucher(c.supply[i]) { denoms := denoms + [c.supply[i]]; }
      }
      assert c.supply[..|c.supply|] == c.supply;
      denoms := SortStrings(denoms);
    }

    /** enablePermissionlessRegistration */
    method EnablePermissionlessRegistration(fails: bool) returns (ok: bool)
      modifies this
      ensures ok <==> old(c).params.permissionless || !fails
      ensures ok ==> c == old(c).(params := old(c).params.(permissionless := true))
    {
      if c.params.permissionless { return true; }
      if fails { return false; }
      c := c.(params := c.params.(permissionless := true));
      return true;
    }

    /** normalizeIBCVoucherERC20Decimals */
    method NormalizeVouchers(env: Env)
      modifies this
      ensures c == old(c).(book := NormalizeAll(env.rules, old(c).book, VoucherDenoms(old(c))))
    {
      hide Normalize;
      var denoms := IbcVoucherDenoms();
      var bank := new Bank(env.rules, c.book);
      for i := 0 to |denoms|
        invariant fresh(bank) && bank.rules == env.rules && c == old(c)
        invariant bank.book == NormalizeAll(env.rules, c.book, denoms[..i])
      {
        assert denoms[..i + 1][..i] == denoms[..i];
        var _ := bank.NormalizeVoucherDecimals(denoms[i]);
      }
      assert denoms[..|denoms|] == denoms;
      c := c.(book := bank.book);
    }

    /** The loop shared by the backfill and its retry: returns how many were registered and which denoms failed. */
    method RegisterAll(env: Env, denoms: seq<string>) returns (registered: nat, skipped: nat, failed: seq<string>)
      modifies this
      ensures var f := Fill(env, old(c).pairs, old(c).book, old(c).made, denoms);
              c == old(c).(pairs := f.pairs, made := f.made)
              && registered == f.registered && skipped == f.skipped && failed == f.failed
    {
      registered, skipped, failed := 0, 0, [];
      for i := 0 to |denoms|
        invariant var f := Fill(env, old(c).pairs, old(c).book, old(c).made, denoms[..i]);
                  c == old(c).(pairs := f.pairs, made := f.made)
                  && registered == f.registered && skipped == f.skipped && failed == f.failed
      {
        assert denoms[..i + 1][..i] == denoms[..i];
        var d := denoms[i];
        if d in c.pairs {
          skipped := skipped + 1;
        } else if env.refuses(d) {
          failed := failed + [d];
        } else {
          c := c.(pairs := c.pairs[d := OwnerModule], made := c.made + [Creation(d, Lookup(c.book, d))]);
          registered := registered + 1;
        }
      }
      assert denoms[..|denoms|] == denoms;
    }

    /** RetryIBCVoucherBackfill */
    method RetryBackfill(env: Env, denoms: seq<string>) returns (registered: nat, stillFailed: seq<string>)
      modifies this
      ensures var f := Fill(env, old(c).pairs, old(c).book, old(c).made, denoms);
              c == old(c).(pairs := f.pairs, made := f.made) && registered == f.registered && stillFailed == f.failed
    {
      var skipped: nat;
      registered, skipped, stillFailed := RegisterAll(env, denoms);
    }

    /** recordBackfillFailures */
    method RecordFailures(failed: seq<string>)
      modifies this
      ensures c == old(c).(failures := RecordOf(failed))
    {
      if |failed| == 0 {
        c := c.(failures := Absent);
        return;
      }
      c := c.(failures := Stored(Join(failed)));
    }

    /** ReadBackfillFailures */
    method ReadFailures() returns (denoms: seq<string>)
      ensures denoms == ReadRecord(c.failures)
      ensures forall xs | c.failures == RecordOf(xs) && OneLineEach(xs) && xs != [""] :: denoms == xs
    {
      forall xs | c.failures == RecordOf(xs) && OneLineEach(xs) && xs != [""] ensures ReadRecord(c.failures) == xs {
        RecordRoundTrip(xs);
      }
      if c.failures.Absent? || |c.failures.raw| == 0 { return []; }
      return Split(c.failures.raw);
    }

    /** The upgrade handler: on an error the stores are left half-written. */
    method Handle(env: Env, f: Faults) returns (ok: bool)
      modifies this
      ensures ok == Succeeds(env, old(c), f)
      ensures ok ==> c == Attempt(env, old(c), f)
    {
      hide NormalizeAll, VoucherDenoms, Fill, WithoutModulePairs;
      if c.marker {
        return !f.moduleMigrations;
      }
      var fromLegacyState := !c.coinInfo;
      if fromLegacyState {
        var done := RunLegacy(env, f.legacy);
        if !done { return false; }
      }
      var repaired := RunRepairs(env, f.repairs);
      if !repaired { return false; }
      var enabled := EnablePermissionlessRegistration(f.params);
      if !enabled { return false; }
      NormalizeVouchers(env);
      var denoms := IbcVoucherDenoms();
      var registered, skipped, failed := RegisterAll(env, denoms);
      RecordFailures(failed);
      c := c.(marker := true);
      return true;
    }

    /** PreBlocker applying the plan: the writes of a failed handler are never committed. */
    method ApplyPlan(env: Env, f: Faults) returns (ok: bool)
      modifies this
      ensures ok == Succeeds(env, old(c), f) && c == Attempt(env, old(c), f)
    {
      var committed := c;
      ok := Handle(env, f);
      if !ok { c := committed; }
    }
  }
}
