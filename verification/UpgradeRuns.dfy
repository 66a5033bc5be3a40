/**
 What holds over every sequence of plan attempts, registrations, governance and even an
 erased replay marker; and what one committed run leaves behind.
 */
module UpgradeRuns {
  import opened Options
  import opened Voucher
  import opened Strings
  import opened IbcGate
  import opened Upgrade
  import BaseFee

  datatype Event =
    | Plan(env: Env, f: Upgrade.Faults)
    | Register(denom: string, owner: Owner)  // a message or an inbound packet; an existing pair is kept
    | Govern(params: Params)
    | EraseMarker

  function After(c: Chain, e: Event): Chain
  {
    match e
    case Plan(env, f) => Attempt(env, c, f)
    case Register(d, o) => if d in c.pairs then c else c.(pairs := c.pairs[d := o])
    case Govern(p) => c.(params := p)
    case EraseMarker => c.(marker := false)
  }

  function History(c: Chain, es: seq<Event>, n: nat): Chain
    requires n <= |es|
  {
    if n == 0 then c else After(History(c, es, n - 1), es[n - 1])
  }

  /** The attempt commits, whether it ran the migrations or found the marker. */
  ghost predicate Commits(c: Chain, e: Event)
  {
    e.Plan? && Succeeds(e.env, c, e.f)
  }

  /** The attempt commits the deletion of the module's pairs. */
  ghost predicate Deletes(c: Chain, e: Event)
  {
    Commits(c, e) && !c.marker && !c.coinInfo
  }

  /** Both starting states satisfy this: neither carries the marker. */
  ghost predicate Guarded(c: Chain)
  {
    c.marker ==> c.coinInfo
  }

  lemma StepGuarded(c: Chain, e: Event)
    requires Guarded(c)
    ensures Guarded(After(c, e))
    ensures c.coinInfo ==> After(c, e).coinInfo
    ensures Commits(c, e) ==> After(c, e).coinInfo
  {
    hide Fill, NormalizeAll, VoucherDenoms;
  }

  lemma {:induction false} HistoryGuarded(c: Chain, es: seq<Event>, n: nat)
    requires Guarded(c) && n <= |es|
    ensures Guarded(History(c, es, n))
  {
    hide Guarded, After;
    if n > 0 {
      HistoryGuarded(c, es, n - 1);
      StepGuarded(History(c, es, n - 1), es[n - 1]);
    }
  }

  lemma {:induction false} CoinInfoSticks(c: Chain, es: seq<Event>, i: nat, j: nat)
    requires Guarded(c) && i <= j <= |es| && History(c, es, i).coinInfo
    ensures History(c, es, j).coinInfo
  {
    hide Guarded, After;
    if i < j {
      CoinInfoSticks(c, es, i, j - 1);
      HistoryGuarded(c, es, j - 1);
      StepGuarded(History(c, es, j - 1), es[j - 1]);
    }
  }

  /** No attempt after a committed one deletes pairs, even if the replay marker is erased in between. */
  lemma NoDeletionAfterCommit(c: Chain, es: seq<Event>, i: nat, j: nat)
    requires Guarded(c) && i < j < |es| && Commits(History(c, es, i), es[i])
    ensures !Deletes(History(c, es, j), es[j])
  {
    hide After, Succeeds;
    HistoryGuarded(c, es, i);
    StepGuarded(History(c, es, i), es[i]);
    CoinInfoSticks(c, es, i + 1, j);
  }

  /** The deletion commits at most once. */
  lemma DeletesAtMostOnce(c: Chain, es: seq<Event>, i: nat, j: nat)
    requires Guarded(c) && i < |es| && j < |es|
    requires Deletes(History(c, es, i), es[i]) && Deletes(History(c, es, j), es[j])
    ensures i == j
  {
    hide After, Succeeds;
    if i < j { NoDeletionAfterCommit(c, es, i, j); }
    if j < i { NoDeletionAfterCommit(c, es, j, i); }
  }

  ghost predicate Extends(big: map<string, Owner>, small: map<string, Owner>)
  {
    forall d | d in small :: d in big && big[d] == small[d]
  }

  lemma {:induction false} FillExtends(env: Env, pairs: map<string, Owner>, book: Book, made: seq<Creation>, denoms: seq<string>)
    ensures Extends(Fill(env, pairs, book, made, denoms).pairs, pairs)
  {
    if denoms != [] { FillExtends(env, pairs, book, made, denoms[..|denoms| - 1]); }
  }

  lemma StepKeepsPairs(c: Chain, e: Event)
    ensures !Deletes(c, e) ==> Extends(After(c, e).pairs, c.pairs)
    ensures Deletes(c, e) ==> forall d | d in c.pairs && c.pairs[d] == OwnerExternal :: d in After(c, e).pairs && After(c, e).pairs[d] == OwnerExternal
  {
    hide NormalizeAll, VoucherDenoms, Fill;
    if e.Plan? && Commits(c, e) && !c.marker {
      var c1 := Repairs(e.env, if c.coinInfo then c else Legacy(e.env, c));
      var c2 := c1.(params := c1.params.(permissionless := true));
      var c3 := c2.(book := NormalizeAll(e.env.rules, c2.book, VoucherDenoms(c2)));
      FillExtends(e.env, c3.pairs, c3.book, c3.made, VoucherDenoms(c3));
    }
  }

  /**
   The deletion removes every module-owned pair: one that is there afterwards has been made
   anew by the backfill, for a voucher with supply whose registration is not refused.
   */
  lemma ModulePairsDeleted(c: Chain, e: Event, d: string)
    requires Deletes(c, e)
    ensures d in c.pairs && c.pairs[d] == OwnerModule && d in After(c, e).pairs ==>
              d in c.supply && IsVoucher(d) && !e.env.refuses(d)
    ensures d in After(c, e).pairs <==>
              (d in c.pairs && c.pairs[d] == OwnerExternal) || (d in c.supply && IsVoucher(d) && !e.env.refuses(d))
  {
    hide NormalizeAll, VoucherDenoms, Fill;
    var c1 := Repairs(e.env, Legacy(e.env, c));
    var c2 := c1.(params := c1.params.(permissionless := true));
    var c3 := c2.(book := NormalizeAll(e.env.rules, c2.book, VoucherDenoms(c2)));
    SameDenoms(c3, c);
    VoucherDenomsAre(c);
    FillPairs(e.env, c3.pairs, c3.book, c3.made, VoucherDenoms(c3));
  }

  /** Every pair present after a committed attempt survives whatever follows. */
  lemma {:induction false} PairsSurvive(c: Chain, es: seq<Event>, i: nat, j: nat, k: nat)
    requires Guarded(c) && i < j <= k <= |es| && Commits(History(c, es, i), es[i])
    ensures Extends(History(c, es, k).pairs, History(c, es, j).pairs)
    decreases k
  {
    hide After, Deletes, Commits;
    if j < k {
      PairsSurvive(c, es, i, j, k - 1);
      NoDeletionAfterCommit(c, es, i, k - 1);
      StepKeepsPairs(History(c, es, k - 1), es[k - 1]);
    }
  }

  // ------------------------------------------------- backfill

  /** The denoms of a list that have no pair. */
  function Unpaired(pairs: map<string, Owner>, denoms: seq<string>): seq<string>
  {
    if denoms == [] then []
    else
      var before, d := Unpaired(pairs, denoms[..|denoms| - 1]), denoms[|denoms| - 1];
      if d in pairs then before else before + [d]
  }

  /**
   The backfill splits its list into denoms that had a pair, denoms that got one and denoms
   that failed. It adds pairs for exactly the unpaired denoms whose registration is accepted,
   and the failed list is exactly what is still unpaired.
   */
  lemma {:induction false} FillPartition(env: Env, pairs: map<string, Owner>, book: Book, made: seq<Creation>, denoms: seq<string>)
    ensures var f := Fill(env, pairs, book, made, denoms);
            && f.skipped + f.registered + |f.failed| == |denoms|
            && |f.pairs| == |pairs| + f.registered && |f.made| == |made| + f.registered
            && (forall d :: d in f.pairs <==> d in pairs || (d in denoms && !env.refuses(d)))
            && f.failed == Unpaired(f.pairs, denoms)
  {
    hide Fill, Unpaired;
    FillCounts(env, pairs, book, made, denoms);
    FillFailed(env, pairs, book, made, denoms);
  }

  lemma {:induction false} FillCounts(env: Env, pairs: map<string, Owner>, book: Book, made: seq<Creation>, denoms: seq<string>)
    ensures var f := Fill(env, pairs, book, made, denoms);
            && f.skipped + f.registered + |f.failed| == |denoms|
            && |f.pairs| == |pairs| + f.registered && |f.made| == |made| + f.registered
  {
    hide Lookup;
    if denoms != [] { FillCounts(env, pairs, book, made, denoms[..|denoms| - 1]); }
  }

  lemma {:induction false} FillPairs(env: Env, pairs: map<string, Owner>, book: Book, made: seq<Creation>, denoms: seq<string>)
    ensures forall d :: d in Fill(env, pairs, book, made, denoms).pairs <==> d in pairs || (d in denoms && !env.refuses(d))
  {
    hide Lookup;
    if denoms != [] {
      assert denoms == denoms[..|denoms| - 1] + [denoms[|denoms| - 1]];
      FillPairs(env, pairs, book, made, denoms[..|denoms| - 1]);
    }
  }

  lemma {:induction false} FillFailed(env: Env, pairs: map<string, Owner>, book: Book, made: seq<Creation>, denoms: seq<string>)
    ensures var f := Fill(env, pairs, book, made, denoms);
            && (forall d :: d in f.pairs <==> d in pairs || (d in denoms && !env.refuses(d)))
            && f.failed == Unpaired(f.pairs, denoms)
  {
    hide Lookup;
    FillPairs(env, pairs, book, made, denoms);
    if denoms != [] {
      var init, d := denoms[..|denoms| - 1], denoms[|denoms| - 1];
      FillFailed(env, pairs, book, made, init);
      UnpairedGrown(Fill(env, pairs, book, made, init).pairs, Fill(env, pairs, book, made, denoms).pairs, init, d, env.refuses);
    }
  }

  /** A pair for a denom outside the failed ones changes nothing about the failed list. */
  lemma UnpairedGrown(a: map<string, Owner>, b: map<string, Owner>, init: seq<string>, d: string, refuses: string -> bool)
    requires b.Keys == a.Keys || (b.Keys == a.Keys + {d} && !refuses(d))
    requires forall x | x in init && x !in a :: refuses(x)
    ensures Unpaired(a, init) == Unpaired(b, init)
  {
    hide Unpaired;
    forall x | x in init ensures x in a <==> x in b { assert x in b.Keys <==> x in b; }
    UnpairedSame(a, b, init);
  }

  lemma {:induction false} UnpairedSame(a: map<string, Owner>, b: map<string, Owner>, denoms: seq<string>)
    requires forall d | d in denoms :: d in a <==> d in b
    ensures Unpaired(a, denoms) == Unpaired(b, denoms)
  {
    if denoms != [] {
      var init, last := denoms[..|denoms| - 1], denoms[|denoms| - 1];
      assert denoms == init + [last];
      assert last in denoms;
      UnpairedSame(a, b, init);
    }
  }

  lemma {:induction false} VouchersAre(supply: seq<string>)
    ensures forall d :: d in Vouchers(supply) <==> d in supply && IsVoucher(d)
  {
    if supply != [] {
      var init, last := supply[..|supply| - 1], supply[|supply| - 1];
      assert supply == init + [last];
      VouchersAre(init);
    }
  }

  /** The denoms in scope: the supply-bearing vouchers, sorted. */
  lemma VoucherDenomsAre(c: Chain)
    ensures Sorted(VoucherDenoms(c))
    ensures forall d :: d in VoucherDenoms(c) <==> d in c.supply && IsVoucher(d)
  {
    hide Sorted;
    var vs := Vouchers(c.supply);
    VouchersAre(c.supply);
    SortCorrect(vs);
    forall d ensures d in SortStrings(vs) <==> d in vs {
      assert d in SortStrings(vs) <==> d in multiset(SortStrings(vs));
      assert d in vs <==> d in multiset(vs);
    }
  }

  lemma {:induction false} UnpairedAre(pairs: map<string, Owner>, denoms: seq<string>)
    ensures forall d :: d in Unpaired(pairs, denoms) <==> d in denoms && d !in pairs
  {
    if denoms != [] {
      var init, last := denoms[..|denoms| - 1], denoms[|denoms| - 1];
      assert denoms == init + [last];
      UnpairedAre(pairs, init);
    }
  }

  lemma {:induction false} UnpairedSorted(pairs: map<string, Owner>, denoms: seq<string>)
    requires Sorted(denoms)
    ensures Sorted(Unpaired(pairs, denoms))
  {
    if denoms != [] {
      var init, last := denoms[..|denoms| - 1], denoms[|denoms| - 1];
      UnpairedSorted(pairs, init);
      UnpairedAre(pairs, init);
      forall x | x in Unpaired(pairs, init) ensures Leq(x, last) {
        var i :| 0 <= i < |init| && init[i] == x;
        assert denoms[i] == x;
      }
    }
  }

  /**
   After a committed run the failure record is the sorted list of the supply-bearing
   vouchers that have no pair, and reading it gives that list back whenever no denom spans lines.
   */
  lemma FailureRecordExact(env: Env, c: Chain)
    ensures var end := FullRun(env, c);
            var open := Unpaired(end.pairs, VoucherDenoms(end));
            && end.failures == RecordOf(open)
            && Sorted(open) && (forall d :: d in open <==> d in end.supply && IsVoucher(d) && d !in end.pairs)
            && (ReadRecord(end.failures) == open <==> OneLineEach(open))
  {
    hide VoucherDenoms, Fill, NormalizeAll, Repairs, Sorted, Unpaired, RecordOf, ReadRecord;
    var end := FullRun(env, c);
    var c1 := Repairs(env, if c.coinInfo then c else Legacy(env, c));
    var c2 := c1.(params := c1.params.(permissionless := true));
    var c3 := c2.(book := NormalizeAll(env.rules, c2.book, VoucherDenoms(c2)));
    SameDenoms(c3, c2);
    SameDenoms(end, c3);
    FillPartition(env, c3.pairs, c3.book, c3.made, VoucherDenoms(c3));
    var open := Unpaired(end.pairs, VoucherDenoms(end));
    VoucherDenomsAre(end);
    UnpairedAre(end.pairs, VoucherDenoms(end));
    UnpairedSorted(end.pairs, VoucherDenoms(end));
    RecordRoundTrip(open);
    if open == [""] { assert "" in open; }
  }

  lemma SameDenoms(a: Chain, b: Chain)
    requires a.supply == b.supply
    ensures VoucherDenoms(a) == VoucherDenoms(b)
  {
  }

  // ------------------------------------------------- the tail migrations

  /** After a pass over `denoms`, each of them is settled and nothing else moved; a second pass changes nothing. */
  lemma {:induction false} NormalizeAllSettles(r: Rules, book: Book, denoms: seq<string>)
    requires KeyedByBase(book) && forall d | d in denoms :: IsVoucher(d)
    ensures var after := NormalizeAll(r, book, denoms);
            && KeyedByBase(after) && after.Keys == book.Keys
            && (forall d | d in denoms && d in after :: Settled(r, after[d]))
            && (forall d | d in book && d !in denoms :: after[d] == book[d])
  {
    hide Settled, Repaired;
    if denoms != [] {
      var init, last := denoms[..|denoms| - 1], denoms[|denoms| - 1];
      assert denoms == init + [last];
      assert last in denoms;
      NormalizeAllSettles(r, book, init);
      RepairedIsSettled(r, NormalizeAll(r, book, init), last);
    }
  }

  lemma {:induction false} NormalizeAllIdle(r: Rules, book: Book, denoms: seq<string>)
    requires forall d | d in denoms && d in book :: Settled(r, book[d])
    ensures NormalizeAll(r, book, denoms) == book
  {
    hide Settled;
    if denoms != [] {
      var init, last := denoms[..|denoms| - 1], denoms[|denoms| - 1];
      assert denoms == init + [last];
      assert last in denoms;
      NormalizeAllIdle(r, book, init);
    }
  }

  lemma {:induction false} FillIdle(env: Env, pairs: map<string, Owner>, book: Book, made: seq<Creation>, denoms: seq<string>)
    requires forall d | d in denoms :: d in pairs || env.refuses(d)
    ensures var f := Fill(env, pairs, book, made, denoms);
            f.pairs == pairs && f.made == made && f.failed == Unpaired(pairs, denoms)
  {
    if denoms != [] {
      var init, last := denoms[..|denoms| - 1], denoms[|denoms| - 1];
      assert denoms == init + [last];
      assert last in denoms;
      FillIdle(env, pairs, book, made, init);
    }
  }

  /** Applying the three tail migrations twice is applying them once. */
  lemma TailIdempotent(env: Env, c: Chain)
    requires KeyedByBase(c.book)
    ensures Tail(env, Tail(env, c)) == Tail(env, c)
  {
    hide VoucherDenoms, Fill, NormalizeAll, Settled, Unpaired, RecordOf;
    var t := Tail(env, c);
    var denoms := VoucherDenoms(c);
    var c1 := c.(params := c.params.(permissionless := true));
    var c2 := c1.(book := NormalizeAll(env.rules, c1.book, denoms));
    SameDenoms(c1, c);
    SameDenoms(c2, c);
    VoucherDenomsAre(c);
    NormalizeAllSettles(env.rules, c1.book, denoms);
    FillPartition(env, c2.pairs, c2.book, c2.made, denoms);
    SameDenoms(t, c);
    NormalizeAllIdle(env.rules, t.book, denoms);
    var t2 := t.(book := NormalizeAll(env.rules, t.book, denoms));
    assert t2 == t;
    FillIdle(env, t.pairs, t.book, t.made, denoms);
    SameDenoms(t.(params := t.params.(permissionless := true)), c);
  }

  lemma RepairsIdempotent(env: Env, c: Chain)
    ensures Repairs(env, Repairs(env, c)) == Repairs(env, c)
  {
    BaseFee.RepairOnce(c.baseFee);
  }

  /** A run creates one pair per record of a creation, on top of those it keeps. */
  lemma FullRunCounts(env: Env, c: Chain)
    ensures var end := FullRun(env, c);
            var kept := if c.coinInfo then c.pairs else WithoutModulePairs(c.pairs);
            |end.pairs| >= |kept| && |end.made| - |c.made| == |end.pairs| - |kept|
  {
    hide NormalizeAll, VoucherDenoms, Fill, RecordOf, EvmDenomRepaired;
    var c1 := Repairs(env, if c.coinInfo then c else Legacy(env, c));
    var c2 := c1.(params := c1.params.(permissionless := true));
    var c3 := c2.(book := NormalizeAll(env.rules, c2.book, VoucherDenoms(c2)));
    FillCounts(env, c3.pairs, c3.book, c3.made, VoucherDenoms(c3));
  }

  /** What happens between attempts takes effect: a new pair is there, governance sets the params, and without its marker the plan runs again. */
  lemma EventsTake(c: Chain, d: string, o: Owner, p: Params, env: Env, f: Upgrade.Faults)
    ensures d in After(c, Register(d, o)).pairs && (d !in c.pairs ==> After(c, Register(d, o)).pairs[d] == o)
    ensures After(c, Govern(p)).params == p
    ensures Succeeds(env, c.(marker := false), f) ==> After(After(c, EraseMarker), Plan(env, f)) == FullRun(env, c.(marker := false))
    ensures !Succeeds(env, c.(marker := false), f) ==> After(After(c, EraseMarker), Plan(env, f)) == c.(marker := false)
  {
    hide FullRun, Succeeds;
  }

  /** A pair registered after a committed attempt is there ever after. */
  lemma LaterPairStays(c: Chain, es: seq<Event>, i: nat, j: nat, k: nat)
    requires Guarded(c) && i < j < k <= |es| && Commits(History(c, es, i), es[i]) && es[j].Register?
    ensures es[j].denom in History(c, es, k).pairs
    ensures es[j].denom !in History(c, es, j).pairs ==> History(c, es, k).pairs[es[j].denom] == es[j].owner
  {
    hide After, Commits;
    PairsSurvive(c, es, i, j + 1, k);
    RegisterTakes(History(c, es, j), es[j].denom, es[j].owner);
  }

  lemma RegisterTakes(c: Chain, d: string, o: Owner)
    ensures d in After(c, Register(d, o)).pairs && (d !in c.pairs ==> After(c, Register(d, o)).pairs[d] == o)
  {
  }

  /** A populated precompile list stays, an empty one gets the defaults; the controller is on; the fee is repaired; nothing else moves. */
  lemma RepairsFill(env: Env, c: Chain)
    ensures var c' := Repairs(env, c);
            && (c.precompiles != [] ==> c'.precompiles == c.precompiles) && (c.precompiles == [] ==> c'.precompiles == env.defaultPrecompiles)
            && c'.icaController && c' == c.(precompiles := c'.precompiles, icaController := true, baseFee := c'.baseFee)
            && (c.baseFee.None? || c.baseFee.value <= 0 || c.baseFee.value >= BaseFee.ONE ==> c'.baseFee == c.baseFee)
            && (c.baseFee.Some? && 0 < c.baseFee.value < BaseFee.ONE ==> c'.baseFee == Some(c.baseFee.value * BaseFee.ONE))
  {
    BaseFee.RepairTouches(c.baseFee);
    if c.baseFee.Some? && 0 < c.baseFee.value < BaseFee.ONE { BaseFee.RepairRestores(c.baseFee.value); }
  }

  lemma TailRepairsCommute(env: Env, c: Chain)
    ensures Repairs(env, Tail(env, c)) == Tail(env, Repairs(env, c))
  {
    hide VoucherDenoms, Fill, NormalizeAll, RecordOf;
    var t := c.(params := c.params.(permissionless := true));
    SameDenoms(Repairs(env, t), t);
    var b := t.(book := NormalizeAll(env.rules, t.book, VoucherDenoms(t)));
    SameDenoms(b, t);
    SameDenoms(Repairs(env, b), t);
  }

  /** Running the whole set again with the marker erased changes nothing: the plan is safe to replay. */
  lemma FullRunIdempotent(env: Env, c: Chain)
    requires KeyedByBase(c.book)
    ensures FullRun(env, FullRun(env, c).(marker := false)) == FullRun(env, c)
  {
    hide Tail, Repairs, EvmDenomRepaired;
    EvmDenomRepairedKeyed(env, c.book);
    var c1 := Repairs(env, if c.coinInfo then c else Legacy(env, c));
    var t := Tail(env, c1);
    TailStaysAt(env, c1);
    RepairsStaysAt(env, if c.coinInfo then c else Legacy(env, c));
    TailIdempotent(env, c1);
    TailRepairsCommute(env, c1);
    RepairsIdempotent(env, if c.coinInfo then c else Legacy(env, c));
    MarkerApart(env, t);
  }

  lemma TailStaysAt(env: Env, c: Chain)
    ensures Tail(env, c).coinInfo == c.coinInfo && Tail(env, c).marker == c.marker && Tail(env, c).supply == c.supply
  {
    hide VoucherDenoms, Fill, NormalizeAll, RecordOf;
  }

  lemma RepairsStaysAt(env: Env, c: Chain)
    ensures Repairs(env, c).coinInfo == c.coinInfo && Repairs(env, c).marker == c.marker && Repairs(env, c).book == c.book
  {
  }

  /** Neither the repairs nor the tail look at the marker. */
  lemma MarkerApart(env: Env, c: Chain)
    ensures forall m: bool, n: bool ::
              Tail(env, Repairs(env, c.(marker := m))).(marker := n) == Tail(env, Repairs(env, c)).(marker := n)
  {
    hide Fill, NormalizeAll, RecordOf;
  }

  /**
   A committed run leaves permissionless registration on, although the legacy stage forces it
   off, and keeps EnableErc20; every pair it creates is created on ready metadata.
   */
  lemma FullRunLeaves(env: Env, c: Chain)
    requires KeyedByBase(c.book)
    ensures var end := FullRun(env, c);
            && end.coinInfo && end.marker && end.params.permissionless
            && end.params.enableErc20 == (if c.coinInfo then c.params.enableErc20 else env.legacyEnableErc20)
            && c.made <= end.made
            && (forall i | |c.made| <= i < |end.made| :: Ready(env.rules, end.made[i]))
  {
    hide VoucherDenoms, Fill, NormalizeAll, Repairs, Settled, RecordOf, EvmDenomRepaired;
    EvmDenomRepairedKeyed(env, c.book);
    var c0 := if c.coinInfo then c else Legacy(env, c);
    RepairsLeaves(env, c0);
    var c1 := Repairs(env, c0);
    var c2 := c1.(params := c1.params.(permissionless := true));
    var c3 := c2.(book := NormalizeAll(env.rules, c2.book, VoucherDenoms(c2)));
    SameDenoms(c3, c2);
    VoucherDenomsAre(c2);
    NormalizeAllSettles(env.rules, c2.book, VoucherDenoms(c2));
    FillReady(env, c3.pairs, c3.book, c3.made, VoucherDenoms(c3));
  }

  lemma RepairsLeaves(env: Env, c: Chain)
    ensures Repairs(env, c) == c.(precompiles := Repairs(env, c).precompiles, icaController := true, baseFee := Repairs(env, c).baseFee)
  {
  }

  lemma {:induction false} FillReady(env: Env, pairs: map<string, Owner>, book: Book, made: seq<Creation>, denoms: seq<string>)
    requires forall d | d in denoms :: IsVoucher(d) && (d in book ==> Settled(env.rules, book[d]))
    ensures var f := Fill(env, pairs, book, made, denoms);
            made <= f.made && forall i | |made| <= i < |f.made| :: Ready(env.rules, f.made[i])
  {
    hide Settled;
    if denoms != [] {
      var init, last := denoms[..|denoms| - 1], denoms[|denoms| - 1];
      assert denoms == init + [last];
      assert last in denoms;
      FillReady(env, pairs, book, made, init);
    }
  }
}
