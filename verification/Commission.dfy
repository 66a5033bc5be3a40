/**
 The recursive commission check: a depth-bounded descent through nested wrappers that
 refuses a validator commission below 5%, compared with the breadth-first walk.
 */
module Commission {
  import opened Options
  import opened MessageGraph
  import MessageWalk

  const MAX_AUTHZ_VALIDATION_DEPTH: nat := 5

  /** LegacyNewDecWithPrec(5, 2), in units of 10^-18. */
  const MIN_COMMISSION: int := 50_000_000_000_000_000

  datatype Why = TooDeep | CannotUnpack | RateTooLow

  /** The verdict; a passing check also lists the messages it inspected, in order. */
  datatype Audit = Passed(seen: seq<Ptr>) | Refused(why: Why)

  predicate RateOk(n: Node)
  {
    match n
    case CreateValidator(rate) => rate >= MIN_COMMISSION
    case EditValidator(Some(rate)) => rate >= MIN_COMMISSION
    case _ => true
  }

  /** A new validator, and an edit that names a rate, need at least one twentieth; any other message passes. */
  lemma RateExactly(n: Node)
    ensures RateOk(n)
            <==> match n
                 case CreateValidator(rate) => 20 * rate >= 1_000_000_000_000_000_000
                 case EditValidator(rate) => rate.Some? ==> 20 * rate.value >= 1_000_000_000_000_000_000
                 case _ => true
  {
  }

  /** validateAuthzDepth on one wrapper. */
  function CheckExec(g: Graph, inner: seq<Any>, depth: nat): Audit
    decreases if depth <= 6 then 6 - depth else 0, 0
  {
    if depth >= MAX_AUTHZ_VALIDATION_DEPTH then Refused(TooDeep) else CheckEntries(g, inner, depth + 1)
  }

  /** The loop over a wrapper's entries, or over the transaction: wrappers among them stand at `depth`. */
  function CheckEntries(g: Graph, entries: seq<Any>, depth: nat): Audit
    decreases if depth <= 6 then 6 - depth else 0, 1 + |entries|
  {
    if entries == [] then Passed([])
    else
      var head := CheckEntry(g, entries[0], depth);
      if head.Refused? then head
      else
        var tail := CheckEntries(g, entries[1..], depth);
        if tail.Refused? then tail else Passed(head.seen + tail.seen)
  }

  function CheckEntry(g: Graph, a: Any, depth: nat): Audit
    decreases if depth <= 6 then 6 - depth else 0, 1
  {
    match a
    case Corrupt => Refused(CannotUnpack)
    case Packed(None) => Passed([])
    case Packed(Some(p)) =>
      if !RateOk(g(p)) then Refused(RateTooLow)
      else if g(p).Exec? then
        var below := CheckExec(g, g(p).inner, depth);
        if below.Refused? then below else Passed([p] + below.seen)
      else Passed([p])
  }

  /** ValidatorCommissionDecorator.AnteHandle up to the call of the next handler. */
  function Check(g: Graph, roots: seq<Option<Ptr>>): Audit
  {
    CheckEntries(g, seq(|roots|, i requires 0 <= i < |roots| => Packed(roots[i])), 0)
  }

  // ------------------------------------------------- what passing means

  ghost predicate Acceptable(g: Graph, p: Ptr, depth: nat)
  {
    Unpacks(g(p)) && RateOk(g(p)) && (g(p).Exec? ==> depth < MAX_AUTHZ_VALIDATION_DEPTH)
  }

  /** Along every chain of nestings below `s`, whose members stand at `depth`, each message is acceptable. */
  ghost predicate AllAcceptable(g: Graph, s: set<Ptr>, depth: nat)
  {
    forall k: nat, p | p in Level(g, s, k) :: Acceptable(g, p, depth + k)
  }

  /** `p` stands on some level below `s`. */
  ghost predicate Below(g: Graph, s: set<Ptr>, p: Ptr)
  {
    exists k: nat :: p in Level(g, s, k)
  }

  lemma AcceptableUnion(g: Graph, s: set<Ptr>, t: set<Ptr>, depth: nat)
    ensures AllAcceptable(g, s + t, depth) <==> AllAcceptable(g, s, depth) && AllAcceptable(g, t, depth)
  {
    hide Level, Acceptable;
    forall k: nat ensures Level(g, s + t, k) == Level(g, s, k) + Level(g, t, k) { LevelUnion(g, s, t, k); }
  }

  lemma BelowUnion(g: Graph, s: set<Ptr>, t: set<Ptr>, p: Ptr)
    ensures Below(g, s + t, p) <==> Below(g, s, p) || Below(g, t, p)
  {
    hide Level;
    forall k: nat ensures Level(g, s + t, k) == Level(g, s, k) + Level(g, t, k) { LevelUnion(g, s, t, k); }
  }

  lemma LevelDown(g: Graph, s: set<Ptr>, k: nat)
    ensures Level(g, s, k + 1) == Level(g, Next(g, s), k)
  {
  }

  lemma AcceptableDown(g: Graph, p: Ptr, depth: nat)
    ensures AllAcceptable(g, {p}, depth)
            <==> Acceptable(g, p, depth) && AllAcceptable(g, Next(g, {p}), depth + 1)
  {
    hide Level, Acceptable, Next;
    LevelZero(g, {p});
    forall k: nat ensures Level(g, {p}, k + 1) == Level(g, Next(g, {p}), k) { LevelDown(g, {p}, k); }
    if AllAcceptable(g, {p}, depth) {
      forall k: nat, q | q in Level(g, Next(g, {p}), k) ensures Acceptable(g, q, depth + 1 + k) {
        assert q in Level(g, {p}, k + 1);
      }
    }
    if Acceptable(g, p, depth) && AllAcceptable(g, Next(g, {p}), depth + 1) {
      forall k: nat, q | q in Level(g, {p}, k) ensures Acceptable(g, q, depth + k) {
        if k > 0 { assert q in Level(g, Next(g, {p}), k - 1); }
      }
    }
  }

  lemma BelowDown(g: Graph, p: Ptr, q: Ptr)
    ensures Below(g, {p}, q) <==> q == p || Below(g, Next(g, {p}), q)
  {
    hide Level, Next;
    LevelZero(g, {p});
    forall k: nat ensures Level(g, {p}, k + 1) == Level(g, Next(g, {p}), k) { LevelDown(g, {p}, k); }
    if Below(g, {p}, q) && q != p {
      var k: nat :| q in Level(g, {p}, k);
      assert q in Level(g, Next(g, {p}), k - 1);
    }
    if Below(g, Next(g, {p}), q) {
      var k: nat :| q in Level(g, Next(g, {p}), k);
      assert q in Level(g, {p}, k + 1);
    }
  }

  lemma NothingBelow(g: Graph, depth: nat)
    ensures AllAcceptable(g, {}, depth) && forall p :: !Below(g, {}, p)
  {
    hide Level, Acceptable;
    forall k: nat ensures Level(g, {}, k) == {} { LevelEmpty(g, k); }
  }

  ghost function EntryRefs(entries: seq<Any>): set<Ptr>
  {
    set a | a in entries && a.Packed? && a.msg.Some? :: a.msg.value
  }

  lemma EntryRefsHead(entries: seq<Any>)
    requires entries != []
    ensures EntryRefs(entries) == EntryRefs([entries[0]]) + EntryRefs(entries[1..])
    ensures Corrupt in entries <==> entries[0] == Corrupt || Corrupt in entries[1..]
  {
    assert entries == [entries[0]] + entries[1..];
  }

  lemma NextOfOne(g: Graph, p: Ptr)
    ensures g(p).Exec? && Unpacks(g(p)) ==> Next(g, {p}) == EntryRefs(g(p).inner)
    ensures !g(p).Exec? ==> Next(g, {p}) == {}
  {
    var n := g(p);
    if n.Exec? && Unpacks(n) {
      var kids := Kids(n);
      assert forall i | 0 <= i < |kids| :: kids[i] == Message(n.inner[i]);
      forall q | q in EntryRefs(n.inner) ensures q in Refs(kids) {
        var i :| 0 <= i < |n.inner| && n.inner[i] == Packed(Some(q));
        assert kids[i] == Some(q);
      }
    }
  }

  /** A list of messages is inspected iff it is exactly what stands below `s`. */
  ghost predicate Inspects(g: Graph, seen: seq<Ptr>, s: set<Ptr>)
  {
    forall p :: p in seen <==> Below(g, s, p)
  }

  /** What the check of `entries` comes to. */
  ghost predicate Exact(g: Graph, entries: seq<Any>, depth: nat, audit: Audit)
  {
    && (audit.Passed? <==> Corrupt !in entries && AllAcceptable(g, EntryRefs(entries), depth))
    && (audit.Passed? ==> Inspects(g, audit.seen, EntryRefs(entries)))
  }

  lemma {:induction false} EntriesExact(g: Graph, entries: seq<Any>, depth: nat)
    requires depth <= MAX_AUTHZ_VALIDATION_DEPTH
    ensures Exact(g, entries, depth, CheckEntries(g, entries, depth))
    decreases 6 - depth, 1 + |entries|
  {
    hide AllAcceptable, Below, CheckEntry;
    if entries == [] {
      NothingBelow(g, depth);
      assert EntryRefs(entries) == {};
    } else {
      EntryExact(g, entries[0], depth);
      EntriesExact(g, entries[1..], depth);
      EntryRefsHead(entries);
      AcceptableUnion(g, EntryRefs([entries[0]]), EntryRefs(entries[1..]), depth);
      forall p ensures Below(g, EntryRefs(entries), p)
                       <==> Below(g, EntryRefs([entries[0]]), p) || Below(g, EntryRefs(entries[1..]), p) {
        BelowUnion(g, EntryRefs([entries[0]]), EntryRefs(entries[1..]), p);
      }
    }
  }

  lemma {:induction false} EntryExact(g: Graph, a: Any, depth: nat)
    requires depth <= MAX_AUTHZ_VALIDATION_DEPTH
    ensures Exact(g, [a], depth, CheckEntry(g, a, depth))
    decreases 6 - depth, 1
  {
    hide AllAcceptable, Below;
    NothingBelow(g, depth);
    match a
    case Corrupt =>
    case Packed(None) => assert EntryRefs([a]) == {};
    case Packed(Some(p)) =>
      assert EntryRefs([a]) == {p};
      AcceptableDown(g, p, depth);
      NextOfOne(g, p);
      NothingBelow(g, depth + 1);
      forall q ensures Below(g, {p}, q) <==> q == p || Below(g, Next(g, {p}), q) { BelowDown(g, p, q); }
      if g(p).Exec? && depth < MAX_AUTHZ_VALIDATION_DEPTH {
        EntriesExact(g, g(p).inner, depth + 1);
      }
  }

  lemma RootsAreRefs(roots: seq<Option<Ptr>>)
    ensures var entries := seq(|roots|, i requires 0 <= i < |roots| => Packed(roots[i]));
            Corrupt !in entries && EntryRefs(entries) == Refs(roots)
  {
    var entries := seq(|roots|, i requires 0 <= i < |roots| => Packed(roots[i]));
    assert forall i | 0 <= i < |roots| :: entries[i] == Packed(roots[i]);
    forall p | p in Refs(roots) ensures p in EntryRefs(entries) {
      var i :| 0 <= i < |roots| && roots[i] == Some(p);
      assert entries[i] in entries;
    }
  }

  /**
   On every graph, the recursive check passes exactly when along every chain of nestings each
   wrapper unpacks and stands at a depth below five, and each create- or edit-validator
   message sets at least 5%; it then has inspected every message there is.
   */
  lemma CheckExact(g: Graph, roots: seq<Option<Ptr>>)
    ensures Check(g, roots).Passed? <==> AllAcceptable(g, Refs(roots), 0)
    ensures Check(g, roots).Passed? ==> Inspects(g, Check(g, roots).seen, Refs(roots))
  {
    hide AllAcceptable, Inspects, CheckEntries;
    RootsAreRefs(roots);
    EntriesExact(g, seq(|roots|, i requires 0 <= i < |roots| => Packed(roots[i])), 0);
  }

  // ------------------------------------------------- the two walks

  /** No message is nested at two different depths, as in a transaction decoded from bytes. */
  ghost predicate TreeShaped(g: Graph, s: set<Ptr>)
  {
    forall j: nat, k: nat, p | p in Level(g, s, j) && p in Level(g, s, k) :: j == k
  }

  ghost predicate AllRatesOk(g: Graph, s: set<Ptr>)
  {
    forall k: nat, p | p in Level(g, s, k) :: RateOk(g(p))
  }

  lemma BelowIsReachable(g: Graph, s: set<Ptr>, p: Ptr)
    ensures Below(g, s, p) <==> MessageWalk.Reachable(g, s, p)
  {
    hide Level, Within;
    if Below(g, s, p) {
      var k: nat :| p in Level(g, s, k);
      LevelWithin(g, s, k);
    }
    if MessageWalk.Reachable(g, s, p) {
      var k: nat :| p in Within(g, s, k);
      var j := LevelOf(g, s, k, p);
    }
  }

  /** When both accept, both have inspected the same messages. */
  lemma SameMessages(g: Graph, roots: seq<Option<Ptr>>, msgs: seq<Ptr>)
    requires Check(g, roots).Passed? && MessageWalk.ListsReachable(g, Refs(roots), msgs)
    ensures forall p :: p in Check(g, roots).seen <==> p in msgs
  {
    hide Check, Below, MessageWalk.Reachable;
    CheckExact(g, roots);
    forall p ensures p in Check(g, roots).seen <==> p in msgs {
      BelowIsReachable(g, Refs(roots), p);
    }
  }

  /** What the recursive check accepts, the breadth-first walk refuses only for its number of messages. */
  lemma CheckedIsWalkable(g: Graph, roots: seq<Option<Ptr>>)
    requires Check(g, roots).Passed?
    ensures MessageWalk.AllUnpack(g, Refs(roots)) && MessageWalk.ShallowEnough(g, Refs(roots))
  {
    hide Check, Level, Within, Next;
    CheckExact(g, roots);
    var s := Refs(roots);
    forall k: nat, p | p in Within(g, s, k)
      ensures Unpacks(g(p)) && (g(p).Exec? ==> p in Within(g, s, MessageWalk.MAX_AUTHZ_NESTING_DEPTH - 1))
    {
      var j := LevelOf(g, s, k, p);
      assert Acceptable(g, p, j);
      if g(p).Exec? {
        LevelWithin(g, s, j);
        WithinMonotone(g, s, j, MessageWalk.MAX_AUTHZ_NESTING_DEPTH - 1);
      }
    }
  }

  /** On tree-shaped transactions the two depth limits are the same limit. */
  lemma TreeCheckExact(g: Graph, roots: seq<Option<Ptr>>)
    requires TreeShaped(g, Refs(roots))
    ensures Check(g, roots).Passed?
            <==> MessageWalk.AllUnpack(g, Refs(roots)) && MessageWalk.ShallowEnough(g, Refs(roots))
                 && AllRatesOk(g, Refs(roots))
  {
    hide Check, Level, Within, Next;
    var s := Refs(roots);
    CheckExact(g, roots);
    if Check(g, roots).Passed? {
      CheckedIsWalkable(g, roots);
      forall k: nat, p | p in Level(g, s, k) ensures RateOk(g(p)) { assert Acceptable(g, p, k); }
    }
    if MessageWalk.AllUnpack(g, s) && MessageWalk.ShallowEnough(g, s) && AllRatesOk(g, s) {
      forall k: nat, p | p in Level(g, s, k) ensures Acceptable(g, p, k) {
        LevelWithin(g, s, k);
        if g(p).Exec? {
          var j := LevelOf(g, s, MessageWalk.MAX_AUTHZ_NESTING_DEPTH - 1, p);
        }
      }
    }
  }
}
