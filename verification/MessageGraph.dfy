/**
 The messages of a transaction as a graph: a message is known by its pointer, and an
 authz.MsgExec wraps further messages. Nothing is assumed of the graph; messages may be
 shared, and wrappers may even be cyclic.
 */
module MessageGraph {
  import opened Options

  type Ptr = nat

  /** One packed entry of a wrapper: a message (possibly nil), or bytes that do not unpack. */
  datatype Any = Packed(msg: Option<Ptr>) | Corrupt

  datatype Node =
    | Exec(inner: seq<Any>)
    | CreateValidator(rate: int)         // commission rate as a LegacyDec, in units of 10^-18
    | EditValidator(newRate: Option<int>)
    | Other

  type Graph = Ptr -> Node

  predicate Unpacks(n: Node)
  {
    n.Exec? ==> Corrupt !in n.inner
  }

  /** MsgExec.GetMessages: the wrapped messages in order; nothing for other messages and broken wrappers. */
  function Kids(n: Node): seq<Option<Ptr>>
  {
    if n.Exec? && Unpacks(n) then seq(|n.inner|, i requires 0 <= i < |n.inner| => Message(n.inner[i])) else []
  }

  function Message(a: Any): Option<Ptr>
  {
    match a
    case Packed(m) => m
    case Corrupt => None
  }

  /** A wrapper whose entries all unpack passes each on in its place; one with a corrupt entry, like any other message, passes nothing on. */
  lemma KidsExactly(n: Node)
    ensures n.Exec? && Corrupt !in n.inner ==>
              |Kids(n)| == |n.inner| && forall i | 0 <= i < |n.inner| :: n.inner[i] == Packed(Kids(n)[i])
    ensures !n.Exec? || Corrupt in n.inner ==> Kids(n) == []
  {
    if n.Exec? && Corrupt !in n.inner {
      forall i | 0 <= i < |n.inner| ensures n.inner[i] == Packed(Kids(n)[i]) { assert n.inner[i] in n.inner; }
    }
  }

  function Refs(ms: seq<Option<Ptr>>): set<Ptr>
  {
    set m | m in ms && m.Some? :: m.value
  }

  /** The messages wrapped directly by a message of `s`. */
  ghost function Next(g: Graph, s: set<Ptr>): set<Ptr>
  {
    set p, q | p in s && q in Refs(Kids(g(p))) :: q
  }

  /** The messages at the end of a chain of exactly `k` nestings below `s`. */
  ghost function Level(g: Graph, s: set<Ptr>, k: nat): set<Ptr>
    decreases k
  {
    if k == 0 then s else Level(g, Next(g, s), k - 1)
  }

  /** The messages whose shortest nesting distance from `s` is at most `k`. */
  ghost function Within(g: Graph, s: set<Ptr>, k: nat): set<Ptr>
  {
    if k == 0 then s else Within(g, s, k - 1) + Next(g, Within(g, s, k - 1))
  }

  lemma LevelZero(g: Graph, s: set<Ptr>)
    ensures Level(g, s, 0) == s
  {
  }

  lemma LevelStep(g: Graph, s: set<Ptr>, k: nat)
    ensures Level(g, s, k + 1) == Next(g, Level(g, s, k))
    decreases k
  {
    if k > 0 { LevelStep(g, Next(g, s), k - 1); }
  }

  lemma LevelUnion(g: Graph, s: set<Ptr>, t: set<Ptr>, k: nat)
    ensures Level(g, s + t, k) == Level(g, s, k) + Level(g, t, k)
    decreases k
  {
    if k > 0 {
      assert Next(g, s + t) == Next(g, s) + Next(g, t);
      LevelUnion(g, Next(g, s), Next(g, t), k - 1);
    }
  }

  lemma LevelEmpty(g: Graph, k: nat)
    ensures Level(g, {}, k) == {}
  {
    if k > 0 {
      assert Next(g, {}) == {};
      LevelEmpty(g, k - 1);
    }
  }

  lemma WithinMonotone(g: Graph, s: set<Ptr>, j: nat, k: nat)
    requires j <= k
    ensures Within(g, s, j) <= Within(g, s, k)
  {
    if j < k { WithinMonotone(g, s, j, k - 1); }
  }

  /** A message on level `k` is within distance `k`. */
  lemma {:induction false} LevelWithin(g: Graph, s: set<Ptr>, k: nat)
    ensures Level(g, s, k) <= Within(g, s, k)
  {
    hide Level, Next, Kids, Refs;
    if k == 0 {
      LevelZero(g, s);
    } else {
      LevelStep(g, s, k - 1);
      LevelWithin(g, s, k - 1);
      NextMonotone(g, Level(g, s, k - 1), Within(g, s, k - 1));
    }
  }

  lemma NextMonotone(g: Graph, s: set<Ptr>, t: set<Ptr>)
    requires s <= t
    ensures Next(g, s) <= Next(g, t)
  {
  }

  /** A message within distance `k` sits on some level up to `k`. */
  lemma {:induction false} LevelOf(g: Graph, s: set<Ptr>, k: nat, p: Ptr) returns (j: nat)
    requires p in Within(g, s, k)
    ensures j <= k && p in Level(g, s, j)
  {
    hide Kids, Refs;
    if k == 0 {
      return 0;
    } else if p in Within(g, s, k - 1) {
      j := LevelOf(g, s, k - 1, p);
    } else {
      var q :| q in Within(g, s, k - 1) && p in Refs(Kids(g(q)));
      j := LevelOf(g, s, k - 1, q);
      LevelStep(g, s, j);
      j := j + 1;
    }
  }

  lemma {:induction false} ClosedSetHoldsAll(g: Graph, s: set<Ptr>, all: set<Ptr>, k: nat)
    requires s <= all && Next(g, all) <= all
    ensures Within(g, s, k) <= all
  {
    if k > 0 {
      ClosedSetHoldsAll(g, s, all, k - 1);
      var w := Within(g, s, k - 1);
      forall p | p in Next(g, w) ensures p in all {
        var q :| q in w && p in Refs(Kids(g(q)));
        assert q in all;
        assert p in Next(g, all);
      }
    }
  }
}
