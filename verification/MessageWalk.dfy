/**
 The capped breadth-first walk of the message security decorator: it flattens a transaction
 and everything nested in it, and refuses what is too many, too deep or does not unpack.
 */
module MessageWalk {
  import opened Options
  import opened MessageGraph

  const MAX_AUTHZ_NESTING_DEPTH: nat := 5
  const MAX_EXTRACTED_MESSAGES: nat := 32

  datatype Refusal = TooMany | TooDeep | CannotUnpack

  datatype Extracted = Flat(msgs: seq<Ptr>) | Refused(why: Refusal)

  datatype Queued = Queued(msg: Option<Ptr>, depth: nat)

  // ------------------------------------------------- what acceptance means

  /** Every reachable wrapper unpacks. */
  ghost predicate AllUnpack(g: Graph, roots: set<Ptr>)
  {
    forall k: nat, p | p in Within(g, roots, k) :: Unpacks(g(p))
  }

  /** At most 32 distinct messages are reachable. */
  ghost predicate FewEnough(g: Graph, roots: set<Ptr>)
  {
    forall k: nat :: |Within(g, roots, k)| <= MAX_EXTRACTED_MESSAGES
  }

  /** The shortest nesting distance of every reachable wrapper is below five. */
  ghost predicate ShallowEnough(g: Graph, roots: set<Ptr>)
  {
    forall k: nat, p | p in Within(g, roots, k) && g(p).Exec? :: p in Within(g, roots, MAX_AUTHZ_NESTING_DEPTH - 1)
  }

  ghost predicate Reachable(g: Graph, roots: set<Ptr>, p: Ptr)
  {
    exists k: nat :: p in Within(g, roots, k)
  }

  /** `xs` holds every reachable message and nothing else. */
  ghost predicate ListsReachable(g: Graph, roots: set<Ptr>, xs: seq<Ptr>)
  {
    forall p :: p in xs <==> Reachable(g, roots, p)
  }

  // ------------------------------------------------- breadth-first order

  /** The distinct messages of a stream, each at its first occurrence; nil entries are dropped. */
  ghost function FirstSeen(stream: seq<Option<Ptr>>): seq<Ptr>
  {
    if stream == [] then []
    else
      var before := FirstSeen(stream[..|stream| - 1]);
      var last := stream[|stream| - 1];
      if last.None? || last.value in before then before else before + [last.value]
  }

  /** Everything the messages of `xs` wrap, message after message. */
  ghost function AllKids(g: Graph, xs: seq<Ptr>): seq<Option<Ptr>>
  {
    if xs == [] then [] else AllKids(g, xs[..|xs| - 1]) + Kids(g(xs[|xs| - 1]))
  }

  /** `xs` lists first the roots, then what its own entries wrap, in order and without repetition. */
  ghost predicate BreadthFirst(g: Graph, roots: seq<Option<Ptr>>, xs: seq<Ptr>)
  {
    && xs == FirstSeen(roots + AllKids(g, xs))
    && forall n | 0 <= n < |xs| :: Some(xs[n]) in roots + AllKids(g, xs[..n])
  }

  lemma FirstSeenSnoc(stream: seq<Option<Ptr>>, m: Option<Ptr>)
    ensures FirstSeen(stream + [m])
            == (var before := FirstSeen(stream);
                if m.None? || m.value in before then before else before + [m.value])
  {
    assert (stream + [m])[..|stream|] == stream;
  }

  lemma AllKidsSnoc(g: Graph, xs: seq<Ptr>, p: Ptr)
    ensures AllKids(g, xs + [p]) == AllKids(g, xs) + Kids(g(p))
  {
    assert (xs + [p])[..|xs|] == xs;
  }

  /** First occurrences are distinct, and are exactly the non-nil entries. */
  lemma {:induction false} FirstSeenDistinct(stream: seq<Option<Ptr>>)
    ensures forall i, j | 0 <= i < j < |FirstSeen(stream)| :: FirstSeen(stream)[i] != FirstSeen(stream)[j]
    ensures forall p :: p in FirstSeen(stream) <==> Some(p) in stream
  {
    if stream != [] {
      var prefix, last := stream[..|stream| - 1], stream[|stream| - 1];
      assert stream == prefix + [last];
      FirstSeenDistinct(prefix);
    }
  }

  lemma {:induction false} FirstSeenPrefix(a: seq<Option<Ptr>>, b: seq<Option<Ptr>>)
    ensures FirstSeen(a) <= FirstSeen(a + b)
  {
    if b == [] {
      assert a + b == a;
    } else {
      assert (a + b)[..|a + b| - 1] == a + b[..|b| - 1];
      FirstSeenPrefix(a, b[..|b| - 1]);
    }
  }

  lemma {:induction false} AllKidsPrefix(g: Graph, xs: seq<Ptr>, n: nat)
    requires n <= |xs|
    ensures AllKids(g, xs[..n]) <= AllKids(g, xs)
  {
    if n < |xs| {
      AllKidsPrefix(g, xs[..|xs| - 1], n);
      assert xs[..|xs| - 1][..n] == xs[..n];
    } else {
      assert xs[..n] == xs;
    }
  }

  /** The stream of the first `n` messages already names message `n`, so it fixes which one that is. */
  lemma NextInOrder(g: Graph, roots: seq<Option<Ptr>>, xs: seq<Ptr>, n: nat)
    requires BreadthFirst(g, roots, xs) && n < |xs|
    ensures var seen := FirstSeen(roots + AllKids(g, xs[..n])); n < |seen| && seen[n] == xs[n]
  {
    hide FirstSeen, AllKids;
    var short, full := roots + AllKids(g, xs[..n]), roots + AllKids(g, xs);
    AllKidsPrefix(g, xs, n);
    assert full == short + full[|short|..];
    FirstSeenPrefix(short, full[|short|..]);
    FirstSeenDistinct(short);
    FirstSeenDistinct(full);
    assert xs[n] in FirstSeen(short);
    var i :| 0 <= i < |FirstSeen(short)| && FirstSeen(short)[i] == xs[n];
    assert FirstSeen(full)[i] == xs[n];
  }

  /** There is only one breadth-first order. */
  lemma {:induction false} BreadthFirstUnique(g: Graph, roots: seq<Option<Ptr>>, xs: seq<Ptr>, ys: seq<Ptr>)
    requires BreadthFirst(g, roots, xs) && BreadthFirst(g, roots, ys)
    ensures xs == ys
  {
    hide BreadthFirst;
    if |xs| < |ys| {
      NotLonger(g, roots, xs, ys);
    } else if |ys| < |xs| {
      NotLonger(g, roots, ys, xs);
    } else {
      SharedPrefix(g, roots, xs, ys, |xs|);
      assert xs[..|xs|] == xs && ys[..|ys|] == ys;
    }
  }

  lemma NotLonger(g: Graph, roots: seq<Option<Ptr>>, xs: seq<Ptr>, ys: seq<Ptr>)
    requires BreadthFirst(g, roots, xs) && BreadthFirst(g, roots, ys)
    ensures |xs| >= |ys|
  {
    hide FirstSeen, AllKids;
    if |xs| < |ys| {
      SharedPrefix(g, roots, xs, ys, |xs|);
      assert xs[..|xs|] == xs;
      NextInOrder(g, roots, ys, |xs|);
    }
  }

  lemma {:induction false} SharedPrefix(g: Graph, roots: seq<Option<Ptr>>, xs: seq<Ptr>, ys: seq<Ptr>, n: nat)
    requires BreadthFirst(g, roots, xs) && BreadthFirst(g, roots, ys) && n <= |xs| && n <= |ys|
    ensures xs[..n] == ys[..n]
  {
    hide BreadthFirst, FirstSeen, AllKids;
    if n > 0 {
      SharedPrefix(g, roots, xs, ys, n - 1);
      NextInOrder(g, roots, xs, n - 1);
      NextInOrder(g, roots, ys, n - 1);
      assert xs[..n] == xs[..n - 1] + [xs[n - 1]];
      assert ys[..n] == ys[..n - 1] + [ys[n - 1]];
    }
  }

  // ------------------------------------------------- the queue's layers

  ghost function QueueRefs(queue: seq<Queued>): set<Ptr>
  {
    set q | q in queue && q.msg.Some? :: q.msg.value
  }

  ghost function Messages(queue: seq<Queued>): seq<Option<Ptr>>
  {
    seq(|queue|, i requires 0 <= i < |queue| => queue[i].msg)
  }

  /**
   The queue holds `s` entries of depth `d`, then entries of depth `d + 1`. Every message
   nearer than `d` has been visited, every message at distance `d` has been visited or is
   among those `s`, and whatever a visited message wraps has been visited or is queued.
   */
  ghost predicate Layered(g: Graph, roots: set<Ptr>, queue: seq<Queued>, visited: set<Ptr>, d: nat, s: nat)
  {
    && s <= |queue|
    && (forall i | 0 <= i < |queue| :: queue[i].depth == if i < s then d else d + 1)
    && visited <= Within(g, roots, d)
    && (d > 0 ==> Within(g, roots, d - 1) <= visited)
    && Within(g, roots, d) <= visited + QueueRefs(queue[..s])
    && QueueRefs(queue[..s]) <= Within(g, roots, d)
    && QueueRefs(queue[s..]) <= Within(g, roots, d + 1)
    && Next(g, visited) <= visited + QueueRefs(queue)
  }

  lemma QueueRefsConcat(a: seq<Queued>, b: seq<Queued>)
    ensures QueueRefs(a + b) == QueueRefs(a) + QueueRefs(b)
  {
  }

  lemma QueueRefsHead(queue: seq<Queued>)
    requires queue != []
    ensures QueueRefs(queue) == QueueRefs(queue[1..]) + (if queue[0].msg.Some? then {queue[0].msg.value} else {})
  {
    assert queue == [queue[0]] + queue[1..];
    QueueRefsConcat([queue[0]], queue[1..]);
  }

  /** A layer is used up: its successors make the next one. */
  lemma NextLayer(g: Graph, roots: set<Ptr>, queue: seq<Queued>, visited: set<Ptr>, d: nat)
    requires Layered(g, roots, queue, visited, d, 0)
    ensures Layered(g, roots, queue, visited, d + 1, |queue|)
  {
    hide Next, Kids, Refs;
    assert QueueRefs(queue[..0]) == {};
    assert queue[0..] == queue && queue[..|queue|] == queue;
    assert QueueRefs(queue[|queue|..]) == {};
    NextMonotone(g, Within(g, roots, d), visited);
  }

  lemma Dequeue(queue: seq<Queued>, s: nat)
    requires 0 < s <= |queue|
    ensures queue[..s][0] == queue[0] && queue[..s][1..] == queue[1..][..s - 1] && queue[s..] == queue[1..][s - 1..]
  {
  }

  /** Dropping a nil entry, or one already visited, disturbs nothing. */
  lemma SkipHead(g: Graph, roots: set<Ptr>, queue: seq<Queued>, visited: set<Ptr>, d: nat, s: nat)
    requires Layered(g, roots, queue, visited, d, s) && s > 0
    requires queue[0].msg.None? || queue[0].msg.value in visited
    ensures Layered(g, roots, queue[1..], visited, d, s - 1)
  {
    hide Next, Within, QueueRefs;
    Dequeue(queue, s);
    QueueRefsHead(queue);
    QueueRefsHead(queue[..s]);
  }

  /** The entries a wrapper adds, one layer below its own. */
  ghost function Wrapped(kids: seq<Option<Ptr>>, depth: nat): seq<Queued>
  {
    seq(|kids|, i requires 0 <= i < |kids| => Queued(kids[i], depth))
  }

  lemma WrappedRefs(kids: seq<Option<Ptr>>, depth: nat)
    ensures QueueRefs(Wrapped(kids, depth)) == Refs(kids) && Messages(Wrapped(kids, depth)) == kids
  {
    var w := Wrapped(kids, depth);
    assert forall i | 0 <= i < |kids| :: w[i] == Queued(kids[i], depth);
    forall p | p in Refs(kids) ensures p in QueueRefs(w) {
      var i :| 0 <= i < |kids| && kids[i] == Some(p);
      assert w[i] in w && w[i].msg == Some(p);
    }
  }

  lemma NextWith(g: Graph, visited: set<Ptr>, p: Ptr)
    ensures Next(g, visited + {p}) == Next(g, visited) + Refs(Kids(g(p)))
  {
  }

  lemma KidsWithin(g: Graph, roots: set<Ptr>, p: Ptr, d: nat)
    requires p in Within(g, roots, d)
    ensures Refs(Kids(g(p))) <= Within(g, roots, d + 1)
  {
    forall q | q in Refs(Kids(g(p))) ensures q in Within(g, roots, d + 1) {
      assert q in Next(g, Within(g, roots, d));
    }
  }

  /** A new message is visited and what it wraps is queued behind everything else. */
  lemma VisitHead(g: Graph, roots: set<Ptr>, queue: seq<Queued>, visited: set<Ptr>, d: nat, s: nat, p: Ptr)
    requires Layered(g, roots, queue, visited, d, s) && s > 0 && queue[0].msg == Some(p)
    ensures p in Within(g, roots, d)
    ensures Layered(g, roots, queue[1..] + Wrapped(Kids(g(p)), d + 1), visited + {p}, d, s - 1)
  {
    hide Next, Within, QueueRefs, Kids, Refs;
    var rest, kids := queue[1..], Wrapped(Kids(g(p)), d + 1);
    Dequeue(queue, s);
    QueueRefsHead(queue);
    QueueRefsHead(queue[..s]);
    QueueRefsConcat(rest, kids);
    QueueRefsConcat(rest[s - 1..], kids);
    WrappedRefs(Kids(g(p)), d + 1);
    NextWith(g, visited, p);
    KidsWithin(g, roots, p, d);
    assert (rest + kids)[..s - 1] == rest[..s - 1];
    assert (rest + kids)[s - 1..] == rest[s - 1..] + kids;
  }

  // ------------------------------------------------- the queue as a stream

  /** What was taken from the queue so far, followed by the queue, is the breadth-first stream of the messages found. */
  ghost predicate Streaming(g: Graph, roots: seq<Option<Ptr>>, queue: seq<Queued>, all: seq<Ptr>,
                            consumed: seq<Option<Ptr>>)
  {
    && consumed + Messages(queue) == roots + AllKids(g, all)
    && all == FirstSeen(consumed)
    && forall n | 0 <= n < |all| :: Some(all[n]) in roots + AllKids(g, all[..n])
  }

  lemma MessagesConcat(a: seq<Queued>, b: seq<Queued>)
    ensures Messages(a + b) == Messages(a) + Messages(b)
  {
  }

  lemma MessagesHead(queue: seq<Queued>)
    requires queue != []
    ensures Messages(queue) == [queue[0].msg] + Messages(queue[1..])
  {
  }

  lemma StreamSkip(g: Graph, roots: seq<Option<Ptr>>, queue: seq<Queued>, all: seq<Ptr>, consumed: seq<Option<Ptr>>)
    requires Streaming(g, roots, queue, all, consumed) && queue != []
    requires queue[0].msg.None? || queue[0].msg.value in all
    ensures Streaming(g, roots, queue[1..], all, consumed + [queue[0].msg])
  {
    hide FirstSeen, AllKids, Messages;
    MessagesHead(queue);
    FirstSeenSnoc(consumed, queue[0].msg);
    assert consumed + ([queue[0].msg] + Messages(queue[1..])) == consumed + [queue[0].msg] + Messages(queue[1..]);
  }

  lemma Reassociate<T>(a: seq<T>, b: seq<T>, c: seq<T>, more: seq<T>, x: seq<T>, y: seq<T>)
    requires a + (b + c) == x + y
    ensures a + b + (c + more) == x + (y + more)
  {
    assert a + b + (c + more) == a + (b + c) + more;
    assert x + (y + more) == x + y + more;
  }

  lemma StreamVisit(g: Graph, roots: seq<Option<Ptr>>, queue: seq<Queued>, all: seq<Ptr>, consumed: seq<Option<Ptr>>,
                    p: Ptr, depth: nat)
    requires Streaming(g, roots, queue, all, consumed) && queue != []
    requires queue[0].msg == Some(p) && p !in all
    ensures Streaming(g, roots, queue[1..] + Wrapped(Kids(g(p)), depth), all + [p], consumed + [Some(p)])
  {
    hide FirstSeen, AllKids, Messages, Kids, Wrapped;
    var rest, kids, all' := queue[1..], Wrapped(Kids(g(p)), depth), all + [p];
    MessagesHead(queue);
    MessagesConcat(rest, kids);
    WrappedRefs(Kids(g(p)), depth);
    FirstSeenSnoc(consumed, Some(p));
    AllKidsSnoc(g, all, p);
    Reassociate(consumed, [Some(p)], Messages(rest), Kids(g(p)), roots, AllKids(g, all));
    forall n | 0 <= n < |all'| ensures Some(all'[n]) in roots + AllKids(g, all'[..n]) {
      if n < |all| {
        assert all'[..n] == all[..n];
      } else {
        assert all'[..n] == all;
        assert (consumed + Messages(queue))[|consumed|] == Some(p);
      }
    }
  }

  // ------------------------------------------------- the walk

  function Elems(xs: seq<Ptr>): set<Ptr>
  {
    set x | x in xs
  }

  lemma VisitedSet(all: seq<Ptr>, p: Ptr)
    ensures Elems(all + [p]) == Elems(all) + {p}
  {
  }

  lemma {:induction false} DistinctCount(xs: seq<Ptr>)
    requires forall i, j | 0 <= i < j < |xs| :: xs[i] != xs[j]
    ensures |Elems(xs)| == |xs|
  {
    if xs != [] {
      var init, last := xs[..|xs| - 1], xs[|xs| - 1];
      DistinctCount(init);
      assert xs == init + [last];
      VisitedSet(init, last);
    }
  }

  lemma ElemsIs(xs: seq<Ptr>, p: Ptr)
    ensures p in Elems(xs) <==> p in xs
  {
  }

  lemma SubsetCount(a: set<Ptr>, b: set<Ptr>)
    requires a <= b
    ensures |a| <= |b|
  {
    if a != {} {
      var x :| x in a;
      SubsetCount(a - {x}, b - {x});
    }
  }

  /** One message more than the cap, all within reach. */
  lemma CapExceeded(g: Graph, roots: set<Ptr>, consumed: seq<Option<Ptr>>, all: seq<Ptr>, p: Ptr, d: nat)
    requires all == FirstSeen(consumed) && p !in all && |all| >= MAX_EXTRACTED_MESSAGES
    requires Elems(all) <= Within(g, roots, d) && p in Within(g, roots, d)
    ensures !FewEnough(g, roots)
  {
    hide Within, FirstSeen, Elems;
    FirstSeenDistinct(consumed);
    DistinctCount(all);
    assert p !in Elems(all) by { ElemsIs(all, p); }
    SubsetCount(Elems(all) + {p}, Within(g, roots, d));
  }

  /** A wrapper first met at depth five or more is nowhere nearer. */
  lemma DepthExceeded(g: Graph, roots: set<Ptr>, queue: seq<Queued>, visited: set<Ptr>, d: nat, s: nat, p: Ptr)
    requires Layered(g, roots, queue, visited, d, s) && p !in visited && p in Within(g, roots, d)
    requires d >= MAX_AUTHZ_NESTING_DEPTH && g(p).Exec?
    ensures !ShallowEnough(g, roots)
  {
    hide Within;
    WithinMonotone(g, roots, MAX_AUTHZ_NESTING_DEPTH - 1, d - 1);
  }

  /** Everything visited so far is acceptable. */
  ghost predicate Vetted(g: Graph, roots: set<Ptr>, all: seq<Ptr>)
  {
    forall p | p in all :: Unpacks(g(p)) && (g(p).Exec? ==> p in Within(g, roots, MAX_AUTHZ_NESTING_DEPTH - 1))
  }

  lemma WithinZero(g: Graph, s: set<Ptr>)
    ensures Within(g, s, 0) == s
  {
  }

  /** With the queue empty, what was visited is everything there is. */
  lemma Exhausted(g: Graph, roots: seq<Option<Ptr>>, all: seq<Ptr>, consumed: seq<Option<Ptr>>, d: nat)
    requires Streaming(g, roots, [], all, consumed)
    requires Layered(g, Refs(roots), [], Elems(all), d, 0)
    requires Vetted(g, Refs(roots), all) && |all| <= MAX_EXTRACTED_MESSAGES
    ensures AllUnpack(g, Refs(roots)) && FewEnough(g, Refs(roots)) && ShallowEnough(g, Refs(roots))
    ensures BreadthFirst(g, roots, all)
    ensures ListsReachable(g, Refs(roots), all)
  {
    hide Next, Kids, FirstSeen, AllKids, Refs, Within;
    var start, visited := Refs(roots), Elems(all);
    assert QueueRefs([]) == {};
    WithinMonotone(g, start, 0, d);
    WithinZero(g, start);
    FirstSeenDistinct(consumed);
    DistinctCount(all);
    forall k: nat ensures Within(g, start, k) <= visited && |Within(g, start, k)| <= MAX_EXTRACTED_MESSAGES {
      ClosedSetHoldsAll(g, start, visited, k);
      SubsetCount(Within(g, start, k), visited);
    }
    forall p | p in all ensures Reachable(g, start, p) {
      assert p in Within(g, start, d);
    }
    assert consumed + Messages([]) == consumed;
  }

  /**
   ExtractMessagesFromTx. It terminates on every graph; it succeeds exactly when every
   reachable wrapper unpacks, at most 32 distinct messages are reachable and every reachable
   wrapper is at nesting distance below five, and it then returns each reachable message
   once, in breadth-first order.
   */
  method Extract(g: Graph, roots: seq<Option<Ptr>>) returns (r: Extracted)
    ensures r.Flat? ==>
              AllUnpack(g, Refs(roots)) && FewEnough(g, Refs(roots)) && ShallowEnough(g, Refs(roots))
    ensures r.Flat? ==>
              BreadthFirst(g, roots, r.msgs) && ListsReachable(g, Refs(roots), r.msgs)
    ensures r == Refused(TooMany) ==> !FewEnough(g, Refs(roots))
    ensures r == Refused(TooDeep) ==> !ShallowEnough(g, Refs(roots))
    ensures r == Refused(CannotUnpack) ==> !AllUnpack(g, Refs(roots))
  {
    hide Layered, Streaming, Next, FirstSeen, AllKids, AllUnpack, FewEnough, ShallowEnough, BreadthFirst, ListsReachable, Within;
    var queue: seq<Queued> := Enqueue([], roots, 0);
    var all: seq<Ptr>, processed: set<Ptr> := [], {};
    ghost var consumed, d: nat, s: nat := [], 0, |queue|;
    Start(g, roots);
    while |queue| > 0
      invariant |all| <= MAX_EXTRACTED_MESSAGES
      invariant processed == Elems(all)
      invariant Layered(g, Refs(roots), queue, processed, d, s)
      invariant Streaming(g, roots, queue, all, consumed)
      invariant Vetted(g, Refs(roots), all)
      decreases MAX_EXTRACTED_MESSAGES - |all|, |queue|
    {
      if s == 0 {
        NextLayer(g, Refs(roots), queue, processed, d);
        d, s := d + 1, |queue|;
      }
      HeadDepth(g, Refs(roots), queue, processed, d, s);
      var item := queue[0];
      ghost var before := queue;
      queue := queue[1..];
      if item.msg.None? || item.msg.value in processed {
        SkipHead(g, Refs(roots), before, processed, d, s);
        StreamSkip(g, roots, before, all, consumed);
        consumed, s := consumed + [item.msg], s - 1;
        continue;
      }
      var p := item.msg.value;
      VisitHead(g, Refs(roots), before, processed, d, s, p);
      if |all| >= MAX_EXTRACTED_MESSAGES {
        LayeredVisited(g, Refs(roots), before, processed, d, s);
        StreamFirstSeen(g, roots, before, all, consumed);
        CapExceeded(g, Refs(roots), consumed, all, p, d);
        return Refused(TooMany);
      }
      StreamVisit(g, roots, before, all, consumed, p, d + 1);
      VisitedSet(all, p);
      if g(p).Exec? {
        if item.depth >= MAX_AUTHZ_NESTING_DEPTH {
          DepthExceeded(g, Refs(roots), before, processed, d, s, p);
          return Refused(TooDeep);
        }
        if !Unpacks(g(p)) {
          UnpackFails(g, Refs(roots), p, d);
          return Refused(CannotUnpack);
        }
        WithinMonotone(g, Refs(roots), d, MAX_AUTHZ_NESTING_DEPTH - 1);
        queue := Enqueue(queue, Kids(g(p)), item.depth + 1);
      } else {
        assert queue + Wrapped([], d + 1) == queue;
      }
      all, processed := all + [p], processed + {p};
      consumed, s := consumed + [Some(p)], s - 1;
    }
    StreamEnd(g, Refs(roots), queue, processed, d, s);
    Exhausted(g, roots, all, consumed, d);
    return Flat(all);
  }

  /** Appending messages to the queue at one depth. */
  method Enqueue(queue: seq<Queued>, msgs: seq<Option<Ptr>>, depth: nat) returns (r: seq<Queued>)
    ensures r == queue + Wrapped(msgs, depth)
  {
    r := queue;
    for i := 0 to |msgs|
      invariant r == queue + Wrapped(msgs[..i], depth)
    {
      r := r + [Queued(msgs[i], depth)];
      assert Wrapped(msgs[..i + 1], depth) == Wrapped(msgs[..i], depth) + [Queued(msgs[i], depth)];
    }
    assert msgs[..|msgs|] == msgs;
  }

  lemma Start(g: Graph, roots: seq<Option<Ptr>>)
    ensures Layered(g, Refs(roots), [] + Wrapped(roots, 0), {}, 0, |[] + Wrapped(roots, 0)|)
    ensures Streaming(g, roots, [] + Wrapped(roots, 0), [], [])
  {
    var q := [] + Wrapped(roots, 0);
    assert q == Wrapped(roots, 0) && q[..|q|] == q && QueueRefs(q[|q|..]) == {};
    WrappedRefs(roots, 0);
    assert Next(g, {}) == {};
    assert [] + Messages(q) == roots + [];
  }

  lemma HeadDepth(g: Graph, roots: set<Ptr>, queue: seq<Queued>, visited: set<Ptr>, d: nat, s: nat)
    requires Layered(g, roots, queue, visited, d, s) && s > 0
    ensures queue != [] && queue[0].depth == d
  {
  }

  lemma LayeredVisited(g: Graph, roots: set<Ptr>, queue: seq<Queued>, visited: set<Ptr>, d: nat, s: nat)
    requires Layered(g, roots, queue, visited, d, s)
    ensures visited <= Within(g, roots, d)
  {
  }

  lemma StreamFirstSeen(g: Graph, roots: seq<Option<Ptr>>, queue: seq<Queued>, all: seq<Ptr>, consumed: seq<Option<Ptr>>)
    requires Streaming(g, roots, queue, all, consumed)
    ensures all == FirstSeen(consumed)
  {
  }

  lemma StreamEnd(g: Graph, roots: set<Ptr>, queue: seq<Queued>, visited: set<Ptr>, d: nat, s: nat)
    requires Layered(g, roots, queue, visited, d, s) && queue == []
    ensures s == 0
  {
  }

  lemma UnpackFails(g: Graph, roots: set<Ptr>, p: Ptr, d: nat)
    requires p in Within(g, roots, d) && !Unpacks(g(p))
    ensures !AllUnpack(g, roots)
  {
  }
}
