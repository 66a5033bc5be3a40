/**
 The string routines the migrations rely on: byte-wise order and sort.Strings, and the
 newline-joined record with its reader.
 */
module Strings {

  predicate Leq(a: string, b: string)
  {
    if a == "" then true
    else if b == "" then false
    else a[0] < b[0] || (a[0] == b[0] && Leq(a[1..], b[1..]))
  }

  lemma LeqTotal(a: string, b: string)
    ensures Leq(a, b) || Leq(b, a)
  {
  }

  lemma {:induction false} LeqTransitive(a: string, b: string, c: string)
    requires Leq(a, b) && Leq(b, c)
    ensures Leq(a, c)
  {
    if a != "" && a[0] == b[0] && b[0] == c[0] { LeqTransitive(a[1..], b[1..], c[1..]); }
  }

  lemma {:induction false} LeqAntisymmetric(a: string, b: string)
    requires Leq(a, b) && Leq(b, a)
    ensures a == b
  {
    if a != "" {
      LeqAntisymmetric(a[1..], b[1..]);
      assert a == [a[0]] + a[1..] && b == [b[0]] + b[1..];
    }
  }

  ghost predicate Sorted(xs: seq<string>)
  {
    forall i, j | 0 <= i < j < |xs| :: Leq(xs[i], xs[j])
  }

  function Insert(x: string, xs: seq<string>): seq<string>
  {
    if xs == [] || Leq(x, xs[0]) then [x] + xs else [xs[0]] + Insert(x, xs[1..])
  }

  /** sort.Strings; `SortIsTheSort` shows that no other sorting can differ. */
  function SortStrings(xs: seq<string>): seq<string>
  {
    if xs == [] then [] else Insert(xs[0], SortStrings(xs[1..]))
  }

  lemma {:induction false} InsertKeeps(x: string, xs: seq<string>)
    ensures multiset(Insert(x, xs)) == multiset(xs) + multiset{x}
  {
    if xs != [] && !Leq(x, xs[0]) {
      InsertKeeps(x, xs[1..]);
      assert xs == [xs[0]] + xs[1..];
    }
  }

  lemma {:induction false} InsertSorted(x: string, xs: seq<string>)
    requires Sorted(xs)
    ensures Sorted(Insert(x, xs))
  {
    if xs != [] {
      if Leq(x, xs[0]) {
        forall j | 0 <= j < |xs| ensures Leq(x, xs[j]) {
          if j > 0 { LeqTransitive(x, xs[0], xs[j]); }
        }
      } else {
        LeqTotal(x, xs[0]);
        var rest := Insert(x, xs[1..]);
        InsertSorted(x, xs[1..]);
        InsertKeeps(x, xs[1..]);
        forall j | 0 <= j < |rest| ensures Leq(xs[0], rest[j]) {
          assert rest[j] in multiset(rest);
          assert rest[j] == x || rest[j] in xs[1..];
        }
      }
    }
  }

  /** The result is sorted and has the same elements, each as often. */
  lemma {:induction false} SortCorrect(xs: seq<string>)
    ensures Sorted(SortStrings(xs)) && multiset(SortStrings(xs)) == multiset(xs)
  {
    hide Sorted, Insert;
    if xs != [] {
      SortCorrect(xs[1..]);
      InsertSorted(xs[0], SortStrings(xs[1..]));
      InsertKeeps(xs[0], SortStrings(xs[1..]));
      assert xs == [xs[0]] + xs[1..];
    } else {
      SortedNone();
    }
  }

  lemma SortedNone()
    ensures Sorted([])
  {
  }

  lemma SortedTail(xs: seq<string>)
    requires Sorted(xs) && xs != []
    ensures Sorted(xs[1..]) && multiset(xs[1..]) == multiset(xs) - multiset{xs[0]}
    ensures xs[0] in multiset(xs)
  {
    assert xs == [xs[0]] + xs[1..];
  }

  /** A sorted arrangement is determined by its elements. */
  lemma {:induction false} SortedUnique(xs: seq<string>, ys: seq<string>)
    requires Sorted(xs) && Sorted(ys) && multiset(xs) == multiset(ys)
    ensures xs == ys
    decreases |xs|
  {
    hide Sorted, Leq;
    assert |xs| == |multiset(xs)| == |multiset(ys)| == |ys|;
    if xs != [] {
      SortedTail(xs);
      SortedTail(ys);
      assert xs[0] in ys && ys[0] in xs;
      SortedHead(xs, ys[0]);
      SortedHead(ys, xs[0]);
      LeqAntisymmetric(xs[0], ys[0]);
      SortedUnique(xs[1..], ys[1..]);
      assert xs == [xs[0]] + xs[1..] && ys == [ys[0]] + ys[1..];
    }
  }

  lemma SortedHead(xs: seq<string>, y: string)
    requires Sorted(xs) && y in xs
    ensures Leq(xs[0], y)
  {
    var i :| 0 <= i < |xs| && xs[i] == y;
    if i == 0 { LeqTotal(y, y); }
  }

  lemma SortIsTheSort(xs: seq<string>, ys: seq<string>)
    requires Sorted(ys) && multiset(ys) == multiset(xs)
    ensures ys == SortStrings(xs)
  {
    SortCorrect(xs);
    SortedUnique(ys, SortStrings(xs));
  }

  // ------------------------------------------------- the newline-joined record

  /** strings.Join(xs, "\n") */
  function Join(xs: seq<string>): string
  {
    if xs == [] then "" else if |xs| == 1 then xs[0] else xs[0] + "\n" + Join(xs[1..])
  }

  /** strings.Split(s, "\n") */
  function Split(s: string): (xs: seq<string>)
    ensures xs != []
  {
    if s == "" then [""]
    else
      var rest := Split(s[1..]);
      if s[0] == '\n' then [""] + rest else [[s[0]] + rest[0]] + rest[1..]
  }

  lemma {:induction false} SplitPlain(s: string)
    requires '\n' !in s
    ensures Split(s) == [s]
  {
    if s != "" {
      SplitPlain(s[1..]);
      assert s == [s[0]] + s[1..];
    }
  }

  lemma {:induction false} SplitLine(s: string, t: string)
    requires '\n' !in s
    ensures Split(s + "\n" + t) == [s] + Split(t)
  {
    var st := s + "\n" + t;
    if s == "" {
      assert st[1..] == t;
    } else {
      assert st[1..] == s[1..] + "\n" + t;
      SplitLine(s[1..], t);
      assert [s[0]] + s[1..] == s;
    }
  }

  ghost predicate OneLineEach(xs: seq<string>)
  {
    forall x | x in xs :: '\n' !in x
  }

  lemma {:induction false} SplitJoin(xs: seq<string>)
    requires xs != [] && OneLineEach(xs)
    ensures Split(Join(xs)) == xs
  {
    assert xs[0] in xs;
    if |xs| == 1 {
      SplitPlain(xs[0]);
    } else {
      assert forall x | x in xs[1..] :: x in xs;
      SplitJoin(xs[1..]);
      SplitLine(xs[0], Join(xs[1..]));
    }
  }

  lemma {:induction false} SplitPieces(s: string)
    ensures OneLineEach(Split(s))
  {
    if s != "" {
      SplitPieces(s[1..]);
      var rest := Split(s[1..]);
      assert rest[0] in rest;
      forall x | x in Split(s) ensures '\n' !in x {
        if s[0] == '\n' {
          assert x == "" || x in rest;
        } else {
          assert x == [s[0]] + rest[0] || x in rest;
        }
      }
    }
  }

  /** The stored form of a list of denoms: nothing for an empty list. */
  datatype Record = Absent | Stored(raw: string)

  function RecordOf(xs: seq<string>): Record
  {
    if xs == [] then Absent else Stored(Join(xs))
  }

  function ReadRecord(r: Record): seq<string>
  {
    if r.Absent? || r.raw == "" then [] else Split(r.raw)
  }

  /** Reading gives back exactly the lists of newline-free strings, except the list of one empty string. */
  lemma RecordRoundTrip(xs: seq<string>)
    ensures ReadRecord(RecordOf(xs)) == xs <==> OneLineEach(xs) && xs != [""]
  {
    if OneLineEach(xs) && xs != [""] && xs != [] {
      SplitJoin(xs);
      if Join(xs) == "" { SplitPlain(""); }
    }
    if ReadRecord(RecordOf(xs)) == xs && xs != [] {
      SplitPieces(Join(xs));
    }
  }

  /** There is a record exactly when there is something to record. */
  lemma RecordAbsent(xs: seq<string>)
    ensures RecordOf(xs) == Absent <==> xs == []
  {
  }
}
