/** What several models say about sequences: no repeats, order, and sorting. */
module Sequences {
  /** No element occurs twice. */
  predicate Distinct<T(==)>(s: seq<T>) {
    forall i, j :: 0 <= i < j < |s| ==> s[i] != s[j]
  }

  // ---- Sorting by an order ----

  ghost predicate TotalOrder<T(!new)>(leq: (T, T) -> bool) {
    && (forall x, y :: leq(x, y) || leq(y, x))
    && (forall x, y, z :: leq(x, y) && leq(y, z) ==> leq(x, z))
  }

  predicate Ascending<T>(s: seq<T>, leq: (T, T) -> bool) {
    forall i, j :: 0 <= i < j < |s| ==> leq(s[i], s[j])
  }

  function Insert<T>(x: T, s: seq<T>, leq: (T, T) -> bool): (r: seq<T>)
    ensures |r| == |s| + 1
  {
    if s == [] then [x] else if leq(x, s[0]) then [x] + s else [s[0]] + Insert(x, s[1..], leq)
  }

  /** What a library sort leaves. */
  function Sort<T>(s: seq<T>, leq: (T, T) -> bool): (r: seq<T>)
    ensures |r| == |s|
  {
    if s == [] then [] else Insert(s[0], Sort(s[1..], leq), leq)
  }

  lemma {:induction false} InsertPermutes<T>(x: T, s: seq<T>, leq: (T, T) -> bool)
    ensures multiset(Insert(x, s, leq)) == multiset(s) + multiset{x}
  {
    if s == [] {
    } else {
      assert s == [s[0]] + s[1..];
      InsertPermutes(x, s[1..], leq);
    }
  }

  lemma {:induction false} SortPermutes<T>(s: seq<T>, leq: (T, T) -> bool)
    ensures multiset(Sort(s, leq)) == multiset(s)
  {
    if s == [] {
    } else {
      assert s == [s[0]] + s[1..];
      SortPermutes(s[1..], leq);
      InsertPermutes(s[0], Sort(s[1..], leq), leq);
    }
  }

  lemma ConsAscends<T>(x: T, s: seq<T>, leq: (T, T) -> bool)
    requires Ascending(s, leq) && forall y :: y in s ==> leq(x, y)
    ensures Ascending([x] + s, leq)
  {
    forall i, j | 0 <= i < j < |s| + 1
      ensures leq(([x] + s)[i], ([x] + s)[j])
    {
      assert ([x] + s)[j] == s[j - 1];
    }
  }

  lemma {:induction false} InsertAscends<T(!new)>(x: T, s: seq<T>, leq: (T, T) -> bool)
    requires TotalOrder(leq) && Ascending(s, leq)
    ensures Ascending(Insert(x, s, leq), leq)
  {
    if s == [] {
    } else if leq(x, s[0]) {
      forall y | y in s
        ensures leq(x, y)
      {
        assert y == s[0] || leq(s[0], y);
      }
      ConsAscends(x, s, leq);
    } else {
      InsertAscends(x, s[1..], leq);
      InsertPermutes(x, s[1..], leq);
      forall y | y in Insert(x, s[1..], leq)
        ensures leq(s[0], y)
      {
        assert y in multiset(Insert(x, s[1..], leq));
        assert y == x || y in s[1..];
      }
      ConsAscends(s[0], Insert(x, s[1..], leq), leq);
    }
  }

  lemma {:induction false} SortAscends<T(!new)>(s: seq<T>, leq: (T, T) -> bool)
    requires TotalOrder(leq)
    ensures Ascending(Sort(s, leq), leq)
  {
    if s == [] {
    } else {
      SortAscends(s[1..], leq);
      InsertAscends(s[0], Sort(s[1..], leq), leq);
    }
  }
}
