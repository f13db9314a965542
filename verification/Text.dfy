/** The string operations the program takes from Go: order, sort, join, split, cut and trim. */
module Text {
  import opened Option
  import opened Sequences

  // ---- Order ----

  /** Go's string order; code points compare as their encodings do. */
  predicate Leq(a: string, b: string) {
    a == "" || (b != "" && (a[0] < b[0] || (a[0] == b[0] && Leq(a[1..], b[1..]))))
  }

  lemma {:induction false} LeqAntisymmetric(a: string, b: string)
    requires Leq(a, b) && Leq(b, a)
    ensures a == b
  {
    if a == "" {
    } else {
      LeqAntisymmetric(a[1..], b[1..]);
      assert a == [a[0]] + a[1..] && b == [b[0]] + b[1..];
    }
  }

  lemma {:induction false} LeqTransitive(a: string, b: string, c: string)
    requires Leq(a, b) && Leq(b, c)
    ensures Leq(a, c)
  {
    if a != "" && a[0] == b[0] == c[0] {
      LeqTransitive(a[1..], b[1..], c[1..]);
    }
  }

  lemma {:induction false} LeqTotal(a: string, b: string)
    ensures Leq(a, b) || Leq(b, a)
  {
    if a != "" && b != "" && a[0] == b[0] {
      LeqTotal(a[1..], b[1..]);
    }
  }

  /** Go's string order sorts. */
  lemma LeqOrders()
    ensures TotalOrder(Leq)
  {
    forall a, b
      ensures Leq(a, b) || Leq(b, a)
    {
      LeqTotal(a, b);
    }
    forall a, b, c | Leq(a, b) && Leq(b, c)
      ensures Leq(a, c)
    {
      LeqTransitive(a, b, c);
    }
  }

  // ---- sort.Strings ----

  /** There is one ascending order of a multiset of strings. */
  lemma {:induction false} AscendingUnique(a: seq<string>, b: seq<string>)
    requires Ascending(a, Leq) && Ascending(b, Leq) && multiset(a) == multiset(b)
    ensures a == b
  {
    SameLength(a, b);
    if a == [] {
    } else {
      assert a[0] in multiset(a) && b[0] in multiset(b);
      FirstIsLeast(a, b[0]);
      FirstIsLeast(b, a[0]);
      LeqAntisymmetric(a[0], b[0]);
      SameTails(a, b);
      AscendingUnique(a[1..], b[1..]);
    }
  }

  lemma SameLength(a: seq<string>, b: seq<string>)
    requires multiset(a) == multiset(b)
    ensures |a| == |b|
  {
    assert |a| == |multiset(a)| && |b| == |multiset(b)|;
  }

  lemma SameTails(a: seq<string>, b: seq<string>)
    requires a != [] && b != [] && a[0] == b[0] && multiset(a) == multiset(b)
    ensures multiset(a[1..]) == multiset(b[1..])
  {
    assert a == [a[0]] + a[1..] && b == [b[0]] + b[1..];
    assert multiset(a[1..]) == multiset(a) - multiset{a[0]};
  }

  lemma FirstIsLeast(s: seq<string>, x: string)
    requires Ascending(s, Leq) && s != [] && x in s
    ensures Leq(s[0], x)
  {
    var i :| 0 <= i < |s| && s[i] == x;
    if i == 0 {
      LeqTotal(x, x);
    }
  }

  /** The same strings in any order sort the same. */
  lemma SortIgnoresOrder(a: seq<string>, b: seq<string>)
    requires multiset(a) == multiset(b)
    ensures Sort(a, Leq) == Sort(b, Leq)
  {
    SortPermutes(a, Leq);
    SortPermutes(b, Leq);
    LeqOrders();
    SortAscends(a, Leq);
    SortAscends(b, Leq);
    AscendingUnique(Sort(a, Leq), Sort(b, Leq));
  }

  // ---- Join and split at commas ----

  function Join(parts: seq<string>): string {
    if parts == [] then "" else if |parts| == 1 then parts[0] else parts[0] + "," + Join(parts[1..])
  }

  function Split(s: string): (parts: seq<string>)
    ensures parts != []
    ensures forall p :: p in parts ==> ',' !in p
  {
    if s == "" then [""]
    else
      var rest := Split(s[1..]);
      if s[0] == ',' then [""] + rest
      else
        assert ',' !in [s[0]] + rest[0];
        [[s[0]] + rest[0]] + rest[1..]
  }

  lemma {:induction false} SplitPlain(a: string)
    requires ',' !in a
    ensures Split(a) == [a]
  {
    if a == "" {
    } else {
      SplitPlain(a[1..]);
      assert a == [a[0]] + a[1..];
    }
  }

  lemma {:induction false} SplitAtComma(a: string, rest: string)
    requires ',' !in a
    ensures Split(a + "," + rest) == [a] + Split(rest)
  {
    var s := a + "," + rest;
    if a == "" {
      assert s[1..] == rest;
    } else {
      assert s[1..] == a[1..] + "," + rest;
      SplitAtComma(a[1..], rest);
      assert s[0] == a[0] && a == [a[0]] + a[1..];
      assert Split(s[1..]) == [a[1..]] + Split(rest);
    }
  }

  lemma {:induction false} SplitJoin(parts: seq<string>)
    requires parts != [] && forall p :: p in parts ==> ',' !in p
    ensures Split(Join(parts)) == parts
  {
    if |parts| == 1 {
      SplitPlain(parts[0]);
    } else {
      assert parts[1..] != [];
      SplitJoin(parts[1..]);
      SplitAtComma(parts[0], Join(parts[1..]));
    }
  }

  // ---- Cut at the first '=' ----

  function IndexOf(c: char, s: string): (i: nat)
    requires c in s
    ensures i < |s| && s[i] == c && c !in s[..i]
  {
    if s[0] == c then 0
    else
      assert s == [s[0]] + s[1..];
      var i := 1 + IndexOf(c, s[1..]);
      assert s[..i] == [s[0]] + s[1..][..i - 1];
      i
  }

  lemma {:induction false} FirstIndex(c: char, s: string, i: nat)
    requires i < |s| && s[i] == c && c !in s[..i]
    ensures IndexOf(c, s) == i
  {
    if i > 0 {
      assert s[..i] == [s[0]] + s[1..][..i - 1];
      FirstIndex(c, s[1..], i - 1);
    }
  }

  datatype Pair = Pair(key: string, value: string)

  /** strings.Cut at "=". */
  function Cut(s: string): Option<Pair> {
    if '=' in s then Some(Pair(s[..IndexOf('=', s)], s[IndexOf('=', s) + 1..])) else None
  }

  lemma CutPart(k: string, v: string)
    requires '=' !in k
    ensures Cut(k + "=" + v) == Some(Pair(k, v))
  {
    var s := k + "=" + v;
    assert s[|k|] == '=' && s[..|k|] == k;
    FirstIndex('=', s, |k|);
    assert s[..|k|] == k && s[|k| + 1..] == v;
  }

  // ---- strings.TrimSpace ----

  predicate IsSpace(c: char) {
    c in {' ', '\t', '\n', '\U{b}', '\U{c}', '\r', '\U{85}', '\U{a0}', '\U{1680}', '\U{2028}', '\U{2029}', '\U{202f}',
          '\U{205f}', '\U{3000}'} || '\U{2000}' <= c <= '\U{200a}'
  }

  function TrimLeft(s: string): string {
    if s == "" then "" else if IsSpace(s[0]) then TrimLeft(s[1..]) else s
  }

  function TrimRight(s: string): string {
    if s == "" then "" else if IsSpace(s[|s| - 1]) then TrimRight(s[..|s| - 1]) else s
  }

  function TrimSpace(s: string): string {
    TrimRight(TrimLeft(s))
  }

  lemma {:induction false} TrimLeftTrims(s: string)
    ensures var r := TrimLeft(s); |r| <= |s| && r == s[|s| - |r|..] && (r != "" ==> !IsSpace(r[0]))
  {
    if s != "" && IsSpace(s[0]) {
      TrimLeftTrims(s[1..]);
    }
  }

  lemma {:induction false} TrimRightTrims(s: string)
    ensures var r := TrimRight(s); r <= s && (r != "" ==> !IsSpace(r[|r| - 1]))
  {
    if s != "" && IsSpace(s[|s| - 1]) {
      TrimRightTrims(s[..|s| - 1]);
    }
  }

  /** Trimming keeps a stretch of the string, with no space at either end. */
  lemma TrimSpaceTrims(s: string)
    ensures forall c :: c in TrimSpace(s) ==> c in s
    ensures TrimSpace(s) != "" ==> !IsSpace(TrimSpace(s)[0]) && !IsSpace(TrimSpace(s)[|TrimSpace(s)| - 1])
  {
    TrimLeftTrims(s);
    TrimRightTrims(TrimLeft(s));
  }

  /** A string with no space at either end is left alone. */
  lemma TrimmedStays(s: string)
    requires s == "" || (!IsSpace(s[0]) && !IsSpace(s[|s| - 1]))
    ensures TrimSpace(s) == s
  {
  }

  lemma TrimIdempotent(s: string)
    ensures TrimSpace(TrimSpace(s)) == TrimSpace(s)
  {
    TrimSpaceTrims(s);
    TrimmedStays(TrimSpace(s));
  }
}
