/**
  Group keys: the drill's printer, the correlator's renderer and the parser of the
  rerun matcher. A key is the label set as comma-joined "k=v" parts.
 */
module GroupKeys {
  import opened Option
  import opened Sequences
  import opened Text

  type Labels = map<string, string>

  /** Reading a key the map does not hold yields the empty string. */
  function At(labels: Labels, k: string): string {
    if k in labels then labels[k] else ""
  }

  function Part(k: string, v: string): string {
    k + "=" + v
  }

  // ---- Printing ----

  /** The parts of some keys, in their order. */
  function Parts(labels: Labels, keys: seq<string>): seq<string> {
    seq(|keys|, i requires 0 <= i < |keys| => Part(keys[i], At(labels, keys[i])))
  }

  /** Some order of the map's keys: a range over the map. */
  ghost predicate Enumerates(keys: seq<string>, labels: Labels) {
    Distinct(keys) && (forall k :: k in keys <==> k in labels)
  }

  /** Any order of the keys gives the same sorted parts. */
  lemma PrintingIgnoresOrder(labels: Labels, a: seq<string>, b: seq<string>)
    requires Enumerates(a, labels) && Enumerates(b, labels)
    ensures Sort(Parts(labels, a), Leq) == Sort(Parts(labels, b), Leq)
  {
    EnumerationsAgree(a, b);
    PartsAgree(labels, a, b);
    SortIgnoresOrder(Parts(labels, a), Parts(labels, b));
  }

  lemma {:induction false} DistinctOnce(s: seq<string>, x: string)
    requires Distinct(s)
    ensures multiset(s)[x] == if x in s then 1 else 0
  {
    if s == [] {
    } else {
      assert s == [s[0]] + s[1..];
      DistinctOnce(s[1..], x);
      assert s[0] !in s[1..];
    }
  }

  lemma EnumerationsAgree(a: seq<string>, b: seq<string>)
    requires Distinct(a) && Distinct(b) && forall k :: k in a <==> k in b
    ensures multiset(a) == multiset(b)
  {
    forall x
      ensures multiset(a)[x] == multiset(b)[x]
    {
      DistinctOnce(a, x);
      DistinctOnce(b, x);
    }
  }

  lemma {:induction false} PartsAgree(labels: Labels, a: seq<string>, b: seq<string>)
    requires multiset(a) == multiset(b)
    ensures multiset(Parts(labels, a)) == multiset(Parts(labels, b))
    decreases |a|
  {
    SameLength(a, b);
    if a == [] {
    } else {
      assert a[0] in multiset(b);
      var i :| 0 <= i < |b| && b[i] == a[0];
      Without(a, 0);
      Without(b, i);
      PartsAgree(labels, Dropped(a, 0), Dropped(b, i));
      PartsWithout(labels, a, 0);
      PartsWithout(labels, b, i);
    }
  }

  function Dropped(s: seq<string>, i: nat): seq<string>
    requires i < |s|
  {
    s[..i] + s[i + 1..]
  }

  lemma Without(s: seq<string>, i: nat)
    requires i < |s|
    ensures multiset(s) == multiset(Dropped(s, i)) + multiset{s[i]}
    ensures multiset(Dropped(s, i)) == multiset(s) - multiset{s[i]}
  {
    assert s == s[..i] + [s[i]] + s[i + 1..];
  }

  lemma PartsWithout(labels: Labels, keys: seq<string>, i: nat)
    requires i < |keys|
    ensures multiset(Parts(labels, keys))
         == multiset(Parts(labels, Dropped(keys, i))) + multiset{Part(keys[i], At(labels, keys[i]))}
  {
    var parts := Parts(labels, keys);
    Without(parts, i);
    assert Dropped(parts, i) == Parts(labels, Dropped(keys, i));
  }

  /** An order of the labels' keys. */
  ghost function KeysOf(labels: Labels): (keys: seq<string>)
    ensures Enumerates(keys, labels)
    decreases |labels|
  {
    if labels == map[] then []
    else
      var k :| k in labels;
      assert (labels - {k}).Keys == labels.Keys - {k};
      [k] + KeysOf(labels - {k})
  }

  /** drillGroupKey. */
  ghost function DrillKey(labels: Labels): string {
    Join(Sort(Parts(labels, KeysOf(labels)), Leq))
  }

  function Present(labels: Labels, selected: seq<string>): seq<string> {
    if selected == [] then []
    else (if selected[0] in labels then [selected[0]] else []) + Present(labels, selected[1..])
  }

  /** grouping.render. */
  function Render(labels: Labels, keys: seq<string>): string {
    Join(Parts(labels, Sort(keys, Leq)))
  }

  /** grouping.RenderSelectedLabels. */
  function RenderSelected(labels: Labels, selected: seq<string>): string {
    Render(labels, Present(labels, selected))
  }

  /** The labels that some keys pick out. */
  function Picked(labels: Labels, keys: seq<string>): Labels {
    map k | k in keys :: At(labels, k)
  }

  // ---- Parsing ----

  /** The map filled part by part; a part without "=" is skipped and a repeated key overwrites. */
  function ParseParts(parts: seq<string>): Labels {
    if parts == [] then map[]
    else
      var before := ParseParts(parts[..|parts| - 1]);
      match Cut(parts[|parts| - 1])
      case Some(pair) => before[TrimSpace(pair.key) := pair.value]
      case None => before
  }

  function Parse(groupKey: string): Labels {
    ParseParts(Split(groupKey))
  }

  // ---- The round trip ----

  /** Keys with no outer space, comma or "=", values with no comma. */
  predicate Canonical(labels: Labels) {
    forall k :: k in labels ==> TrimSpace(k) == k && ',' !in k && '=' !in k && ',' !in labels[k]
  }

  /** Parsing yields nothing else, whatever the text. */
  lemma {:induction false} ParsedIsCanonical(parts: seq<string>)
    requires forall p :: p in parts ==> ',' !in p
    ensures Canonical(ParseParts(parts))
  {
    if parts == [] {
    } else {
      var last := parts[|parts| - 1];
      ParsedIsCanonical(parts[..|parts| - 1]);
      assert last in parts;
      if '=' in last {
        var i := IndexOf('=', last);
        assert last == last[..i] + last[i..];
        assert ',' !in last[..i] && ',' !in last[i + 1..];
        TrimIdempotent(last[..i]);
        TrimSpaceTrims(last[..i]);
      }
    }
  }

  /** Distinct canonical parts parse to the labels they came from, in whatever order. */
  lemma {:induction false} PartsParseBack(labels: Labels, keys: seq<string>)
    requires Canonical(labels) && Distinct(keys) && forall k :: k in keys ==> k in labels
    ensures ParseParts(Parts(labels, keys)) == Picked(labels, keys)
  {
    if keys == [] {
    } else {
      var (front, last) := (keys[..|keys| - 1], keys[|keys| - 1]);
      assert forall k :: k in keys <==> k in front || k == last;
      assert Parts(labels, keys) == Parts(labels, front) + [Part(last, At(labels, last))];
      PartsParseBack(labels, front);
      ParseLast(Parts(labels, front), last, At(labels, last));
    }
  }

  lemma ParseLast(parts: seq<string>, k: string, v: string)
    requires TrimSpace(k) == k && '=' !in k
    ensures ParseParts(parts + [Part(k, v)]) == ParseParts(parts)[k := v]
  {
    var all := parts + [Part(k, v)];
    assert all[..|all| - 1] == parts;
    CutPart(k, v);
  }

  /** The sorted parts are the parts of some order of the keys. */
  lemma SortedPartsAreParts(labels: Labels) returns (keys: seq<string>)
    ensures Enumerates(keys, labels) && Sort(Parts(labels, KeysOf(labels)), Leq) == Parts(labels, keys)
  {
    keys := SortByPart(labels, KeysOf(labels));
  }

  lemma {:induction false} SortByPart(labels: Labels, keys: seq<string>) returns (sorted: seq<string>)
    requires Distinct(keys)
    ensures Distinct(sorted) && forall k :: k in sorted <==> k in keys
    ensures Sort(Parts(labels, keys), Leq) == Parts(labels, sorted)
  {
    if keys == [] {
      sorted := [];
    } else {
      var rest := SortByPart(labels, keys[1..]);
      assert keys[0] !in keys[1..];
      assert forall k :: k in keys <==> k == keys[0] || k in keys[1..];
      assert Parts(labels, keys)[1..] == Parts(labels, keys[1..]);
      sorted := InsertByPart(labels, keys[0], rest);
    }
  }

  lemma {:induction false} InsertByPart(labels: Labels, k: string, keys: seq<string>) returns (sorted: seq<string>)
    requires Distinct(keys) && k !in keys
    ensures Distinct(sorted) && forall x :: x in sorted <==> x == k || x in keys
    ensures Insert(Part(k, At(labels, k)), Parts(labels, keys), Leq) == Parts(labels, sorted)
  {
    if keys == [] {
      sorted := [k];
    } else {
      TailDistinct(keys);
      assert keys == [keys[0]] + keys[1..];
      PartsCons(labels, keys[0], keys[1..]);
      if Leq(Part(k, At(labels, k)), Part(keys[0], At(labels, keys[0]))) {
        sorted := [k] + keys;
        PartsCons(labels, k, keys);
      } else {
        var rest := InsertByPart(labels, k, keys[1..]);
        sorted := [keys[0]] + rest;
        PartsCons(labels, keys[0], rest);
      }
    }
  }

  lemma TailDistinct(s: seq<string>)
    requires Distinct(s) && s != []
    ensures Distinct(s[1..]) && s[0] !in s[1..]
    ensures forall x :: x in s <==> x == s[0] || x in s[1..]
  {
  }

  lemma PartsCons(labels: Labels, k: string, keys: seq<string>)
    ensures Parts(labels, [k] + keys) == [Part(k, At(labels, k))] + Parts(labels, keys)
  {
  }

  lemma {:induction false} CommaFreeParts(labels: Labels, keys: seq<string>)
    requires Canonical(labels) && forall k :: k in keys ==> k in labels
    ensures forall p :: p in Parts(labels, keys) ==> ',' !in p
  {
    forall p | p in Parts(labels, keys)
      ensures ',' !in p
    {
      var i :| 0 <= i < |keys| && Parts(labels, keys)[i] == p;
      assert keys[i] in labels;
    }
  }

  /** Joined parts of all the labels, in any order, parse back exactly when the labels are canonical. */
  lemma JoinedPartsParseBack(labels: Labels, keys: seq<string>)
    requires Enumerates(keys, labels)
    ensures Parse(Join(Parts(labels, keys))) == labels <==> Canonical(labels)
  {
    if Canonical(labels) {
      PartsParseBack(labels, keys);
      assert Picked(labels, keys) == labels;
      if keys == [] {
        assert Join(Parts(labels, keys)) == "";
        assert ParseParts([""]) == map[];
      } else {
        CommaFreeParts(labels, keys);
        SplitJoin(Parts(labels, keys));
      }
    } else {
      ParsedIsCanonical(Split(Join(Parts(labels, keys))));
    }
  }

  /**
    The round trip: a drill key parses back to its labels exactly when every key is
    trimmed and holds no comma or "=", and no value holds a comma.
   */
  lemma RoundTripExactlyWhenCanonical(labels: Labels)
    ensures Parse(DrillKey(labels)) == labels <==> Canonical(labels)
  {
    var keys := SortedPartsAreParts(labels);
    JoinedPartsParseBack(labels, keys);
  }

  // ---- The correlator's keys ----

  /** The key of an incident grouped by exactly these labels. */
  ghost function IncidentKey(labels: Labels): string {
    Render(labels, KeysOf(labels))
  }

  lemma RenderingIgnoresOrder(labels: Labels, keys: seq<string>)
    requires Enumerates(keys, labels)
    ensures Render(labels, keys) == IncidentKey(labels)
  {
    EnumerationsAgree(keys, KeysOf(labels));
    SortIgnoresOrder(keys, KeysOf(labels));
  }

  /** The round trip holds of the correlator's keys under the same condition. */
  lemma IncidentRoundTripExactlyWhenCanonical(labels: Labels)
    ensures Parse(IncidentKey(labels)) == labels <==> Canonical(labels)
  {
    SortKeepsDistinct(KeysOf(labels));
    JoinedPartsParseBack(labels, Sort(KeysOf(labels), Leq));
  }

  /** Selecting distinct labels that the alert has renders the key of those labels alone. */
  lemma SelectedIsIncidentKey(labels: Labels, selected: seq<string>)
    requires Distinct(selected) && forall k :: k in selected ==> k in labels
    ensures RenderSelected(labels, selected) == IncidentKey(Picked(labels, selected))
  {
    PresentAll(labels, selected);
    SortKeepsDistinct(selected);
    PartsOfPicked(labels, selected, Sort(selected, Leq));
    RenderingIgnoresOrder(Picked(labels, selected), selected);
  }

  // ---- The two renderers ----

  /** a sorts before b as a key but after it as a part: b goes on from a with something below "=". */
  predicate Inverts(a: string, b: string) {
    |a| < |b| && a == b[..|a|] && b[|a|] < '='
  }

  lemma InvertsTail(a: string, b: string)
    requires a != "" && b != "" && a[0] == b[0]
    ensures Inverts(a, b) <==> Inverts(a[1..], b[1..])
  {
    if |a| < |b| {
      assert a == [a[0]] + a[1..];
      assert b[..|a|] == [b[0]] + b[1..][..|a| - 1];
    }
  }

  /** Part order is key order except where one key inverts the other. */
  lemma {:induction false} PartOrder(a: string, v: string, b: string, w: string)
    requires '=' !in a && '=' !in b && a != b && Leq(a, b)
    ensures Leq(Part(a, v), Part(b, w)) <==> !Inverts(a, b)
  {
    var (p, q) := (Part(a, v), Part(b, w));
    if a == "" {
      assert b[0] in b && q[0] == b[0] && p[0] == '=';
    } else {
      assert p[0] == a[0] && q[0] == b[0];
      if a[0] == b[0] {
        assert a == [a[0]] + a[1..] && b == [b[0]] + b[1..];
        assert p[1..] == Part(a[1..], v) && q[1..] == Part(b[1..], w);
        PartOrder(a[1..], v, b[1..], w);
        InvertsTail(a, b);
      }
    }
  }

  predicate SomeInversion(keys: seq<string>) {
    exists i, j :: 0 <= i < |keys| && 0 <= j < |keys| && Inverts(keys[i], keys[j])
  }

  /** Sorted keys give sorted parts exactly when no key inverts another. */
  lemma KeyOrderIsPartOrder(labels: Labels, keys: seq<string>)
    requires Canonical(labels) && Distinct(keys) && Ascending(keys, Leq) && forall k :: k in keys ==> k in labels
    ensures Ascending(Parts(labels, keys), Leq) <==> !SomeInversion(keys)
  {
    forall i, j | 0 <= i < j < |keys|
      ensures Leq(Parts(labels, keys)[i], Parts(labels, keys)[j]) <==> !Inverts(keys[i], keys[j])
    {
      assert keys[i] in labels && keys[j] in labels;
      PartOrder(keys[i], labels[keys[i]], keys[j], labels[keys[j]]);
    }
    forall i, j | 0 <= i < |keys| && 0 <= j < |keys| && Inverts(keys[i], keys[j])
      ensures i < j
    {
      PrefixIsLeq(keys[i], keys[j]);
      if j < i {
        LeqAntisymmetric(keys[i], keys[j]);
      }
    }
  }

  lemma {:induction false} PrefixIsLeq(a: string, b: string)
    requires a <= b
    ensures Leq(a, b)
  {
    if a == "" {
    } else {
      PrefixIsLeq(a[1..], b[1..]);
    }
  }

  lemma {:induction false} PresentAll(labels: Labels, selected: seq<string>)
    requires forall k :: k in selected ==> k in labels
    ensures Present(labels, selected) == selected
  {
    if selected == [] {
    } else {
      PresentAll(labels, selected[1..]);
    }
  }

  /**
    For distinct selected keys that the alert has, the drill's printer and the
    correlator's renderer agree exactly when no selected key goes on from another with a
    character below "=".
   */
  lemma RenderersAgreeExactlyWhen(labels: Labels, selected: seq<string>)
    requires Canonical(Picked(labels, selected)) && Distinct(selected) && forall k :: k in selected ==> k in labels
    ensures DrillKey(Picked(labels, selected)) == RenderSelected(labels, selected) <==> !SomeInversion(selected)
  {
    var (picked, keys) := (Picked(labels, selected), Sort(selected, Leq));
    BothRender(labels, selected);
    LeqOrders();
    SortAscends(selected, Leq);
    SortKeepsDistinct(selected);
    PartsOfPicked(labels, selected, keys);
    KeyOrderIsPartOrder(picked, keys);
    SameInversions(selected, keys);
    if Ascending(Parts(picked, keys), Leq) {
      SortedStays(Parts(picked, keys));
    } else {
      DifferentPartsDifferentText(picked, keys);
    }
  }

  /** Both printers over the sorted keys: the drill's sorts the parts once more. */
  lemma BothRender(labels: Labels, selected: seq<string>)
    requires Distinct(selected) && forall k :: k in selected ==> k in labels
    ensures DrillKey(Picked(labels, selected)) == Join(Sort(Parts(labels, Sort(selected, Leq)), Leq))
    ensures RenderSelected(labels, selected) == Join(Parts(labels, Sort(selected, Leq)))
  {
    var picked := Picked(labels, selected);
    PresentAll(labels, selected);
    SortKeepsDistinct(selected);
    PrintingIgnoresOrder(picked, KeysOf(picked), Sort(selected, Leq));
    PartsOfPicked(labels, selected, Sort(selected, Leq));
  }

  /**
    Whatever the labels hold, the two agree when no selected key begins another: part
    order and key order then coincide.
   */
  lemma RenderersAgreeWithoutPrefixes(labels: Labels, selected: seq<string>)
    requires Distinct(selected) && forall k :: k in selected ==> k in labels
    requires forall i, j :: 0 <= i < |selected| && 0 <= j < |selected| && i != j ==> !(selected[i] <= selected[j])
    ensures DrillKey(Picked(labels, selected)) == RenderSelected(labels, selected)
  {
    var keys := Sort(selected, Leq);
    BothRender(labels, selected);
    LeqOrders();
    SortAscends(selected, Leq);
    SortKeepsDistinct(selected);
    forall i, j | 0 <= i < j < |keys|
      ensures Leq(Parts(labels, keys)[i], Parts(labels, keys)[j])
    {
      assert keys[i] in selected && keys[j] in selected;
      PlainPartOrder(keys[i], At(labels, keys[i]), keys[j], At(labels, keys[j]));
    }
    SortedStays(Parts(labels, keys));
  }

  lemma {:induction false} PlainPartOrder(a: string, v: string, b: string, w: string)
    requires Leq(a, b) && !(a <= b)
    ensures Leq(Part(a, v), Part(b, w))
  {
    var (p, q) := (Part(a, v), Part(b, w));
    assert p[0] == a[0] && q[0] == b[0];
    if a[0] == b[0] {
      assert a == [a[0]] + a[1..] && b == [b[0]] + b[1..];
      assert p[1..] == Part(a[1..], v) && q[1..] == Part(b[1..], w);
      PlainPartOrder(a[1..], v, b[1..], w);
    }
  }

  lemma SortedStays(s: seq<string>)
    requires Ascending(s, Leq)
    ensures Sort(s, Leq) == s
  {
    LeqOrders();
    SortAscends(s, Leq);
    SortPermutes(s, Leq);
    AscendingUnique(Sort(s, Leq), s);
  }

  lemma SortKeepsDistinct(s: seq<string>)
    requires Distinct(s)
    ensures Distinct(Sort(s, Leq)) && forall k :: k in Sort(s, Leq) <==> k in s
  {
    SortPermutes(s, Leq);
    var t := Sort(s, Leq);
    forall k
      ensures k in t <==> k in s
    {
      assert k in t <==> k in multiset(t);
      assert k in s <==> k in multiset(s);
    }
    forall i, j | 0 <= i < j < |t|
      ensures t[i] != t[j]
    {
      if t[i] == t[j] {
        DistinctOnce(s, t[i]);
        Twice(t, i, j);
      }
    }
  }

  lemma Twice(s: seq<string>, i: nat, j: nat)
    requires i < j < |s| && s[i] == s[j]
    ensures multiset(s)[s[i]] >= 2
  {
    Without(s, i);
    assert Dropped(s, i)[j - 1] == s[i];
  }

  lemma PartsOfPicked(labels: Labels, selected: seq<string>, keys: seq<string>)
    requires forall k :: k in keys ==> k in selected
    ensures Parts(Picked(labels, selected), keys) == Parts(labels, keys)
  {
  }

  /** Parts that are not in order print differently once sorted. */
  lemma DifferentPartsDifferentText(labels: Labels, keys: seq<string>)
    requires Canonical(labels) && (forall k :: k in keys ==> k in labels) && !Ascending(Parts(labels, keys), Leq)
    ensures Join(Sort(Parts(labels, keys), Leq)) != Join(Parts(labels, keys))
  {
    var parts := Parts(labels, keys);
    CommaFreeParts(labels, keys);
    SortPermutes(parts, Leq);
    LeqOrders();
    SortAscends(parts, Leq);
    SameLength(Sort(parts, Leq), parts);
    forall p | p in Sort(parts, Leq)
      ensures ',' !in p
    {
      assert p in multiset(Sort(parts, Leq));
      assert p in parts;
    }
    SplitJoin(parts);
    SplitJoin(Sort(parts, Leq));
  }

  lemma SameInversions(a: seq<string>, b: seq<string>)
    requires forall k :: k in a <==> k in b
    ensures SomeInversion(a) <==> SomeInversion(b)
  {
    InversionsCarryOver(a, b);
    InversionsCarryOver(b, a);
  }

  lemma InversionsCarryOver(a: seq<string>, b: seq<string>)
    requires forall k :: k in a ==> k in b
    ensures SomeInversion(a) ==> SomeInversion(b)
  {
    if SomeInversion(a) {
      var i, j :| 0 <= i < |a| && 0 <= j < |a| && Inverts(a[i], a[j]);
      assert a[i] in b && a[j] in b;
      var i' :| 0 <= i' < |b| && b[i'] == a[i];
      var j' :| 0 <= j' < |b| && b[j'] == a[j];
    }
  }

  /** They do differ, for every alert that has both "host" and "host2". */
  lemma RenderersDisagree(labels: Labels)
    requires "host" in labels && "host2" in labels
    ensures DrillKey(Picked(labels, ["host", "host2"])) != RenderSelected(labels, ["host", "host2"])
  {
    var (p, q) := (Part("host", labels["host"]), Part("host2", labels["host2"]));
    BothRender(labels, ["host", "host2"]);
    PrefixIsLeq("host", "host2");
    SortOfTwo("host", "host2");
    assert Parts(labels, ["host", "host2"]) == [p, q];
    assert "host2"[..4] == "host" && Inverts("host", "host2");
    PartOrder("host", labels["host"], "host2", labels["host2"]);
    SortOfTwo(p, q);
    JoinOfTwo(p, q);
    JoinOfTwo(q, p);
    assert Join([p, q])[4] == p[4] == '=' && Join([q, p])[4] == q[4] == '2';
  }

  lemma SortOfTwo(a: string, b: string)
    ensures Sort([a, b], Leq) == if Leq(a, b) then [a, b] else [b, a]
  {
    assert [a, b][1..] == [b] && [b][1..] == [];
    assert Sort([], Leq) == [] && Insert(b, [], Leq) == [b];
    assert Sort([b], Leq) == [b];
    assert Sort([a, b], Leq) == Insert(a, [b], Leq);
    assert [b] + Insert(a, [], Leq) == [b, a] && [a] + [b] == [a, b];
  }

  lemma JoinOfTwo(a: string, b: string)
    ensures Join([a, b]) == a + "," + b
  {
    assert [a, b][1..] == [b];
  }

  // ---- What is printed and parsed, part by part ----

  lemma {:induction false} PresentCounts(labels: Labels, selected: seq<string>, k: string)
    ensures multiset(Present(labels, selected))[k] == if k in labels then multiset(selected)[k] else 0
  {
    if selected == [] {
    } else {
      PresentCounts(labels, selected[1..], k);
      assert selected == [selected[0]] + selected[1..];
    }
  }

  /**
    The selected key, part by part: the selected labels that the alert has, and no other,
    ascending, as often as they are selected, each with the alert's value.
   */
  lemma SelectedPartByPart(labels: Labels, selected: seq<string>) returns (keys: seq<string>, parts: seq<string>)
    ensures RenderSelected(labels, selected) == Join(parts) && |parts| == |keys| && Ascending(keys, Leq)
    ensures forall k :: multiset(keys)[k] == if k in labels then multiset(selected)[k] else 0
    ensures forall i :: 0 <= i < |keys| ==> keys[i] in labels && parts[i] == keys[i] + "=" + labels[keys[i]]
  {
    var present := Present(labels, selected);
    keys, parts := Sort(present, Leq), Parts(labels, Sort(present, Leq));
    LeqOrders();
    SortAscends(present, Leq);
    SortPermutes(present, Leq);
    forall k
      ensures multiset(keys)[k] == if k in labels then multiset(selected)[k] else 0
    {
      PresentCounts(labels, selected, k);
    }
    forall i | 0 <= i < |keys|
      ensures keys[i] in labels
    {
      assert keys[i] in multiset(keys);
    }
  }

  lemma {:induction false} EnumerationCounts(labels: Labels, keys: seq<string>)
    requires Enumerates(keys, labels)
    ensures |keys| == |labels|
    decreases |keys|
  {
    if keys == [] {
      assert labels.Keys == {};
    } else {
      var rest := labels - {keys[0]};
      assert rest.Keys == labels.Keys - {keys[0]};
      assert forall k :: k in keys <==> k == keys[0] || k in keys[1..];
      EnumerationCounts(rest, keys[1..]);
    }
  }

  /** The drill's key, part by part: one "k=v" for every label, the parts ascending. */
  lemma DrillKeyPartByPart(labels: Labels) returns (parts: seq<string>)
    ensures DrillKey(labels) == Join(parts) && Ascending(parts, Leq) && |parts| == |labels|
    ensures forall p :: p in parts <==> exists k :: k in labels && p == k + "=" + labels[k]
  {
    var printed := Parts(labels, KeysOf(labels));
    parts := Sort(printed, Leq);
    LeqOrders();
    SortAscends(printed, Leq);
    SortPermutes(printed, Leq);
    EnumerationCounts(labels, KeysOf(labels));
    forall p
      ensures p in parts <==> exists k :: k in labels && p == k + "=" + labels[k]
    {
      assert p in parts <==> p in multiset(parts);
      assert p in printed <==> p in multiset(printed);
      if k :| k in labels && p == k + "=" + labels[k] {
        var i :| 0 <= i < |KeysOf(labels)| && KeysOf(labels)[i] == k;
        assert printed[i] == p;
      }
    }
  }

  /** The correlator's key of all labels, part by part: the labels ascending, each once, with its value. */
  lemma IncidentKeyPartByPart(labels: Labels) returns (keys: seq<string>, parts: seq<string>)
    ensures IncidentKey(labels) == Join(parts) && |parts| == |keys| == |labels| && Ascending(keys, Leq)
    ensures Distinct(keys) && forall k :: k in keys <==> k in labels
    ensures forall i :: 0 <= i < |keys| ==> parts[i] == keys[i] + "=" + labels[keys[i]]
  {
    var ranged := KeysOf(labels);
    keys, parts := Sort(ranged, Leq), Parts(labels, Sort(ranged, Leq));
    LeqOrders();
    SortAscends(ranged, Leq);
    SortPermutes(ranged, Leq);
    EnumerationCounts(labels, ranged);
    forall k
      ensures multiset(keys)[k] == if k in labels then 1 else 0
    {
      DistinctOnce(ranged, k);
    }
    forall k
      ensures k in keys <==> k in labels
    {
      assert k in keys <==> k in multiset(keys);
    }
    OnceIsDistinct(keys);
  }

  lemma OnceIsDistinct(s: seq<string>)
    requires forall x :: multiset(s)[x] <= 1
    ensures Distinct(s)
  {
    forall i, j | 0 <= i < j < |s|
      ensures s[i] != s[j]
    {
      assert s == s[..j] + [s[j]] + s[j + 1..];
      assert s[..j][i] == s[i] && s[i] in multiset(s[..j]);
      assert multiset(s)[s[i]] >= multiset(s[..j])[s[i]] + multiset([s[j]])[s[i]];
    }
  }

  /** An alert that has none of the selected labels has an empty key. */
  lemma NothingSelectedIsEmpty(labels: Labels, selected: seq<string>)
    requires forall k :: k in selected ==> k !in labels
    ensures RenderSelected(labels, selected) == ""
  {
    var keys, parts := SelectedPartByPart(labels, selected);
    assert multiset(keys) == multiset{};
    assert |keys| == |multiset(keys)|;
  }

  /** The part has a "=", and what stands before the first one, trimmed, is k. */
  predicate Gives(part: string, k: string) {
    '=' in part && TrimSpace(part[..IndexOf('=', part)]) == k
  }

  /** The last part decides, if it gives k; if not, it changes nothing about k. */
  lemma LastPart(parts: seq<string>, k: string)
    requires parts != []
    ensures var (n, front) := (|parts| - 1, ParseParts(parts[..|parts| - 1]));
            if Gives(parts[n], k)
            then k in ParseParts(parts) && ParseParts(parts)[k] == parts[n][IndexOf('=', parts[n]) + 1..]
            else (k in ParseParts(parts) <==> k in front) && (k in front ==> ParseParts(parts)[k] == front[k])
  {
  }

  /** The part at i gives k, and no later one does; without an i, none does. */
  predicate LastGiver(parts: seq<string>, k: string, i: Option<nat>) {
    && (i.Some? ==> i.value < |parts| && Gives(parts[i.value], k))
    && forall j :: (if i.Some? then i.value + 1 else 0) <= j < |parts| ==> !Gives(parts[j], k)
  }

  lemma GiverInFront(parts: seq<string>, k: string, i: Option<nat>)
    requires parts != [] && LastGiver(parts[..|parts| - 1], k, i) && !Gives(parts[|parts| - 1], k)
    ensures LastGiver(parts, k, i)
  {
    var front := parts[..|parts| - 1];
    assert forall j :: 0 <= j < |front| ==> parts[j] == front[j];
  }

  /**
    A label is parsed exactly if some part gives it; its value is what follows the first
    "=" of the last part that does.
   */
  lemma {:induction false} ParsedPartByPart(parts: seq<string>, k: string) returns (i: Option<nat>)
    ensures LastGiver(parts, k, i) && (k in ParseParts(parts) <==> i.Some?)
    ensures i.Some? ==> ParseParts(parts)[k] == parts[i.value][IndexOf('=', parts[i.value]) + 1..]
    decreases |parts|
  {
    if parts == [] {
      i := None;
    } else {
      LastPart(parts, k);
      if Gives(parts[|parts| - 1], k) {
        i := Some(|parts| - 1);
      } else {
        i := ParsedPartByPart(parts[..|parts| - 1], k);
        GiverInFront(parts, k, i);
      }
    }
  }

  // ---- The code's loops ----

  /** drillGroupKey: the map is ranged over in an unspecified order. */
  method DrillGroupKey(labels: Labels) returns (groupKey: string)
    ensures groupKey == DrillKey(labels)
  {
    var parts: seq<string> := [];
    ghost var keys: seq<string> := [];
    var left := labels.Keys;
    while left != {}
      invariant left <= labels.Keys
      invariant Distinct(keys) && forall k :: k in keys <==> k in labels.Keys - left
      invariant parts == Parts(labels, keys)
    {
      var k :| k in left;
      assert k !in keys;
      parts := parts + [Part(k, labels[k])];
      keys := keys + [k];
      left := left - {k};
    }
    PrintingIgnoresOrder(labels, keys, KeysOf(labels));
    groupKey := Join(Sort(parts, Leq));
  }

  /** render. */
  method RenderKeys(labels: Labels, keys: seq<string>) returns (text: string)
    ensures text == Render(labels, keys)
  {
    var sorted := Sort(keys, Leq);
    var parts: seq<string> := [];
    for i := 0 to |sorted|
      invariant parts == Parts(labels, sorted[..i])
    {
      parts := parts + [Part(sorted[i], At(labels, sorted[i]))];
    }
    assert sorted[..|sorted|] == sorted;
    text := Join(parts);
  }

  /** RenderLabels. */
  method RenderLabels(labels: Labels) returns (text: string)
    ensures text == IncidentKey(labels)
    ensures Canonical(labels) ==> (text == DrillKey(labels) <==> !SomeInversion(KeysOf(labels)))
  {
    var keys: seq<string> := [];
    var left := labels.Keys;
    while left != {}
      invariant left <= labels.Keys
      invariant Distinct(keys) && forall k :: k in keys <==> k in labels.Keys - left
    {
      var k :| k in left;
      assert k !in keys;
      keys := keys + [k];
      left := left - {k};
    }
    RenderingIgnoresOrder(labels, keys);
    if Canonical(labels) {
      KeysAgreeExactlyWhen(labels);
    }
    text := RenderKeys(labels, keys);
  }

  /** The drill's key of canonical labels is the correlator's exactly when no label inverts another. */
  lemma KeysAgreeExactlyWhen(labels: Labels)
    requires Canonical(labels)
    ensures IncidentKey(labels) == DrillKey(labels) <==> !SomeInversion(KeysOf(labels))
  {
    PresentAll(labels, KeysOf(labels));
    assert Picked(labels, KeysOf(labels)) == labels;
    RenderersAgreeExactlyWhen(labels, KeysOf(labels));
  }

  /** RenderSelectedLabels. */
  method RenderSelectedLabels(labels: Labels, selected: seq<string>) returns (text: string)
    ensures text == RenderSelected(labels, selected)
  {
    var keys: seq<string> := [];
    assert selected[0..] == selected;
    for i := 0 to |selected|
      invariant keys + Present(labels, selected[i..]) == Present(labels, selected)
    {
      assert selected[i..][1..] == selected[i + 1..];
      if selected[i] in labels {
        keys := keys + [selected[i]];
      }
    }
    assert Present(labels, selected[|selected|..]) == [];
    assert keys == Present(labels, selected);
    text := RenderKeys(labels, keys);
  }

  /** parseGroupKey. */
  method ParseGroupKey(groupKey: string) returns (labels: Labels)
    ensures labels == Parse(groupKey)
  {
    var parts := Split(groupKey);
    labels := map[];
    for i := 0 to |parts|
      invariant labels == ParseParts(parts[..i])
    {
      assert parts[..i + 1][..i] == parts[..i];
      match Cut(parts[i])
      case Some(pair) => labels := labels[TrimSpace(pair.key) := pair.value];
      case None =>
    }
    assert parts[..|parts|] == parts;
  }
}
