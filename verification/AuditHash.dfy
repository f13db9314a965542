/**
  The input of the audit hash: five fields joined by the unit separator. The hash
  itself, time formatting and the JSON of an anchor are functions of an Env, of
  which only what EnvOk says is assumed.
 */
module AuditHash {
  import opened Option
  import opened Text

  const SEP: char := '\U{1f}'

  /** The payload of a pruning anchor. */
  datatype Anchor = Anchor(throughSeq: int, throughHash: string, throughTs: string, pruned: int, cutoff: string)

  datatype Env = Env(
    hash: string -> string,
    timeText: int -> string,
    timeOf: string -> Option<int>,
    anchorText: Anchor -> string,
    anchorOf: string -> Option<Anchor>)

  predicate Plain(s: string) {
    SEP !in s
  }

  /**
    A collision-free hash with non-empty hexadecimal digests, and times and anchors whose
    texts read back and, like all JSON, hold no control character.
   */
  ghost predicate EnvOk(env: Env) {
    && (forall x, y :: env.hash(x) == env.hash(y) ==> x == y)
    && (forall x :: env.hash(x) != "" && Plain(env.hash(x)))
    && (forall t :: env.timeOf(env.timeText(t)) == Some(t) && Plain(env.timeText(t)))
    && (forall a :: env.anchorOf(env.anchorText(a)) == Some(a) && Plain(env.anchorText(a)))
  }

  /** The hashed fields of a row; `prev` is the effective one, empty where the column is NULL. */
  datatype Fields = Fields(ts: string, actor: string, kind: string, payload: string, prev: string)

  function Joined(f: Fields): string {
    f.ts + ([SEP] + (f.actor + ([SEP] + (f.kind + ([SEP] + (f.payload + ([SEP] + f.prev)))))))
  }

  predicate AllPlain(f: Fields) {
    Plain(f.ts) && Plain(f.actor) && Plain(f.kind) && Plain(f.payload) && Plain(f.prev)
  }

  function Separators(s: string): nat {
    if s == "" then 0 else (if s[0] == SEP then 1 else 0) + Separators(s[1..])
  }

  lemma {:induction false} SeparatorsAdd(a: string, b: string)
    ensures Separators(a + b) == Separators(a) + Separators(b)
  {
    if a == "" {
      assert a + b == b;
    } else {
      assert (a + b)[1..] == a[1..] + b;
      SeparatorsAdd(a[1..], b);
    }
  }

  lemma {:induction false} PlainCounts(s: string)
    ensures Plain(s) <==> Separators(s) == 0
  {
    if s == "" {
    } else {
      PlainCounts(s[1..]);
      assert s == [s[0]] + s[1..];
    }
  }

  lemma JoinedCounts(f: Fields)
    ensures Separators(Joined(f)) ==
            4 + Separators(f.ts) + Separators(f.actor) + Separators(f.kind) + Separators(f.payload) + Separators(f.prev)
  {
    assert Separators([SEP]) == 1;
    var p3 := f.payload + ([SEP] + f.prev);
    var p2 := f.kind + ([SEP] + p3);
    var p1 := f.actor + ([SEP] + p2);
    SeparatorsAdd([SEP], f.prev);
    SeparatorsAdd(f.payload, [SEP] + f.prev);
    SeparatorsAdd([SEP], p3);
    SeparatorsAdd(f.kind, [SEP] + p3);
    SeparatorsAdd([SEP], p2);
    SeparatorsAdd(f.actor, [SEP] + p2);
    SeparatorsAdd([SEP], p1);
    SeparatorsAdd(f.ts, [SEP] + p1);
  }

  lemma FirstFieldSplits(a: string, x: string, b: string, y: string)
    requires Plain(a) && Plain(b) && a + ([SEP] + x) == b + ([SEP] + y)
    ensures a == b && x == y
  {
    var s := a + ([SEP] + x);
    assert s[|a|] == SEP && s[|b|] == SEP;
    assert a == s[..|a|] && b == s[..|b|];
    assert x == s[|a| + 1..] && y == s[|b| + 1..];
  }

  lemma LastFieldSplits(a: string, x: string, b: string, y: string)
    requires Plain(x) && Plain(y) && a + ([SEP] + x) == b + ([SEP] + y)
    ensures a == b && x == y
  {
    var s := a + ([SEP] + x);
    assert s[|a|] == SEP && s[|b|] == SEP;
    assert a == s[..|a|] && b == s[..|b|];
    assert x == s[|a| + 1..] && y == s[|b| + 1..];
  }

  /** Fields that hold no separator are the only ones that join to their text. */
  lemma PlainJoinsOnlyOnce(f: Fields, g: Fields)
    requires AllPlain(f) && Joined(f) == Joined(g)
    ensures f == g
  {
    JoinedCounts(f);
    JoinedCounts(g);
    PlainCounts(f.ts);
    PlainCounts(f.actor);
    PlainCounts(f.kind);
    PlainCounts(f.payload);
    PlainCounts(f.prev);
    PlainCounts(g.ts);
    PlainCounts(g.actor);
    PlainCounts(g.kind);
    PlainCounts(g.payload);
    PlainCounts(g.prev);
    FirstFieldSplits(f.ts, f.actor + ([SEP] + (f.kind + ([SEP] + (f.payload + ([SEP] + f.prev))))),
                     g.ts, g.actor + ([SEP] + (g.kind + ([SEP] + (g.payload + ([SEP] + g.prev))))));
    FirstFieldSplits(f.actor, f.kind + ([SEP] + (f.payload + ([SEP] + f.prev))),
                     g.actor, g.kind + ([SEP] + (g.payload + ([SEP] + g.prev))));
    FirstFieldSplits(f.kind, f.payload + ([SEP] + f.prev), g.kind, g.payload + ([SEP] + g.prev));
    FirstFieldSplits(f.payload, f.prev, g.payload, g.prev);
  }

  /** Whatever the other fields are, the previous hash can be read off the end. */
  lemma PrevReadsBack(f: Fields, g: Fields)
    requires Plain(f.prev) && Plain(g.prev) && Joined(f) == Joined(g)
    ensures f.prev == g.prev
  {
    var a := f.ts + ([SEP] + (f.actor + ([SEP] + (f.kind + ([SEP] + f.payload)))));
    var b := g.ts + ([SEP] + (g.actor + ([SEP] + (g.kind + ([SEP] + g.payload)))));
    assert Joined(f) == a + ([SEP] + f.prev) && Joined(g) == b + ([SEP] + g.prev);
    LastFieldSplits(a, f.prev, b, g.prev);
  }

  /** Some other fields join to the same text. */
  ghost predicate Ambiguous(f: Fields) {
    exists g: Fields :: g != f && Joined(g) == Joined(f)
  }

  /**
    "A separator between fields prevents concatenation collisions" holds for a row
    exactly when none of its fields holds the separator. Times, JSON and digests
    never do; an actor or kind that does is accepted by Append.
   */
  lemma UnambiguousExactlyWhenPlain(f: Fields)
    requires Plain(f.ts) && Plain(f.payload) && Plain(f.prev)
    ensures !Ambiguous(f) <==> Plain(f.actor) && Plain(f.kind)
  {
    if Plain(f.actor) && Plain(f.kind) {
      forall g: Fields | Joined(g) == Joined(f)
        ensures g == f
      {
        PlainJoinsOnlyOnce(f, g);
      }
    } else {
      var g := Shifted(f);
      ShiftedCollides(f);
    }
  }

  /** Moves the text around a separator inside actor or kind across the field boundary. */
  function Shifted(f: Fields): Fields
    requires !Plain(f.actor) || !Plain(f.kind)
  {
    if !Plain(f.actor) then
      var i := IndexOf(SEP, f.actor);
      f.(actor := f.actor[..i], kind := f.actor[i + 1..] + ([SEP] + f.kind))
    else
      var i := IndexOf(SEP, f.kind);
      f.(actor := f.actor + ([SEP] + f.kind[..i]), kind := f.kind[i + 1..])
  }

  lemma Regroup(a: string, b: string, rest: string)
    ensures (a + ([SEP] + b)) + rest == a + ([SEP] + (b + rest))
  {
  }

  lemma ShiftedCollides(f: Fields)
    requires !Plain(f.actor) || !Plain(f.kind)
    ensures Shifted(f) != f && Joined(Shifted(f)) == Joined(f)
  {
    var g := Shifted(f);
    var tail := [SEP] + (f.payload + ([SEP] + f.prev));
    if !Plain(f.actor) {
      var i := IndexOf(SEP, f.actor);
      var (a, b) := (f.actor[..i], f.actor[i + 1..]);
      assert f.actor == a + ([SEP] + b);
      Regroup(b, f.kind, tail);
      Regroup(a, b, [SEP] + (f.kind + tail));
      assert |g.actor| < |f.actor|;
    } else {
      var i := IndexOf(SEP, f.kind);
      var (a, b) := (f.kind[..i], f.kind[i + 1..]);
      assert f.kind == a + ([SEP] + b);
      Regroup(a, b, tail);
      Regroup(f.actor, a, [SEP] + (b + tail));
      assert |g.kind| < |f.kind|;
    }
  }
}
