/**
  The token ledger over whole runs: charged tokens are settled use, pending
  reservations and charges kept for unknown outcomes, and a run of honest requests
  never takes them, or the true use behind them, past the ceiling.
 */
module BudgetTokens {
  import opened Option
  import opened BudgetSpec

  // ---- Sums over reservations ----

  ghost function Sum(m: map<Id, int>): int
    decreases |m|
  {
    if m == map[] then 0
    else
      var k :| k in m;
      SmallerWithout(m, k);
      m[k] + Sum(m - {k})
  }

  lemma SmallerWithout(m: map<Id, int>, k: Id)
    requires k in m
    ensures |m - {k}| < |m|
  {
    assert (m - {k}).Keys == m.Keys - {k};
  }

  lemma {:induction false} SumWithout(m: map<Id, int>, k: Id)
    requires k in m
    ensures Sum(m) == m[k] + Sum(m - {k})
    decreases |m|
  {
    var x :| x in m && Sum(m) == m[x] + Sum(m - {x});
    if x != k {
      SmallerWithout(m, x);
      SumWithout(m - {x}, k);
      SmallerWithout(m, k);
      SumWithout(m - {k}, x);
      assert m - {x} - {k} == m - {k} - {x};
    }
  }

  lemma SumWith(m: map<Id, int>, k: Id, v: int)
    requires k !in m
    ensures Sum(m[k := v]) == Sum(m) + v
  {
    SumWithout(m[k := v], k);
    assert m[k := v] - {k} == m;
  }

  lemma {:induction false} SumOrder(a: map<Id, int>, b: map<Id, int>)
    requires a.Keys == b.Keys && forall k :: k in a ==> 0 <= a[k] <= b[k]
    ensures 0 <= Sum(a) <= Sum(b)
    decreases |a|
  {
    if a != map[] {
      var k :| k in a;
      SumWithout(a, k);
      SumWithout(b, k);
      SmallerWithout(a, k);
      SumOrder(a - {k}, b - {k});
    } else {
      assert b == map[];
    }
  }

  // ---- Runs ----

  /**
    The ledger beside what really happened: use settled so far, charges kept for unknown
    outcomes, what each pending request will truly use, the true use of the finished ones,
    and whether the counter ever saturated.
   */
  datatype Books = Books(
    ledger: Ledger, settled: int, kept: int, truth: map<Id, int>, trueDone: int, saturated: bool, ids: set<Id>)

  /** Nothing has been reserved yet. */
  predicate NewBooks(b: Books) {
    && b.ledger.tokens == 0 && b.ledger.pending == map[] && b.truth == map[] && b.ids == {}
    && b.settled == 0 && b.kept == 0 && b.trueDone == 0 && !b.saturated
  }

  /** A request names a fresh id and has a positive allowance; `use` is what it will truly use. */
  datatype Event =
    | Requests(id: Id, allowance: int, now: int, use: int, saved: bool)
    | Settles(id: Id, usage: Usage, now: int, saved: bool)

  /** A failed commit or a crash in between leaves the reservation pending. */
  function Step(limits: Limits, b: Books, e: Event): Books {
    match e
    case Requests(id, allowance, now, use, saved) =>
      if saved && id !in b.ids && 0 < allowance <= MAX_INT64 && use >= 0 &&
         Admit(limits, b.ledger, allowance, now).Admitted? then
        b.(ledger := Charge(b.ledger, id, allowance, now), truth := b.truth[id := use], ids := b.ids + {id})
      else b
    case Settles(id, usage, now, saved) =>
      if saved && id in b.ledger.pending && id in b.truth && (usage.Used? ==> 0 <= usage.tokens <= MAX_INT64) then
        Books(Settle(b.ledger, id, usage, now),
              if usage.Used? then b.settled + usage.tokens else b.settled,
              if usage.Used? then b.kept else b.kept + b.ledger.pending[id],
              b.truth - {id}, b.trueDone + b.truth[id],
              b.saturated || Saturates(b.ledger, id, usage), b.ids)
      else b
  }

  function Run(limits: Limits, b: Books, events: seq<Event>): Books
    decreases |events|
  {
    if events == [] then b else Run(limits, Step(limits, b, events[0]), events[1..])
  }

  /** The books balance. */
  ghost predicate Balanced(b: Books) {
    && b.truth.Keys == b.ledger.pending.Keys <= b.ids
    && (forall id :: id in b.ledger.pending ==> b.ledger.pending[id] > 0)
    && (forall id :: id in b.truth ==> b.truth[id] >= 0)
    && b.settled >= 0 && b.kept >= 0 && b.trueDone >= 0
    && 0 <= Sum(b.ledger.pending) <= b.ledger.tokens <= MAX_INT64
    && (!b.saturated ==> b.ledger.tokens == b.settled + Sum(b.ledger.pending) + b.kept)
  }

  lemma StepBalances(limits: Limits, b: Books, e: Event)
    requires Balanced(b)
    ensures Balanced(Step(limits, b, e))
  {
    match e
    case Requests(id, allowance, now, use, saved) =>
      if id !in b.ids {
        SumWith(b.ledger.pending, id, allowance);
      }
    case Settles(id, usage, now, saved) =>
      if id in b.ledger.pending {
        SettlementBalances(limits, b, e);
      }
  }

  lemma SettlementBalances(limits: Limits, b: Books, e: Event)
    requires Balanced(b) && e.Settles? && e.id in b.ledger.pending
    ensures Balanced(Step(limits, b, e))
  {
    var rest := b.ledger.pending - {e.id};
    SumWithout(b.ledger.pending, e.id);
    SumOrder(rest, rest);
  }

  /**
    Conservation: while no counter saturates, charged tokens are settled use, pending
    reservations and charges kept for unknown outcomes; saturated or not they never fall
    below the pending reservations or exceed 64 bits.
   */
  lemma {:induction false} TokensAreConserved(limits: Limits, b: Books, events: seq<Event>)
    requires Balanced(b)
    ensures Balanced(Run(limits, b, events))
    decreases |events|
  {
    if events == [] {
    } else {
      StepBalances(limits, b, events[0]);
      TokensAreConserved(limits, Step(limits, b, events[0]), events[1..]);
    }
  }

  /**
    An honest request truly uses no more than its allowance, and its settlement reports
    at least its true use, within the allowance.
   */
  predicate HonestStep(b: Books, e: Event) {
    match e
    case Requests(id, allowance, _, use, _) => use <= allowance
    case Settles(id, usage, _, _) =>
      usage.Used? && id in b.ledger.pending && id in b.truth ==> b.truth[id] <= usage.tokens <= b.ledger.pending[id]
  }

  predicate Honest(limits: Limits, b: Books, events: seq<Event>)
    decreases |events|
  {
    events == [] || (HonestStep(b, events[0]) && Honest(limits, Step(limits, b, events[0]), events[1..]))
  }

  /** All true use so far, pending requests included. */
  ghost function TrueUse(b: Books): int {
    b.trueDone + Sum(b.truth)
  }

  ghost predicate WithinCeiling(limits: Limits, b: Books) {
    && Balanced(b) && !b.saturated && b.ledger.tokens <= limits.totalTokens
    && b.trueDone <= b.settled + b.kept
    && (forall id :: id in b.truth ==> b.truth[id] <= b.ledger.pending[id])
  }

  lemma HonestStepStaysWithin(limits: Limits, b: Books, e: Event)
    requires 0 < limits.totalTokens <= MAX_INT64 && WithinCeiling(limits, b) && HonestStep(b, e)
    ensures WithinCeiling(limits, Step(limits, b, e))
  {
    StepBalances(limits, b, e);
  }

  lemma TrueUseIsCharged(limits: Limits, b: Books)
    requires WithinCeiling(limits, b)
    ensures TrueUse(b) <= b.ledger.tokens
  {
    SumOrder(b.truth, b.ledger.pending);
  }

  /**
    If every request's true use is within its allowance, neither the charged tokens nor
    the true total ever exceeds total_tokens, through crashes, failed settlements and
    unknown outcomes alike, and the counter never saturates.
   */
  lemma {:induction false} HonestRunsStayWithinCeiling(limits: Limits, b: Books, events: seq<Event>)
    requires 0 < limits.totalTokens <= MAX_INT64 && WithinCeiling(limits, b) && Honest(limits, b, events)
    ensures var end := Run(limits, b, events);
            WithinCeiling(limits, end) && TrueUse(end) <= end.ledger.tokens <= limits.totalTokens
    decreases |events|
  {
    if events == [] {
      TrueUseIsCharged(limits, b);
    } else {
      HonestStepStaysWithin(limits, b, events[0]);
      HonestRunsStayWithinCeiling(limits, Step(limits, b, events[0]), events[1..]);
    }
  }

  /** Both results hold of every run from a ledger with nothing in it. */
  lemma EveryRunBalances(limits: Limits, b: Books, events: seq<Event>)
    requires NewBooks(b)
    ensures Balanced(Run(limits, b, events))
    ensures 0 < limits.totalTokens <= MAX_INT64 && Honest(limits, b, events) ==>
              var end := Run(limits, b, events);
              !end.saturated && TrueUse(end) <= end.ledger.tokens <= limits.totalTokens
  {
    assert Sum(b.ledger.pending) == 0;
    TokensAreConserved(limits, b, events);
    if 0 < limits.totalTokens <= MAX_INT64 && Honest(limits, b, events) {
      HonestRunsStayWithinCeiling(limits, b, events);
    }
  }

  // ---- Unclear answers ----

  /** The answer reports a token count that can be read. */
  predicate Reports(a: Answer) {
    a.Http? && !a.tooLarge && a.body.Total?
  }

  /**
    Settling an answer charges what it reports, refunds a declined request that reports
    nothing, and keeps the whole reservation, marking use unknown, only when the request
    may have been billed and its use cannot be read. Only then, or when the counter
    saturates, does a finite token budget stop admitting.
   */
  lemma OnlyUnclearAnswersBlock(limits: Limits, l: Ledger, id: Id, a: Answer, now: int, allowance: int, later: int)
    requires id in l.pending && !l.unknown && limits.totalTokens > 0
    ensures
      var end := Settle(l, id, UsageOf(a), now);
      var unclear := !Reports(a) && !(a.Http? && (400 <= a.status <= 499 || a.status == 503 || a.status == 529));
      && id !in end.pending
      && (end.unknown <==> unclear || Saturates(l, id, UsageOf(a)))
      && (unclear ==> end.tokens == l.tokens)
      && (end.unknown ==> end.unknownAt == now && end.unknownReason ==
                            if a.TransportError? then "transport_error"
                            else if unclear && a.status != 200 then "http"
                            else if unclear && (a.tooLarge || !a.body.Overflow?) then "no_usage"
                            else "usage_overflow")
      && end.calls == l.calls && end.pending == l.pending - {id}
      && (Saturates(l, id, UsageOf(a)) ==> end.tokens == MAX_INT64)
      && (!end.unknown ==> end.tokens - l.tokens == (if Reports(a) then a.body.n else 0) - l.pending[id])
      && (end.unknown ==> Admit(limits, end, allowance, later) == Deferred(None))
  {
    match a
    case TransportError =>
    case Http(status, tooLarge, body) =>
      assert Reports(a) <==> !tooLarge && body.Total?;
  }

  /** Once use is unknown, a finite token budget admits nothing more and keeps the first reason and time. */
  lemma {:induction false} UnknownUseBlocksForGood(limits: Limits, b: Books, events: seq<Event>)
    requires limits.totalTokens > 0 && b.ledger.unknown
    ensures
      var end := Run(limits, b, events);
      && end.ids == b.ids && end.ledger.calls == b.ledger.calls && end.ledger.unknown
      && end.ledger.unknownReason == b.ledger.unknownReason && end.ledger.unknownAt == b.ledger.unknownAt
    decreases |events|
  {
    if events == [] {
    } else {
      UnknownUseBlocksForGood(limits, Step(limits, b, events[0]), events[1..]);
    }
  }
}
