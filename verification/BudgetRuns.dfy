/**
  Whole runs of the budget object over its store: what the store holds is the ledger of
  the runs on values, so their results are results about the stored document and about
  the requests the object granted.
 */
module BudgetRuns {
  import opened Option
  import opened Budget
  import opened BudgetSpec
  import opened Sequences
  import Calls = BudgetCalls
  import Tokens = BudgetTokens

  /** What the program does of itself: ids are fresh, allowances and use are sound 64-bit figures. */
  predicate Sound(ops: seq<Tokens.Event>, ids: set<Id>)
    decreases |ops|
  {
    ops == [] ||
    match ops[0]
    case Requests(id, allowance, _, use, _) =>
      id !in ids && 0 < allowance <= MAX_INT64 && use >= 0 && Sound(ops[1..], ids + {id})
    case Settles(_, usage, _, _) => (usage.Used? ==> 0 <= usage.tokens <= MAX_INT64) && Sound(ops[1..], ids)
  }

  /** The clock never goes back between requests. */
  predicate ClockAdvances(ops: seq<Tokens.Event>, clock: int)
    decreases |ops|
  {
    ops == [] ||
    if ops[0].Requests? then ops[0].now >= clock && ClockAdvances(ops[1..], ops[0].now)
    else ClockAdvances(ops[1..], clock)
  }

  function AsCall(op: Tokens.Event): Calls.Event {
    match op
    case Requests(id, allowance, now, _, saved) => Calls.Requests(Calls.Request(id, allowance, now), saved)
    case Settles(id, usage, now, saved) => Calls.Settles(id, usage, now, saved)
  }

  function AsCalls(ops: seq<Tokens.Event>): seq<Calls.Event> {
    if ops == [] then [] else [AsCall(ops[0])] + AsCalls(ops[1..])
  }

  /** Balanced books, ids of their own for whatever comes, and the same ledger beside the admissions. */
  ghost predicate Consistent(books: Tokens.Books, log: Calls.Log, ops: seq<Tokens.Event>) {
    Tokens.Balanced(books) && Sound(ops, books.ids) && log.ledger == books.ledger
  }

  /** One operation on the object is one step of both runs. */
  method PerformOne(b: Budget, ghost books: Tokens.Books, ghost log: Calls.Log, ghost ops: seq<Tokens.Event>,
                    op: Tokens.Event)
    returns (granted: seq<int>)
    requires ops != [] && op == ops[0] && Consistent(books, log, ops) && Holds(b.st.doc, books.ledger)
    modifies b.st
    ensures var books' := Tokens.Step(b.limits, books, op);
            && Tokens.Balanced(books') && Holds(b.st.doc, books'.ledger)
            && (ClockAdvances(ops, log.clock) ==>
                  var log' := Calls.Step(b.limits, log, AsCall(op));
                  log'.ledger == books'.ledger && log'.admitted == log.admitted + granted)
    ensures granted == if op.Requests? && b.st.doc != old(b.st.doc) then [op.now] else []
  {
    granted := [];
    Tokens.StepBalances(b.limits, books, op);
    match op {
      case Requests(id, allowance, now, use, saved) =>
        AffordableExactly(b.st.doc, b.limits, id, allowance, now);
        var r := b.Reserve(id, allowance, now, saved);
        if r == Granted {
          granted := [now];
        }
      case Settles(id, usage, now, saved) =>
        ClosedExactly(b.st.doc, id, usage, now);
        var r := b.Settle(id, usage, now, saved);
    }
  }

  lemma {:induction false} SoundWithFewer(ops: seq<Tokens.Event>, ids: set<Id>, fewer: set<Id>)
    requires Sound(ops, ids) && fewer <= ids
    ensures Sound(ops, fewer)
    decreases |ops|
  {
    if ops == [] {
    } else if ops[0].Requests? {
      SoundWithFewer(ops[1..], ids + {ops[0].id}, fewer + {ops[0].id});
    } else {
      SoundWithFewer(ops[1..], ids, fewer);
    }
  }

  lemma StaysSound(limits: Limits, books: Tokens.Books, ops: seq<Tokens.Event>)
    requires ops != [] && Sound(ops, books.ids)
    ensures Sound(ops[1..], Tokens.Step(limits, books, ops[0]).ids)
  {
    var ids := Tokens.Step(limits, books, ops[0]).ids;
    if ops[0].Requests? {
      SoundWithFewer(ops[1..], books.ids + {ops[0].id}, ids);
    }
  }

  /** Any operations, one after the other; `granted` are the times of the requests that were granted. */
  method Perform(b: Budget, ghost books: Tokens.Books, ghost log: Calls.Log, ops: seq<Tokens.Event>)
    returns (granted: seq<int>)
    requires Consistent(books, log, ops) && Holds(b.st.doc, books.ledger)
    modifies b.st
    ensures Holds(b.st.doc, Tokens.Run(b.limits, books, ops).ledger)
    ensures ClockAdvances(ops, log.clock) ==>
              var end := Calls.Run(b.limits, log, AsCalls(ops));
              Holds(b.st.doc, end.ledger) && end.admitted == log.admitted + granted
    decreases |ops|
  {
    if ops == [] {
      return [];
    }
    ghost var advances := ClockAdvances(ops, log.clock);
    ghost var books' := Tokens.Step(b.limits, books, ops[0]);
    ghost var log' := if advances then Calls.Step(b.limits, log, AsCall(ops[0])) else log.(ledger := books'.ledger);
    StaysSound(b.limits, books, ops);
    granted := PerformOne(b, books, log, ops, ops[0]);
    var later := Perform(b, books', log', ops[1..]);
    if advances {
      CallsGoOn(b.limits, log, ops);
      assert ClockAdvances(ops[1..], log'.clock);
    }
    granted := granted + later;
  }

  lemma CallsGoOn(limits: Limits, log: Calls.Log, ops: seq<Tokens.Event>)
    requires ops != []
    ensures Calls.Run(limits, log, AsCalls(ops))
         == Calls.Run(limits, Calls.Step(limits, log, AsCall(ops[0])), AsCalls(ops[1..]))
  {
    assert AsCalls(ops)[0] == AsCall(ops[0]) && AsCalls(ops)[1..] == AsCalls(ops[1..]);
  }

  lemma GrantsFit(limits: Limits, log: Calls.Log, events: seq<Calls.Event>)
    requires limits.callsPerHour > 0 && log.ledger == FRESH && log.admitted == []
    ensures var granted := Calls.Run(limits, log, events).admitted;
            forall start, leftClosed :: Calls.CallsIn(granted, start, leftClosed) <= limits.callsPerHour
  {
    var granted := Calls.Run(limits, log, events).admitted;
    assert log == Calls.Log(FRESH, [], log.clock);
    forall start, leftClosed
      ensures Calls.CallsIn(granted, start, leftClosed) <= limits.callsPerHour
    {
      Calls.NoHourHasTooManyCalls(limits, events, log.clock, start, leftClosed);
    }
  }

  /**
    A budget over a store that was never written. Whatever is asked of it, whichever
    writes fail: no half-open hour holds more granted requests than the call limit, while
    the clock does not go back; and if requests use no more than their allowance, what the
    store charges covers all true use and stays within the token limit.
   */
  method PerformFromNothing(b: Budget, ghost books: Tokens.Books, ghost log: Calls.Log, ops: seq<Tokens.Event>)
    returns (granted: seq<int>)
    requires b.st.doc == Unwritten && Tokens.NewBooks(books) && Sound(ops, books.ids)
    requires books.ledger == log.ledger == FRESH && log.admitted == []
    modifies b.st
    ensures b.limits.callsPerHour > 0 && ClockAdvances(ops, log.clock) ==>
              forall start, leftClosed :: Calls.CallsIn(granted, start, leftClosed) <= b.limits.callsPerHour
    ensures var end := Tokens.Run(b.limits, books, ops);
            && Holds(b.st.doc, end.ledger) && Tokens.Balanced(end)
            && (0 < b.limits.totalTokens <= MAX_INT64 && Tokens.Honest(b.limits, books, ops) ==>
                  Tokens.TrueUse(end) <= end.ledger.tokens <= b.limits.totalTokens)
  {
    NewIsBalanced(b.limits, books);
    Tokens.EveryRunBalances(b.limits, books, ops);
    granted := Perform(b, books, log, ops);
    if b.limits.callsPerHour > 0 && ClockAdvances(ops, log.clock) {
      assert [] + granted == granted;
      GrantsFit(b.limits, log, AsCalls(ops));
    }
  }

  lemma NewIsBalanced(limits: Limits, books: Tokens.Books)
    requires Tokens.NewBooks(books)
    ensures Tokens.Balanced(books)
  {
    Tokens.EveryRunBalances(limits, books, []);
  }

  /**
    The time a refusal names is the first at which fewer calls than the limit are an hour
    old or less. A request that fits every limit is refused only if 64 bits do not hold the
    charge.
   */
  lemma TheRetryTimeIsTheFirst(limits: Limits, l: Ledger, allowance: int, now: int)
    ensures var a := Admit(limits, l, allowance, now);
            && (a.Deferred? && a.retryAt.Some? <==>
                  && !(limits.totalTokens > 0 && l.unknown)
                  && limits.callsPerHour > 0 && |Recent(l.calls, now)| >= limits.callsPerHour)
            && (a.CounterOverflow? <==>
                  && (limits.totalTokens > 0 ==> !l.unknown && l.tokens + allowance <= limits.totalTokens)
                  && (limits.callsPerHour > 0 ==> |Recent(l.calls, now)| < limits.callsPerHour)
                  && l.tokens + allowance >= 0x8000_0000_0000_0000)
            && (a.Deferred? && a.retryAt.Some? ==>
                  && now < a.retryAt.value && |Recent(l.calls, a.retryAt.value)| < limits.callsPerHour
                  && forall t :: now <= t < a.retryAt.value ==> |Recent(l.calls, t)| >= limits.callsPerHour)
  {
    var a := Admit(limits, l, allowance, now);
    LiveCounts(l.calls, now);
    if a.Deferred? && a.retryAt.Some? {
      var until := a.retryAt.value;
      Calls.RetryAtIsExact(l.calls, limits.callsPerHour, now, now);
      Calls.RetryAtIsExact(l.calls, limits.callsPerHour, now, until);
      LiveCounts(l.calls, until);
      forall t | now <= t < until
        ensures |Recent(l.calls, t)| >= limits.callsPerHour
      {
        Calls.RetryAtIsExact(l.calls, limits.callsPerHour, now, t);
        LiveCounts(l.calls, t);
      }
    }
  }
}
