/** The rolling hour: exact retry times, and no window with more calls than the limit. */
module BudgetCalls {
  import opened Option
  import opened BudgetSpec
  import opened Sequences

  lemma AtMostOrders()
    ensures TotalOrder(AtMost)
  {
  }

  // ---- Filtering and sorting ----

  /** In ascending order the live calls are a suffix: from the first live one on. */
  function Expired(s: seq<int>, now: int): (k: nat)
    ensures k <= |s|
    ensures forall i :: 0 <= i < k ==> s[i] <= now - HOUR
    ensures k < |s| ==> s[k] > now - HOUR
  {
    if s == [] || s[0] > now - HOUR then 0 else 1 + Expired(s[1..], now)
  }

  lemma {:induction false} AllLive(s: seq<int>, now: int)
    requires forall i :: 0 <= i < |s| ==> s[i] > now - HOUR
    ensures Live(s, now) == s
  {
    if s == [] {
    } else {
      AllLive(s[1..], now);
    }
  }

  lemma {:induction false} LiveIsSuffix(s: seq<int>, now: int)
    requires Ascending(s, AtMost)
    ensures Live(s, now) == s[Expired(s, now)..]
    ensures forall i :: Expired(s, now) <= i < |s| ==> s[i] > now - HOUR
  {
    if s == [] {
    } else {
      if s[0] > now - HOUR {
        AllLive(s, now);
      } else {
        LiveIsSuffix(s[1..], now);
      }
    }
  }

  lemma {:induction false} LiveOfInsert(x: int, s: seq<int>, now: int)
    requires Ascending(s, AtMost)
    ensures Live(Insert(x, s, AtMost), now) == if x > now - HOUR then Insert(x, Live(s, now), AtMost) else Live(s, now)
  {
    if s == [] {
    } else if x > s[0] {
      LiveOfInsert(x, s[1..], now);
      if x > now - HOUR && s[0] <= now - HOUR {
        assert Live(s, now) == Live(s[1..], now);
      }
    } else if x > now - HOUR {
      assert Live(s, now) == [s[0]] + Live(s[1..], now);
    }
  }

  /** Sorting and expiring commute. */
  lemma {:induction false} SortedLive(s: seq<int>, now: int)
    ensures Sort(Live(s, now), AtMost) == Live(Sort(s, AtMost), now)
  {
    if s == [] {
    } else {
      SortedLive(s[1..], now);
      AtMostOrders();
      SortAscends(s[1..], AtMost);
      LiveOfInsert(s[0], Sort(s[1..], AtMost), now);
      if s[0] > now - HOUR {
        assert Live(s, now)[1..] == Live(s[1..], now);
      } else {
        assert Live(s, now) == Live(s[1..], now);
      }
    }
  }

  // ---- The retry time ----

  /** The live calls, sorted, are the tail of all calls, sorted. */
  lemma SortedTail(calls: seq<int>, now: int, s: seq<int>, tail: seq<int>)
    requires s == Sort(calls, AtMost) && tail == Sort(Live(calls, now), AtMost)
    ensures Ascending(s, AtMost) && tail == s[Expired(s, now)..] && |tail| == |Live(calls, now)|
  {
    AtMostOrders();
    SortAscends(calls, AtMost);
    SortedLive(calls, now);
    LiveIsSuffix(s, now);
  }

  lemma SameFromTheEnd(s: seq<int>, tail: seq<int>, k: nat, back: nat)
    requires k <= |s| && tail == s[k..] && 0 < back <= |tail|
    ensures tail[|tail| - back] == s[|s| - back]
  {
  }

  lemma RetryAtPicks(calls: seq<int>, limit: int, now: int, s: seq<int>)
    requires 0 < limit <= |Live(calls, now)| && s == Sort(calls, AtMost)
    ensures limit <= |s| && RetryAt(calls, limit, now) == s[|s| - limit] + HOUR && s[|s| - limit] > now - HOUR
  {
    var tail := Sort(Live(calls, now), AtMost);
    SortedTail(calls, now, s, tail);
    RetryAtIs(calls, limit, now, tail);
    PicksFromTheEnd(s, tail, limit, now);
  }

  lemma PicksFromTheEnd(s: seq<int>, tail: seq<int>, limit: int, now: int)
    requires Ascending(s, AtMost) && tail == s[Expired(s, now)..] && 0 < limit <= |tail|
    ensures limit <= |s| && tail[|tail| - limit] == s[|s| - limit] > now - HOUR
  {
    SameFromTheEnd(s, tail, Expired(s, now), limit);
    assert s[Expired(s, now)] <= s[|s| - limit] || Expired(s, now) == |s| - limit;
  }

  lemma RetryAtIs(calls: seq<int>, limit: int, now: int, tail: seq<int>)
    requires 0 < limit <= |Live(calls, now)| && tail == Sort(Live(calls, now), AtMost)
    ensures |tail| == |Live(calls, now)| && RetryAt(calls, limit, now) == tail[|tail| - limit] + HOUR
  {
  }

  /** In ascending order enough calls are live exactly until the limit-th from the end expires. */
  lemma EnoughLive(s: seq<int>, limit: nat, t: int)
    requires Ascending(s, AtMost) && 0 < limit <= |s|
    ensures |s| - Expired(s, t) >= limit <==> t < s[|s| - limit] + HOUR
  {
  }

  /**
    A call-limit denial's RetryAt is exact: with no further admissions, every time from
    now until then is still denied and names the same time, and at that time the limit
    no longer blocks. The ledger may hold more live calls than the limit, in any order.
   */
  lemma RetryAtIsExact(calls: seq<int>, limit: int, now: int, t: int)
    requires 0 < limit <= |Live(calls, now)| && now <= t
    ensures RetryAt(calls, limit, now) > now
    ensures |Live(calls, t)| >= limit <==> t < RetryAt(calls, limit, now)
    ensures t < RetryAt(calls, limit, now) ==> RetryAt(calls, limit, t) == RetryAt(calls, limit, now)
  {
    var s := Sort(calls, AtMost);
    RetryAtPicks(calls, limit, now, s);
    LiveUntil(calls, limit, t, s);
    if |Live(calls, t)| >= limit {
      RetryAtPicks(calls, limit, t, s);
    }
  }

  lemma LiveUntil(calls: seq<int>, limit: int, t: int, s: seq<int>)
    requires s == Sort(calls, AtMost) && 0 < limit <= |s|
    ensures |Live(calls, t)| >= limit <==> t < s[|s| - limit] + HOUR
  {
    var tail := Sort(Live(calls, t), AtMost);
    SortedTail(calls, t, s, tail);
    EnoughLive(s, limit, t);
  }

  /** So admission is denied by the call limit exactly until then. */
  lemma DenialLastsExactlyUntilRetry(limits: Limits, l: Ledger, allowance: int, now: int, later: int, t: int)
    requires !(limits.totalTokens > 0 && l.unknown)
    requires Admit(limits, l, allowance, now).Deferred? && Admit(limits, l, allowance, now).retryAt.Some?
    requires now <= t
    ensures var retryAt := Admit(limits, l, allowance, now).retryAt;
            Admit(limits, l, later, t) == Deferred(retryAt) <==> t < retryAt.value
    ensures t >= Admit(limits, l, allowance, now).retryAt.value ==>
              !(Admit(limits, l, later, t).Deferred? && Admit(limits, l, later, t).retryAt.Some?)
  {
    RetryAtIsExact(l.calls, limits.callsPerHour, now, t);
  }

  // ---- Windows over a whole run ----

  /** An admission request: its allowance and the clock when it is decided. */
  datatype Request = Request(id: Id, allowance: int, now: int)

  /** The ledger and every admission time so far. */
  datatype Log = Log(ledger: Ledger, admitted: seq<int>, clock: int)

  /** What happens to the ledger: requests, settlements, and whatever else leaves its calls alone. */
  datatype Event = Requests(request: Request, saved: bool) | Settles(id: Id, usage: Usage, now: int, saved: bool)

  /** A request decided earlier than the last one does not happen: the clock never goes back. */
  function Step(limits: Limits, log: Log, e: Event): Log {
    match e
    case Requests(r, saved) =>
      if r.now < log.clock then log
      else if saved && Admit(limits, log.ledger, r.allowance, r.now).Admitted? then
        Log(Charge(log.ledger, r.id, r.allowance, r.now), log.admitted + [r.now], r.now)
      else log.(clock := r.now)
    case Settles(id, usage, now, saved) =>
      if saved && id in log.ledger.pending then log.(ledger := Settle(log.ledger, id, usage, now)) else log
  }

  function Run(limits: Limits, log: Log, events: seq<Event>): Log
    decreases |events|
  {
    if events == [] then log else Run(limits, Step(limits, log, events[0]), events[1..])
  }

  /** Any limit + 1 admissions in a row span an hour. */
  predicate Spaced(limit: int, admitted: seq<int>)
    requires limit > 0
  {
    forall i, j :: 0 <= i && j == i + limit < |admitted| ==> admitted[j] - admitted[i] >= HOUR
  }

  /** The last admissions, with all that may still be live among them. */
  predicate KeepsLast(calls: seq<int>, admitted: seq<int>, clock: int) {
    && |calls| <= |admitted|
    && calls == admitted[|admitted| - |calls|..]
    && forall i :: 0 <= i < |admitted| - |calls| ==> admitted[i] <= clock - HOUR
  }

  /** Admissions ascend and are spaced, and the ledger keeps the last ones. */
  predicate LogOk(limit: int, log: Log) {
    && limit > 0
    && Ascending(log.admitted, AtMost)
    && (forall i :: 0 <= i < |log.admitted| ==> log.admitted[i] <= log.clock)
    && Spaced(limit, log.admitted)
    && KeepsLast(log.ledger.calls, log.admitted, log.clock)
  }

  lemma AdmissionKeeps(limits: Limits, log: Log, r: Request)
    requires LogOk(limits.callsPerHour, log) && r.now >= log.clock
    requires Admit(limits, log.ledger, r.allowance, r.now).Admitted?
    ensures LogOk(limits.callsPerHour, Step(limits, log, Requests(r, true)))
  {
    var live := Live(log.ledger.calls, r.now);
    ExpiryKeepsTail(log, r.now);
    TailGrows(live, log.admitted, r.now);
    SpacingGrows(limits.callsPerHour, live, log.admitted, r.now);
  }

  lemma TailGrows(live: seq<int>, admitted: seq<int>, now: int)
    requires KeepsLast(live, admitted, now)
    ensures KeepsLast(live + [now], admitted + [now], now)
  {
    var (a, k) := (admitted + [now], |admitted| - |live|);
    assert a[k..] == admitted[k..] + [now];
  }

  lemma SpacingGrows(limit: int, live: seq<int>, admitted: seq<int>, now: int)
    requires limit > 0 && Spaced(limit, admitted) && KeepsLast(live, admitted, now) && |live| < limit
    ensures Spaced(limit, admitted + [now])
  {
    var a := admitted + [now];
    forall i, j | 0 <= i && j == i + limit < |a|
      ensures a[j] - a[i] >= HOUR
    {
      if j < |admitted| {
        assert admitted[j] - admitted[i] >= HOUR;
      }
    }
  }

  /** What the ledger forgets is more than an hour old. */
  lemma ExpiryKeepsTail(log: Log, now: int)
    requires Ascending(log.admitted, AtMost) && now >= log.clock && KeepsLast(log.ledger.calls, log.admitted, log.clock)
    ensures KeepsLast(Live(log.ledger.calls, now), log.admitted, now)
  {
    var (a, c) := (log.admitted, log.ledger.calls);
    assert Ascending(c, AtMost);
    LiveIsSuffix(c, now);
    ShorterTail(a, c, Live(c, now), Expired(c, now), now);
  }

  lemma ShorterTail(a: seq<int>, c: seq<int>, live: seq<int>, k: nat, now: int)
    requires KeepsLast(c, a, now) && k <= |c| && live == c[k..]
    requires forall i :: 0 <= i < k ==> c[i] <= now - HOUR
    ensures KeepsLast(live, a, now)
  {
    var n := |a| - |c|;
    forall i | 0 <= i < n + k
      ensures a[i] <= now - HOUR
    {
      if i >= n {
        assert c[i - n] == a[i];
      }
    }
    assert a[n + k..] == a[n..][k..];
  }

  lemma {:induction false} RunKeeps(limits: Limits, log: Log, events: seq<Event>)
    requires LogOk(limits.callsPerHour, log)
    ensures LogOk(limits.callsPerHour, Run(limits, log, events))
    decreases |events|
  {
    if events == [] {
    } else {
      match events[0] {
        case Requests(r, saved) =>
          if r.now >= log.clock && saved && Admit(limits, log.ledger, r.allowance, r.now).Admitted? {
            AdmissionKeeps(limits, log, r);
          }
        case Settles(_, _, _, _) =>
      }
      RunKeeps(limits, Step(limits, log, events[0]), events[1..]);
    }
  }

  /** x lies in the hour after `start`, which end is open being the caller's choice. */
  predicate InHour(x: int, start: int, leftClosed: bool) {
    if leftClosed then start <= x < start + HOUR else start < x <= start + HOUR
  }

  function CallsIn(s: seq<int>, start: int, leftClosed: bool): nat {
    if s == [] then 0
    else CallsIn(s[..|s| - 1], start, leftClosed) + if InHour(s[|s| - 1], start, leftClosed) then 1 else 0
  }

  lemma {:induction false} OnlyTheLast(s: seq<int>, k: nat, start: int, leftClosed: bool)
    requires k <= |s| && forall i :: 0 <= i < k ==> !InHour(s[i], start, leftClosed)
    ensures CallsIn(s, start, leftClosed) <= |s| - k
  {
    if |s| > k {
      OnlyTheLast(s[..|s| - 1], k, start, leftClosed);
    } else if |s| > 0 {
      OnlyTheLast(s[..|s| - 1], k - 1, start, leftClosed);
    }
  }

  lemma {:induction false} SpacedCallsFit(s: seq<int>, limit: int, start: int, leftClosed: bool)
    requires limit > 0 && Ascending(s, AtMost) && Spaced(limit, s)
    ensures CallsIn(s, start, leftClosed) <= limit
  {
    if s == [] {
    } else {
      if InHour(s[|s| - 1], start, leftClosed) {
        var k := if |s| < limit then 0 else |s| - limit;
        if k > 0 {
          assert s[k - 1 + limit] - s[k - 1] >= HOUR;
        }
        OnlyTheLast(s, k, start, leftClosed);
      } else {
        SpacedCallsFit(s[..|s| - 1], limit, start, leftClosed);
      }
    }
  }

  /**
    With a positive call limit and a clock that never goes back, every half-open hour of
    the whole run contains at most that many admitted calls, though the ledger forgets
    expired ones and any update may fail to commit.
   */
  lemma NoHourHasTooManyCalls(limits: Limits, events: seq<Event>, clock: int, start: int, leftClosed: bool)
    requires limits.callsPerHour > 0
    ensures CallsIn(Run(limits, Log(FRESH, [], clock), events).admitted, start, leftClosed) <= limits.callsPerHour
  {
    RunKeeps(limits, Log(FRESH, [], clock), events);
    SpacedCallsFit(Run(limits, Log(FRESH, [], clock), events).admitted, limits.callsPerHour, start, leftClosed);
  }
}
