/** The budget as an object over its store, and the loop that reads an answer's token counts. */
module Budget {
  import opened Option
  import opened BudgetSpec
  import opened Sequences

  class BudgetStore {
    var doc: Stored

    constructor ()
      ensures doc == Unwritten
    {
      doc := Unwritten;
    }

    /** The replacement commits, or the old document stays. */
    method Write(ledger: Ledger, saved: bool)
      modifies this
      ensures doc == if saved then Document(1, true, ledger) else old(doc)
    {
      if saved {
        doc := Document(1, true, ledger);
      }
    }
  }

  datatype Reservation = Granted | Denied(admission: Admission) | StoreFailed

  datatype Settlement = Settled(overrun: bool) | NoReservation | NotSaved

  /** The document stands for this ledger: it holds it, or nothing was written and the ledger is empty. */
  predicate Holds(doc: Stored, l: Ledger) {
    if doc.Unwritten? then l == Ledger([], 0, map[], false, "", 0)
    else doc == Document(1, true, l) && l.tokens >= 0
  }

  /** Nothing can be read from the document: it does not decode, or not as version 1 with sound figures. */
  predicate Unsound(doc: Stored) {
    doc.Unreadable? || (doc.Document? && (doc.version != 1 || !doc.hasPending || doc.ledger.tokens < 0))
  }

  class Budget {
    const st: BudgetStore
    const limits: Limits

    constructor (st: BudgetStore, limits: Limits)
      ensures this.st == st && this.limits == limits
    {
      this.st := st;
      this.limits := limits;
    }

    /** The filter that keeps the calls of the last hour, in place and in order. */
    static method KeepLive(calls: seq<int>, now: int) returns (live: seq<int>)
      ensures live == Live(calls, now)
    {
      live := [];
      for i := 0 to |calls|
        invariant live == Live(calls[..i], now)
      {
        LiveGrows(calls[..i], calls[i], now);
        assert calls[..i + 1] == calls[..i] + [calls[i]];
        if calls[i] > now - HOUR {
          live := live + [calls[i]];
        }
      }
      assert calls[..|calls|] == calls;
    }

    /** Reserves before a POST: either the whole charge commits or the stored ledger is what it was. */
    method Reserve(id: Id, allowance: int, now: int, saved: bool) returns (r: Reservation)
      modifies st
      ensures Opened(old(st.doc)).None? ==> r == StoreFailed && st.doc == old(st.doc)
      ensures Opened(old(st.doc)).Some? ==>
                var l := Opened(old(st.doc)).value;
                var admission := Admit(limits, l, allowance, now);
                && (r == if !admission.Admitted? then Denied(admission) else if saved then Granted else StoreFailed)
                && st.doc == if r == Granted then Document(1, true, BudgetSpec.Reserve(limits, l, id, allowance, now))
                             else old(st.doc)
      ensures Unsound(old(st.doc)) ==> r == StoreFailed
      ensures r != Granted ==> st.doc == old(st.doc)
      ensures forall l :: Holds(old(st.doc), l) ==>
                && (r == Granted <==> saved && Affordable(limits, l, allowance, now))
                && (r == StoreFailed <==> !saved && Affordable(limits, l, allowance, now))
                && (r == Granted ==> st.doc.Document? && st.doc.version == 1 && st.doc.hasPending
                                     && Charged(l, st.doc.ledger, id, allowance, now))
    {
      AffordableExactly(st.doc, limits, id, allowance, now);
      var current := Opened(st.doc);
      if current.None? {
        return StoreFailed;
      }
      var l := current.value;
      if limits.totalTokens > 0 && l.unknown {
        return Denied(Deferred(None));
      }
      var live := KeepLive(l.calls, now);
      if limits.callsPerHour > 0 && |live| >= limits.callsPerHour {
        var sorted := Sort(live, AtMost);
        var retryAt := sorted[|sorted| - limits.callsPerHour] + HOUR;
        return Denied(Deferred(Some(retryAt)));
      }
      if limits.totalTokens > 0 && limits.totalTokens - l.tokens < allowance {
        return Denied(Deferred(None));
      }
      if allowance > MAX_INT64 - l.tokens {
        return Denied(CounterOverflow);
      }
      l := l.(tokens := l.tokens + allowance);
      l := l.(pending := l.pending[id := allowance]);
      l := l.(calls := live + [now]);
      st.Write(l, saved);
      return if saved then Granted else StoreFailed;
    }

    /** Settles after the call; if the write fails the reservation stays charged and pending. */
    method Settle(id: Id, usage: Usage, now: int, saved: bool) returns (r: Settlement)
      modifies st
      ensures Opened(old(st.doc)).None? ==> r == NotSaved && st.doc == old(st.doc)
      ensures Opened(old(st.doc)).Some? && id !in Opened(old(st.doc)).value.pending ==>
                r == NoReservation && st.doc == old(st.doc)
      ensures Opened(old(st.doc)).Some? && id in Opened(old(st.doc)).value.pending ==>
                var l' := BudgetSpec.Settle(Opened(old(st.doc)).value, id, usage, now);
                && st.doc == (if saved then Document(1, true, l') else old(st.doc))
                && r == if !saved then NotSaved
                        else Settled(usage.Used? && limits.totalTokens > 0 && l'.tokens > limits.totalTokens)
      ensures Unsound(old(st.doc)) ==> r == NotSaved
      ensures !r.Settled? ==> st.doc == old(st.doc)
      ensures forall l :: Holds(old(st.doc), l) ==>
                && (r == NoReservation <==> id !in l.pending)
                && (r.Settled? <==> id in l.pending && saved)
                && (r.Settled? ==> st.doc.Document? && st.doc.version == 1 && st.doc.hasPending
                                   && Closed(l, st.doc.ledger, id, usage, now))
    {
      ClosedExactly(st.doc, id, usage, now);
      var current := Opened(st.doc);
      if current.None? {
        return NotSaved;
      }
      var l := current.value;
      if id !in l.pending {
        return NoReservation;
      }
      var reserved := l.pending[id];
      l := l.(pending := l.pending - {id});
      var overrun := false;
      match usage {
        case UnknownUse(reason) =>
          l := Latch(l, reason, now);
        case Used(used) =>
          l := l.(tokens := l.tokens - reserved);
          if used > MAX_INT64 - l.tokens {
            l := l.(tokens := MAX_INT64);
            l := Latch(l, "usage_overflow", now);
          } else {
            l := l.(tokens := l.tokens + used);
          }
          overrun := limits.totalTokens > 0 && l.tokens > limits.totalTokens;
      }
      st.Write(l, saved);
      return if saved then Settled(overrun) else NotSaved;
    }
  }

  /** The positions of the calls that began within the last hour. */
  function Recent(calls: seq<int>, now: int): set<nat> {
    set i | 0 <= i < |calls| && calls[i] > now - 3_600_000_000_000
  }

  /** The request fits: every limit that is set, and 64 bits, and nothing unknown if tokens are limited. */
  predicate Affordable(limits: Limits, l: Ledger, allowance: int, now: int) {
    && (limits.totalTokens > 0 ==> !l.unknown && l.tokens + allowance <= limits.totalTokens)
    && (limits.callsPerHour > 0 ==> |Recent(l.calls, now)| < limits.callsPerHour)
    && l.tokens + allowance < 0x8000_0000_0000_0000
  }

  /** The ledger after a grant: the charge, the reservation, and this call beside those of the last hour. */
  ghost predicate Charged(l: Ledger, l': Ledger, id: Id, allowance: int, now: int) {
    && l'.tokens == l.tokens + allowance && l'.pending == l.pending[id := allowance]
    && l'.unknown == l.unknown && l'.unknownReason == l.unknownReason && l'.unknownAt == l.unknownAt
    && l'.calls != [] && l'.calls[|l'.calls| - 1] == now
    && forall c :: multiset(l'.calls[..|l'.calls| - 1])[c]
                == if c > now - 3_600_000_000_000 then multiset(l.calls)[c] else 0
  }

  /** For any ledger the document stands for, admission is affordability, and the charge is what it says. */
  lemma AffordableExactly(doc: Stored, limits: Limits, id: Id, allowance: int, now: int)
    ensures Unsound(doc) <==> Opened(doc).None?
    ensures forall l :: Holds(doc, l) ==>
              && Opened(doc) == Some(l)
              && (Admit(limits, l, allowance, now).Admitted? <==> Affordable(limits, l, allowance, now))
              && Charged(l, Charge(l, id, allowance, now), id, allowance, now)
  {
    forall l | Holds(doc, l)
      ensures Opened(doc) == Some(l)
      ensures Admit(limits, l, allowance, now).Admitted? <==> Affordable(limits, l, allowance, now)
      ensures Charged(l, Charge(l, id, allowance, now), id, allowance, now)
    {
      LiveCounts(l.calls, now);
      ChargedCalls(l, id, allowance, now);
    }
  }

  /**
    The ledger after a settlement: the reservation is gone, and in its place stands the
    use, at most 64 bits of it; or the charge stays and use is unknown from now on, if it
    was not before.
   */
  predicate Closed(l: Ledger, l': Ledger, id: Id, usage: Usage, now: int) {
    && id in l.pending && l'.pending == l.pending - {id} && l'.calls == l.calls
    && var exact := l.tokens - l.pending[id] + (if usage.Used? then usage.tokens else l.pending[id]);
       var fits := usage.UnknownUse? || exact < 0x8000_0000_0000_0000;
       && l'.tokens == (if fits then exact else 0x7fff_ffff_ffff_ffff)
       && (l'.unknown <==> l.unknown || usage.UnknownUse? || !fits)
       && (if l.unknown || !l'.unknown then l'.unknownReason == l.unknownReason && l'.unknownAt == l.unknownAt
           else l'.unknownReason == (if usage.Used? then "usage_overflow" else usage.reason) && l'.unknownAt == now)
  }

  lemma ClosedExactly(doc: Stored, id: Id, usage: Usage, now: int)
    ensures Unsound(doc) <==> Opened(doc).None?
    ensures forall l :: Holds(doc, l) ==>
              && Opened(doc) == Some(l)
              && (id in l.pending ==> Closed(l, BudgetSpec.Settle(l, id, usage, now), id, usage, now))
  {
  }

  lemma ChargedCalls(l: Ledger, id: Id, allowance: int, now: int)
    ensures Charged(l, Charge(l, id, allowance, now), id, allowance, now)
  {
    var live := Live(l.calls, now);
    assert (live + [now])[..|live|] == live;
    forall c
      ensures multiset(live)[c] == if c > now - 3_600_000_000_000 then multiset(l.calls)[c] else 0
    {
      LiveKeeps(l.calls, now, c);
    }
  }

  lemma {:induction false} LiveKeeps(calls: seq<int>, now: int, c: int)
    ensures multiset(Live(calls, now))[c] == if c > now - 3_600_000_000_000 then multiset(calls)[c] else 0
  {
    if calls == [] {
    } else {
      LiveKeeps(calls[1..], now, c);
      assert calls == [calls[0]] + calls[1..];
    }
  }

  lemma {:induction false} LiveCounts(calls: seq<int>, now: int)
    ensures |Live(calls, now)| == |Recent(calls, now)|
    decreases |calls|
  {
    if calls == [] {
      assert Recent(calls, now) == {};
    } else {
      var (n, x) := (|calls| - 1, calls[|calls| - 1]);
      LiveCounts(calls[..n], now);
      assert calls == calls[..n] + [x];
      LiveGrows(calls[..n], x, now);
      assert Recent(calls, now) == Recent(calls[..n], now) + if x > now - 3_600_000_000_000 then {n as nat} else {};
    }
  }

  lemma {:induction false} LiveGrows(calls: seq<int>, x: int, now: int)
    ensures Live(calls + [x], now) == Live(calls, now) + if x > now - HOUR then [x] else []
  {
    if calls == [] {
    } else {
      assert (calls + [x])[1..] == calls[1..] + [x];
      LiveGrows(calls[1..], x, now);
    }
  }

  /** The sum of the first n counts, an absent optional one counting nothing. */
  function Counted(usage: map<string, Field>, keys: seq<string>): int {
    if keys == [] then 0
    else
      var last := keys[|keys| - 1];
      Counted(usage, keys[..|keys| - 1]) + if last in usage && Counts(usage[last]) then usage[last].n else 0
  }

  /** The i-th key's field is usable: a count, or an optional field that is absent. */
  predicate Usable(usage: map<string, Field>, keys: seq<string>, i: nat)
    requires i < |keys|
  {
    if keys[i] in usage then Counts(usage[keys[i]]) else i >= 2
  }

  /** The i-th key's field is unusable, or makes the sum too large. */
  predicate StopsAt(usage: map<string, Field>, keys: seq<string>, i: nat)
    requires i < |keys|
  {
    !Usable(usage, keys, i) || Counted(usage, keys[..i + 1]) > MAX_INT64
  }

  /** The i-th field is a number that does not fit 64 bits, or a count that makes the sum not fit. */
  predicate TooLargeAt(usage: map<string, Field>, keys: seq<string>, i: nat)
    requires i < |keys|
  {
    && keys[i] in usage && usage[keys[i]].Int?
    && var n := usage[keys[i]].n;
       !(MIN_INT64 <= n <= MAX_INT64) || (n >= 0 && Counted(usage, keys[..i + 1]) > MAX_INT64)
  }

  /** The first trouble is a number or a sum that does not fit. */
  predicate Overflows(usage: map<string, Field>, keys: seq<string>) {
    exists i :: 0 <= i < |keys| && TooLargeAt(usage, keys, i) && forall k :: 0 <= k < i ==> !StopsAt(usage, keys, k)
  }

  lemma FirstTroubleDecides(usage: map<string, Field>, keys: seq<string>, i: nat)
    requires i < |keys| && StopsAt(usage, keys, i) && forall k :: 0 <= k < i ==> !StopsAt(usage, keys, k)
    ensures Overflows(usage, keys) <==> TooLargeAt(usage, keys, i)
  {
    if Overflows(usage, keys) {
      var j :| 0 <= j < |keys| && TooLargeAt(usage, keys, j) && forall k :: 0 <= k < j ==> !StopsAt(usage, keys, k);
      assert StopsAt(usage, keys, j);
      assert j == i;
    }
  }

  lemma NoTrouble(usage: map<string, Field>, keys: seq<string>)
    requires forall k :: 0 <= k < |keys| ==> !StopsAt(usage, keys, k)
    ensures !Overflows(usage, keys) && forall i :: 0 <= i < |keys| ==> Usable(usage, keys, i)
  {
    forall i | 0 <= i < |keys|
      ensures Usable(usage, keys, i) && !TooLargeAt(usage, keys, i)
    {
      assert !StopsAt(usage, keys, i);
    }
  }

  /** The field is a count: a non-negative integer of 64 bits. */
  predicate ReportsCount(usage: map<string, Field>, key: string) {
    key in usage && usage[key].Int? && 0 <= usage[key].n < 0x8000_0000_0000_0000
  }

  predicate AbsentOrCount(usage: map<string, Field>, key: string) {
    key !in usage || ReportsCount(usage, key)
  }

  /** What one field adds to the total. */
  function Part(usage: map<string, Field>, key: string): int {
    if ReportsCount(usage, key) then usage[key].n else 0
  }

  /** Input, output and both cache counts together. */
  function InputFamily(usage: map<string, Field>): int {
    Part(usage, "input_tokens") + Part(usage, "output_tokens")
    + Part(usage, "cache_creation_input_tokens") + Part(usage, "cache_read_input_tokens")
  }

  /**
    Which counts ResponseTokens adds up: prompt and completion if the former is there, and
    otherwise input, output and the two optional cache counts.
   */
  lemma FamiliesAreCounted(usage: map<string, Field>)
    ensures var keys := Keys(usage);
            if "prompt_tokens" in usage then
              && Counted(usage, keys) == Part(usage, "prompt_tokens") + Part(usage, "completion_tokens")
              && ((forall i :: 0 <= i < |keys| ==> Usable(usage, keys, i)) <==>
                    ReportsCount(usage, "prompt_tokens") && ReportsCount(usage, "completion_tokens"))
            else
              && Counted(usage, keys) == InputFamily(usage)
              && ((forall i :: 0 <= i < |keys| ==> Usable(usage, keys, i)) <==>
                    && ReportsCount(usage, "input_tokens") && ReportsCount(usage, "output_tokens")
                    && AbsentOrCount(usage, "cache_creation_input_tokens")
                    && AbsentOrCount(usage, "cache_read_input_tokens"))
  {
    var keys := Keys(usage);
    if "prompt_tokens" in usage {
      CountedTwo(usage, keys[0], keys[1]);
      assert keys == ["prompt_tokens", "completion_tokens"];
      assert Usable(usage, keys, 0) <==> ReportsCount(usage, "prompt_tokens");
      assert Usable(usage, keys, 1) <==> ReportsCount(usage, "completion_tokens");
    } else {
      CountedFour(usage, keys[0], keys[1], keys[2], keys[3]);
      assert keys == [keys[0], keys[1], keys[2], keys[3]];
      assert Usable(usage, keys, 0) <==> ReportsCount(usage, "input_tokens");
      assert Usable(usage, keys, 1) <==> ReportsCount(usage, "output_tokens");
      assert Usable(usage, keys, 2) <==> AbsentOrCount(usage, "cache_creation_input_tokens");
      assert Usable(usage, keys, 3) <==> AbsentOrCount(usage, "cache_read_input_tokens");
    }
  }

  lemma CountedTwo(usage: map<string, Field>, a: string, b: string)
    ensures Counted(usage, [a, b]) == Part(usage, a) + Part(usage, b)
  {
    assert [a, b][..1] == [a] && [a][..0] == [];
    assert Counted(usage, [a]) == Part(usage, a);
  }

  lemma CountedFour(usage: map<string, Field>, a: string, b: string, c: string, d: string)
    ensures Counted(usage, [a, b, c, d]) == Part(usage, a) + Part(usage, b) + Part(usage, c) + Part(usage, d)
  {
    CountedTwo(usage, a, b);
    assert [a, b, c, d][..3] == [a, b, c] && [a, b, c][..2] == [a, b];
    assert Counted(usage, [a, b, c]) == Part(usage, a) + Part(usage, b) + Part(usage, c);
  }

  /**
    The tokens an answer reports: the sum of one family of counts, exactly if every
    required one is there, none is malformed or negative, the sum fits 64 bits and it is
    not zero. It is an overflow exactly if the first trouble is a number or a sum that
    does not fit, and otherwise nothing is reported.
   */
  method ResponseTokens(usage: map<string, Field>) returns (t: Tokens)
    ensures var keys := Keys(usage);
            t.Total? <==>
              (forall i :: 0 <= i < |keys| ==> Usable(usage, keys, i)) && 0 < Counted(usage, keys) <= MAX_INT64
    ensures t.Total? ==> t.n == Counted(usage, Keys(usage))
    ensures t.Overflow? <==> Overflows(usage, Keys(usage))
  {
    var keys := Keys(usage);
    var total := 0;
    for i := 0 to |keys|
      invariant 0 <= total <= MAX_INT64 && total == Counted(usage, keys[..i])
      invariant forall k :: 0 <= k < i ==> !StopsAt(usage, keys, k)
    {
      var key := keys[i];
      assert keys[..i + 1][..i] == keys[..i];
      if key !in usage && i >= 2 {
        continue;
      }
      if key !in usage || !usage[key].Int? {
        assert !Usable(usage, keys, i);
        FirstTroubleDecides(usage, keys, i);
        return NotReported;
      }
      var count := usage[key].n;
      if count < MIN_INT64 || count > MAX_INT64 {
        assert !Usable(usage, keys, i);
        FirstTroubleDecides(usage, keys, i);
        return Overflow;
      }
      if count < 0 {
        assert !Usable(usage, keys, i);
        FirstTroubleDecides(usage, keys, i);
        return NotReported;
      }
      if count > MAX_INT64 - total {
        MoreCounted(usage, keys, i + 1);
        FirstTroubleDecides(usage, keys, i);
        return Overflow;
      }
      total := total + count;
    }
    assert keys[..|keys|] == keys;
    NoTrouble(usage, keys);
    if total == 0 {
      return NotReported;
    }
    return Total(total);
  }

  /** Later counts only add. */
  lemma {:induction false} MoreCounted(usage: map<string, Field>, keys: seq<string>, n: nat)
    requires n <= |keys|
    ensures Counted(usage, keys) >= Counted(usage, keys[..n])
  {
    if n < |keys| {
      MoreCounted(usage, keys[..|keys| - 1], n);
      assert keys[..|keys| - 1][..n] == keys[..n];
    } else {
      assert keys[..n] == keys;
    }
  }
}
