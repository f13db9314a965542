/**
  What each observation writes down, field by field and reason by reason, over the steps of
  the system: which reasons count as what, which capabilities raise which state, what an
  outage records when it opens and closes, and when the idle probe runs and is believed.
 */
module Observations {
  import opened Option
  import opened Health
  import opened RollUp
  import opened SlackSystem
  import Spec = TrackerSpec

  /** The capability has been seen and its last verdict is unhealthy. */
  predicate Failing(caps: Caps, c: Capability) {
    c in caps && !caps[c].healthy
  }

  /** What is stored about a capability; one that was never seen is healthy and has no history. */
  function Known(caps: Caps, c: Capability): CapRecord {
    if c in caps then caps[c] else CapRecord(true, NoReason, None, None, None, [])
  }

  // ---- The state shown ----

  /**
    The tracker is unavailable exactly while drafting, assessing or the probe fails, and
    degraded exactly while only rejudging or profiling does; repairs and the memory
    classifier never count. The reason shown is that of the first failing one.
   */
  predicate Shows(rec: HealthRecord, caps: Caps) {
    && (rec.state == Unavailable <==>
          Failing(caps, TriageDraft) || Failing(caps, Assessment) || Failing(caps, Probe))
    && (rec.state != Healthy <==>
          || Failing(caps, TriageDraft) || Failing(caps, Assessment) || Failing(caps, Probe)
          || Failing(caps, VerificationRejudge) || Failing(caps, SemanticProfile))
    && rec.reason == (if Failing(caps, TriageDraft) then caps[TriageDraft].reason
                      else if Failing(caps, Assessment) then caps[Assessment].reason
                      else if Failing(caps, Probe) then caps[Probe].reason
                      else if Failing(caps, VerificationRejudge) then caps[VerificationRejudge].reason
                      else if Failing(caps, SemanticProfile) then caps[SemanticProfile].reason
                      else NoReason)
  }

  /** In every reachable state, in memory and in the store, the record shows what its capabilities say. */
  lemma EveryRecordShowsItsCapabilities(cfg: Config, events: seq<Event>)
    ensures var s := Run(cfg, INITIAL, events);
            Shows(s.disk.rec, s.disk.caps) && (s.proc.Up? ==> Shows(s.proc.mem.rec, s.proc.mem.caps))
  {
    EveryRunIsRolledUp(cfg, events);
    var s := Run(cfg, INITIAL, events);
    RolledUpShows(s.disk.rec, s.disk.caps);
    if s.proc.Up? {
      RolledUpShows(s.proc.mem.rec, s.proc.mem.caps);
    }
  }

  lemma RolledUpShows(rec: HealthRecord, caps: Caps)
    requires RolledUp(rec, caps)
    ensures Shows(rec, caps)
  {
    var o := ROLL_UP_ORDER;
    assert o[1..] == [Assessment, Probe, VerificationRejudge, SemanticProfile];
    assert o[1..][1..] == [Probe, VerificationRejudge, SemanticProfile];
    assert o[1..][1..][1..] == [VerificationRejudge, SemanticProfile];
    assert o[1..][1..][1..][1..] == [SemanticProfile];
    var (late, middle) := (o[1..][1..][1..], o[1..][1..]);
    assert Spec.FirstUnhealthy(caps, late[1..])
        == if Failing(caps, SemanticProfile) then Some(SemanticProfile) else None;
    assert Spec.FirstUnhealthy(caps, late)
        == if Failing(caps, VerificationRejudge) then Some(VerificationRejudge)
           else Spec.FirstUnhealthy(caps, late[1..]);
    assert Spec.FirstUnhealthy(caps, middle)
        == if Failing(caps, Probe) then Some(Probe) else Spec.FirstUnhealthy(caps, late);
    assert Spec.FirstUnhealthy(caps, o[1..])
        == if Failing(caps, Assessment) then Some(Assessment) else Spec.FirstUnhealthy(caps, middle);
  }

  // ---- A call that ends ----

  /** The store holds the record and every capability that memory has. */
  predicate Stored(d: Durable, m: Memory) {
    d.rec == m.rec && forall c :: c in m.caps ==> c in d.caps && d.caps[c] == m.caps[c]
  }

  /** The capabilities that share the primary client speak for one another, and for the probe. */
  predicate SpeaksFor(c: Capability, x: Capability) {
    && c in {TriageDraft, Assessment, VerificationRejudge, QueryRepair, SemanticProfile}
    && x in {TriageDraft, Assessment, VerificationRejudge, QueryRepair, SemanticProfile, Probe}
  }

  predicate DependencyReason(r: Reason) {
    r in {Timeout, Network, RateLimited, ProviderUnavailable, AuthFailed, Unknown, NoReason}
  }

  predicate ContentReason(r: Reason) {
    r in {RequestInvalid, SchemaViolation, ResponseMalformed}
  }

  /** A cancelled call and one the budget put off are no observation, and neither is any call after the seal. */
  lemma DeferredCallsAreNotObserved(cfg: Config, s: System, c: Capability, subject: string, reason: Reason,
                                    now: Time, saved: bool)
    requires s.proc.Up? && (s.proc.mem.sealed || reason == Canceled || reason == BudgetDeferred)
    ensures Step(cfg, s, FinishCall(c, subject, reason, now, saved))
         == s.(proc := s.proc.(mem := s.proc.mem.(inFlight := s.proc.mem.inFlight - 1)))
  {
  }

  /** What a recorded call does to the capabilities. */
  lemma CallReaches(cfg: Config, s: System, c: Capability, subject: string, reason: Reason, now: Time, saved: bool)
    requires s.proc.Up? && Spec.Recorded(s.proc.mem, reason)
    ensures var s' := Step(cfg, s, FinishCall(c, subject, reason, now, saved));
            s'.proc.Up? && s'.proc.mem.caps == Spec.ObserveCall(s.proc.mem.caps, c, subject, reason, now)
  {
    CallVerdict(s.proc.mem, c, subject, reason, now);
  }

  lemma SuccessVerdict(caps: Caps, c: Capability, subject: string, now: Time, x: Capability)
    ensures var (r, r') := (Known(caps, x), Known(Spec.ObserveCall(caps, c, subject, ReasonOk, now), x));
            r' == if x == c then CapRecord(true, NoReason, None, Some(now), r.lastFailureAt, [])
                  else if SpeaksFor(c, x) && !r.healthy && DependencyReason(r.reason)
                  then r.(healthy := true, reason := NoReason, unhealthySince := None)
                  else r
  {
    var ok := Spec.MarkHealthy(caps, c, now);
    assert x != c ==> Known(ok, x) == Known(caps, x);
    ClearedShared(ok, c, x);
  }

  lemma ClearedShared(caps: Caps, c: Capability, x: Capability)
    requires c in caps
    ensures var (r, r') := (Known(caps, x), Known(Spec.ClearShared(caps, c), x));
            r' == if x != c && x in {TriageDraft, Assessment, VerificationRejudge, QueryRepair, SemanticProfile, Probe}
                     && !r.healthy && DependencyReason(r.reason)
                  then r.(healthy := true, reason := NoReason, unhealthySince := None)
                  else r
  {
    Receives(x);
    FailsByDependency(Known(caps, x));
  }

  lemma Receives(x: Capability)
    ensures x in Spec.RECEIVERS <==>
              x in {TriageDraft, Assessment, VerificationRejudge, QueryRepair, SemanticProfile, Probe}
  {
  }

  lemma FailsByDependency(r: CapRecord)
    ensures Spec.DependencyFailed(r) <==> !r.healthy && DependencyReason(r.reason)
  {
  }

  lemma DependencyVerdict(caps: Caps, c: Capability, subject: string, reason: Reason, now: Time, x: Capability)
    requires DependencyReason(reason)
    ensures var (r, r') := (Known(caps, x), Known(Spec.ObserveCall(caps, c, subject, reason, now), x));
            r' == if x != c then r
                  else CapRecord(false, reason, Some(if r.unhealthySince.Some? then r.unhealthySince.value else now),
                                 r.lastSuccessAt, Some(now), r.subjects)
  {
    DependencyMarks(caps, c, subject, reason, now);
    MarkedUnhealthy(caps, c, reason, now, x);
  }

  lemma DependencyMarks(caps: Caps, c: Capability, subject: string, reason: Reason, now: Time)
    requires DependencyReason(reason)
    ensures Spec.ObserveCall(caps, c, subject, reason, now) == Spec.MarkUnhealthy(caps, c, reason, now)
  {
    assert ClassOf(reason) == ClassDependency;
  }

  lemma MarkedUnhealthy(caps: Caps, c: Capability, reason: Reason, now: Time, x: Capability)
    ensures var (r, r') := (Known(caps, x), Known(Spec.MarkUnhealthy(caps, c, reason, now), x));
            r' == if x != c then r
                  else CapRecord(false, reason, Some(if r.unhealthySince.Some? then r.unhealthySince.value else now),
                                 r.lastSuccessAt, Some(now), r.subjects)
  {
  }

  lemma ContentVerdict(caps: Caps, c: Capability, subject: string, reason: Reason, now: Time, x: Capability)
    requires ContentReason(reason)
    ensures Known(Spec.ObserveCall(caps, c, subject, reason, now), x)
         == if x == c then Spec.Noted(Known(caps, x), subject, reason, now) else Known(caps, x)
  {
    assert ClassOf(reason) == ClassContent;
  }

  /** A new subject joins at the end, and of more than eight the oldest go. */
  function LastEight(subjects: seq<string>, subject: string): seq<string> {
    if subject in subjects then subjects
    else if |subjects| < 8 then subjects + [subject]
    else subjects[|subjects| - 7..] + [subject]
  }

  lemma AddedSubjects(subjects: seq<string>, subject: string)
    ensures var longer := Spec.AddSubject(subjects, subject);
            (|longer| >= 2 <==> subjects != [] && subjects != [subject]) && longer == LastEight(subjects, subject)
  {
    var longer := Spec.AddSubject(subjects, subject);
    if |subjects| == 1 && subject in subjects {
      assert subjects == [subject];
    }
  }

  lemma NotedFields(r: CapRecord, subject: string, reason: Reason, now: Time)
    requires ContentReason(reason)
    ensures var r' := Spec.Noted(r, subject, reason, now);
            && (r'.healthy <==> r.healthy && (r.subjects == [] || r.subjects == [subject]))
            && r'.reason == (if !r.healthy && !ContentReason(r.reason) then r.reason else reason)
            && r'.unhealthySince == (if r.healthy && !r'.healthy then Some(now) else r.unhealthySince)
            && r'.lastFailureAt == Some(now) && r'.lastSuccessAt == r.lastSuccessAt
            && r'.subjects == LastEight(r.subjects, subject)
  {
    AddedSubjects(r.subjects, subject);
  }

  /** A success clears its own capability, and whatever dependency failure it speaks for; nothing else. */
  lemma ASuccessHeals(cfg: Config, s: System, c: Capability, subject: string, now: Time, saved: bool, x: Capability)
    requires s.proc.Up? && !s.proc.mem.sealed
    ensures var s' := Step(cfg, s, FinishCall(c, subject, ReasonOk, now, saved));
            s'.proc.Up? &&
            var (r, r') := (Known(s.proc.mem.caps, x), Known(s'.proc.mem.caps, x));
            r' == if x == c then CapRecord(true, NoReason, None, Some(now), r.lastFailureAt, [])
                  else if SpeaksFor(c, x) && !r.healthy && DependencyReason(r.reason)
                  then r.(healthy := true, reason := NoReason, unhealthySince := None)
                  else r
  {
    CallReaches(cfg, s, c, subject, ReasonOk, now, saved);
    SuccessVerdict(s.proc.mem.caps, c, subject, now, x);
  }

  /** A dependency failure condemns its own capability at once, keeps when that began, and touches no other. */
  lemma ADependencyFailureCondemns(cfg: Config, s: System, c: Capability, subject: string, reason: Reason,
                                   now: Time, saved: bool, x: Capability)
    requires s.proc.Up? && !s.proc.mem.sealed && DependencyReason(reason)
    ensures var s' := Step(cfg, s, FinishCall(c, subject, reason, now, saved));
            s'.proc.Up? &&
            var (r, r') := (Known(s.proc.mem.caps, x), Known(s'.proc.mem.caps, x));
            r' == if x != c then r
                  else CapRecord(false, reason, Some(if r.unhealthySince.Some? then r.unhealthySince.value else now),
                                 r.lastSuccessAt, Some(now), r.subjects)
  {
    CallReaches(cfg, s, c, subject, reason, now, saved);
    DependencyVerdict(s.proc.mem.caps, c, subject, reason, now, x);
  }

  /**
    A content failure condemns a healthy capability exactly when another subject had failed
    on it before, gives way to a standing dependency reason, and touches no other.
   */
  lemma AContentFailureCounts(cfg: Config, s: System, c: Capability, subject: string, reason: Reason,
                              now: Time, saved: bool, x: Capability)
    requires s.proc.Up? && !s.proc.mem.sealed && ContentReason(reason)
    ensures var s' := Step(cfg, s, FinishCall(c, subject, reason, now, saved));
            s'.proc.Up? &&
            var (r, r') := (Known(s.proc.mem.caps, x), Known(s'.proc.mem.caps, x));
            if x != c then r' == r
            else
              && (r'.healthy <==> r.healthy && (r.subjects == [] || r.subjects == [subject]))
              && r'.reason == (if !r.healthy && !ContentReason(r.reason) then r.reason else reason)
              && r'.unhealthySince == (if r.healthy && !r'.healthy then Some(now) else r.unhealthySince)
              && r'.lastFailureAt == Some(now) && r'.lastSuccessAt == r.lastSuccessAt
              && r'.subjects == LastEight(r.subjects, subject)
  {
    CallReaches(cfg, s, c, subject, reason, now, saved);
    ContentVerdict(s.proc.mem.caps, c, subject, reason, now, x);
    NotedFields(Known(s.proc.mem.caps, x), subject, reason, now);
  }

  // ---- What an outage records ----

  /** The fields of the record that belong to an episode and its root. */
  predicate SameEpisode(before: HealthRecord, after: HealthRecord) {
    && after.outageGeneration == before.outageGeneration && after.slackGeneration == before.slackGeneration
    && after.unhealthySince == before.unhealthySince && after.recoveredAt == before.recoveredAt
    && after.delivery == before.delivery && after.slackState == before.slackState && after.root == before.root
  }

  predicate Begun(before: HealthRecord, after: HealthRecord, now: Time) {
    && after.outageGeneration == before.outageGeneration + 1 && after.slackGeneration == before.slackGeneration + 1
    && after.unhealthySince == Some(now) && after.recoveredAt == None
    && after.delivery == NotStarted && after.slackState == None && after.root == NO_ROOT
  }

  predicate Ended(before: HealthRecord, after: HealthRecord, now: Time) {
    && after.outageGeneration == before.outageGeneration && after.slackGeneration == before.slackGeneration + 1
    && after.unhealthySince == before.unhealthySince && after.recoveredAt == Some(now)
    && after.slackState == before.slackState && after.root == before.root
    && (before.delivery == Delivered ==> after.delivery == RecoveryPending)
    && (before.delivery in {NotStarted, Pending, Indeterminate} ==> after.delivery == Suppressed)
    && (before.delivery in {RecoveryPending, Recovered, Suppressed} ==> after.delivery == before.delivery)
  }

  /** How an observation at `now` moves the record: by opening an outage, by closing one, or within one. */
  predicate Moved(before: HealthRecord, after: HealthRecord, now: Time) {
    && after.lateRoots == before.lateRoots
    && (if before.state == Healthy && after.state != Healthy then Begun(before, after, now)
        else if before.state != Healthy && after.state == Healthy then Ended(before, after, now)
        else SameEpisode(before, after))
  }

  /** A POST that is out when its outage closes is told so, and how long the outage lasted. */
  predicate PostsTold(before: Memory, after: Memory, now: Time) {
    var g := before.rec.slackGeneration;
    var since := before.rec.unhealthySince;
    after.posts == if before.rec.state != Healthy && after.rec.state == Healthy && g in before.posts
                   then before.posts[g := Outstanding(true, if since.Some? then now - since.value else 0)]
                   else before.posts
  }

  lemma RecomputeMovesRecord(m: Memory, now: Time)
    ensures var m' := Spec.Recompute(m, now);
            Moved(m.rec, m'.rec, now)
  {
  }

  lemma RecomputeTells(m: Memory, now: Time)
    ensures PostsTold(m, Spec.Recompute(m, now), now)
  {
  }

  lemma RecomputeMoves(m: Memory, now: Time)
    ensures var m' := Spec.Recompute(m, now);
            && Moved(m.rec, m'.rec, now) && PostsTold(m, m', now)
            && m' == m.(rec := m'.rec, posts := m'.posts)
            && m'.rec.lastProbeAt == m.rec.lastProbeAt && m'.rec.lastProbeOutcome == m.rec.lastProbeOutcome
            && m'.rec.lastRealCallAt == m.rec.lastRealCallAt && m'.rec.lastRealSuccessAt == m.rec.lastRealSuccessAt
  {
    RecomputeMovesRecord(m, now);
    RecomputeTells(m, now);
  }

  lemma FinishRecords(m: Memory, c: Capability, subject: string, reason: Reason, now: Time)
    requires !m.sealed && reason != Canceled && reason != BudgetDeferred
    ensures var m' := Spec.Finish(m, c, subject, reason, now);
            && m'.inFlight == m.inFlight - 1 && m'.idleSince == now && m'.activityGen == m.activityGen + 1
            && m'.rec.lastRealCallAt == Some(now)
            && m'.rec.lastRealSuccessAt == (if reason == ReasonOk then Some(now) else m.rec.lastRealSuccessAt)
  {
    var ended := m.(inFlight := m.inFlight - 1);
    SucceedsOnlyByOk(reason);
    Spec.FinishIs(m, ended, c, subject, reason, now);
    ObservedFields(ended, c, subject, reason, now);
    RecomputeMoves(Spec.Observed(ended, c, subject, reason, now), now);
  }

  lemma SucceedsOnlyByOk(reason: Reason)
    ensures ClassOf(reason) == ClassOk <==> reason == ReasonOk
    ensures ClassOf(reason) == ClassIgnored <==> reason == Canceled || reason == BudgetDeferred
  {
  }

  lemma ObservedFields(m: Memory, c: Capability, subject: string, reason: Reason, now: Time)
    ensures var m' := Spec.Observed(m, c, subject, reason, now);
            && m'.inFlight == m.inFlight && m'.idleSince == now && m'.activityGen == m.activityGen + 1
            && m'.rec.lastRealCallAt == Some(now)
            && m'.rec.lastRealSuccessAt
               == (if ClassOf(reason) == ClassOk then Some(now) else m.rec.lastRealSuccessAt)
  {
  }

  /** Every other call on an open tracker is an activity and a real call, and a real success if it succeeded. */
  lemma ACallIsRecorded(cfg: Config, s: System, c: Capability, subject: string, reason: Reason, now: Time, saved: bool)
    requires s.proc.Up? && !s.proc.mem.sealed && reason != Canceled && reason != BudgetDeferred
    ensures var s' := Step(cfg, s, FinishCall(c, subject, reason, now, saved));
            && s'.proc.Up?
            && s'.proc.mem.inFlight == s.proc.mem.inFlight - 1 && s'.proc.mem.idleSince == now
            && s'.proc.mem.activityGen == s.proc.mem.activityGen + 1
            && s'.proc.mem.rec.lastRealCallAt == Some(now)
            && s'.proc.mem.rec.lastRealSuccessAt
               == (if reason == ReasonOk then Some(now) else s.proc.mem.rec.lastRealSuccessAt)
            && (if saved then Stored(s'.disk, s'.proc.mem) else s'.disk == s.disk)
  {
    FinishRecords(s.proc.mem, c, subject, reason, now);
  }

  lemma FinishMoves(m: Memory, c: Capability, subject: string, reason: Reason, now: Time)
    ensures var m' := Spec.Finish(m, c, subject, reason, now);
            Moved(m.rec, m'.rec, now) && PostsTold(m, m', now)
  {
    if Spec.Recorded(m, reason) {
      var ended := m.(inFlight := m.inFlight - 1);
      Spec.FinishIs(m, ended, c, subject, reason, now);
      var observed := Spec.Observed(ended, c, subject, reason, now);
      RecomputeMoves(observed, now);
      MovedFrom(m, observed, Spec.Recompute(observed, now), now);
    }
  }

  /** Only the episode's fields decide how a record moves. */
  lemma MovedFrom(m: Memory, observed: Memory, after: Memory, now: Time)
    requires Moved(observed.rec, after.rec, now) && PostsTold(observed, after, now)
    requires SameEpisode(m.rec, observed.rec) && m.posts == observed.posts
    requires m.rec.state == observed.rec.state && m.rec.lateRoots == observed.rec.lateRoots
    ensures Moved(m.rec, after.rec, now) && PostsTold(m, after, now)
  {
  }

  /** A call that ends moves the episode of the record as the state it leaves demands. */
  lemma ACallMovesTheEpisode(cfg: Config, s: System, c: Capability, subject: string, reason: Reason,
                             now: Time, saved: bool)
    requires s.proc.Up?
    ensures var s' := Step(cfg, s, FinishCall(c, subject, reason, now, saved));
            s'.proc.Up? && Moved(s.proc.mem.rec, s'.proc.mem.rec, now) && PostsTold(s.proc.mem, s'.proc.mem, now)
  {
    FinishMoves(s.proc.mem, c, subject, reason, now);
  }

  /** A process that starts knows what the store holds and nothing else; no call is out, and it begins idle. */
  lemma ARestartReadsTheStore(cfg: Config, s: System, now: Time)
    requires s.proc.Down?
    ensures var s' := Step(cfg, s, Restart(now));
            && s'.disk == s.disk && s'.hist == s.hist && s'.proc.Up? && s'.proc.flight == Idle
            && s'.proc.mem.rec == s.disk.rec && s'.proc.mem.caps == s.disk.caps
            && s'.proc.mem.inFlight == 0 && s'.proc.mem.idleSince == now && s'.proc.mem.posts == map[]
            && !s'.proc.mem.sealed && !s'.proc.mem.probeUnsupported
  {
  }

  // ---- The probe ----

  /** After the seal a probe changes nothing at all. */
  lemma ASealedProbeIsIgnored(cfg: Config, s: System, outcome: ProbeOutcome, now: Time, saved: bool)
    requires s.proc.Up? && s.proc.mem.sealed
    ensures Step(cfg, s, ProbeReturns(outcome, now, saved)) == s
  {
  }

  /**
    A probe that returns records its time and its outcome and is not a real call; an
    answer of "unsupported" is remembered until a probe succeeds. It moves the episode of
    the record as the state it leaves demands.
   */
  lemma AProbeIsRecorded(cfg: Config, s: System, outcome: ProbeOutcome, now: Time, saved: bool)
    requires s.proc.Up? && s.proc.flight.Idle? && !s.proc.mem.sealed
    ensures var s' := Step(cfg, s, ProbeReturns(outcome, now, saved));
            s'.proc.Up? &&
            var (m, m') := (s.proc.mem, s'.proc.mem);
            && m'.rec.lastProbeAt == Some(now) && m'.rec.lastProbeOutcome == Some(outcome)
            && m'.rec.lastRealCallAt == m.rec.lastRealCallAt && m'.rec.lastRealSuccessAt == m.rec.lastRealSuccessAt
            && m'.inFlight == m.inFlight && m'.idleSince == m.idleSince && m'.activityGen == m.activityGen
            && (m'.probeUnsupported <==> outcome == ProbeUnsupported || (m.probeUnsupported && outcome.ProbeFailed?))
            && (if saved then Stored(s'.disk, m') else s'.disk == s.disk)
            && Moved(m.rec, m'.rec, now) && PostsTold(m, m', now)
  {
    RecomputeMoves(Spec.Probed(s.proc.mem, outcome, now), now);
  }

  lemma ProbeVerdictIs(caps: Caps, m: Memory, outcome: ProbeOutcome, now: Time, x: Capability)
    requires caps == m.caps
    ensures var (r, r') := (Known(caps, x), Known(Spec.ProbeVerdict(m, outcome, now), x));
            r' == if x == Probe && outcome == ProbeOk
                  then CapRecord(true, NoReason, None, Some(now), r.lastFailureAt, [])
                  else if x == Probe && outcome.ProbeFailed? && DependencyReason(outcome.reason)
                          && m.activityGen == m.probeReservedGen
                  then CapRecord(false, outcome.reason,
                                 Some(if r.unhealthySince.Some? then r.unhealthySince.value else now),
                                 r.lastSuccessAt, Some(now), r.subjects)
                  else r
  {
    if outcome.ProbeFailed? {
      MarkedUnhealthy(caps, Probe, outcome.reason, now, x);
    }
  }

  /** The events that count as activity of a client: a call that begins, and one whose end is observed. */
  predicate IsActivity(e: Event) {
    e.BeginCall? || (e.FinishCall? && e.reason != Canceled && e.reason != BudgetDeferred)
  }

  predicate OnlyCalls(events: seq<Event>) {
    forall e :: e in events ==> e.BeginCall? || e.FinishCall?
  }

  function Activities(events: seq<Event>): nat {
    if events == [] then 0 else (if IsActivity(events[0]) then 1 else 0) + Activities(events[1..])
  }

  lemma {:induction false} CallsCount(cfg: Config, s: System, calls: seq<Event>)
    requires s.proc.Up? && s.proc.flight.Idle? && !s.proc.mem.sealed && OnlyCalls(calls)
    ensures var s' := Run(cfg, s, calls);
            && s'.proc.Up? && s'.proc.flight.Idle? && !s'.proc.mem.sealed
            && s'.proc.mem.activityGen == s.proc.mem.activityGen + Activities(calls)
            && s'.proc.mem.probeReservedGen == s.proc.mem.probeReservedGen
    decreases |calls|
  {
    if calls == [] {
    } else {
      ActivityCounts(cfg, s, calls[0]);
      CallsCount(cfg, Step(cfg, s, calls[0]), calls[1..]);
    }
  }

  lemma ActivityCounts(cfg: Config, s: System, e: Event)
    requires s.proc.Up? && !s.proc.mem.sealed && (e.BeginCall? || e.FinishCall?)
    ensures var s' := Step(cfg, s, e);
            && s'.proc.Up? && s'.proc.flight == s.proc.flight && !s'.proc.mem.sealed
            && s'.proc.mem.activityGen == s.proc.mem.activityGen + (if IsActivity(e) then 1 else 0)
            && s'.proc.mem.probeReservedGen == s.proc.mem.probeReservedGen
  {
    var m := s.proc.mem;
    if e.FinishCall? && Spec.Recorded(m, e.reason) {
      var ended := m.(inFlight := m.inFlight - 1);
      Spec.FinishIs(m, ended, e.capability, e.subject, e.reason, e.now);
      RecomputeMoves(Spec.Observed(ended, e.capability, e.subject, e.reason, e.now), e.now);
    }
  }

  /**
    A probe's failure is believed exactly when it is a dependency failure and no call began
    or was observed to end since the probe was decided; its success is always believed, and
    neither touches another capability.
   */
  lemma AProbeIsBelievedExactlyWhen(cfg: Config, s: System, calls: seq<Event>, outcome: ProbeOutcome,
                                    now: Time, saved: bool, x: Capability)
    requires s.proc.Up? && s.proc.flight.Idle? && !s.proc.mem.sealed && OnlyCalls(calls)
    ensures var raced := Run(cfg, Step(cfg, s, DecideProbe), calls);
            var s' := Step(cfg, raced, ProbeReturns(outcome, now, saved));
            raced.proc.Up? && s'.proc.Up? &&
            var (r, r') := (Known(raced.proc.mem.caps, x), Known(s'.proc.mem.caps, x));
            r' == if x == Probe && outcome == ProbeOk
                  then CapRecord(true, NoReason, None, Some(now), r.lastFailureAt, [])
                  else if x == Probe && outcome.ProbeFailed? && DependencyReason(outcome.reason)
                          && Activities(calls) == 0
                  then CapRecord(false, outcome.reason,
                                 Some(if r.unhealthySince.Some? then r.unhealthySince.value else now),
                                 r.lastSuccessAt, Some(now), r.subjects)
                  else r
  {
    CallsCount(cfg, Step(cfg, s, DecideProbe), calls);
    var raced := Run(cfg, Step(cfg, s, DecideProbe), calls);
    ProbeVerdictRollsUp(raced.proc.mem, outcome, now);
    ProbeVerdictIs(raced.proc.mem.caps, raced.proc.mem, outcome, now, x);
  }

  // ---- When a probe is due ----

  /** What decides about the next probe, as an onlooker counts it from the events alone. */
  datatype Watch = Watch(calls: int, idleSince: Time, lastProbe: Option<Time>, unsupported: bool)

  /** `free`: the runner is not waiting for Slack, so a probe can return. */
  function Watched(w: Watch, e: Event, free: bool): Watch {
    match e
    case BeginCall => w.(calls := w.calls + 1)
    case FinishCall(_, _, reason, now, _) =>
      w.(calls := w.calls - 1, idleSince := if reason == Canceled || reason == BudgetDeferred then w.idleSince else now)
    case ProbeReturns(outcome, now, _) =>
      if !free then w
      else w.(lastProbe := Some(now),
              unsupported := outcome == ProbeUnsupported || (w.unsupported && outcome.ProbeFailed?))
    case _ => w
  }

  /** The process neither dies nor is sealed. */
  predicate Lives(events: seq<Event>) {
    forall e :: e in events ==> !e.Crash? && !e.Restart? && !e.SealTracker?
  }

  function WatchedRun(cfg: Config, s: System, w: Watch, events: seq<Event>): Watch
    decreases |events|
  {
    if events == [] then w
    else WatchedRun(cfg, Step(cfg, s, events[0]), Watched(w, events[0], s.proc.Up? && s.proc.flight.Idle?), events[1..])
  }

  predicate Matches(s: System, w: Watch) {
    && s.proc.Up? && !s.proc.mem.sealed
    && s.proc.mem.inFlight == w.calls && s.proc.mem.idleSince == w.idleSince
    && s.proc.mem.rec.lastProbeAt == w.lastProbe && s.proc.mem.probeUnsupported == w.unsupported
    && (w.unsupported ==> w.lastProbe.Some?)
  }

  lemma StepIsWatched(cfg: Config, s: System, w: Watch, e: Event)
    requires Matches(s, w) && !e.Crash? && !e.Restart? && !e.SealTracker?
    ensures Matches(Step(cfg, s, e), Watched(w, e, s.proc.flight.Idle?))
  {
    var m := s.proc.mem;
    match e
    case FinishCall(c, subject, reason, now, saved) =>
      if Spec.Recorded(m, reason) {
        var ended := m.(inFlight := m.inFlight - 1);
        Spec.FinishIs(m, ended, c, subject, reason, now);
        RecomputeMoves(Spec.Observed(ended, c, subject, reason, now), now);
      }
    case ProbeReturns(outcome, now, saved) =>
      if s.proc.flight.Idle? {
        AProbeIsRecorded(cfg, s, outcome, now, saved);
        RecomputeMoves(Spec.Probed(m, outcome, now), now);
      }
    case _ =>
  }

  lemma {:induction false} RunIsWatched(cfg: Config, s: System, w: Watch, events: seq<Event>)
    requires Matches(s, w) && Lives(events)
    ensures Matches(Run(cfg, s, events), WatchedRun(cfg, s, w, events))
    decreases |events|
  {
    if events == [] {
    } else {
      StepIsWatched(cfg, s, w, events[0]);
      RunIsWatched(cfg, Step(cfg, s, events[0]), Watched(w, events[0], s.proc.flight.Idle?), events[1..]);
    }
  }

  /**
    A probe is due exactly when as many calls ended as began since the process started,
    none was observed to end within the idle period, and the last probe was a minute ago,
    or an hour ago if the last word of the probes was that they are unsupported. So no probe
    starts during a call, and a process left alone probes in the end.
   */
  lemma AProbeIsDueExactlyWhen(cfg: Config, s: System, start: Time, events: seq<Event>, now: Time)
    requires s.proc.Down? && Lives(events)
    ensures var up := Step(cfg, s, Restart(start));
            var w := WatchedRun(cfg, up, Watch(0, start, s.disk.rec.lastProbeAt, false), events);
            var s' := Run(cfg, up, events);
            s'.proc.Up? &&
            (Spec.ProbeDue(cfg, s'.proc.mem, now) <==>
              && w.calls <= 0 && now >= w.idleSince + cfg.idleAfter
              && (w.lastProbe.Some? ==>
                    now >= w.lastProbe.value + (if w.unsupported then 3_600_000_000_000 else 60_000_000_000)))
  {
    var up := Step(cfg, s, Restart(start));
    RunIsWatched(cfg, up, Watch(0, start, s.disk.rec.lastProbeAt, false), events);
  }
}
