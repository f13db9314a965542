/**
  The rolled-up state always is what the capability records roll up to, in memory and
  in the store, through crashes, restarts and failed writes. So it can be said before an
  event, from the present state alone, whether that event begins an outage.
 */
module RollUp {
  import opened Option
  import opened Health
  import opened SlackSystem
  import Spec = TrackerSpec

  /** The roll-up names an unhealthy capability of the order, and none only if there is none. */
  lemma {:induction false} FirstUnhealthyIs(caps: Caps, order: seq<Capability>)
    ensures match Spec.FirstUnhealthy(caps, order)
            case Some(c) => c in order && Spec.Unhealthy(caps, c)
            case None => forall c :: c in order ==> !Spec.Unhealthy(caps, c)
  {
    if order == [] {
    } else {
      FirstUnhealthyIs(caps, order[1..]);
    }
  }

  predicate RolledUp(rec: HealthRecord, caps: Caps) {
    Spec.Aggregate(caps) == (rec.state, rec.reason)
  }

  lemma HealthyExactlyWhen(rec: HealthRecord, caps: Caps)
    requires RolledUp(rec, caps)
    ensures rec.state == Healthy <==> forall c :: c in ROLL_UP_ORDER ==> !Spec.Unhealthy(caps, c)
  {
    FirstUnhealthyIs(caps, ROLL_UP_ORDER);
  }

  // ---- The invariant ----

  /** Record and capabilities agree in both places, and memory has every capability the store has. */
  predicate AllRolledUp(s: System) {
    && RolledUp(s.disk.rec, s.disk.caps)
    && (s.proc.Up? ==> RolledUp(s.proc.mem.rec, s.proc.mem.caps) && s.disk.caps.Keys <= s.proc.mem.caps.Keys)
  }

  lemma RecomputeRollsUp(m: Memory, now: Time)
    ensures var m' := Spec.Recompute(m, now);
            m'.caps == m.caps && m'.sealed == m.sealed && RolledUp(m'.rec, m'.caps)
  {
  }

  /** A write replaces the stored capabilities by those in memory. */
  lemma SavedCaps(d: Durable, m: Memory)
    requires d.caps.Keys <= m.caps.Keys
    ensures Spec.Save(d, m, true) == Durable(m.rec, m.caps)
  {
    assert d.caps + m.caps == m.caps;
  }

  /** An observation that keeps its memory rolled up keeps the system so, saved or not. */
  lemma ObservationKeeps(s: System, mem: Memory, now: Time, saved: bool)
    requires AllRolledUp(s) && s.proc.Up?
    requires RolledUp(mem.rec, mem.caps) && s.proc.mem.caps.Keys <= mem.caps.Keys
    ensures AllRolledUp(Observe(s, mem, now, saved))
  {
    SavedCaps(s.disk, mem);
  }

  lemma ObserveCallKeepsKeys(caps: Caps, c: Capability, subject: string, reason: Reason, now: Time)
    ensures caps.Keys <= Spec.ObserveCall(caps, c, subject, reason, now).Keys
  {
  }

  /** A recorded call leaves the roll-up of what it did to the capabilities. */
  lemma CallVerdict(m: Memory, c: Capability, subject: string, reason: Reason, now: Time)
    requires Spec.Recorded(m, reason)
    ensures var m' := Spec.Finish(m, c, subject, reason, now);
            && m'.caps == Spec.ObserveCall(m.caps, c, subject, reason, now) && m'.sealed == m.sealed
            && RolledUp(m'.rec, m'.caps)
  {
    var ended := m.(inFlight := m.inFlight - 1);
    Spec.FinishIs(m, ended, c, subject, reason, now);
    RecomputeRollsUp(Spec.Observed(ended, c, subject, reason, now), now);
  }

  lemma FinishRollsUp(m: Memory, c: Capability, subject: string, reason: Reason, now: Time)
    requires RolledUp(m.rec, m.caps)
    ensures var m' := Spec.Finish(m, c, subject, reason, now);
            RolledUp(m'.rec, m'.caps) && m.caps.Keys <= m'.caps.Keys
  {
    if Spec.Recorded(m, reason) {
      CallVerdict(m, c, subject, reason, now);
      ObserveCallKeepsKeys(m.caps, c, subject, reason, now);
    }
  }

  /** A probe on an open tracker leaves the roll-up of its own verdict. */
  lemma ProbeVerdictRollsUp(m: Memory, outcome: ProbeOutcome, now: Time)
    requires !m.sealed
    ensures var m' := Spec.ObserveProbe(m, outcome, now);
            && m'.caps == Spec.ProbeVerdict(m, outcome, now) && m'.sealed == m.sealed
            && RolledUp(m'.rec, m'.caps) && m.caps.Keys <= m'.caps.Keys
  {
    RecomputeRollsUp(Spec.Probed(m, outcome, now), now);
  }

  lemma ProbeRollsUp(m: Memory, outcome: ProbeOutcome, now: Time)
    requires RolledUp(m.rec, m.caps)
    ensures var m' := Spec.ObserveProbe(m, outcome, now);
            RolledUp(m'.rec, m'.caps) && m.caps.Keys <= m'.caps.Keys
  {
    if !m.sealed {
      ProbeVerdictRollsUp(m, outcome, now);
    }
  }

  lemma ResultKeepsVerdict(m: Memory, plan: Plan, result: CallResult)
    requires !plan.NoPlan?
    ensures var m' := Spec.ApplyResult(m, plan, result);
            m'.caps == m.caps && m'.rec.state == m.rec.state && m'.rec.reason == m.rec.reason
  {
  }

  lemma PlanKeepsVerdict(cfg: Config, m: Memory, now: Time, saved: bool)
    ensures var m' := Spec.PlanDelivery(cfg, m, now, saved).0;
            m'.caps == m.caps && m'.rec.state == m.rec.state && m'.rec.reason == m.rec.reason
  {
  }

  lemma StepKeepsRolledUp(cfg: Config, s: System, e: Event)
    requires AllRolledUp(s)
    ensures AllRolledUp(Step(cfg, s, e))
  {
    if s.proc.Up? {
      match e
      case FinishCall(c, subject, reason, now, saved) =>
        FinishRollsUp(s.proc.mem, c, subject, reason, now);
        ObservationKeeps(s, Spec.Finish(s.proc.mem, c, subject, reason, now), now,
                         saved && Spec.Recorded(s.proc.mem, reason));
      case ProbeReturns(outcome, now, saved) =>
        ProbeRollsUp(s.proc.mem, outcome, now);
        ObservationKeeps(s, Spec.ObserveProbe(s.proc.mem, outcome, now), now, saved && !s.proc.mem.sealed);
      case PlanCall(now, saved) =>
        PlanKeepsVerdict(cfg, s.proc.mem, now, saved);
        SavedCaps(s.disk, Spec.PlanDelivery(cfg, s.proc.mem, now, saved).0);
      case CallReturns(result, saved) =>
        if CanReturn(s, result) {
          ResultKeepsVerdict(s.proc.mem, s.proc.flight.plan, result);
          SavedCaps(s.disk, Spec.ApplyResult(s.proc.mem, s.proc.flight.plan, result));
        }
      case LateEditsReturn(outcomes, saved) =>
        SavedCaps(s.disk, Step(cfg, s, LateEditsReturn(outcomes, true)).proc.mem);
      case _ =>
    }
  }

  /** Through every run, whatever crashes and whichever writes fail. */
  lemma {:induction false} RunKeepsRolledUp(cfg: Config, s: System, events: seq<Event>)
    requires AllRolledUp(s)
    ensures AllRolledUp(Run(cfg, s, events))
    decreases |events|
  {
    if events == [] {
    } else {
      StepKeepsRolledUp(cfg, s, events[0]);
      RunKeepsRolledUp(cfg, Step(cfg, s, events[0]), events[1..]);
    }
  }

  lemma EveryRunIsRolledUp(cfg: Config, events: seq<Event>)
    ensures AllRolledUp(Run(cfg, INITIAL, events))
  {
    FirstUnhealthyIs(map[], ROLL_UP_ORDER);
    RunKeepsRolledUp(cfg, INITIAL, events);
  }

  // ---- Which events begin an outage ----

  /** A failure that condemns a healthy capability: dependency-class, or the second subject's content. */
  predicate Condemns(caps: Caps, c: Capability, subject: string, reason: Reason) {
    || ClassOf(reason) == ClassDependency
    || (ClassOf(reason) == ClassContent && |Spec.AddSubject(Spec.Get(caps, c).subjects, subject)| >= 2)
  }

  /**
    The event begins an outage: on a healthy, open tracker, a call of a rolled-up
    capability fails so as to condemn it, or a probe that no call has raced fails.
   */
  predicate BeginsOutage(s: System, e: Event)
    requires s.proc.Up?
  {
    var m := s.proc.mem;
    && m.rec.state == Healthy && !m.sealed
    && match e
       case FinishCall(c, subject, reason, _, _) => c in ROLL_UP_ORDER && Condemns(m.caps, c, subject, reason)
       case ProbeReturns(outcome, _, _) =>
         && s.proc.flight.Idle? && m.activityGen == m.probeReservedGen
         && outcome.ProbeFailed? && ClassOf(outcome.reason) == ClassDependency
       case _ => false
  }

  lemma ClearingCondemnsNobody(caps: Caps, c: Capability, x: Capability)
    requires !Spec.Unhealthy(caps, x)
    ensures !Spec.Unhealthy(Spec.ClearShared(caps, c), x)
  {
  }

  /** A call leaves a healthy capability unhealthy exactly when it condemns it. */
  lemma CallCondemns(caps: Caps, c: Capability, subject: string, reason: Reason, now: Time)
    requires !Spec.Unhealthy(caps, c)
    ensures Spec.Unhealthy(Spec.ObserveCall(caps, c, subject, reason, now), c) <==> Condemns(caps, c, subject, reason)
  {
    if ClassOf(reason) == ClassOk {
      ClearingCondemnsNobody(Spec.MarkHealthy(caps, c, now), c, c);
    }
  }

  /** A call condemns no other capability. */
  lemma CallSpares(caps: Caps, c: Capability, subject: string, reason: Reason, now: Time, x: Capability)
    requires !Spec.Unhealthy(caps, x) && x != c
    ensures !Spec.Unhealthy(Spec.ObserveCall(caps, c, subject, reason, now), x)
  {
    if ClassOf(reason) == ClassOk {
      ClearingCondemnsNobody(Spec.MarkHealthy(caps, c, now), c, x);
    }
  }

  lemma CallBeginsExactlyWhen(m: Memory, c: Capability, subject: string, reason: Reason, now: Time)
    requires RolledUp(m.rec, m.caps) && m.rec.state == Healthy
    ensures Spec.Finish(m, c, subject, reason, now).rec.state != Healthy <==>
            !m.sealed && c in ROLL_UP_ORDER && Condemns(m.caps, c, subject, reason)
  {
    HealthyExactlyWhen(m.rec, m.caps);
    if Spec.Recorded(m, reason) {
      CallVerdict(m, c, subject, reason, now);
      var m' := Spec.Finish(m, c, subject, reason, now);
      HealthyExactlyWhen(m'.rec, m'.caps);
      forall x | x in ROLL_UP_ORDER
        ensures Spec.Unhealthy(m'.caps, x) <==> x == c && Condemns(m.caps, c, subject, reason)
      {
        if x == c {
          CallCondemns(m.caps, c, subject, reason, now);
        } else {
          CallSpares(m.caps, c, subject, reason, now, x);
        }
      }
    }
  }

  lemma ProbeBeginsExactlyWhen(m: Memory, outcome: ProbeOutcome, now: Time)
    requires RolledUp(m.rec, m.caps) && m.rec.state == Healthy
    ensures Spec.ObserveProbe(m, outcome, now).rec.state != Healthy <==>
            && !m.sealed && m.activityGen == m.probeReservedGen
            && outcome.ProbeFailed? && ClassOf(outcome.reason) == ClassDependency
  {
    HealthyExactlyWhen(m.rec, m.caps);
    if !m.sealed {
      ProbeVerdictRollsUp(m, outcome, now);
      var m' := Spec.ObserveProbe(m, outcome, now);
      HealthyExactlyWhen(m'.rec, m'.caps);
      assert Probe in ROLL_UP_ORDER;
    }
  }

  /** An event begins an outage exactly when BeginsOutage says so before it. */
  lemma OutageBeginsExactlyWhen(cfg: Config, s: System, e: Event)
    requires AllRolledUp(s) && s.proc.Up? && !e.Crash?
    ensures var s' := Step(cfg, s, e);
            s'.proc.Up? && (Opens(s.proc.mem.rec, s'.proc.mem.rec) <==> BeginsOutage(s, e))
  {
    var m := s.proc.mem;
    match e
    case FinishCall(c, subject, reason, now, saved) =>
      if m.rec.state == Healthy {
        CallBeginsExactlyWhen(m, c, subject, reason, now);
      }
    case ProbeReturns(outcome, now, saved) =>
      if m.rec.state == Healthy {
        ProbeBeginsExactlyWhen(m, outcome, now);
      }
    case PlanCall(now, saved) =>
      PlanKeepsVerdict(cfg, m, now, saved);
    case CallReturns(result, saved) =>
      if CanReturn(s, result) {
        ResultKeepsVerdict(m, s.proc.flight.plan, result);
      }
    case _ =>
  }
}
