/**
  The tracker of internal/llmhealth as an object: every method updates its fields
  in place and is proved equal to the corresponding function of TrackerSpec.
  The outcome of a store write is the argument `saved`, the clock is `now`, and
  an HTTP call is split into the method before it and the method after it.
 */
module Tracker {
  import opened Option
  import opened Health
  import Late = LateRoots
  import Spec = TrackerSpec

  class HealthStore {
    var doc: Durable

    constructor (doc: Durable)
      ensures this.doc == doc
    {
      this.doc := doc;
    }

    /** SaveLLMHealth: one transaction that either commits or leaves both tables alone. */
    method Save(rec: HealthRecord, caps: Caps, saved: bool)
      modifies this
      ensures doc == if saved then Durable(rec, old(doc).caps + caps) else old(doc)
    {
      if saved {
        doc := Durable(rec, doc.caps + caps);
      }
    }
  }

  /** One in-flight LLM call. */
  class Observation {
    const capability: Capability
    const subject: string
    var done: bool

    constructor (capability: Capability, subject: string, done: bool)
      ensures this.capability == capability && this.subject == subject && this.done == done
    {
      this.capability := capability;
      this.subject := subject;
      this.done := done;
    }
  }

  class Tracker {
    const cfg: Config
    const st: HealthStore
    var rec: HealthRecord
    var caps: Caps
    var inFlight: int
    var idleSince: Time
    var sealed: bool
    var probeUnsupported: bool
    var activityGen: int
    var probeReservedGen: int
    var outstandingPosts: map<int, Outstanding>

    ghost function Mem(): Memory
      reads this
    {
      Memory(rec, caps, inFlight, idleSince, sealed, probeUnsupported, activityGen, probeReservedGen,
             outstandingPosts)
    }

    constructor New(cfg: Config, st: HealthStore, now: Time)
      ensures this.cfg == cfg && this.st == st
      ensures Mem() == Spec.Load(st.doc, now)
    {
      this.cfg := cfg;
      this.st := st;
      rec, caps := st.doc.rec, st.doc.caps;
      inFlight, idleSince := 0, now;
      sealed, probeUnsupported := false, false;
      activityGen, probeReservedGen := 0, 0;
      outstandingPosts := map[];
    }

    // ---- Observations ----

    method Seal()
      modifies this`sealed
      ensures Mem() == old(Mem()).(sealed := true)
    {
      sealed := true;
    }

    method Begin(capability: Capability, subject: string) returns (o: Observation)
      modifies this`inFlight, this`activityGen
      ensures Mem() == Spec.Begin(old(Mem()))
      ensures fresh(o) && o.capability == capability && o.subject == subject && o.done == old(sealed)
    {
      if sealed {
        o := new Observation(capability, subject, true);
        return;
      }
      inFlight := inFlight + 1;
      activityGen := activityGen + 1;
      o := new Observation(capability, subject, false);
    }

    /** Ends one observation; a second call, and a call begun after the seal, do nothing. */
    method Finish(o: Observation, reason: Reason, now: Time, saved: bool)
      modifies this, st, o
      ensures o.done
      ensures old(o.done) ==> Mem() == old(Mem()) && st.doc == old(st.doc)
      ensures !old(o.done) ==> Mem() == Spec.Finish(old(Mem()), o.capability, o.subject, reason, now)
      ensures !old(o.done) ==>
                st.doc == Spec.Save(old(st.doc), Mem(), saved && Spec.Recorded(old(Mem()), reason))
    {
      if o.done {
        return;
      }
      o.done := true;
      FinishCall(o.capability, o.subject, reason, now, saved);
    }

    method FinishCall(c: Capability, subject: string, reason: Reason, now: Time, saved: bool)
      modifies this, st
      ensures Mem() == Spec.Finish(old(Mem()), c, subject, reason, now)
      ensures st.doc == Spec.Save(old(st.doc), Mem(), saved && Spec.Recorded(old(Mem()), reason))
    {
      inFlight := inFlight - 1;
      ghost var ended := Mem();
      if sealed || ClassOf(reason) == ClassIgnored {
        return;
      }
      Spec.FinishIs(old(Mem()), ended, c, subject, reason, now);
      RecordAndRecompute(c, subject, reason, now, saved);
    }

    /** What finish does with a reason that counts. */
    method RecordAndRecompute(c: Capability, subject: string, reason: Reason, now: Time, saved: bool)
      requires ClassOf(reason) != ClassIgnored
      modifies this, st
      ensures Mem() == Spec.Rolled(old(Mem()), c, subject, reason, now)
      ensures st.doc == Spec.Save(old(st.doc), Mem(), saved)
    {
      RecordCall(c, subject, reason, now);
      RecomputeAndPersist(now, saved);
    }

    method RecordCall(c: Capability, subject: string, reason: Reason, now: Time)
      requires ClassOf(reason) != ClassIgnored
      modifies this
      ensures Mem() == Spec.Observed(old(Mem()), c, subject, reason, now)
    {
      StampCall(reason, now);
      ObserveCall(c, subject, reason, now);
    }

    /** The clocks of one recorded call. */
    method StampCall(reason: Reason, now: Time)
      modifies this`idleSince, this`activityGen, this`rec
      ensures idleSince == now && activityGen == old(activityGen) + 1
      ensures rec == old(rec).(lastRealCallAt := Some(now),
                               lastRealSuccessAt := if ClassOf(reason) == ClassOk then Some(now)
                                                    else old(rec).lastRealSuccessAt)
    {
      idleSince := now;
      activityGen := activityGen + 1;
      rec := rec.(lastRealCallAt := Some(now));
      if ClassOf(reason) == ClassOk {
        rec := rec.(lastRealSuccessAt := Some(now));
      }
    }

    method ObserveProbe(outcome: ProbeOutcome, now: Time, saved: bool)
      modifies this, st
      ensures Mem() == Spec.ObserveProbe(old(Mem()), outcome, now)
      ensures st.doc == Spec.Save(old(st.doc), Mem(), saved && !old(sealed))
    {
      if sealed {
        return;
      }
      rec := rec.(lastProbeAt := Some(now), lastProbeOutcome := Some(outcome));
      match outcome {
        case ProbeOk =>
          probeUnsupported := false;
          MarkCapabilityHealthy(Probe, now);
        case ProbeUnsupported =>
          probeUnsupported := true;
        case ProbeFailed(reason) =>
          if activityGen == probeReservedGen && ClassOf(reason) == ClassDependency {
            MarkCapabilityUnhealthy(Probe, reason, now);
          }
      }
      RecomputeAndPersist(now, saved);
    }

    method ProbeDue(now: Time) returns (due: bool)
      modifies this`probeReservedGen
      ensures Mem() == old(Mem()).(probeReservedGen := activityGen)
      ensures due == Spec.ProbeDue(cfg, Mem(), now)
    {
      probeReservedGen := activityGen;
      if inFlight > 0 {
        return false;
      }
      if probeUnsupported && (rec.lastProbeAt == None || now - rec.lastProbeAt.value < Spec.UNSUPPORTED_RECHECK) {
        return false;
      }
      if now - idleSince < cfg.idleAfter {
        return false;
      }
      if rec.lastProbeAt != None && now - rec.lastProbeAt.value < Spec.MIN_PROBE_INTERVAL {
        return false;
      }
      return true;
    }

    // ---- Capability verdicts ----

    method ObserveCall(c: Capability, subject: string, reason: Reason, now: Time)
      modifies this`caps
      ensures caps == Spec.ObserveCall(old(caps), c, subject, reason, now)
    {
      match ClassOf(reason) {
        case ClassOk =>
          MarkCapabilityHealthy(c, now);
          if c in SHARED_PRIMARY {
            ClearSharedDependencyFailures(c);
          }
        case ClassDependency =>
          MarkCapabilityUnhealthy(c, reason, now);
        case ClassContent =>
          RecordContentFailure(c, subject, reason, now);
        case ClassIgnored =>
      }
    }

    method MarkCapabilityHealthy(c: Capability, now: Time)
      modifies this`caps
      ensures caps == Spec.MarkHealthy(old(caps), c, now)
    {
      var r := if c in caps then caps[c] else FRESH_CAPABILITY;
      r := r.(healthy := true, reason := NoReason, unhealthySince := None);
      r := r.(subjects := [], lastSuccessAt := Some(now));
      caps := caps[c := r];
    }

    method MarkCapabilityUnhealthy(c: Capability, reason: Reason, now: Time)
      modifies this`caps
      ensures caps == Spec.MarkUnhealthy(old(caps), c, reason, now)
    {
      var r := if c in caps then caps[c] else FRESH_CAPABILITY;
      r := r.(healthy := false, reason := reason, lastFailureAt := Some(now));
      if r.unhealthySince == None {
        r := r.(unhealthySince := Some(now));
      }
      caps := caps[c := r];
    }

    /** Adds a subject not yet listed, keeping the most recent eight. */
    static method AddSubject(listed: seq<string>, subject: string) returns (subjects: seq<string>)
      ensures subjects == Spec.AddSubject(listed, subject)
    {
      subjects := listed;
      for i := 0 to |subjects|
        invariant subject !in subjects[..i]
      {
        if subjects[i] == subject {
          return;
        }
      }
      assert subjects[..|subjects|] == subjects;
      subjects := subjects + [subject];
      if |subjects| > Spec.MAX_SUBJECTS {
        subjects := subjects[|subjects| - Spec.MAX_SUBJECTS..];
      }
    }

    method RecordContentFailure(c: Capability, subject: string, reason: Reason, now: Time)
      modifies this`caps
      ensures caps == Spec.RecordContent(old(caps), c, subject, reason, now)
    {
      var before := if c in caps then caps[c] else FRESH_CAPABILITY;
      var r := Noted(before, subject, reason, now);
      caps := caps[c := r];
    }

    static method Noted(before: CapRecord, subject: string, reason: Reason, now: Time) returns (r: CapRecord)
      ensures r == Spec.Noted(before, subject, reason, now)
    {
      r := before.(lastFailureAt := Some(now));
      if r.healthy || ClassOf(r.reason) == ClassContent {
        r := r.(reason := reason);
      }
      var subjects := AddSubject(r.subjects, subject);
      r := r.(subjects := subjects);
      if |subjects| >= 2 && r.healthy {
        r := r.(healthy := false, unhealthySince := Some(now));
      }
    }

    method ClearSharedDependencyFailures(succeeded: Capability)
      modifies this`caps
      ensures caps == Spec.ClearShared(old(caps), succeeded)
    {
      var receivers := Spec.RECEIVERS;
      ghost var before := caps;
      for i := 0 to |receivers|
        invariant caps == Spec.ClearAmong(before, succeeded, receivers[..i])
      {
        ClearOne(before, succeeded, receivers[..i], receivers[i]);
        assert receivers[..i + 1] == receivers[..i] + [receivers[i]];
      }
      assert receivers[..|receivers|] == receivers;
    }

    method ClearOne(ghost before: Caps, succeeded: Capability, ghost done: seq<Capability>, c: Capability)
      requires caps == Spec.ClearAmong(before, succeeded, done)
      modifies this`caps
      ensures caps == Spec.ClearAmong(before, succeeded, done + [c])
    {
      Spec.ClearAmongNext(before, succeeded, done, c);
      if c == succeeded || c !in caps || caps[c].healthy || ClassOf(caps[c].reason) != ClassDependency {
        return;
      }
      caps := caps[c := caps[c].(healthy := true, reason := NoReason, unhealthySince := None)];
    }

    // ---- Roll-up ----

    method Aggregate() returns (state: State, reason: Reason)
      ensures (state, reason) == Spec.Aggregate(caps)
    {
      var order := ROLL_UP_ORDER;
      for i := 0 to |order|
        invariant Spec.FirstUnhealthy(caps, order) == Spec.FirstUnhealthy(caps, order[i..])
      {
        var c := order[i];
        if c !in caps || caps[c].healthy {
          continue;
        }
        state := Degraded;
        if c == TriageDraft || c == Assessment || c == Probe {
          state := Unavailable;
        }
        return state, caps[c].reason;
      }
      return Healthy, NoReason;
    }

    method Recompute(now: Time)
      modifies this`rec, this`outstandingPosts
      ensures Mem() == Spec.Recompute(old(Mem()), now)
    {
      var newState, reason := Aggregate();
      var oldState := rec.state;
      if newState == oldState {
        rec := rec.(reason := reason);
        return;
      }
      if oldState == Healthy {
        BeginEpisode(newState, reason, now);
      } else if newState == Healthy {
        CloseEpisode(now);
      } else {
        rec := rec.(state := newState, reason := reason);
      }
    }

    /** The healthy-to-unhealthy branch of recompute. */
    method BeginEpisode(state: State, reason: Reason, now: Time)
      modifies this`rec
      ensures rec == Spec.BeginEpisode(old(rec), state, reason, now)
    {
      rec := rec.(outageGeneration := rec.outageGeneration + 1);
      rec := rec.(unhealthySince := Some(now), recoveredAt := None);
      rec := rec.(delivery := NotStarted, root := NO_ROOT, slackState := None);
      rec := rec.(slackGeneration := rec.slackGeneration + 1);
      rec := rec.(state := state, reason := reason);
    }

    /** The recovery branch of recompute: a POST still out learns that its episode closed. */
    method CloseEpisode(now: Time)
      modifies this`rec, this`outstandingPosts
      ensures rec == Spec.CloseEpisode(old(rec), now)
      ensures outstandingPosts ==
              Spec.ClosePost(old(outstandingPosts), old(rec).slackGeneration, Spec.DownFor(old(rec), now))
    {
      rec := rec.(recoveredAt := Some(now));
      var downFor := 0;
      if rec.unhealthySince != None {
        downFor := now - rec.unhealthySince.value;
      }
      if rec.slackGeneration in outstandingPosts {
        outstandingPosts := outstandingPosts[rec.slackGeneration := Outstanding(true, downFor)];
      }
      rec := rec.(slackGeneration := rec.slackGeneration + 1);
      rec := rec.(state := Healthy, reason := NoReason);
      match rec.delivery {
        case Delivered => rec := rec.(delivery := RecoveryPending);
        case NotStarted | Pending | Indeterminate => rec := rec.(delivery := Suppressed);
        case _ =>
      }
    }

    method RecomputeAndPersist(now: Time, saved: bool)
      modifies this`rec, this`outstandingPosts, st
      ensures Mem() == Spec.Recompute(old(Mem()), now)
      ensures st.doc == Spec.Save(old(st.doc), Mem(), saved)
    {
      Recompute(now);
      st.Save(rec, caps, saved);
    }

    // ---- Slack delivery ----

    method PlanDelivery(now: Time, saved: bool) returns (plan: Plan)
      modifies this`rec, this`outstandingPosts, st
      ensures (Mem(), plan) == Spec.PlanDelivery(cfg, old(Mem()), now, saved)
      ensures st.doc == Spec.Save(old(st.doc), Mem(), plan.Post?)
    {
      var gen := rec.slackGeneration;
      if rec.state != Healthy && (rec.delivery == NotStarted || rec.delivery == Pending) {
        if rec.unhealthySince == None || now - rec.unhealthySince.value < cfg.broadcastAfter {
          return NoPlan;
        }
        var prev := rec.delivery;
        rec := rec.(delivery := Indeterminate);
        st.Save(rec, caps, saved);
        if !saved {
          rec := rec.(delivery := prev);
          return NoPlan;
        }
        outstandingPosts := outstandingPosts[gen := Outstanding(false, 0)];
        return Post(gen, rec.state, now - rec.unhealthySince.value);
      }
      if rec.state != Healthy && rec.delivery == Delivered && rec.slackState != Some(rec.state) {
        var down := 0;
        if rec.unhealthySince != None {
          down := now - rec.unhealthySince.value;
        }
        return UpdateState(gen, rec.state, down, rec.root);
      }
      if rec.state == Healthy && rec.delivery == RecoveryPending {
        var down := 0;
        if rec.recoveredAt != None && rec.unhealthySince != None {
          down := rec.recoveredAt.value - rec.unhealthySince.value;
        }
        return UpdateRecovery(gen, down, rec.root);
      }
      return NoPlan;
    }

    method ApplyDeliveryResult(plan: Plan, result: CallResult, saved: bool)
      requires !plan.NoPlan?
      modifies this`rec, this`outstandingPosts, st
      ensures Mem() == Spec.ApplyResult(old(Mem()), plan, result)
      ensures st.doc == Spec.Save(old(st.doc), Mem(), saved && Spec.ResultPersists(old(Mem()), plan, result))
    {
      var outstanding := Outstanding(false, 0);
      if plan.Post? {
        if plan.generation in outstandingPosts {
          outstanding := outstandingPosts[plan.generation];
        }
        outstandingPosts := outstandingPosts - {plan.generation};
      }
      if plan.generation != rec.slackGeneration {
        if plan.Post? && result.Landed? {
          AdoptStaleRoot(plan, outstanding, result.root, saved);
        }
        return;
      }
      match plan {
        case Post(_, state, _) =>
          if result.Landed? {
            rec := rec.(delivery := Delivered);
            rec := rec.(root := result.root, slackState := Some(state));
          } else if result.Refused? {
            rec := rec.(delivery := Pending);
          }
        case UpdateState(_, state, _, _) =>
          if result.Landed? {
            rec := rec.(slackState := Some(state));
          }
        case UpdateRecovery(_, _, _) =>
          if result.Landed? {
            rec := rec.(delivery := Recovered);
          }
      }
      st.Save(rec, caps, saved);
    }

    method AdoptStaleRoot(plan: Plan, outstanding: Outstanding, root: Root, saved: bool)
      requires plan.Post?
      modifies this`rec, st
      ensures rec == Spec.AdoptStaleRoot(old(rec), plan, outstanding, root)
      ensures st.doc == Spec.Save(old(st.doc), Mem(),
                                  saved && Spec.AdoptionOf(old(rec), plan.generation, outstanding) != Spec.Orphaned)
    {
      if !outstanding.closed {
        return;
      }
      if rec.slackGeneration == plan.generation + 1 && rec.state == Healthy && rec.delivery == Suppressed {
        rec := rec.(root := root, slackState := Some(plan.state));
        rec := rec.(delivery := RecoveryPending);
        st.Save(rec, caps, saved);
        return;
      }
      rec := rec.(lateRoots := rec.lateRoots + [LateRoot(root, Millis(outstanding.downFor))]);
      st.Save(rec, caps, saved);
    }

    // ---- Late roots ----

    /** The edit loop, run without the lock; outcomes[i] says whether edit i landed, and the loop
        stops when the delivery budget does. */
    static method AttemptLateEdits(pending: seq<LateRoot>, outcomes: seq<bool>)
      returns (edited: set<LateRoot>, failed: set<LateRoot>)
      requires |outcomes| <= |pending|
      ensures edited == Late.Attempted(pending, outcomes, true)
      ensures failed == Late.Attempted(pending, outcomes, false)
    {
      edited, failed := {}, {};
      for i := 0 to |outcomes|
        invariant edited == set k | 0 <= k < i && outcomes[k] :: pending[k]
        invariant failed == set k | 0 <= k < i && !outcomes[k] :: pending[k]
      {
        if outcomes[i] {
          edited := edited + {pending[i]};
        } else {
          failed := failed + {pending[i]};
        }
      }
    }

    /** Puts the failed roots behind the untouched ones and drops the edited ones. */
    method RotateLateRoots(edited: set<LateRoot>, failed: set<LateRoot>, saved: bool)
      modifies this`rec, st
      ensures Mem() == old(Mem()).(rec := old(rec).(lateRoots := Late.Rotate(old(rec).lateRoots, edited, failed)))
      ensures st.doc == Spec.Save(old(st.doc), Mem(),
                                  saved && Late.RotationPersists(old(rec).lateRoots, edited, failed))
    {
      var queue := rec.lateRoots;
      if edited == {} && failed == {} {
        Late.RotateNothing(queue);
        return;
      }
      var next := Rotated(queue, edited, failed);
      if edited == {} && next == queue {
        return;
      }
      rec := rec.(lateRoots := next);
      st.Save(rec, caps, saved);
    }

    static method Rotated(queue: seq<LateRoot>, edited: set<LateRoot>, failed: set<LateRoot>)
      returns (next: seq<LateRoot>)
      ensures next == Late.Rotate(queue, edited, failed)
    {
      next := [];
      var retry := [];
      for i := 0 to |queue|
        invariant next == Late.Untouched(queue[..i], edited, failed)
        invariant retry == Late.Retried(queue[..i], edited, failed)
      {
        Late.UntouchedGrows(queue[..i], queue[i], edited, failed);
        Late.RetriedGrows(queue[..i], queue[i], edited, failed);
        assert queue[..i + 1] == queue[..i] + [queue[i]];
        if queue[i] in edited {
        } else if queue[i] in failed {
          retry := retry + [queue[i]];
        } else {
          next := next + [queue[i]];
        }
      }
      assert queue[..|queue|] == queue;
      next := next + retry;
    }
  }
}
