/**
  Fairness of the late-root queue over runs of the system: new roots arrive, passes stop
  anywhere, edits fail for ever, and the process may die as long as what it rotated was
  stored.
 */
module LateFairness {
  import opened Health
  import opened SlackSystem
  import opened SlackSafety
  import opened SlackTheorems
  import Spec = TrackerSpec
  import Late = LateRoots

  /** The queue in memory, or the stored one while the process is down. */
  function Queue(s: System): seq<LateRoot> {
    if s.proc.Up? then s.proc.mem.rec.lateRoots else s.disk.rec.lateRoots
  }

  /** The event ends a pass that attempted at least one edit. */
  predicate AttemptsSome(s: System, e: Event) {
    e.LateEditsReturn? && CanFinishEdits(s, e.outcomes) && e.outcomes != []
  }

  /** The event ends a pass that attempted this root's edit. */
  predicate AttemptsRoot(s: System, e: Event, r: LateRoot) {
    e.LateEditsReturn? && CanFinishEdits(s, e.outcomes) && r in s.proc.flight.pending[..|e.outcomes|]
  }

  function Passes(cfg: Config, s: System, events: seq<Event>): nat
    decreases |events|
  {
    if events == [] then 0
    else (if AttemptsSome(s, events[0]) then 1 else 0) + Passes(cfg, Step(cfg, s, events[0]), events[1..])
  }

  predicate EverAttempted(cfg: Config, s: System, events: seq<Event>, r: LateRoot)
    decreases |events|
  {
    events != [] && (AttemptsRoot(s, events[0], r) || EverAttempted(cfg, Step(cfg, s, events[0]), events[1..], r))
  }

  // ---- One event ----

  /** Observations and plans leave the queue alone, and a returning call at most appends to it. */
  lemma QueueGrows(cfg: Config, s: System, e: Event)
    requires s.proc.Up? && !e.Crash? && !e.LateEditsReturn?
    ensures var s' := Step(cfg, s, e); s'.proc.Up? && Queue(s) <= Queue(s')
  {
    match e
    case FinishCall(c, subject, reason, now, saved) =>
      FinishMoves(s.proc.mem, c, subject, reason, now);
      MovesKeepQueue(s.proc.mem, Spec.Finish(s.proc.mem, c, subject, reason, now), now);
    case ProbeReturns(outcome, now, saved) =>
      ProbeMoves(s.proc.mem, outcome, now);
      MovesKeepQueue(s.proc.mem, Spec.ObserveProbe(s.proc.mem, outcome, now), now);
    case PlanCall(now, saved) =>
      PlanKeepsQueue(cfg, s.proc.mem, now, saved);
    case CallReturns(result, saved) =>
      if CanReturn(s, result) {
        ResultGrowsQueue(s.proc.mem, s.proc.flight.plan, result);
      }
    case _ =>
  }

  lemma MovesKeepQueue(m: Memory, m': Memory, now: Time)
    requires Moves(m, m', now)
    ensures m'.rec.lateRoots == m.rec.lateRoots
  {
  }

  lemma PlanKeepsQueue(cfg: Config, m: Memory, now: Time, saved: bool)
    ensures Spec.PlanDelivery(cfg, m, now, saved).0.rec.lateRoots == m.rec.lateRoots
  {
  }

  lemma ResultGrowsQueue(m: Memory, plan: Plan, result: CallResult)
    requires !plan.NoPlan?
    ensures m.rec.lateRoots <= Spec.ApplyResult(m, plan, result).rec.lateRoots
  {
  }

  /** A pass that attempts others but not this root moves it forward. */
  lemma PassAdvances(cfg: Config, s: System, e: Event, i: nat) returns (j: nat)
    requires Inv(s) && e.LateEditsReturn? && CanFinishEdits(s, e.outcomes)
    requires i < |Queue(s)| && !AttemptsRoot(s, e, Queue(s)[i])
    ensures var s' := Step(cfg, s, e);
            j < |Queue(s')| && Queue(s')[j] == Queue(s)[i] && if e.outcomes != [] then j < i else j <= i
  {
    var (queue, step) := (Queue(s), Late.EditStep(e.outcomes, []));
    assert s.proc.flight.pending == queue;
    j := Late.Advances(queue, step, i);
    PassRotates(cfg, s, e, queue);
  }

  lemma PassRotates(cfg: Config, s: System, e: Event, queue: seq<LateRoot>)
    requires e.LateEditsReturn? && CanFinishEdits(s, e.outcomes) && s.proc.flight.pending == Queue(s) == queue
    ensures Queue(Step(cfg, s, e)) == Late.After(queue, Late.EditStep(e.outcomes, []))
  {
  }

  /** Any other event keeps the queue as the beginning of what it leaves; a death does while store and memory agree. */
  lemma QueueOutlives(cfg: Config, s: System, e: Event)
    requires !(e.LateEditsReturn? && CanFinishEdits(s, e.outcomes)) && (!e.Crash? || Agrees(s))
    ensures Queue(s) <= Queue(Step(cfg, s, e)) && !AttemptsSome(s, e)
  {
    if s.proc.Up? && !e.Crash? && !e.LateEditsReturn? {
      QueueGrows(cfg, s, e);
    }
  }

  lemma StepAdvances(cfg: Config, s: System, e: Event, i: nat) returns (j: nat)
    requires Inv(s) && i < |Queue(s)| && !AttemptsRoot(s, e, Queue(s)[i])
    requires !e.Crash? || Agrees(s)
    ensures var s' := Step(cfg, s, e);
            j < |Queue(s')| && Queue(s')[j] == Queue(s)[i] && if AttemptsSome(s, e) then j < i else j <= i
  {
    if e.LateEditsReturn? && CanFinishEdits(s, e.outcomes) {
      j := PassAdvances(cfg, s, e, i);
    } else {
      QueueOutlives(cfg, s, e);
      j := i;
    }
  }

  // ---- Runs ----

  lemma {:induction false} QueuedRootIsTried(cfg: Config, s: System, events: seq<Event>, i: nat)
    requires Inv(s) && Unbroken(s, events) && i < |Queue(s)| && Passes(cfg, s, events) > i
    ensures EverAttempted(cfg, s, events, Queue(s)[i])
    decreases |events|
  {
    if !AttemptsRoot(s, events[0], Queue(s)[i]) {
      UnbrokenOn(cfg, s, events);
      var j := StepAdvances(cfg, s, events[0], i);
      StepKeeps(cfg, s, events[0]);
      QueuedRootIsTried(cfg, Step(cfg, s, events[0]), events[1..], j);
    }
  }

  /**
    From any reachable state, a root at position i of the queue is attempted within the
    next i + 1 passes that attempt anything: in any further run of the living process,
    or, across crashes and restarts, in any whose writes succeed once memory and store
    agree.
   */
  lemma EveryQueuedRootIsTried(cfg: Config, past: seq<Event>, events: seq<Event>, i: nat)
    requires var s := Reached(cfg, past);
             i < |Queue(s)| && Unbroken(s, events) && Passes(cfg, s, events) > i
    ensures var s := Reached(cfg, past); EverAttempted(cfg, s, events, Queue(s)[i])
  {
    ReachedInv(cfg, past);
    QueuedRootIsTried(cfg, Reached(cfg, past), events, i);
  }
}
