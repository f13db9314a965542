/**
  The runner goroutine: it alone delivers and probes, one call at a time, while callers
  observe. What the outside world does in one pass is a World. The trace records the
  events of SlackSystem that the objects went through; the tracker and its store are
  always exactly where that run of the system is.
 */
module Runner {
  import opened Health
  import opened SlackSystem
  import opened SlackSafety
  import opened SlackTheorems
  import Spec = TrackerSpec
  import T = Tracker

  /** What a caller does while the runner does not hold the lock. */
  datatype Observation =
    | Begins(capability: Capability, subject: string)
    | Finishes(capability: Capability, subject: string, reason: Reason, now: Time, saved: bool)

  /**
    One delivery pass, seen from outside: whether its context is done before it starts,
    clocks, store writes, Slack's answers, and the callers.
   */
  datatype World = World(
    contextDone: bool, beforePlan: seq<Observation>,
    now: Time, markerSaved: bool, duringCall: seq<Observation>, result: CallResult, resultSaved: bool,
    beforeEdits: seq<Observation>, duringEdits: seq<Observation>, outcomes: seq<bool>, editsSaved: bool)

  /** One probe. */
  datatype Probing = Probing(
    decidedAt: Time, duringProbe: seq<Observation>, outcome: ProbeOutcome, now: Time, saved: bool)

  /** One turn of the loop: what callers do while it waits, then a step with its pause before the probe. */
  datatype Turn = Turn(before: seq<Observation>, world: World, beforeProbe: seq<Observation>, probing: Probing)

  function EventOf(o: Observation): Event {
    match o
    case Begins(_, _) => BeginCall
    case Finishes(c, subject, reason, now, saved) => FinishCall(c, subject, reason, now, saved)
  }

  function Observed(obs: seq<Observation>): seq<Event> {
    seq(|obs|, i requires 0 <= i < |obs| => EventOf(obs[i]))
  }

  /** At most one outcome per queued root. */
  function Within(outcomes: seq<bool>, n: nat): seq<bool> {
    if |outcomes| <= n then outcomes else outcomes[..n]
  }

  /** What the episode's own call goes through from state s. */
  function CallTrace(cfg: Config, s: System, w: World): seq<Event> {
    if s.proc.Down? then []
    else if Spec.PlanDelivery(cfg, s.proc.mem, w.now, w.markerSaved).1.NoPlan? then [PlanCall(w.now, w.markerSaved)]
    else [PlanCall(w.now, w.markerSaved)] + Observed(w.duringCall) + [CallReturns(w.result, w.resultSaved)]
  }

  /** What the late edits go through from state s. */
  function EditTrace(s: System, w: World): seq<Event> {
    if s.proc.Down? || s.proc.mem.rec.lateRoots == [] then []
    else [StartLateEdits] + Observed(w.duringEdits)
         + [LateEditsReturn(Within(w.outcomes, |s.proc.mem.rec.lateRoots|), w.editsSaved)]
  }

  /** What a pass that does something goes through from state s. */
  function PassTrace(cfg: Config, s: System, w: World): seq<Event> {
    var first := CallTrace(cfg, s, w) + Observed(w.beforeEdits);
    first + EditTrace(Run(cfg, s, first), w)
  }

  /** What one Deliver goes through from state s. */
  function DeliverTrace(cfg: Config, s: System, w: World): seq<Event> {
    if w.contextDone then []
    else Observed(w.beforePlan) + PassTrace(cfg, Run(cfg, s, Observed(w.beforePlan)), w)
  }

  function ProbeTrace(cfg: Config, s: System, p: Probing): seq<Event> {
    if s.proc.Up? && Spec.ProbeDue(cfg, s.proc.mem, p.decidedAt)
    then [DecideProbe] + Observed(p.duringProbe) + [ProbeReturns(p.outcome, p.now, p.saved)]
    else [DecideProbe]
  }

  /** What waiting for a tick and then delivering goes through from state s. */
  function WaitTrace(cfg: Config, s: System, turn: Turn): seq<Event> {
    var waited := Observed(turn.before);
    waited + DeliverTrace(cfg, Run(cfg, s, waited), turn.world)
  }

  function TurnTrace(cfg: Config, s: System, turn: Turn): seq<Event> {
    var delivered := WaitTrace(cfg, s, turn) + Observed(turn.beforeProbe);
    delivered + ProbeTrace(cfg, Run(cfg, s, delivered), turn.probing)
  }

  /** The roots a call result brings into the world. */
  function NewRoots(result: CallResult): set<Root> {
    if result.Landed? then {result.root} else {}
  }

  /** Slack timestamps are unique: no result names a root seen before. */
  predicate Unseen(turns: seq<Turn>, final: World, seen: set<Root>)
    decreases |turns|
  {
    if turns == [] then NewRoots(final.result) !! seen
    else
      var roots := NewRoots(turns[0].world.result);
      roots !! seen && Unseen(turns[1..], final, seen + roots)
  }

  lemma {:induction false} FewerSeen(turns: seq<Turn>, final: World, fewer: set<Root>, seen: set<Root>)
    requires fewer <= seen && Unseen(turns, final, seen)
    ensures Unseen(turns, final, fewer)
    decreases |turns|
  {
    if turns == [] {
    } else {
      var roots := NewRoots(turns[0].world.result);
      FewerSeen(turns[1..], final, fewer + roots, seen + roots);
    }
  }

  /** What consecutive turns go through from state s. */
  function TurnsTrace(cfg: Config, s: System, turns: seq<Turn>): seq<Event>
    decreases |turns|
  {
    if turns == [] then []
    else TurnTrace(cfg, s, turns[0]) + TurnsTrace(cfg, Run(cfg, s, TurnTrace(cfg, s, turns[0])), turns[1..])
  }

  /** What the loop goes through: its turns, and the last pass behind the seal. */
  function LoopTrace(cfg: Config, s: System, turns: seq<Turn>, final: World): seq<Event> {
    var turned := TurnsTrace(cfg, s, turns);
    turned + ([SealTracker] + DeliverTrace(cfg, Step(cfg, Run(cfg, s, turned), SealTracker), final))
  }

  lemma {:induction false} RunSplits(cfg: Config, s: System, a: seq<Event>, b: seq<Event>)
    ensures Run(cfg, s, a + b) == Run(cfg, Run(cfg, s, a), b)
    decreases |a|
  {
    if a == [] {
      assert a + b == b;
    } else {
      assert (a + b)[1..] == a[1..] + b;
      RunSplits(cfg, SlackSystem.Step(cfg, s, a[0]), a[1..], b);
    }
  }

  class Runner {
    const t: T.Tracker
    ghost var trace: seq<Event>

    /** Where the run of the system is. */
    ghost function Now(): System
      reads this, t
    {
      Reached(t.cfg, trace)
    }

    /** Tracker, store and flight are those of the system. */
    ghost predicate At(flight: Flight)
      reads this, t, t.st
    {
      Now().proc == Up(t.Mem(), flight) && Now().disk == t.st.doc
    }

    /** A start of the process: the tracker has just been loaded from the store. */
    constructor (t: T.Tracker, ghost past: seq<Event>, now: Time)
      requires Reached(t.cfg, past).proc.Down? && Reached(t.cfg, past).disk == t.st.doc
      requires t.Mem() == Spec.Load(t.st.doc, now)
      ensures this.t == t && trace == past + [Restart(now)] && At(Idle)
    {
      this.t := t;
      trace := past + [Restart(now)];
      new;
      RunAppend(t.cfg, INITIAL, past, Restart(now));
    }

    /** The roots Slack has accepted so far. */
    ghost function Seen(): set<Root>
      reads this, t
    {
      Now().hist.owners.Keys
    }

    ghost method Record(e: Event)
      modifies this`trace
      ensures trace == old(trace) + [e]
      ensures Now() == SlackSystem.Step(t.cfg, old(Now()), e)
    {
      RunAppend(t.cfg, INITIAL, trace, e);
      trace := trace + [e];
    }

    /** Callers begin and finish calls, in this order. */
    method Observe(obs: seq<Observation>, ghost flight: Flight)
      requires At(flight)
      modifies this`trace, t, t.st
      ensures At(flight) && trace == old(trace) + Observed(obs) && Seen() == old(Seen())
    {
      for i := 0 to |obs|
        invariant At(flight) && trace == old(trace) + Observed(obs[..i]) && Seen() == old(Seen())
      {
        match obs[i] {
          case Begins(c, subject) =>
            var o := t.Begin(c, subject);
          case Finishes(c, subject, reason, now, saved) =>
            t.FinishCall(c, subject, reason, now, saved);
        }
        Record(EventOf(obs[i]));
        assert Observed(obs[..i + 1]) == Observed(obs[..i]) + [EventOf(obs[i])];
      }
      assert obs[..|obs|] == obs;
    }

    /** The episode's own call: plan under the lock, call without it, apply under the lock. */
    method DeliverCall(w: World)
      requires At(Idle) && NewRoots(w.result) !! Seen()
      modifies this`trace, t, t.st
      ensures At(Idle) && trace == old(trace) + CallTrace(t.cfg, old(Now()), w)
      ensures Seen() <= old(Seen()) + NewRoots(w.result)
    {
      var plan := PlanUnderLock(w);
      if plan.NoPlan? {
        return;
      }
      Observe(w.duringCall, Calling(plan));
      ApplyUnderLock(plan, w);
    }

    method PlanUnderLock(w: World) returns (plan: Plan)
      requires At(Idle)
      modifies this`trace, t, t.st
      ensures At(if plan.NoPlan? then Idle else Calling(plan))
      ensures trace == old(trace) + [PlanCall(w.now, w.markerSaved)] && Seen() == old(Seen())
      ensures plan == Spec.PlanDelivery(t.cfg, old(t.Mem()), w.now, w.markerSaved).1
    {
      plan := t.PlanDelivery(w.now, w.markerSaved);
      Record(PlanCall(w.now, w.markerSaved));
    }

    method ApplyUnderLock(plan: Plan, w: World)
      requires At(Calling(plan)) && !plan.NoPlan? && NewRoots(w.result) !! Seen()
      modifies this`trace, t, t.st
      ensures At(Idle) && trace == old(trace) + [CallReturns(w.result, w.resultSaved)]
      ensures Seen() <= old(Seen()) + NewRoots(w.result)
    {
      t.ApplyDeliveryResult(plan, w.result, w.resultSaved);
      Record(CallReturns(w.result, w.resultSaved));
    }

    /** editLateRoots: the queue is read under the lock, edited without it, rotated under it. */
    method EditLateRoots(w: World)
      requires At(Idle)
      modifies this`trace, t, t.st
      ensures At(Idle) && trace == old(trace) + EditTrace(old(Now()), w) && Seen() == old(Seen())
    {
      var pending := t.rec.lateRoots;
      if pending == [] {
        return;
      }
      Record(StartLateEdits);
      Observe(w.duringEdits, EditingLate(pending));
      var outcomes := Within(w.outcomes, |pending|);
      var edited, failed := T.Tracker.AttemptLateEdits(pending, outcomes);
      t.RotateLateRoots(edited, failed, w.editsSaved);
      Record(LateEditsReturn(outcomes, w.editsSaved));
    }

    /** Deliver: on a context that is done it returns at once, before the marker. */
    method Deliver(w: World)
      requires At(Idle) && NewRoots(w.result) !! Seen()
      modifies this`trace, t, t.st
      ensures At(Idle) && trace == old(trace) + DeliverTrace(t.cfg, old(Now()), w)
      ensures Seen() <= old(Seen()) + NewRoots(w.result)
      ensures w.contextDone ==> t.Mem() == old(t.Mem()) && t.st.doc == old(t.st.doc)
    {
      if w.contextDone {
        return;
      }
      ghost var early := Observed(w.beforePlan);
      Observe(w.beforePlan, Idle);
      RunSplits(t.cfg, INITIAL, old(trace), early);
      ghost var passing := PassTrace(t.cfg, Now(), w);
      RunPass(w);
      assert trace == (old(trace) + early) + passing;
      Associates(old(trace), early, passing);
    }

    method RunPass(w: World)
      requires At(Idle) && NewRoots(w.result) !! Seen()
      modifies this`trace, t, t.st
      ensures At(Idle) && trace == old(trace) + PassTrace(t.cfg, old(Now()), w)
      ensures Seen() <= old(Seen()) + NewRoots(w.result)
    {
      ghost var s, first := Now(), CallTrace(t.cfg, Now(), w) + Observed(w.beforeEdits);
      DeliverCall(w);
      Observe(w.beforeEdits, Idle);
      assert trace == old(trace) + first;
      RunSplits(t.cfg, INITIAL, old(trace), first);
      EditLateRoots(w);
    }

    /** The probe half of Step: decided under the lock, run without it, recorded under it. */
    method ProbeWhenDue(p: Probing)
      requires At(Idle)
      modifies this`trace, t, t.st
      ensures At(Idle) && trace == old(trace) + ProbeTrace(t.cfg, old(Now()), p) && Seen() == old(Seen())
    {
      var due := DecideProbe(p.decidedAt);
      if due {
        RunProbe(p);
      }
    }

    method DecideProbe(now: Time) returns (due: bool)
      requires At(Idle)
      modifies this`trace, t
      ensures At(Idle) && trace == old(trace) + [SlackSystem.DecideProbe] && Seen() == old(Seen())
      ensures due == Spec.ProbeDue(t.cfg, old(t.Mem()), now)
    {
      due := t.ProbeDue(now);
      Record(SlackSystem.DecideProbe);
    }

    method RunProbe(p: Probing)
      requires At(Idle)
      modifies this`trace, t, t.st
      ensures At(Idle) && Seen() == old(Seen())
      ensures trace == old(trace) + Observed(p.duringProbe) + [ProbeReturns(p.outcome, p.now, p.saved)]
    {
      Observe(p.duringProbe, Idle);
      t.ObserveProbe(p.outcome, p.now, p.saved);
      Record(ProbeReturns(p.outcome, p.now, p.saved));
    }

    method WaitAndDeliver(turn: Turn)
      requires At(Idle) && NewRoots(turn.world.result) !! Seen()
      modifies this`trace, t, t.st
      ensures At(Idle) && trace == old(trace) + WaitTrace(t.cfg, old(Now()), turn)
      ensures Seen() <= old(Seen()) + NewRoots(turn.world.result)
    {
      ghost var s, waited := Now(), Observed(turn.before);
      Observe(turn.before, Idle);
      RunSplits(t.cfg, INITIAL, old(trace), waited);
      ghost var delivering := DeliverTrace(t.cfg, Now(), turn.world);
      WaitThenDeliver(t.cfg, s, turn, delivering);
      Deliver(turn.world);
      assert trace == (old(trace) + waited) + delivering;
      Associates(old(trace), waited, delivering);
    }

    lemma WaitThenDeliver(cfg: Config, s: System, turn: Turn, delivering: seq<Event>)
      requires delivering == DeliverTrace(cfg, Run(cfg, s, Observed(turn.before)), turn.world)
      ensures WaitTrace(cfg, s, turn) == Observed(turn.before) + delivering
    {
    }

    lemma DeliverThenProbe(cfg: Config, s: System, turn: Turn, delivered: seq<Event>, probed: seq<Event>)
      requires delivered == WaitTrace(cfg, s, turn) + Observed(turn.beforeProbe)
      requires probed == ProbeTrace(cfg, Run(cfg, s, delivered), turn.probing)
      ensures TurnTrace(cfg, s, turn) == delivered + probed
    {
    }

    lemma Associates(a: seq<Event>, b: seq<Event>, c: seq<Event>)
      ensures (a + b) + c == a + (b + c)
    {
    }

    /** One turn of the loop: the step that a tick or a kick wakes. */
    method Step(turn: Turn)
      requires At(Idle) && NewRoots(turn.world.result) !! Seen()
      modifies this`trace, t, t.st
      ensures At(Idle) && trace == old(trace) + TurnTrace(t.cfg, old(Now()), turn)
      ensures Seen() <= old(Seen()) + NewRoots(turn.world.result)
    {
      ghost var s, delivered := Now(), WaitTrace(t.cfg, Now(), turn) + Observed(turn.beforeProbe);
      WaitAndDeliver(turn);
      Observe(turn.beforeProbe, Idle);
      assert trace == old(trace) + delivered;
      RunSplits(t.cfg, INITIAL, old(trace), delivered);
      ghost var probed := ProbeTrace(t.cfg, Now(), turn.probing);
      DeliverThenProbe(t.cfg, s, turn, delivered, probed);
      ProbeWhenDue(turn.probing);
      assert trace == (old(trace) + delivered) + probed;
      Associates(old(trace), delivered, probed);
    }

    /** The last pass: seal first, so that what it acknowledges cannot move, whatever callers still report. */
    method FinalDeliver(w: World)
      requires At(Idle) && NewRoots(w.result) !! Seen()
      modifies this`trace, t, t.st
      ensures At(Idle)
      ensures trace == old(trace) + [SealTracker]
                       + DeliverTrace(t.cfg, SlackSystem.Step(t.cfg, old(Now()), SealTracker), w)
      ensures Frozen(old(t.Mem()).(sealed := true), t.Mem())
    {
      t.Seal();
      Record(SealTracker);
      ghost var s := Now();
      Deliver(w);
      RunSplits(t.cfg, INITIAL, old(trace) + [SealTracker], DeliverTrace(t.cfg, s, w));
      DeliveryNeverCrashes(t.cfg, s, w);
      SealFreezes(t.cfg, s, DeliverTrace(t.cfg, s, w));
    }

    lemma DeliveryNeverCrashes(cfg: Config, s: System, w: World)
      ensures forall e :: e in DeliverTrace(cfg, s, w) ==> !e.Crash?
    {
      if !w.contextDone {
        PassNeverCrashes(cfg, Run(cfg, s, Observed(w.beforePlan)), w);
      }
    }

    lemma PassNeverCrashes(cfg: Config, s: System, w: World)
      ensures forall e :: e in PassTrace(cfg, s, w) ==> !e.Crash?
    {
      var first := CallTrace(cfg, s, w) + Observed(w.beforeEdits);
      assert forall e :: e in CallTrace(cfg, s, w) ==> !e.Crash?;
      assert forall e :: e in EditTrace(Run(cfg, s, first), w) ==> !e.Crash?;
    }

    /** The loop: turns until Stop, then the last pass. */
    method Loop(turns: seq<Turn>, final: World)
      requires At(Idle) && Unseen(turns, final, Seen())
      modifies this`trace, t, t.st
      ensures At(Idle) && Inv(Now()) && t.sealed
      ensures trace == old(trace) + LoopTrace(t.cfg, old(Now()), turns, final)
    {
      ghost var s, turned := Now(), TurnsTrace(t.cfg, Now(), turns);
      TakeTurns(turns, final);
      RunSplits(t.cfg, INITIAL, old(trace), turned);
      ghost var delivering := DeliverTrace(t.cfg, SlackSystem.Step(t.cfg, Now(), SealTracker), final);
      TurnsThenLast(t.cfg, s, turns, final, turned, delivering);
      FinalDeliver(final);
      assert trace == ((old(trace) + turned) + [SealTracker]) + delivering;
      Associates(old(trace) + turned, [SealTracker], delivering);
      Associates(old(trace), turned, [SealTracker] + delivering);
      ReachedInv(t.cfg, trace);
    }

    lemma TurnsThenLast(cfg: Config, s: System, turns: seq<Turn>, final: World, turned: seq<Event>,
                        delivering: seq<Event>)
      requires turned == TurnsTrace(cfg, s, turns)
      requires delivering == DeliverTrace(cfg, SlackSystem.Step(cfg, Run(cfg, s, turned), SealTracker), final)
      ensures LoopTrace(cfg, s, turns, final) == turned + ([SealTracker] + delivering)
    {
    }

    method TakeTurns(turns: seq<Turn>, ghost final: World)
      requires At(Idle) && Unseen(turns, final, Seen())
      modifies this`trace, t, t.st
      ensures At(Idle) && Unseen([], final, Seen())
      ensures trace == old(trace) + TurnsTrace(t.cfg, old(Now()), turns)
    {
      ghost var all, done := TurnsTrace(t.cfg, Now(), turns), [];
      assert turns[0..] == turns;
      for i := 0 to |turns|
        invariant At(Idle) && Unseen(turns[i..], final, Seen())
        invariant trace == old(trace) + done && all == done + TurnsTrace(t.cfg, Now(), turns[i..])
      {
        done := TakeTurn(turns[i..], final, all, old(trace), done);
        assert turns[i..][1..] == turns[i + 1..];
      }
      assert turns[|turns|..] == [] && all == done;
    }

    /** One turn of those that are left. */
    method TakeTurn(turns: seq<Turn>, ghost final: World, ghost all: seq<Event>, ghost past: seq<Event>,
                    ghost done: seq<Event>)
      returns (ghost done': seq<Event>)
      requires At(Idle) && turns != [] && Unseen(turns, final, Seen())
      requires trace == past + done && all == done + TurnsTrace(t.cfg, Now(), turns)
      modifies this`trace, t, t.st
      ensures At(Idle) && Unseen(turns[1..], final, Seen())
      ensures trace == past + done' && all == done' + TurnsTrace(t.cfg, Now(), turns[1..])
    {
      ghost var s, seen := Now(), Seen();
      ghost var turned := TurnTrace(t.cfg, s, turns[0]);
      Step(turns[0]);
      done' := done + turned;
      Associates(past, done, turned);
      RunSplits(t.cfg, INITIAL, past + done, turned);
      TurnTaken(t.cfg, s, turns, all, done);
      FewerSeen(turns[1..], final, Seen(), seen + NewRoots(turns[0].world.result));
    }

    lemma TurnTaken(cfg: Config, s: System, turns: seq<Turn>, all: seq<Event>, done: seq<Event>)
      requires turns != [] && all == done + TurnsTrace(cfg, s, turns)
      ensures var turned := TurnTrace(cfg, s, turns[0]);
              all == (done + turned) + TurnsTrace(cfg, Run(cfg, s, turned), turns[1..])
    {
    }
  }
}
