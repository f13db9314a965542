/**
  That the runner's passes do their work: a live pass plans and tries the queue, a turn
  probes when a probe is due, and so a queued root is tried within as many turns as it has
  roots before it, however long Slack refuses the others.
 */
module RunnerFairness {
  import opened Health
  import opened LateFairness
  import opened Runner
  import opened SlackSafety
  import opened SlackSystem
  import opened SlackTheorems
  import Spec = TrackerSpec

  predicate Idling(s: System) {
    s.proc.Up? && s.proc.flight.Idle?
  }

  // ---- Runs in two parts ----

  lemma {:induction false} PassesAdd(cfg: Config, s: System, a: seq<Event>, b: seq<Event>)
    ensures Passes(cfg, s, a + b) == Passes(cfg, s, a) + Passes(cfg, Run(cfg, s, a), b)
    decreases |a|
  {
    if a == [] {
      assert a + b == b;
    } else {
      assert (a + b)[1..] == a[1..] + b;
      PassesAdd(cfg, Step(cfg, s, a[0]), a[1..], b);
    }
  }

  lemma {:induction false} AttemptedEither(cfg: Config, s: System, a: seq<Event>, b: seq<Event>, r: LateRoot)
    ensures EverAttempted(cfg, s, a + b, r) <==> EverAttempted(cfg, s, a, r) || EverAttempted(cfg, Run(cfg, s, a), b, r)
    decreases |a|
  {
    if a == [] {
      assert a + b == b;
    } else {
      assert (a + b)[1..] == a[1..] + b;
      AttemptedEither(cfg, Step(cfg, s, a[0]), a[1..], b, r);
    }
  }

  predicate NeverCrashes(events: seq<Event>) {
    forall e :: e in events ==> !e.Crash?
  }

  /** A root that no event of a run attempts has moved forward by one for every pass that attempted something. */
  lemma {:induction false} RunAdvances(cfg: Config, s: System, events: seq<Event>, i: nat) returns (j: nat)
    requires Inv(s) && NeverCrashes(events) && i < |Queue(s)| && !EverAttempted(cfg, s, events, Queue(s)[i])
    ensures var s' := Run(cfg, s, events);
            && Inv(s') && j < |Queue(s')| && Queue(s')[j] == Queue(s)[i]
            && j + Passes(cfg, s, events) <= i
    decreases |events|
  {
    if events == [] {
      j := i;
    } else {
      assert events[0] in events;
      var k := StepAdvances(cfg, s, events[0], i);
      StepKeeps(cfg, s, events[0]);
      j := RunAdvances(cfg, Step(cfg, s, events[0]), events[1..], k);
    }
  }

  // ---- What each part of a pass leaves ----

  /** Callers change neither what the runner waits for nor which roots Slack accepted. */
  lemma {:induction false} ObservationsKeep(cfg: Config, s: System, obs: seq<Observation>)
    requires s.proc.Up?
    ensures var s' := Run(cfg, s, Observed(obs));
            s'.proc.Up? && s'.proc.flight == s.proc.flight && s'.hist.owners == s.hist.owners
    decreases |obs|
  {
    if obs == [] {
    } else {
      assert Observed(obs)[0] == EventOf(obs[0]) && Observed(obs)[1..] == Observed(obs[1..]);
      ObservationsKeep(cfg, Step(cfg, s, EventOf(obs[0])), obs[1..]);
    }
  }

  lemma CallEnds(cfg: Config, s: System, w: World)
    requires Idling(s) && NewRoots(w.result) !! s.hist.owners.Keys
    ensures var s' := Run(cfg, s, CallTrace(cfg, s, w));
            Idling(s') && s'.hist.owners.Keys <= s.hist.owners.Keys + NewRoots(w.result)
  {
    var planned := Step(cfg, s, PlanCall(w.now, w.markerSaved));
    OneEvent(cfg, s, PlanCall(w.now, w.markerSaved));
    if planned.proc.flight.Calling? {
      ObservationsKeep(cfg, planned, w.duringCall);
      RunSplits(cfg, s, [PlanCall(w.now, w.markerSaved)], Observed(w.duringCall));
      var called := Run(cfg, planned, Observed(w.duringCall));
      OneEvent(cfg, called, CallReturns(w.result, w.resultSaved));
      RunSplits(cfg, s, [PlanCall(w.now, w.markerSaved)] + Observed(w.duringCall),
                [CallReturns(w.result, w.resultSaved)]);
    }
  }

  lemma OneEvent(cfg: Config, s: System, e: Event)
    ensures Run(cfg, s, [e]) == Step(cfg, s, e)
    ensures Passes(cfg, s, [e]) == if AttemptsSome(s, e) then 1 else 0
  {
    assert [e][1..] == [];
  }

  /** With something queued and room for one answer, the late edits attempt something. */
  lemma EditsAttempt(cfg: Config, s: System, w: World)
    requires Idling(s)
    ensures var s' := Run(cfg, s, EditTrace(s, w));
            && Idling(s') && s'.hist.owners == s.hist.owners
            && (s.proc.mem.rec.lateRoots != [] && w.outcomes != [] ==> Passes(cfg, s, EditTrace(s, w)) >= 1)
  {
    var queue := s.proc.mem.rec.lateRoots;
    if queue != [] {
      var editing := Step(cfg, s, StartLateEdits);
      OneEvent(cfg, s, StartLateEdits);
      ObservationsKeep(cfg, editing, w.duringEdits);
      RunSplits(cfg, s, [StartLateEdits], Observed(w.duringEdits));
      var observed := Run(cfg, editing, Observed(w.duringEdits));
      var last := LateEditsReturn(Within(w.outcomes, |queue|), w.editsSaved);
      OneEvent(cfg, observed, last);
      RunSplits(cfg, s, [StartLateEdits] + Observed(w.duringEdits), [last]);
      PassesAdd(cfg, s, [StartLateEdits] + Observed(w.duringEdits), [last]);
    }
  }

  /** While nothing is edited or lost, the queue only grows. */
  lemma {:induction false} QueueStays(cfg: Config, s: System, events: seq<Event>)
    requires s.proc.Up? && forall e :: e in events ==> !e.Crash? && !e.LateEditsReturn?
    ensures var s' := Run(cfg, s, events); s'.proc.Up? && Queue(s) <= Queue(s')
    decreases |events|
  {
    if events == [] {
    } else {
      assert events[0] in events;
      QueueGrows(cfg, s, events[0]);
      QueueStays(cfg, Step(cfg, s, events[0]), events[1..]);
    }
  }

  /** A pass leaves the runner idle, and attempts something if something was queued and Slack answers at all. */
  lemma PassAttempts(cfg: Config, s: System, w: World)
    requires Idling(s) && NewRoots(w.result) !! s.hist.owners.Keys
    ensures var s' := Run(cfg, s, PassTrace(cfg, s, w));
            && Idling(s') && s'.hist.owners.Keys <= s.hist.owners.Keys + NewRoots(w.result)
            && (Queue(s) != [] && w.outcomes != [] ==> Passes(cfg, s, PassTrace(cfg, s, w)) >= 1)
  {
    var call := CallTrace(cfg, s, w);
    CallEnds(cfg, s, w);
    var called := Run(cfg, s, call);
    ObservationsKeep(cfg, called, w.beforeEdits);
    var first := call + Observed(w.beforeEdits);
    RunSplits(cfg, s, call, Observed(w.beforeEdits));
    var before := Run(cfg, s, first);
    QueueStays(cfg, s, first);
    EditsAttempt(cfg, before, w);
    RunSplits(cfg, s, first, EditTrace(before, w));
    PassesAdd(cfg, s, first, EditTrace(before, w));
  }

  /** So does a whole Deliver on a live context, whatever callers do before it. */
  lemma DeliverAttempts(cfg: Config, s: System, w: World)
    requires Idling(s) && NewRoots(w.result) !! s.hist.owners.Keys
    ensures var s' := Run(cfg, s, DeliverTrace(cfg, s, w));
            && Idling(s') && s'.hist.owners.Keys <= s.hist.owners.Keys + NewRoots(w.result)
            && (!w.contextDone && Queue(s) != [] && w.outcomes != [] ==>
                  Passes(cfg, s, DeliverTrace(cfg, s, w)) >= 1)
  {
    if !w.contextDone {
      var early := Observed(w.beforePlan);
      ObservationsKeep(cfg, s, w.beforePlan);
      QueueStays(cfg, s, early);
      var planning := Run(cfg, s, early);
      PassAttempts(cfg, planning, w);
      RunSplits(cfg, s, early, PassTrace(cfg, planning, w));
      PassesAdd(cfg, s, early, PassTrace(cfg, planning, w));
    }
  }

  lemma ProbeEnds(cfg: Config, s: System, p: Probing)
    requires Idling(s)
    ensures var s' := Run(cfg, s, ProbeTrace(cfg, s, p)); Idling(s') && s'.hist.owners == s.hist.owners
  {
    var deciding := Step(cfg, s, DecideProbe);
    OneEvent(cfg, s, DecideProbe);
    if Spec.ProbeDue(cfg, s.proc.mem, p.decidedAt) {
      ObservationsKeep(cfg, deciding, p.duringProbe);
      RunSplits(cfg, s, [DecideProbe], Observed(p.duringProbe));
      var probing := Run(cfg, deciding, Observed(p.duringProbe));
      OneEvent(cfg, probing, ProbeReturns(p.outcome, p.now, p.saved));
      RunSplits(cfg, s, [DecideProbe] + Observed(p.duringProbe), [ProbeReturns(p.outcome, p.now, p.saved)]);
    }
  }

  lemma WaitAttempts(cfg: Config, s: System, turn: Turn)
    requires Idling(s) && NewRoots(turn.world.result) !! s.hist.owners.Keys
    ensures var s' := Run(cfg, s, WaitTrace(cfg, s, turn));
            && Idling(s') && s'.hist.owners.Keys <= s.hist.owners.Keys + NewRoots(turn.world.result)
            && (!turn.world.contextDone && Queue(s) != [] && turn.world.outcomes != [] ==>
                  Passes(cfg, s, WaitTrace(cfg, s, turn)) >= 1)
  {
    var waited := Observed(turn.before);
    ObservationsKeep(cfg, s, turn.before);
    QueueStays(cfg, s, waited);
    var delivering := Run(cfg, s, waited);
    DeliverAttempts(cfg, delivering, turn.world);
    RunSplits(cfg, s, waited, DeliverTrace(cfg, delivering, turn.world));
    PassesAdd(cfg, s, waited, DeliverTrace(cfg, delivering, turn.world));
  }

  lemma TurnAttempts(cfg: Config, s: System, turn: Turn)
    requires Idling(s) && NewRoots(turn.world.result) !! s.hist.owners.Keys
    ensures var s' := Run(cfg, s, TurnTrace(cfg, s, turn));
            && Idling(s') && s'.hist.owners.Keys <= s.hist.owners.Keys + NewRoots(turn.world.result)
            && (!turn.world.contextDone && Queue(s) != [] && turn.world.outcomes != [] ==>
                  Passes(cfg, s, TurnTrace(cfg, s, turn)) >= 1)
  {
    WaitAttempts(cfg, s, turn);
    var waited := WaitTrace(cfg, s, turn);
    var delivered := waited + Observed(turn.beforeProbe);
    ObservationsKeep(cfg, Run(cfg, s, waited), turn.beforeProbe);
    RunSplits(cfg, s, waited, Observed(turn.beforeProbe));
    PassesAdd(cfg, s, waited, Observed(turn.beforeProbe));
    var probing := Run(cfg, s, delivered);
    ProbeEnds(cfg, probing, turn.probing);
    RunSplits(cfg, s, delivered, ProbeTrace(cfg, probing, turn.probing));
    PassesAdd(cfg, s, delivered, ProbeTrace(cfg, probing, turn.probing));
  }

  lemma DeliverNeverCrashes(cfg: Config, s: System, w: World)
    ensures NeverCrashes(DeliverTrace(cfg, s, w))
  {
    if !w.contextDone {
      var planning := Run(cfg, s, Observed(w.beforePlan));
      var first := CallTrace(cfg, planning, w) + Observed(w.beforeEdits);
      assert NeverCrashes(CallTrace(cfg, planning, w));
      assert NeverCrashes(EditTrace(Run(cfg, planning, first), w));
    }
  }

  lemma TurnNeverCrashes(cfg: Config, s: System, turn: Turn)
    ensures NeverCrashes(TurnTrace(cfg, s, turn))
  {
    DeliverNeverCrashes(cfg, Run(cfg, s, Observed(turn.before)), turn.world);
    assert NeverCrashes(WaitTrace(cfg, s, turn));
    var delivered := WaitTrace(cfg, s, turn) + Observed(turn.beforeProbe);
    assert NeverCrashes(ProbeTrace(cfg, Run(cfg, s, delivered), turn.probing));
  }

  /** The context is live and Slack answers at least the first late edit. */
  predicate Willing(turns: seq<Turn>) {
    forall turn :: turn in turns ==> !turn.world.contextDone && turn.world.outcomes != []
  }

  lemma {:induction false} QueuedRootIsTriedByTurns(cfg: Config, s: System, turns: seq<Turn>, final: World, i: nat)
    requires Inv(s) && Idling(s) && Unseen(turns, final, s.hist.owners.Keys) && Willing(turns)
    requires i < |Queue(s)| && |turns| > i
    ensures EverAttempted(cfg, s, TurnsTrace(cfg, s, turns), Queue(s)[i])
    decreases |turns|
  {
    var (r, turned) := (Queue(s)[i], TurnTrace(cfg, s, turns[0]));
    assert turns[0] in turns;
    TurnAttempts(cfg, s, turns[0]);
    TurnNeverCrashes(cfg, s, turns[0]);
    var s' := Run(cfg, s, turned);
    AttemptedEither(cfg, s, turned, TurnsTrace(cfg, s', turns[1..]), r);
    if !EverAttempted(cfg, s, turned, r) {
      var j := RunAdvances(cfg, s, turned, i);
      FewerSeen(turns[1..], final, s'.hist.owners.Keys, s.hist.owners.Keys + NewRoots(turns[0].world.result));
      QueuedRootIsTriedByTurns(cfg, s', turns[1..], final, j);
    }
  }

  /**
    A root at position i of the queue is attempted within the next i + 1 turns of the
    runner, from any reachable state in which it waits, as long as their contexts are live
    and Slack answers a late edit in each, even if only to refuse it.
   */
  lemma EveryQueuedRootIsTriedByTheLoop(cfg: Config, past: seq<Event>, turns: seq<Turn>, final: World, i: nat)
    requires var s := Reached(cfg, past);
             Idling(s) && Unseen(turns, final, s.hist.owners.Keys) && i < |Queue(s)|
    requires Willing(turns) && |turns| > i
    ensures var s := Reached(cfg, past);
            EverAttempted(cfg, s, LoopTrace(cfg, s, turns, final), Queue(s)[i])
  {
    var s := Reached(cfg, past);
    ReachedInv(cfg, past);
    QueuedRootIsTriedByTurns(cfg, s, turns, final, i);
    var turned := TurnsTrace(cfg, s, turns);
    var last := [SealTracker] + DeliverTrace(cfg, Step(cfg, Run(cfg, s, turned), SealTracker), final);
    AttemptedEither(cfg, s, turned, last, Queue(s)[i]);
  }

  // ---- What a pass and a turn always do ----

  lemma CallIs(cfg: Config, s: System, w: World)
    requires Idling(s)
    ensures var planned := Step(cfg, s, PlanCall(w.now, w.markerSaved));
            planned.proc.Up? &&
            CallTrace(cfg, s, w) ==
            if planned.proc.flight.Calling?
            then [PlanCall(w.now, w.markerSaved)] + Observed(w.duringCall) + [CallReturns(w.result, w.resultSaved)]
            else [PlanCall(w.now, w.markerSaved)]
  {
  }

  lemma DeliverStarts(cfg: Config, s: System, w: World)
    requires !w.contextDone
    ensures var early := Observed(w.beforePlan);
            early + CallTrace(cfg, Run(cfg, s, early), w) <= DeliverTrace(cfg, s, w)
  {
    var early := Observed(w.beforePlan);
    var planning := Run(cfg, s, early);
    var call := CallTrace(cfg, planning, w);
    var edits := EditTrace(Run(cfg, planning, call + Observed(w.beforeEdits)), w);
    assert DeliverTrace(cfg, s, w) == (early + call) + (Observed(w.beforeEdits) + edits);
  }

  /** A live pass plans before anything else, and a call it planned is made and its answer applied. */
  lemma APassPlansAndCalls(cfg: Config, s: System, w: World)
    requires Idling(s) && !w.contextDone
    ensures var planning := Run(cfg, s, Observed(w.beforePlan));
            var planned := Step(cfg, planning, PlanCall(w.now, w.markerSaved));
            var call := [PlanCall(w.now, w.markerSaved)]
                        + if planned.proc.Up? && planned.proc.flight.Calling?
                          then Observed(w.duringCall) + [CallReturns(w.result, w.resultSaved)] else [];
            Observed(w.beforePlan) + call <= DeliverTrace(cfg, s, w)
  {
    ObservationsKeep(cfg, s, w.beforePlan);
    CallIs(cfg, Run(cfg, s, Observed(w.beforePlan)), w);
    DeliverStarts(cfg, s, w);
  }

  /** A turn ends with a probe that returns exactly if one is due when it is decided. */
  lemma ATurnProbesExactlyWhenDue(cfg: Config, s: System, turn: Turn)
    requires Idling(s) && NewRoots(turn.world.result) !! s.hist.owners.Keys
    ensures var delivered := Run(cfg, s, WaitTrace(cfg, s, turn) + Observed(turn.beforeProbe));
            var (p, trace) := (turn.probing, TurnTrace(cfg, s, turn));
            && delivered.proc.Up? && trace != []
            && (trace[|trace| - 1] == ProbeReturns(p.outcome, p.now, p.saved) <==>
                  Spec.ProbeDue(cfg, delivered.proc.mem, p.decidedAt))
  {
    WaitAttempts(cfg, s, turn);
    RunSplits(cfg, s, WaitTrace(cfg, s, turn), Observed(turn.beforeProbe));
    ObservationsKeep(cfg, Run(cfg, s, WaitTrace(cfg, s, turn)), turn.beforeProbe);
  }
}
