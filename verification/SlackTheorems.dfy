/** The main results about Slack delivery, over every run from an empty store. */
module SlackTheorems {
  import opened Option
  import opened Health
  import opened RollUp
  import opened SlackSystem
  import opened SlackSafety
  import Spec = TrackerSpec
  import Late = LateRoots

  /** The state a run from a fresh database ends in. */
  function Reached(cfg: Config, events: seq<Event>): System {
    Run(cfg, INITIAL, events)
  }

  lemma ReachedInv(cfg: Config, events: seq<Event>)
    ensures Inv(Reached(cfg, events))
  {
    RunKeeps(cfg, INITIAL, events);
  }

  /** The generation number an outage's POST carries. */
  function PostGeneration(outage: int): int {
    2 * outage - 1
  }

  // ---- One root per episode ----

  /**
    Crashes, restarts, failed writes, rejections and unanswered POSTs included, an
    episode has at most one root POST that was not definitely rejected, and at most
    one accepted root. The store always knows of the latest POST: its generation
    never falls behind, and at that generation it forbids posting again.
   */
  lemma OneRootPerEpisode(cfg: Config, events: seq<Event>)
    ensures var s := Reached(cfg, events);
            && OnePostEach(s.hist.posts)
            && (forall r1, r2 :: r1 in s.hist.owners && r2 in s.hist.owners && s.hist.owners[r1] == s.hist.owners[r2]
                  ==> r1 == r2)
            && (forall p :: p in s.hist.posts ==> p.generation <= s.disk.rec.slackGeneration)
            && (forall p :: p in s.hist.posts && p.generation == s.disk.rec.slackGeneration && !p.fate.Rejected? ==>
                  s.disk.rec.delivery !in {NotStarted, Pending})
            && (forall p :: p in s.hist.posts ==>
                  exists outage :: outage <= s.disk.rec.outageGeneration && p.generation == PostGeneration(outage))
  {
    var s := Reached(cfg, events);
    ReachedInv(cfg, events);
    forall r1, r2 | r1 in s.hist.owners && r2 in s.hist.owners && s.hist.owners[r1] == s.hist.owners[r2]
      ensures r1 == r2
    {
      var i :| 0 <= i < |s.hist.posts| && s.hist.posts[i] == PostEvent(s.hist.owners[r1], Accepted(r1));
      var j :| 0 <= j < |s.hist.posts| && s.hist.posts[j] == PostEvent(s.hist.owners[r2], Accepted(r2));
      assert i == j;
    }
    forall p | p in s.hist.posts
      ensures exists outage :: outage <= s.disk.rec.outageGeneration && p.generation == PostGeneration(outage)
    {
      assert p.generation == PostGeneration((p.generation + 1) / 2);
    }
  }

  // ---- The generation law ----

  lemma GenerationLaw(cfg: Config, events: seq<Event>)
    ensures var s := Reached(cfg, events);
            LawOk(s.disk.rec) && (s.proc.Up? ==> LawOk(s.proc.mem.rec))
  {
    ReachedInv(cfg, events);
  }

  /**
    When an accepted root comes back too late for its own generation, it is never
    orphaned: it is adopted exactly when its own episode has just closed and no
    other has begun, and queued with its own episode's duration otherwise.
   */
  lemma LateSuccessIsNeverOrphaned(cfg: Config, events: seq<Event>, root: Root)
    requires var s := Reached(cfg, events);
             CanReturn(s, Landed(root)) && s.proc.flight.plan.Post?
    ensures var s := Reached(cfg, events);
            var (mem, g) := (s.proc.mem, s.proc.flight.plan.generation);
            g in mem.posts && g <= mem.rec.slackGeneration &&
            (g < mem.rec.slackGeneration ==>
               var op := mem.posts[g];
               && Spec.AdoptionOf(mem.rec, g, op) != Spec.Orphaned
               && (Spec.AdoptionOf(mem.rec, g, op) == Spec.Adopted <==>
                     g == PostGeneration(mem.rec.outageGeneration) && mem.rec.state == Healthy)
               && g in s.hist.closedFor && op.downFor == s.hist.closedFor[g])
  {
    ReachedInv(cfg, events);
  }

  // ---- Where every accepted root is ----

  /** The coordinates stored on a record are those of that record's own episode. */
  predicate CoordinatesBelong(rec: HealthRecord, h: History) {
    && (rec.delivery == Delivered ==>
          rec.root in h.owners && h.owners[rec.root] == PostGeneration(rec.outageGeneration) && rec.state != Healthy)
    && (rec.delivery == RecoveryPending ==>
          rec.root in h.owners && h.owners[rec.root] == PostGeneration(rec.outageGeneration) && rec.state == Healthy)
    && (forall late :: late in rec.lateRoots ==>
          late.root in h.owners && h.owners[late.root] in h.closedFor &&
          late.downForMs == Millis(h.closedFor[h.owners[late.root]]))
  }

  /** The root is held by the record for its current or its recovery edit, or it is accounted for otherwise. */
  predicate Somewhere(rec: HealthRecord, h: History, root: Root) {
    root in Tracked(rec) || root in h.recovered || root in h.abandoned || root in h.lost
  }

  /**
    Every root Slack accepted is held as the current episode's root, or awaits its
    recovery edit (in the record or in the queue), or was edited to recovered, or
    was abandoned, or was lost in a crash: in memory while the process lives, in the
    store while it does not. Stored coordinates and queued durations always belong to
    the root's own episode.
   */
  lemma EveryRootIsAccountedFor(cfg: Config, events: seq<Event>, root: Root)
    requires root in Reached(cfg, events).hist.owners
    ensures var s := Reached(cfg, events);
            && CoordinatesBelong(s.disk.rec, s.hist)
            && match s.proc
               case Down => Somewhere(s.disk.rec, s.hist, root)
               case Up(mem, _) => CoordinatesBelong(mem.rec, s.hist) && Somewhere(mem.rec, s.hist, root)
  {
    var s := Reached(cfg, events);
    ReachedInv(cfg, events);
    RecordBelongs(s.disk.rec, s.hist);
    if s.proc.Up? {
      RecordBelongs(s.proc.mem.rec, s.hist);
    }
  }

  lemma RecordBelongs(rec: HealthRecord, h: History)
    requires RecOk(rec, h)
    ensures CoordinatesBelong(rec, h)
  {
    forall late | late in rec.lateRoots
      ensures late.root in h.owners && h.owners[late.root] in h.closedFor &&
              late.downForMs == Millis(h.closedFor[h.owners[late.root]])
    {
      var i :| 0 <= i < |rec.lateRoots| && rec.lateRoots[i] == late;
      assert LateOk(rec.lateRoots[i], rec, h);
    }
  }

  /** The event writes the store successfully, if it writes at all; a failed marker stops its POST instead. */
  predicate Saves(e: Event) {
    match e
    case FinishCall(_, _, _, _, saved) => saved
    case ProbeReturns(_, _, saved) => saved
    case CallReturns(_, saved) => saved
    case LateEditsReturn(_, saved) => saved
    case _ => true
  }

  /**
    A root is lost only by a crash after a failed write: while the process lives, and
    across any crashes as long as writes succeed, no root is lost. With a store that
    does not fail, memory and disk never disagree on the record.
   */
  lemma RootsAreLostOnlyByCrashAfterFailedWrite(cfg: Config, events: seq<Event>)
    ensures (forall e :: e in events ==> !e.Crash?) ==> Reached(cfg, events).hist.lost == {}
    ensures (forall e :: e in events ==> Saves(e)) ==>
              var s := Reached(cfg, events);
              s.hist.lost == {} && (s.proc.Up? ==> s.proc.mem.rec == s.disk.rec)
  {
    if forall e :: e in events ==> !e.Crash? {
      NoCrashLosesNothing(cfg, INITIAL, events);
    }
    if forall e :: e in events ==> Saves(e) {
      SavedRunAgrees(cfg, INITIAL, events);
    }
  }

  lemma {:induction false} NoCrashLosesNothing(cfg: Config, s: System, events: seq<Event>)
    requires forall e :: e in events ==> !e.Crash?
    ensures Run(cfg, s, events).hist.lost == s.hist.lost
    decreases |events|
  {
    if events == [] {
    } else {
      assert !events[0].Crash?;
      NoCrashLosesNothing(cfg, Step(cfg, s, events[0]), events[1..]);
    }
  }

  /** Memory and store do not disagree on the record. */
  predicate Agrees(s: System) {
    s.proc.Up? ==> s.proc.mem.rec == s.disk.rec
  }

  /** No process dies, or no write fails from a state where memory and store agree: nothing is forgotten. */
  predicate Unbroken(s: System, events: seq<Event>) {
    (forall e :: e in events ==> !e.Crash?) || (Agrees(s) && forall e :: e in events ==> Saves(e))
  }

  lemma UnbrokenOn(cfg: Config, s: System, events: seq<Event>)
    requires events != [] && Unbroken(s, events)
    ensures Unbroken(Step(cfg, s, events[0]), events[1..])
    ensures events[0].Crash? ==> Agrees(s)
  {
    assert events[0] in events;
    if Agrees(s) && forall e :: e in events ==> Saves(e) {
      SavedStepAgrees(cfg, s, events[0]);
    }
  }

  lemma {:induction false} SavedRunAgrees(cfg: Config, s: System, events: seq<Event>)
    requires Agrees(s) && forall e :: e in events ==> Saves(e)
    ensures Agrees(Run(cfg, s, events)) && Run(cfg, s, events).hist.lost == s.hist.lost
    decreases |events|
  {
    if events == [] {
    } else {
      assert Saves(events[0]);
      SavedStepAgrees(cfg, s, events[0]);
      SavedRunAgrees(cfg, Step(cfg, s, events[0]), events[1..]);
    }
  }

  lemma SavedStepAgrees(cfg: Config, s: System, e: Event)
    requires Agrees(s) && Saves(e)
    ensures Agrees(Step(cfg, s, e)) && Step(cfg, s, e).hist.lost == s.hist.lost
  {
    match e
    case FinishCall(c, subject, reason, now, saved) =>
    case CallReturns(result, saved) =>
      if CanReturn(s, result) {
        if !Spec.ResultPersists(s.proc.mem, s.proc.flight.plan, result) {
          UnsavedResultKeepsRec(s.proc.mem, s.proc.flight.plan, result);
        }
      }
    case LateEditsReturn(outcomes, saved) =>
      if CanFinishEdits(s, outcomes) {
        var (queue, pending) := (s.proc.mem.rec.lateRoots, s.proc.flight.pending);
        var (edited, failed) := (Late.Attempted(pending, outcomes, true), Late.Attempted(pending, outcomes, false));
        if !Late.RotationPersists(queue, edited, failed) {
          UnsavedRotationKeepsQueue(queue, edited, failed);
        }
      }
    case _ =>
  }

  lemma UnsavedResultKeepsRec(mem: Memory, plan: Plan, result: CallResult)
    requires !plan.NoPlan? && !Spec.ResultPersists(mem, plan, result)
    ensures Spec.ApplyResult(mem, plan, result).rec == mem.rec
  {
  }

  lemma UnsavedRotationKeepsQueue(queue: seq<LateRoot>, edited: set<LateRoot>, failed: set<LateRoot>)
    requires !Late.RotationPersists(queue, edited, failed)
    ensures Late.Rotate(queue, edited, failed) == queue
  {
    Late.RotateNothing(queue);
  }

  /** Every recovery edit reports the duration of the edited root's own episode. */
  lemma RecoveryEditsReportTheirOwnEpisode(cfg: Config, events: seq<Event>)
    requires var s := Reached(cfg, events);
             s.proc.Up? && s.proc.flight.Calling? && s.proc.flight.plan.UpdateRecovery?
    ensures var s := Reached(cfg, events);
            var plan := s.proc.flight.plan;
            && plan.root in s.hist.owners && s.hist.owners[plan.root] in s.hist.closedFor
            && plan.down == s.hist.closedFor[s.hist.owners[plan.root]]
  {
    ReachedInv(cfg, events);
  }

  /** Roots that belong to episodes over by this generation. */
  predicate OldRoots(roots: set<Root>, h: History, generation: int) {
    forall r :: r in roots ==> r in h.owners && h.owners[r] < generation
  }

  /** Every recovered root's episode is over, as far as memory knows, or the store while the process is down. */
  predicate RecoveredOk(s: System) {
    match s.proc
    case Down => OldRoots(s.hist.recovered, s.hist, s.disk.rec.slackGeneration)
    case Up(mem, flight) =>
      && OldRoots(s.hist.recovered, s.hist, mem.rec.slackGeneration)
      && (flight.Calling? && flight.plan.UpdateState? ==> flight.plan.root !in s.hist.recovered)
  }

  lemma RecoveredStayOld(cfg: Config, s: System, e: Event)
    requires Inv(s) && RecoveredOk(s) && (e.Crash? ==> Agrees(s))
    ensures RecoveredOk(Step(cfg, s, e))
  {
    if s.proc.Up? {
      var mem := s.proc.mem;
      match e
      case FinishCall(c, subject, reason, now, saved) =>
        FinishMoves(mem, c, subject, reason, now);
        MovesKeepRecovered(s, Spec.Finish(mem, c, subject, reason, now), now, saved && Spec.Recorded(mem, reason));
      case ProbeReturns(outcome, now, saved) =>
        ProbeMoves(mem, outcome, now);
        MovesKeepRecovered(s, Spec.ObserveProbe(mem, outcome, now), now, saved && !mem.sealed);
      case PlanCall(now, saved) =>
        PlansSpareRecovered(cfg, mem, now, saved, s.hist);
      case CallReturns(result, saved) =>
        if CanReturn(s, result) {
          ReturnKeepsRecovered(mem, s.proc.flight.plan, result, s.hist);
        }
      case LateEditsReturn(outcomes, saved) =>
        if CanFinishEdits(s, outcomes) {
          QueuedRootsAreOld(mem.rec, s.hist, Late.Attempted(s.proc.flight.pending, outcomes, true));
        }
      case _ =>
    }
  }

  lemma MovesKeepRecovered(s: System, mem': Memory, now: Time, saved: bool)
    requires s.proc.Up? && RecoveredOk(s) && Moves(s.proc.mem, mem', now)
    ensures RecoveredOk(Observe(s, mem', now, saved))
  {
  }

  /** A state edit is planned for the root of the running episode, which no recovered root is. */
  lemma PlansSpareRecovered(cfg: Config, mem: Memory, now: Time, saved: bool, h: History)
    requires RecOk(mem.rec, h) && OldRoots(h.recovered, h, mem.rec.slackGeneration)
    ensures var (mem', plan) := Spec.PlanDelivery(cfg, mem, now, saved);
            && mem'.rec.slackGeneration == mem.rec.slackGeneration
            && (plan.UpdateState? ==> plan.root !in h.recovered)
  {
  }

  lemma ReturnKeepsRecovered(mem: Memory, plan: Plan, result: CallResult, h: History)
    requires FlightOk(mem, Calling(plan), h) && OldRoots(h.recovered, h, mem.rec.slackGeneration)
    requires plan.Post? && result.Landed? ==> result.root !in h.owners
    ensures var h' := Returned(h, plan, result);
            && OldRoots(h'.recovered, h', mem.rec.slackGeneration)
            && Spec.ApplyResult(mem, plan, result).rec.slackGeneration == mem.rec.slackGeneration
  {
  }

  lemma QueuedRootsAreOld(rec: HealthRecord, h: History, edited: set<LateRoot>)
    requires RecOk(rec, h) && forall late :: late in edited ==> late in rec.lateRoots
    ensures OldRoots(set late | late in edited :: late.root, h, rec.slackGeneration)
  {
    forall r | r in (set late | late in edited :: late.root)
      ensures r in h.owners && h.owners[r] < rec.slackGeneration
    {
      var late :| late in edited && late.root == r;
      var i :| 0 <= i < |rec.lateRoots| && rec.lateRoots[i] == late;
      assert LateOk(rec.lateRoots[i], rec, h);
    }
  }

  lemma {:induction false} RunKeepsRecovered(cfg: Config, s: System, events: seq<Event>)
    requires Inv(s) && RecoveredOk(s) && Unbroken(s, events)
    ensures RecoveredOk(Run(cfg, s, events))
    decreases |events|
  {
    if events == [] {
    } else {
      UnbrokenOn(cfg, s, events);
      RecoveredStayOld(cfg, s, events[0]);
      StepKeeps(cfg, s, events[0]);
      RunKeepsRecovered(cfg, Step(cfg, s, events[0]), events[1..]);
    }
  }

  /**
    A root edited to recovered is never edited back to an outage text: by the process that
    edited it, whatever happens; by any process, while none dies or all writes succeed.
   */
  lemma RecoveredTextIsFinal(cfg: Config, events: seq<Event>)
    requires var s := Reached(cfg, events);
             s.proc.Up? && s.proc.flight.Calling? && s.proc.flight.plan.UpdateState?
    ensures var s := Reached(cfg, events);
            && s.proc.flight.plan.root !in s.hist.settled
            && (Unbroken(INITIAL, events) ==> s.proc.flight.plan.root !in s.hist.recovered)
  {
    ReachedInv(cfg, events);
    if Unbroken(INITIAL, events) {
      RunKeepsRecovered(cfg, INITIAL, events);
    }
  }

  /**
    The event begins an outage while the root, and not the queue, is what awaits the
    previous one's recovery edit: all of it read before the event.
   */
  predicate Preempts(s: System, e: Event, root: Root)
    requires s.proc.Up?
  {
    var rec := s.proc.mem.rec;
    rec.delivery == RecoveryPending && rec.root == root && root !in LateSet(rec) && BeginsOutage(s, e)
  }

  /**
    "Every delivered root ends recovered" fails in one way only. A living process stops
    tracking a root that was not edited to recovered exactly when a new outage begins
    while that root is the one awaiting recovery.
   */
  lemma AbandonedExactlyWhenAnOutagePreempts(cfg: Config, events: seq<Event>, e: Event, root: Root)
    requires var s := Reached(cfg, events);
             s.proc.Up? && !e.Crash? && root in Tracked(s.proc.mem.rec) && root !in s.hist.recovered
    ensures var s := Reached(cfg, events);
            var s' := Step(cfg, s, e);
            && s'.proc.Up?
            && (root !in Tracked(s'.proc.mem.rec) && root !in s'.hist.recovered <==> Preempts(s, e, root))
  {
    var s := Reached(cfg, events);
    ReachedInv(cfg, events);
    EveryRunIsRolledUp(cfg, events);
    OutageBeginsExactlyWhen(cfg, s, e);
    StepTracks(cfg, s, e);
  }

  /** A step stops tracking only what it edits, except that opening an outage forgets the record's own root. */
  lemma StepTracks(cfg: Config, s: System, e: Event)
    requires Inv(s) && s.proc.Up? && !e.Crash?
    ensures var s' := Step(cfg, s, e);
            && s'.proc.Up? && s.hist.recovered <= s'.hist.recovered
            && if Opens(s.proc.mem.rec, s'.proc.mem.rec)
               then Tracked(s'.proc.mem.rec) == LateSet(s.proc.mem.rec) && s'.hist.recovered == s.hist.recovered
               else Tracked(s.proc.mem.rec) <= Tracked(s'.proc.mem.rec) + s'.hist.recovered
  {
    match e
    case FinishCall(c, subject, reason, now, saved) =>
      FinishMoves(s.proc.mem, c, subject, reason, now);
      ObservationTracks(s.proc.mem, Spec.Finish(s.proc.mem, c, subject, reason, now), now);
    case ProbeReturns(outcome, now, saved) =>
      ProbeMoves(s.proc.mem, outcome, now);
      ObservationTracks(s.proc.mem, Spec.ObserveProbe(s.proc.mem, outcome, now), now);
    case PlanCall(now, saved) =>
      PlanTracks(cfg, s.proc.mem, now, saved);
    case CallReturns(result, saved) =>
      if CanReturn(s, result) {
        ReturnTracks(s.proc.mem, s.proc.flight.plan, result, s.hist);
      }
    case LateEditsReturn(outcomes, saved) =>
      if CanFinishEdits(s, outcomes) {
        RotateKeepsTracked(s.proc.mem.rec, Late.Attempted(s.proc.flight.pending, outcomes, true),
                           Late.Attempted(s.proc.flight.pending, outcomes, false));
      }
    case _ =>
  }

  lemma PlanTracks(cfg: Config, mem: Memory, now: Time, saved: bool)
    ensures var mem' := Spec.PlanDelivery(cfg, mem, now, saved).0;
            Tracked(mem'.rec) == Tracked(mem.rec) && mem'.rec.state == mem.rec.state
  {
  }

  /** An observation stops tracking the preempted root and nothing else. */
  lemma ObservationTracks(m: Memory, m': Memory, now: Time)
    requires LawOk(m.rec) && Moves(m, m', now)
    ensures LateSet(m'.rec) == LateSet(m.rec)
    ensures if Opens(m.rec, m'.rec) then Tracked(m'.rec) == LateSet(m.rec) else Tracked(m'.rec) == Tracked(m.rec)
  {
  }

  lemma ReturnTracks(mem: Memory, plan: Plan, result: CallResult, h: History)
    requires RecOk(mem.rec, h) && HistoryOk(h) && FlightOk(mem, Calling(plan), h) && !plan.NoPlan?
    requires plan.Post? && result.Landed? ==> result.root !in h.owners
    ensures var rec' := Spec.ApplyResult(mem, plan, result).rec;
            && Tracked(mem.rec) <= Tracked(rec') + Returned(h, plan, result).recovered
            && !Opens(mem.rec, rec')
  {
    if !plan.Post? {
      EditedKeepsRec(mem, plan, result, h);
    } else if result.Landed? {
      LandedKeepsRec(mem, plan, result.root, h);
    } else {
      RefusedKeepsRec(mem, plan, result, h);
    }
  }

  /** An outage is posted, recovers, and recurs before the recovery edit goes out. */
  const SCRIPT: seq<Event> := [
    Restart(0),
    FinishCall(TriageDraft, "i1", Timeout, 0, true),
    PlanCall(300_000_000_000, true),
    CallReturns(Landed(Root("C1", "1.0")), true),
    FinishCall(TriageDraft, "i1", ReasonOk, 600_000_000_000, true),
    FinishCall(TriageDraft, "i2", Timeout, 601_000_000_000, true)]

  /** "Every delivered root ends recovered" fails: SCRIPT abandons its root, with no crash and no failed write. */
  lemma ARootCanBeAbandoned(cfg: Config)
    requires cfg.broadcastAfter == 300_000_000_000
    ensures var (s, root) := (Reached(cfg, SCRIPT), Root("C1", "1.0"));
            root in s.hist.abandoned && s.proc.Up? && root !in Tracked(s.proc.mem.rec) && root !in s.hist.recovered
  {
    ScriptRecovers(cfg);
    var s5 := Reached(cfg, SCRIPT[..5]);
    RunAppend(cfg, INITIAL, SCRIPT[..5], SCRIPT[5]);
    assert SCRIPT[..5] + [SCRIPT[5]] == SCRIPT;
    TriageFails(s5.proc.mem, "i2", 601_000_000_000);
  }

  lemma {:induction false} RunAppend(cfg: Config, s: System, events: seq<Event>, e: Event)
    ensures Run(cfg, s, events + [e]) == Step(cfg, Run(cfg, s, events), e)
    decreases |events|
  {
    if events == [] {
      assert events + [e] == [e];
    } else {
      assert (events + [e])[1..] == events[1..] + [e];
      RunAppend(cfg, Step(cfg, s, events[0]), events[1..], e);
    }
  }

  lemma ScriptPosts(cfg: Config)
    requires cfg.broadcastAfter == 300_000_000_000
    ensures var s := Reached(cfg, SCRIPT[..3]);
            && s.proc.Up? && !s.proc.mem.sealed && s.proc.mem.caps.Keys == {TriageDraft}
            && s.proc.flight == Calling(Post(1, Unavailable, 300_000_000_000))
            && s.proc.mem.rec.slackGeneration == 1 && s.proc.mem.rec.state == Unavailable
            && s.proc.mem.rec.lateRoots == [] && s.hist.owners == map[] && s.hist.recovered == {}
  {
    ScriptFails(cfg);
    assert SCRIPT[..3] == SCRIPT[..2] + [SCRIPT[2]];
    RunAppend(cfg, INITIAL, SCRIPT[..2], SCRIPT[2]);
  }

  lemma ScriptFails(cfg: Config)
    ensures var s := Reached(cfg, SCRIPT[..2]);
            && s.proc.Up? && !s.proc.mem.sealed && s.proc.mem.caps.Keys == {TriageDraft}
            && s.proc.flight == Idle && s.proc.mem.rec.unhealthySince == Some(0)
            && s.proc.mem.rec.slackGeneration == 1 && s.proc.mem.rec.state == Unavailable
            && s.proc.mem.rec.delivery == NotStarted
            && s.proc.mem.rec.lateRoots == [] && s.hist.owners == map[] && s.hist.recovered == {}
  {
    var s1 := Step(cfg, INITIAL, SCRIPT[0]);
    RunAppend(cfg, INITIAL, [], SCRIPT[0]);
    assert SCRIPT[..1] == [] + [SCRIPT[0]] && SCRIPT[..2] == SCRIPT[..1] + [SCRIPT[1]];
    RunAppend(cfg, INITIAL, SCRIPT[..1], SCRIPT[1]);
    TriageFails(s1.proc.mem, "i1", 0);
  }

  lemma ScriptLands(cfg: Config)
    requires cfg.broadcastAfter == 300_000_000_000
    ensures var s := Reached(cfg, SCRIPT[..4]);
            && s.proc.Up? && !s.proc.mem.sealed && s.proc.mem.caps.Keys == {TriageDraft}
            && s.proc.mem.rec.state == Unavailable && s.proc.mem.rec.delivery == Delivered
            && s.proc.mem.rec.root == Root("C1", "1.0")
            && s.proc.mem.rec.lateRoots == [] && s.hist.recovered == {}
  {
    ScriptPosts(cfg);
    assert SCRIPT[..4] == SCRIPT[..3] + [SCRIPT[3]];
    RunAppend(cfg, INITIAL, SCRIPT[..3], SCRIPT[3]);
  }

  lemma ScriptRecovers(cfg: Config)
    requires cfg.broadcastAfter == 300_000_000_000
    ensures var s := Reached(cfg, SCRIPT[..5]);
            && s.proc.Up? && !s.proc.mem.sealed && s.proc.mem.rec.state == Healthy
            && s.proc.mem.rec.delivery == RecoveryPending && s.proc.mem.rec.root == Root("C1", "1.0")
            && s.proc.mem.rec.lateRoots == [] && s.hist.recovered == {}
  {
    ScriptLands(cfg);
    assert SCRIPT[..5] == SCRIPT[..4] + [SCRIPT[4]];
    RunAppend(cfg, INITIAL, SCRIPT[..4], SCRIPT[4]);
    TriageSucceeds(Reached(cfg, SCRIPT[..4]).proc.mem, "i1", 600_000_000_000);
  }

  /** A dependency failure of triage on an open tracker makes the roll-up unavailable. */
  lemma TriageFails(m: Memory, subject: string, now: Time)
    requires !m.sealed
    ensures var m' := Spec.Finish(m, TriageDraft, subject, Timeout, now);
            && m'.rec.state == Unavailable && m'.caps == Spec.MarkUnhealthy(m.caps, TriageDraft, Timeout, now)
            && (m.rec.state == Healthy ==>
                  && m'.rec.slackGeneration == m.rec.slackGeneration + 1
                  && m'.rec.unhealthySince == Some(now) && m'.rec.delivery == NotStarted
                  && m'.rec.lateRoots == m.rec.lateRoots)
  {
  }

  /** A success of triage, when nothing else was ever observed, makes it healthy. */
  lemma TriageSucceeds(m: Memory, subject: string, now: Time)
    requires !m.sealed && m.caps.Keys == {TriageDraft} && m.rec.state != Healthy && m.rec.delivery == Delivered
    ensures var m' := Spec.Finish(m, TriageDraft, subject, ReasonOk, now);
            m'.rec.state == Healthy && m'.rec.delivery == RecoveryPending && m'.rec.root == m.rec.root &&
            m'.rec.lateRoots == m.rec.lateRoots && m'.caps.Keys == {TriageDraft}
  {
    var caps := Spec.ObserveCall(m.caps, TriageDraft, subject, ReasonOk, now);
    assert caps.Keys == {TriageDraft} && caps[TriageDraft].healthy;
    FirstUnhealthyIs(caps, ROLL_UP_ORDER);
  }

  // ---- After the seal ----

  /** What the seal freezes: the roll-up, both generations, the episode and every capability record. */
  predicate Frozen(a: Memory, b: Memory) {
    && b.sealed && a.caps == b.caps && a.rec.state == b.rec.state && a.rec.reason == b.rec.reason
    && a.rec.outageGeneration == b.rec.outageGeneration && a.rec.slackGeneration == b.rec.slackGeneration
    && a.rec.unhealthySince == b.rec.unhealthySince && a.rec.recoveredAt == b.rec.recoveredAt
  }

  /** The call in flight was planned for the record's present generation. */
  predicate Current(mem: Memory, flight: Flight) {
    flight.Calling? ==> !flight.plan.NoPlan? && flight.plan.generation == mem.rec.slackGeneration
  }

  /**
    Once sealed, no event but the death of the process changes what was sealed, and a
    pass that starts with nothing in flight has no stale result: every call returns
    into the generation it was planned for.
   */
  lemma {:induction false} SealFreezes(cfg: Config, s: System, events: seq<Event>)
    requires s.proc.Up? && s.proc.mem.sealed
    requires Current(s.proc.mem, s.proc.flight)
    requires forall e :: e in events ==> !e.Crash?
    ensures var s' := Run(cfg, s, events);
            && s'.proc.Up? && Frozen(s.proc.mem, s'.proc.mem) && Current(s'.proc.mem, s'.proc.flight)
    decreases |events|
  {
    if events == [] {
    } else {
      var s1 := Step(cfg, s, events[0]);
      assert events[0] in events;
      SealedStep(cfg, s, events[0]);
      SealFreezes(cfg, s1, events[1..]);
    }
  }

  lemma SealedStep(cfg: Config, s: System, e: Event)
    requires s.proc.Up? && s.proc.mem.sealed
    requires Current(s.proc.mem, s.proc.flight) && !e.Crash?
    ensures var s' := Step(cfg, s, e);
            && s'.proc.Up? && Frozen(s.proc.mem, s'.proc.mem) && Current(s'.proc.mem, s'.proc.flight)
  {
    match e
    case PlanCall(now, saved) =>
    case CallReturns(result, saved) =>
      if CanReturn(s, result) {
        SealedReturn(s.proc.mem, s.proc.flight.plan, result);
      }
    case _ =>
  }

  lemma SealedReturn(mem: Memory, plan: Plan, result: CallResult)
    requires !plan.NoPlan? && mem.sealed && plan.generation == mem.rec.slackGeneration
    ensures Frozen(mem, Spec.ApplyResult(mem, plan, result))
  {
  }
}
