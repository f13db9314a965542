/**
  What every run of SlackSystem keeps: one root POST per episode, the generation
  law, and an account of every root Slack ever accepted.
 */
module SlackSafety {
  import opened Option
  import opened Health
  import opened SlackSystem
  import Spec = TrackerSpec
  import Late = LateRoots

  // ---- The invariant ----

  /** The generation law, and which delivery phases go with which state. */
  predicate LawOk(rec: HealthRecord) {
    && rec.outageGeneration >= 0
    && rec.slackGeneration == 2 * rec.outageGeneration - (if rec.state != Healthy then 1 else 0)
    && (rec.state != Healthy ==> rec.delivery in {NotStarted, Pending, Delivered, Indeterminate})
    && (rec.state == Healthy ==> rec.delivery in {NotStarted, RecoveryPending, Recovered, Suppressed})
    && (rec.state != Healthy || rec.delivery == RecoveryPending ==> rec.unhealthySince != None)
    && (rec.delivery == RecoveryPending ==> rec.recoveredAt != None)
  }

  /** The late root belongs to an episode closed before the record's generation and carries its length. */
  predicate LateOk(late: LateRoot, rec: HealthRecord, h: History) {
    && late.root in h.owners
    && h.owners[late.root] < rec.slackGeneration
    && h.owners[late.root] in h.closedFor
    && late.downForMs == Millis(h.closedFor[h.owners[late.root]])
  }

  /** The stored coordinates belong to the record's own episode, and so does the length it will report. */
  predicate RootsOk(rec: HealthRecord, h: History) {
    && (rec.delivery == Delivered ==> rec.root in h.owners && h.owners[rec.root] == rec.slackGeneration)
    && (rec.delivery == RecoveryPending ==>
          && rec.root in h.owners && h.owners[rec.root] == rec.slackGeneration - 1
          && rec.slackGeneration - 1 in h.closedFor
          && rec.unhealthySince != None && rec.recoveredAt != None
          && h.closedFor[rec.slackGeneration - 1] == rec.recoveredAt.value - rec.unhealthySince.value)
    && (rec.delivery == Recovered ==> rec.root in h.recovered)
    && (forall i :: 0 <= i < |rec.lateRoots| ==> LateOk(rec.lateRoots[i], rec, h))
  }

  /** No POST is ahead of the record, and one that may stand forbids another. */
  predicate PostsOk(rec: HealthRecord, h: History) {
    forall i :: 0 <= i < |h.posts| ==>
      && h.posts[i].generation <= rec.slackGeneration
      && (h.posts[i].generation == rec.slackGeneration && !h.posts[i].fate.Rejected? ==>
            rec.delivery !in {NotStarted, Pending})
  }

  predicate RecOk(rec: HealthRecord, h: History) {
    LawOk(rec) && RootsOk(rec, h) && PostsOk(rec, h)
  }

  predicate OnePostEach(posts: seq<PostEvent>) {
    forall i, j :: 0 <= i < j < |posts| && posts[i].generation == posts[j].generation ==>
      posts[i].fate.Rejected? || posts[j].fate.Rejected?
  }

  predicate HistoryOk(h: History) {
    && OnePostEach(h.posts)
    && (forall r :: r in h.owners ==> PostEvent(h.owners[r], Accepted(r)) in h.posts)
    && (forall i :: 0 <= i < |h.posts| ==>
          h.posts[i].generation % 2 == 1 && (h.posts[i].fate.InFlight? ==> i == |h.posts| - 1))
  }

  /** The POST in flight is the last one, and its outstanding entry knows whether its episode closed. */
  predicate PostingOk(mem: Memory, g: int, h: History) {
    && |h.posts| > 0 && h.posts[|h.posts| - 1] == PostEvent(g, InFlight)
    && mem.posts.Keys == {g}
    && g <= mem.rec.slackGeneration
    && (g == mem.rec.slackGeneration ==> mem.rec.delivery == Indeterminate && mem.rec.state != Healthy)
    && (g < mem.rec.slackGeneration ==>
          mem.posts[g].closed && g in h.closedFor && mem.posts[g].downFor == h.closedFor[g])
    && (g + 1 == mem.rec.slackGeneration ==> mem.rec.state == Healthy && mem.rec.delivery == Suppressed)
    && (g == mem.rec.slackGeneration || g + 1 == mem.rec.slackGeneration ==> mem.rec.unhealthySince != None)
    && (g + 1 == mem.rec.slackGeneration ==>
          mem.rec.recoveredAt != None && h.closedFor[g] == mem.rec.recoveredAt.value - mem.rec.unhealthySince.value)
  }

  predicate FlightOk(mem: Memory, flight: Flight, h: History) {
    match flight
    case Idle => mem.posts == map[] && NonePending(h)
    case EditingLate(pending) => mem.posts == map[] && NonePending(h) && pending == mem.rec.lateRoots
    case Calling(plan) =>
      match plan
      case NoPlan => false
      case Post(g, _, _) => PostingOk(mem, g, h)
      case UpdateState(g, _, _, root) =>
        && mem.posts == map[] && NonePending(h) && g <= mem.rec.slackGeneration
        && root in h.owners && h.owners[root] == g && root !in h.settled
      case UpdateRecovery(g, down, root) =>
        && mem.posts == map[] && NonePending(h) && g <= mem.rec.slackGeneration
        && root in h.owners && h.owners[root] == g - 1 && g - 1 in h.closedFor && h.closedFor[g - 1] == down
        && (g == mem.rec.slackGeneration ==> mem.rec.delivery == RecoveryPending && mem.rec.root == root)
  }

  predicate NonePending(h: History) {
    forall i :: 0 <= i < |h.posts| ==> !h.posts[i].fate.InFlight?
  }

  /** Every accepted root is still tracked, or edited to recovered, or abandoned, or lost in a crash. */
  predicate Accounted(rec: HealthRecord, h: History) {
    forall r :: r in h.owners ==> r in Tracked(rec) || r in h.recovered || r in h.abandoned || r in h.lost
  }

  /** A root this process edited to recovered belongs to an episode that is over. */
  predicate SettledOk(rec: HealthRecord, h: History) {
    forall r :: r in h.settled ==> r in h.owners && h.owners[r] < rec.slackGeneration
  }

  predicate Inv(s: System) {
    && HistoryOk(s.hist)
    && RecOk(s.disk.rec, s.hist)
    && match s.proc
       case Down => NonePending(s.hist) && Accounted(s.disk.rec, s.hist) && s.hist.settled == {}
       case Up(mem, flight) =>
         && RecOk(mem.rec, s.hist)
         && s.disk.rec.slackGeneration <= mem.rec.slackGeneration
         && FlightOk(mem, flight, s.hist)
         && Accounted(mem.rec, s.hist)
         && SettledOk(mem.rec, s.hist)
  }

  // ---- Observations: how they can move a record ----

  /** The record's episode fields stay as they are, up to degraded versus unavailable. */
  predicate Stays(before: HealthRecord, after: HealthRecord) {
    && (before.state == Healthy <==> after.state == Healthy)
    && after.outageGeneration == before.outageGeneration && after.slackGeneration == before.slackGeneration
    && after.delivery == before.delivery && after.root == before.root
    && after.unhealthySince == before.unhealthySince && after.recoveredAt == before.recoveredAt
    && after.lateRoots == before.lateRoots
  }

  /** An observation leaves the episode alone, opens one, or closes one. */
  predicate Moves(m: Memory, m': Memory, now: Time) {
    || (Stays(m.rec, m'.rec) && m'.posts == m.posts)
    || (m.rec.state == Healthy && m'.rec.state != Healthy && m'.posts == m.posts &&
        Stays(Spec.BeginEpisode(m.rec, m'.rec.state, m'.rec.reason, now), m'.rec))
    || (m.rec.state != Healthy && m'.rec.state == Healthy &&
        Stays(Spec.CloseEpisode(m.rec, now), m'.rec) &&
        m'.posts == Spec.ClosePost(m.posts, m.rec.slackGeneration, Spec.DownFor(m.rec, now)))
  }

  lemma RecomputeMoves(m: Memory, now: Time)
    ensures Moves(m, Spec.Recompute(m, now), now)
  {
  }

  /** Recording a call or probe time first does not change how the record then moves. */
  lemma StayThenMove(m: Memory, m1: Memory, m2: Memory, now: Time)
    requires Stays(m.rec, m1.rec) && m1.rec.state == m.rec.state && m1.posts == m.posts && Moves(m1, m2, now)
    ensures Moves(m, m2, now)
  {
  }

  lemma FinishMoves(m: Memory, c: Capability, subject: string, reason: Reason, now: Time)
    ensures Moves(m, Spec.Finish(m, c, subject, reason, now), now)
  {
    if Spec.Recorded(m, reason) {
      var m1 := Spec.Observed(m.(inFlight := m.inFlight - 1), c, subject, reason, now);
      RecomputeMoves(m1, now);
      StayThenMove(m, m1, Spec.Recompute(m1, now), now);
    }
  }

  lemma ProbeMoves(m: Memory, outcome: ProbeOutcome, now: Time)
    ensures Moves(m, Spec.ObserveProbe(m, outcome, now), now)
  {
    if !m.sealed {
      var m1 := Spec.Probed(m, outcome, now);
      RecomputeMoves(m1, now);
      StayThenMove(m, m1, Spec.Recompute(m1, now), now);
    }
  }

  /** A closing duration recorded at or after the record's generation says nothing about the record. */
  lemma ClosingKeepsRec(rec: HealthRecord, h: History, g: int, d: int)
    requires RecOk(rec, h) && rec.slackGeneration <= g
    ensures RecOk(rec, h.(closedFor := h.closedFor[g := d]))
  {
    var h' := h.(closedFor := h.closedFor[g := d]);
    forall i | 0 <= i < |rec.lateRoots|
      ensures LateOk(rec.lateRoots[i], rec, h')
    {
      assert LateOk(rec.lateRoots[i], rec, h);
    }
  }

  lemma StayKeepsRec(before: HealthRecord, after: HealthRecord, h: History)
    requires RecOk(before, h) && Stays(before, after)
    ensures RecOk(after, h) && Tracked(after) == Tracked(before)
  {
    forall i | 0 <= i < |after.lateRoots|
      ensures LateOk(after.lateRoots[i], after, h)
    {
      assert LateOk(before.lateRoots[i], before, h);
    }
  }

  lemma OpenKeepsRec(rec: HealthRecord, h: History, state: State, reason: Reason, now: Time)
    requires RecOk(rec, h) && rec.state == Healthy && state != Healthy
    ensures RecOk(Spec.BeginEpisode(rec, state, reason, now), h)
    ensures Tracked(rec) == Tracked(Spec.BeginEpisode(rec, state, reason, now)) +
                            if rec.delivery == RecoveryPending then {rec.root} else {}
  {
    var after := Spec.BeginEpisode(rec, state, reason, now);
    forall i | 0 <= i < |after.lateRoots|
      ensures LateOk(after.lateRoots[i], after, h)
    {
      assert LateOk(rec.lateRoots[i], rec, h);
    }
  }

  lemma CloseKeepsRec(rec: HealthRecord, h: History, now: Time)
    requires RecOk(rec, h) && rec.state != Healthy
    ensures var h' := h.(closedFor := h.closedFor[rec.slackGeneration := Spec.DownFor(rec, now)]);
            RecOk(Spec.CloseEpisode(rec, now), h')
    ensures Tracked(Spec.CloseEpisode(rec, now)) == Tracked(rec)
  {
    var after := Spec.CloseEpisode(rec, now);
    var h' := h.(closedFor := h.closedFor[rec.slackGeneration := Spec.DownFor(rec, now)]);
    forall i | 0 <= i < |after.lateRoots|
      ensures LateOk(after.lateRoots[i], after, h')
    {
      assert LateOk(rec.lateRoots[i], rec, h);
    }
  }

  lemma StayKeeps(s: System, mem': Memory, now: Time, saved: bool)
    requires Inv(s) && s.proc.Up? && Stays(s.proc.mem.rec, mem'.rec) && mem'.posts == s.proc.mem.posts
    ensures Inv(Observe(s, mem', now, saved))
  {
    StayKeepsRec(s.proc.mem.rec, mem'.rec, s.hist);
  }

  /** What abandoning more roots adds says nothing about a record. */
  lemma AbandonKeepsRec(rec: HealthRecord, h: History, roots: set<Root>)
    requires RecOk(rec, h)
    ensures RecOk(rec, h.(abandoned := h.abandoned + roots))
  {
    var h' := h.(abandoned := h.abandoned + roots);
    forall i | 0 <= i < |rec.lateRoots|
      ensures LateOk(rec.lateRoots[i], rec, h')
    {
      assert LateOk(rec.lateRoots[i], rec, h);
    }
  }

  /** The root of a record that a new outage preempts. */
  function Preempted(rec: HealthRecord): set<Root> {
    if rec.delivery == RecoveryPending then {rec.root} else {}
  }

  lemma OpenKeepsMemory(rec: HealthRecord, rec': HealthRecord, h: History, now: Time)
    requires RecOk(rec, h) && Accounted(rec, h) && SettledOk(rec, h) && Opens(rec, rec')
    requires Stays(Spec.BeginEpisode(rec, rec'.state, rec'.reason, now), rec')
    ensures var h' := h.(abandoned := h.abandoned + Preempted(rec));
            RecOk(rec', h') && Accounted(rec', h') && SettledOk(rec', h')
  {
    OpenKeepsRec(rec, h, rec'.state, rec'.reason, now);
    StayKeepsRec(Spec.BeginEpisode(rec, rec'.state, rec'.reason, now), rec', h);
    AbandonKeepsRec(rec', h, Preempted(rec));
  }

  lemma OpenKeepsFlight(mem: Memory, mem': Memory, flight: Flight, h: History, now: Time)
    requires RecOk(mem.rec, h) && FlightOk(mem, flight, h) && Opens(mem.rec, mem'.rec) && mem'.posts == mem.posts
    requires Stays(Spec.BeginEpisode(mem.rec, mem'.rec.state, mem'.rec.reason, now), mem'.rec)
    ensures FlightOk(mem', flight, h.(abandoned := h.abandoned + Preempted(mem.rec)))
  {
  }

  lemma OpenKeeps(s: System, mem': Memory, now: Time, saved: bool)
    requires Inv(s) && s.proc.Up? && Opens(s.proc.mem.rec, mem'.rec) && mem'.posts == s.proc.mem.posts
    requires Stays(Spec.BeginEpisode(s.proc.mem.rec, mem'.rec.state, mem'.rec.reason, now), mem'.rec)
    ensures Inv(Observe(s, mem', now, saved))
  {
    var (rec, h) := (s.proc.mem.rec, s.hist);
    OpenKeepsMemory(rec, mem'.rec, h, now);
    OpenKeepsFlight(s.proc.mem, mem', s.proc.flight, h, now);
    AbandonKeepsRec(s.disk.rec, h, Preempted(rec));
    assert Noted(h, rec, mem'.rec, now) == h.(abandoned := h.abandoned + Preempted(rec));
  }

  lemma CloseKeeps(s: System, mem': Memory, now: Time, saved: bool)
    requires Inv(s) && s.proc.Up? && Closes(s.proc.mem.rec, mem'.rec)
    requires Stays(Spec.CloseEpisode(s.proc.mem.rec, now), mem'.rec)
    requires mem'.posts ==
             Spec.ClosePost(s.proc.mem.posts, s.proc.mem.rec.slackGeneration, Spec.DownFor(s.proc.mem.rec, now))
    ensures Inv(Observe(s, mem', now, saved))
  {
    var rec := s.proc.mem.rec;
    var h' := Noted(s.hist, rec, mem'.rec, now);
    CloseKeepsRec(rec, s.hist, now);
    StayKeepsRec(Spec.CloseEpisode(rec, now), mem'.rec, h');
    ClosingKeepsRec(s.disk.rec, s.hist, rec.slackGeneration, Spec.DownFor(rec, now));
    assert Accounted(mem'.rec, h');
    assert HistoryOk(h');
    assert FlightOk(mem', s.proc.flight, h');
  }

  lemma ObserveKeeps(s: System, mem': Memory, now: Time, saved: bool)
    requires Inv(s) && s.proc.Up? && Moves(s.proc.mem, mem', now)
    ensures Inv(Observe(s, mem', now, saved))
  {
    var rec := s.proc.mem.rec;
    if Opens(rec, mem'.rec) {
      OpenKeeps(s, mem', now, saved);
    } else if Closes(rec, mem'.rec) {
      CloseKeeps(s, mem', now, saved);
    } else {
      StayKeeps(s, mem', now, saved);
    }
  }

  // ---- Delivery ----

  lemma PlanKeeps(cfg: Config, s: System, now: Time, saved: bool)
    requires Inv(s) && s.proc.Up? && s.proc.flight.Idle?
    ensures Inv(Plans(cfg, s, now, saved))
  {
    var (mem, plan) := Spec.PlanDelivery(cfg, s.proc.mem, now, saved);
    if plan.Post? {
      PostPlanKeeps(cfg, s, now);
    } else {
      EditPlanFits(cfg, s.proc.mem, now, saved, s.hist);
    }
  }

  /** Planning no POST changes nothing, and an edit is planned for a root of the record's own. */
  lemma EditPlanFits(cfg: Config, mem: Memory, now: Time, saved: bool, h: History)
    requires RecOk(mem.rec, h) && SettledOk(mem.rec, h) && FlightOk(mem, Idle, h)
    requires !Spec.PlanDelivery(cfg, mem, now, saved).1.Post?
    ensures var (mem', plan) := Spec.PlanDelivery(cfg, mem, now, saved);
            mem' == mem && (!plan.NoPlan? ==> FlightOk(mem, Calling(plan), h))
  {
  }

  lemma PostPlanKeeps(cfg: Config, s: System, now: Time)
    requires Inv(s) && s.proc.Up? && s.proc.flight.Idle?
    requires Spec.PlanDelivery(cfg, s.proc.mem, now, true).1.Post?
    ensures Inv(Plans(cfg, s, now, true))
  {
    var rec, h := s.proc.mem.rec, s.hist;
    var rec' := rec.(delivery := Indeterminate);
    var h' := h.(posts := h.posts + [PostEvent(rec.slackGeneration, InFlight)]);
    forall i | 0 <= i < |rec'.lateRoots|
      ensures LateOk(rec'.lateRoots[i], rec', h')
    {
      assert LateOk(rec.lateRoots[i], rec, h);
    }
    assert RecOk(rec', h');
    assert HistoryOk(h');
    assert Accounted(rec', h');
  }

  /** Answering the POST in flight never forbids more than the POST itself did. */
  lemma ResolveKeepsHistory(h: History, fate: Fate)
    requires HistoryOk(h) && |h.posts| > 0 && h.posts[|h.posts| - 1].fate.InFlight? && !fate.InFlight?
    ensures HistoryOk(h.(posts := Resolve(h.posts, fate)))
    ensures NonePending(h.(posts := Resolve(h.posts, fate)))
  {
    var h' := h.(posts := Resolve(h.posts, fate));
    forall r | r in h.owners
      ensures PostEvent(h.owners[r], Accepted(r)) in h'.posts
    {
      var i :| 0 <= i < |h.posts| && h.posts[i] == PostEvent(h.owners[r], Accepted(r));
      assert h'.posts[i] == h.posts[i];
    }
  }

  lemma ResolveKeepsRec(rec: HealthRecord, h: History, fate: Fate)
    requires RecOk(rec, h) && |h.posts| > 0 && h.posts[|h.posts| - 1].fate.InFlight?
    ensures RecOk(rec, h.(posts := Resolve(h.posts, fate)))
  {
    var h' := h.(posts := Resolve(h.posts, fate));
    forall i | 0 <= i < |rec.lateRoots|
      ensures LateOk(rec.lateRoots[i], rec, h')
    {
      assert LateOk(rec.lateRoots[i], rec, h);
    }
  }

  /** A root nobody has seen changes nothing that is said about a record. */
  lemma OwnKeepsRec(rec: HealthRecord, h: History, root: Root, g: int)
    requires RecOk(rec, h) && root !in h.owners
    ensures RecOk(rec, h.(owners := h.owners[root := g]))
  {
    var h' := h.(owners := h.owners[root := g]);
    forall i | 0 <= i < |rec.lateRoots|
      ensures LateOk(rec.lateRoots[i], rec, h')
    {
      assert LateOk(rec.lateRoots[i], rec, h);
    }
  }

  /** The accepted root goes to the record of its own episode, live or just closed, or to the queue. */
  lemma LandedKeepsRec(mem: Memory, plan: Plan, root: Root, h: History)
    requires plan.Post? && RecOk(mem.rec, h) && PostingOk(mem, plan.generation, h) && root !in h.owners
    ensures var h' := h.(owners := h.owners[root := plan.generation]);
            var rec' := Spec.ApplyResult(mem, plan, Landed(root)).rec;
            RecOk(rec', h') && Tracked(rec') == Tracked(mem.rec) + {root}
  {
    LandedKeepsLaws(mem, plan, root, h);
    LandedKeepsTracked(mem, plan, root, h);
  }

  lemma LandedKeepsLaws(mem: Memory, plan: Plan, root: Root, h: History)
    requires plan.Post? && RecOk(mem.rec, h) && PostingOk(mem, plan.generation, h) && root !in h.owners
    ensures RecOk(Spec.ApplyResult(mem, plan, Landed(root)).rec, h.(owners := h.owners[root := plan.generation]))
  {
    var h' := h.(owners := h.owners[root := plan.generation]);
    var rec' := Spec.ApplyResult(mem, plan, Landed(root)).rec;
    OwnKeepsRec(mem.rec, h, root, plan.generation);
    forall i | 0 <= i < |rec'.lateRoots|
      ensures LateOk(rec'.lateRoots[i], rec', h')
    {
      if i < |mem.rec.lateRoots| {
        assert LateOk(mem.rec.lateRoots[i], mem.rec, h');
      }
    }
  }

  lemma LandedKeepsTracked(mem: Memory, plan: Plan, root: Root, h: History)
    requires plan.Post? && LawOk(mem.rec) && PostingOk(mem, plan.generation, h)
    ensures Tracked(Spec.ApplyResult(mem, plan, Landed(root)).rec) == Tracked(mem.rec) + {root}
  {
    var (g, rec') := (plan.generation, Spec.ApplyResult(mem, plan, Landed(root)).rec);
    if g + 1 < mem.rec.slackGeneration {
      QueuedIsTracked(mem.rec.lateRoots, rec'.lateRoots, LateRoot(root, Millis(h.closedFor[g])));
      assert LateSet(rec') == LateSet(mem.rec) + {root};
    } else {
      assert LateSet(rec') == LateSet(mem.rec);
    }
  }

  lemma QueuedIsTracked(before: seq<LateRoot>, after: seq<LateRoot>, late: LateRoot)
    requires after == before + [late]
    ensures (set i | 0 <= i < |after| :: after[i].root) == (set i | 0 <= i < |before| :: before[i].root) + {late.root}
  {
    assert after[|before|].root == late.root;
    assert forall i :: 0 <= i < |before| ==> after[i] == before[i];
  }

  lemma PostReturnKeeps(s: System, result: CallResult, saved: bool)
    requires Inv(s) && CanReturn(s, result) && s.proc.flight.plan.Post?
    ensures Inv(Returns(s, result, saved))
  {
    var (mem, plan, h) := (s.proc.mem, s.proc.flight.plan, s.hist);
    var h1 := h.(posts := Resolve(h.posts, FateOf(result)));
    var mem' := Spec.ApplyResult(mem, plan, result);
    ResolveKeepsHistory(h, FateOf(result));
    ResolveKeepsRec(mem.rec, h, FateOf(result));
    ResolveKeepsRec(s.disk.rec, h, FateOf(result));
    assert mem'.posts == map[];
    if result.Landed? {
      LandedReturnKeeps(s, result.root, saved);
    } else {
      RefusedKeepsRec(mem, plan, result, h);
    }
  }

  lemma RefusedKeepsRec(mem: Memory, plan: Plan, result: CallResult, h: History)
    requires HistoryOk(h) && RecOk(mem.rec, h) && plan.Post? && PostingOk(mem, plan.generation, h) && !result.Landed?
    ensures var h' := h.(posts := Resolve(h.posts, FateOf(result)));
            var rec' := Spec.ApplyResult(mem, plan, result).rec;
            RecOk(rec', h') && Tracked(rec') == Tracked(mem.rec)
  {
    ResolveKeepsRec(mem.rec, h, FateOf(result));
    var h' := h.(posts := Resolve(h.posts, FateOf(result)));
    var rec' := Spec.ApplyResult(mem, plan, result).rec;
    forall i | 0 <= i < |rec'.lateRoots|
      ensures LateOk(rec'.lateRoots[i], rec', h')
    {
      assert LateOk(mem.rec.lateRoots[i], mem.rec, h');
    }
  }

  /** The history once the POST in flight is accepted. */
  function Owned(h: History, g: int, root: Root): History {
    h.(posts := Resolve(h.posts, Accepted(root)), owners := h.owners[root := g])
  }

  lemma LandedKeepsHistory(h: History, g: int, root: Root)
    requires HistoryOk(h) && |h.posts| > 0 && h.posts[|h.posts| - 1] == PostEvent(g, InFlight) && root !in h.owners
    ensures HistoryOk(Owned(h, g, root)) && NonePending(Owned(h, g, root))
  {
    ResolveKeepsHistory(h, Accepted(root));
    var h2 := Owned(h, g, root);
    assert h2.posts[|h2.posts| - 1] == PostEvent(g, Accepted(root));
  }

  lemma LandedKeepsStored(rec: HealthRecord, h: History, g: int, root: Root)
    requires RecOk(rec, h) && |h.posts| > 0 && h.posts[|h.posts| - 1].fate.InFlight? && root !in h.owners
    ensures RecOk(rec, Owned(h, g, root))
  {
    ResolveKeepsRec(rec, h, Accepted(root));
    OwnKeepsRec(rec, h.(posts := Resolve(h.posts, Accepted(root))), root, g);
  }

  lemma LandedAccounts(mem: Memory, plan: Plan, root: Root, h: History)
    requires plan.Post? && RecOk(mem.rec, h) && PostingOk(mem, plan.generation, h) && root !in h.owners
    requires Accounted(mem.rec, h) && SettledOk(mem.rec, h)
    ensures var (rec', h2) := (Spec.ApplyResult(mem, plan, Landed(root)).rec, Owned(h, plan.generation, root));
            Accounted(rec', h2) && SettledOk(rec', h2) && rec'.slackGeneration == mem.rec.slackGeneration
  {
    LandedKeepsTracked(mem, plan, root, h);
  }

  lemma LandedReturnKeeps(s: System, root: Root, saved: bool)
    requires Inv(s) && CanReturn(s, Landed(root)) && s.proc.flight.plan.Post?
    ensures Inv(Returns(s, Landed(root), saved))
  {
    var (mem, plan, h) := (s.proc.mem, s.proc.flight.plan, s.hist);
    var g := plan.generation;
    LandedKeepsHistory(h, g, root);
    LandedKeepsStored(s.disk.rec, h, g, root);
    LandedPostsOk(mem, plan, root, h);
    LandedAccounts(mem, plan, root, h);
    LandedCloses(mem, plan, root, h);
    assert Returned(h, plan, Landed(root)) == Owned(h, g, root);
  }

  lemma LandedCloses(mem: Memory, plan: Plan, root: Root, h: History)
    requires plan.Post? && PostingOk(mem, plan.generation, h)
    ensures Spec.ApplyResult(mem, plan, Landed(root)).posts == map[]
  {
  }

  lemma LandedPostsOk(mem: Memory, plan: Plan, root: Root, h: History)
    requires plan.Post? && RecOk(mem.rec, h) && PostingOk(mem, plan.generation, h) && root !in h.owners
    ensures RecOk(Spec.ApplyResult(mem, plan, Landed(root)).rec, Owned(h, plan.generation, root))
  {
    LandedKeepsRec(mem, plan, root, h);
    var h1 := h.(owners := h.owners[root := plan.generation]);
    ResolveKeepsRec(Spec.ApplyResult(mem, plan, Landed(root)).rec, h1, Accepted(root));
  }

  /** Recovering more roots changes nothing that is said about a record. */
  lemma RecoverKeepsRec(rec: HealthRecord, h: History, roots: set<Root>)
    requires RecOk(rec, h)
    ensures RecOk(rec, EditedBack(h, roots))
  {
    var h' := EditedBack(h, roots);
    forall i | 0 <= i < |rec.lateRoots|
      ensures LateOk(rec.lateRoots[i], rec, h')
    {
      assert LateOk(rec.lateRoots[i], rec, h);
    }
  }

  /** An edit of the episode's own root keeps the record's laws; a recovery edit retires it as recovered. */
  lemma EditedKeepsRec(mem: Memory, plan: Plan, result: CallResult, h: History)
    requires RecOk(mem.rec, h) && !plan.NoPlan? && !plan.Post? && FlightOk(mem, Calling(plan), h)
    ensures var rec' := Spec.ApplyResult(mem, plan, result).rec;
            var h' := Returned(h, plan, result);
            RecOk(rec', h') && Tracked(mem.rec) <= Tracked(rec') + h'.recovered
  {
    var rec' := Spec.ApplyResult(mem, plan, result).rec;
    var h' := Returned(h, plan, result);
    if plan.UpdateRecovery? {
      RecoverKeepsRec(mem.rec, h, {plan.root});
    }
    forall i | 0 <= i < |rec'.lateRoots|
      ensures LateOk(rec'.lateRoots[i], rec', h')
    {
      assert LateOk(mem.rec.lateRoots[i], mem.rec, h);
    }
    assert LateSet(rec') == LateSet(mem.rec);
  }

  lemma UpdateReturnKeeps(s: System, result: CallResult, saved: bool)
    requires Inv(s) && CanReturn(s, result) && !s.proc.flight.plan.Post?
    ensures Inv(Returns(s, result, saved))
  {
    var plan := s.proc.flight.plan;
    EditedKeepsRec(s.proc.mem, plan, result, s.hist);
    if plan.UpdateRecovery? {
      RecoverKeepsRec(s.disk.rec, s.hist, {plan.root});
    }
  }

  lemma RotateKeepsRec(rec: HealthRecord, h: History, edited: set<LateRoot>, failed: set<LateRoot>)
    requires RecOk(rec, h)
    ensures RecOk(rec.(lateRoots := Late.Rotate(rec.lateRoots, edited, failed)), h)
  {
    var rec' := rec.(lateRoots := Late.Rotate(rec.lateRoots, edited, failed));
    forall i | 0 <= i < |rec'.lateRoots|
      ensures LateOk(rec'.lateRoots[i], rec', h)
    {
      Late.RotateKeeps(rec.lateRoots, edited, failed, rec'.lateRoots[i]);
      var k :| 0 <= k < |rec.lateRoots| && rec.lateRoots[k] == rec'.lateRoots[i];
      assert LateOk(rec.lateRoots[k], rec, h);
    }
  }

  /** A rotation stops tracking only roots it edited. */
  lemma RotateKeepsTracked(rec: HealthRecord, edited: set<LateRoot>, failed: set<LateRoot>)
    ensures var rec' := rec.(lateRoots := Late.Rotate(rec.lateRoots, edited, failed));
            Tracked(rec) <= Tracked(rec') + set r | r in edited :: r.root
  {
    var rec' := rec.(lateRoots := Late.Rotate(rec.lateRoots, edited, failed));
    forall r | r in LateSet(rec)
      ensures r in LateSet(rec') || exists late :: late in edited && late.root == r
    {
      var k :| 0 <= k < |rec.lateRoots| && rec.lateRoots[k].root == r;
      if rec.lateRoots[k] !in edited {
        Late.RotateKeeps(rec.lateRoots, edited, failed, rec.lateRoots[k]);
        var j :| 0 <= j < |rec'.lateRoots| && rec'.lateRoots[j] == rec.lateRoots[k];
      }
    }
  }

  lemma EditsKeepMemory(rec: HealthRecord, h: History, edited: set<LateRoot>, failed: set<LateRoot>)
    requires RecOk(rec, h) && Accounted(rec, h) && SettledOk(rec, h)
    requires forall late :: late in edited ==> late in rec.lateRoots
    ensures var rec' := rec.(lateRoots := Late.Rotate(rec.lateRoots, edited, failed));
            var h' := EditedBack(h, set r | r in edited :: r.root);
            RecOk(rec', h') && Accounted(rec', h') && SettledOk(rec', h')
  {
    var roots := set r | r in edited :: r.root;
    RotateKeepsRec(rec, h, edited, failed);
    RecoverKeepsRec(rec.(lateRoots := Late.Rotate(rec.lateRoots, edited, failed)), h, roots);
    RotateKeepsTracked(rec, edited, failed);
    forall r | r in roots
      ensures r in h.owners && h.owners[r] < rec.slackGeneration
    {
      var late :| late in edited && late.root == r;
      var i :| 0 <= i < |rec.lateRoots| && rec.lateRoots[i] == late;
      assert LateOk(rec.lateRoots[i], rec, h);
    }
  }

  lemma EditsKeep(s: System, outcomes: seq<bool>, saved: bool)
    requires Inv(s) && CanFinishEdits(s, outcomes)
    ensures Inv(FinishEdits(s, outcomes, saved))
  {
    var (rec, queue) := (s.proc.mem.rec, s.proc.flight.pending);
    var (edited, failed) := (Late.Attempted(queue, outcomes, true), Late.Attempted(queue, outcomes, false));
    EditsKeepMemory(rec, s.hist, edited, failed);
    RecoverKeepsRec(s.disk.rec, s.hist, set r | r in edited :: r.root);
  }

  lemma CrashKeeps(s: System)
    requires Inv(s) && s.proc.Up?
    ensures Inv(Crashes(s))
  {
    var h := s.hist;
    if s.proc.flight.Calling? && s.proc.flight.plan.Post? {
      ResolveKeepsHistory(h, Ambiguous);
      ResolveKeepsRec(s.disk.rec, h, Ambiguous);
    }
    var h' := Crashes(s).hist;
    forall i | 0 <= i < |s.disk.rec.lateRoots|
      ensures LateOk(s.disk.rec.lateRoots[i], s.disk.rec, h')
    {
      assert LateOk(s.disk.rec.lateRoots[i], s.disk.rec, h);
    }
    assert RecOk(s.disk.rec, h');
  }

  // ---- Every run ----

  lemma StepKeeps(cfg: Config, s: System, e: Event)
    requires Inv(s)
    ensures Inv(Step(cfg, s, e))
  {
    match e
    case FinishCall(_, _, _, _, _) =>
      ObservationStepKeeps(cfg, s, e);
    case ProbeReturns(_, _, _) =>
      ObservationStepKeeps(cfg, s, e);
    case PlanCall(now, saved) =>
      if s.proc.Up? && s.proc.flight.Idle? {
        PlanKeeps(cfg, s, now, saved);
      }
    case CallReturns(result, saved) =>
      if CanReturn(s, result) {
        ReturnKeeps(s, result, saved);
      }
    case LateEditsReturn(outcomes, saved) =>
      if CanFinishEdits(s, outcomes) {
        EditsKeep(s, outcomes, saved);
      }
    case Crash =>
      if s.proc.Up? {
        CrashKeeps(s);
      }
    case _ =>
      QuietStepKeeps(cfg, s, e);
  }

  lemma ObservationStepKeeps(cfg: Config, s: System, e: Event)
    requires Inv(s) && (e.FinishCall? || e.ProbeReturns?)
    ensures Inv(Step(cfg, s, e))
  {
    match e
    case FinishCall(c, subject, reason, now, saved) =>
      if s.proc.Up? {
        FinishMoves(s.proc.mem, c, subject, reason, now);
        ObserveKeeps(s, Spec.Finish(s.proc.mem, c, subject, reason, now), now,
                     saved && Spec.Recorded(s.proc.mem, reason));
      }
    case ProbeReturns(outcome, now, saved) =>
      if s.proc.Up? && s.proc.flight.Idle? {
        ProbeMoves(s.proc.mem, outcome, now);
        ObserveKeeps(s, Spec.ObserveProbe(s.proc.mem, outcome, now), now, saved && !s.proc.mem.sealed);
      }
  }

  lemma ReturnKeeps(s: System, result: CallResult, saved: bool)
    requires Inv(s) && CanReturn(s, result)
    ensures Inv(Returns(s, result, saved))
  {
    if s.proc.flight.plan.Post? {
      PostReturnKeeps(s, result, saved);
    } else {
      UpdateReturnKeeps(s, result, saved);
    }
  }

  /** Events that change neither record nor history. */
  lemma QuietStepKeeps(cfg: Config, s: System, e: Event)
    requires Inv(s)
    requires e.BeginCall? || e.DecideProbe? || e.StartLateEdits? || e.SealTracker? || e.Restart?
    ensures Inv(Step(cfg, s, e))
  {
  }

  lemma {:induction false} RunKeeps(cfg: Config, s: System, events: seq<Event>)
    requires Inv(s)
    ensures Inv(Run(cfg, s, events))
    decreases |events|
  {
    if events == [] {
    } else {
      StepKeeps(cfg, s, events[0]);
      RunKeeps(cfg, Step(cfg, s, events[0]), events[1..]);
    }
  }
}
