/**
  The tracker, its store and Slack as one transition system. A run is any list of
  events; an event that cannot happen in the current state changes nothing, so
  every list is a run. The runner is one goroutine: at most one Slack call (or one
  late-edit pass) is out at a time, while observations interleave freely with it.
  A crash may fall between any two events, and any store write may fail.

  Besides the program's own state the system carries a history: every root POST
  with its fate, which episode each accepted root belongs to, how long each closed
  episode lasted, and which roots were edited to recovered (`settled`: by the process
  now running), abandoned, or lost.
 */
module SlackSystem {
  import opened Health
  import Spec = TrackerSpec
  import Late = LateRoots

  /** What the runner goroutine is waiting for. */
  datatype Flight = Idle | Calling(plan: Plan) | EditingLate(pending: seq<LateRoot>)

  datatype Process = Down | Up(mem: Memory, flight: Flight)

  datatype Fate = InFlight | Accepted(root: Root) | Ambiguous | Rejected

  datatype PostEvent = PostEvent(generation: int, fate: Fate)

  datatype History = History(
    posts: seq<PostEvent>,
    owners: map<Root, int>,
    closedFor: map<int, int>,
    recovered: set<Root>,
    settled: set<Root>,
    abandoned: set<Root>,
    lost: set<Root>)

  datatype System = System(proc: Process, disk: Durable, hist: History)

  datatype Event =
    | BeginCall
    | FinishCall(capability: Capability, subject: string, reason: Reason, now: Time, saved: bool)
    | DecideProbe
    | ProbeReturns(outcome: ProbeOutcome, now: Time, saved: bool)
    | PlanCall(now: Time, saved: bool)
    | CallReturns(result: CallResult, saved: bool)
    | StartLateEdits
    | LateEditsReturn(outcomes: seq<bool>, saved: bool)
    | SealTracker
    | Crash
    | Restart(now: Time)

  const INITIAL := System(Down, Durable(FRESH_RECORD, map[]), History([], map[], map[], {}, {}, {}, {}))

  // ---- The roots a record will still edit ----

  function LateSet(rec: HealthRecord): set<Root> {
    set i | 0 <= i < |rec.lateRoots| :: rec.lateRoots[i].root
  }

  function Tracked(rec: HealthRecord): set<Root> {
    (if rec.delivery in {Delivered, RecoveryPending} then {rec.root} else {}) + LateSet(rec)
  }

  // ---- Steps ----

  /** The roll-up closes an episode between these two records. */
  predicate Closes(before: HealthRecord, after: HealthRecord) {
    before.state != Healthy && after.state == Healthy
  }

  /** The roll-up opens an episode between these two records. */
  predicate Opens(before: HealthRecord, after: HealthRecord) {
    before.state == Healthy && after.state != Healthy
  }

  /** What an observation that moves the record from `before` to `after` adds to the history. */
  function Noted(h: History, before: HealthRecord, after: HealthRecord, now: Time): History {
    if Closes(before, after) then
      h.(closedFor := h.closedFor[before.slackGeneration := Spec.DownFor(before, now)])
    else if Opens(before, after) && before.delivery == RecoveryPending then
      h.(abandoned := h.abandoned + {before.root})
    else h
  }

  function Observe(s: System, mem: Memory, now: Time, saved: bool): System
    requires s.proc.Up?
  {
    System(Up(mem, s.proc.flight), Spec.Save(s.disk, mem, saved), Noted(s.hist, s.proc.mem.rec, mem.rec, now))
  }

  function Plans(cfg: Config, s: System, now: Time, saved: bool): System
    requires s.proc.Up?
  {
    var (mem, plan) := Spec.PlanDelivery(cfg, s.proc.mem, now, saved);
    System(Up(mem, if plan.NoPlan? then Idle else Calling(plan)),
           Spec.Save(s.disk, mem, plan.Post?),
           if plan.Post? then s.hist.(posts := s.hist.posts + [PostEvent(plan.generation, InFlight)]) else s.hist)
  }

  function FateOf(result: CallResult): Fate {
    match result
    case Landed(root) => Accepted(root)
    case Refused => Rejected
    case OutcomeUnknown => Ambiguous
  }

  /** The POST in flight is always the last one. */
  function Resolve(posts: seq<PostEvent>, fate: Fate): seq<PostEvent> {
    if posts == [] then [] else posts[|posts| - 1 := posts[|posts| - 1].(fate := fate)]
  }

  function EditedBack(h: History, roots: set<Root>): History {
    h.(recovered := h.recovered + roots, settled := h.settled + roots)
  }

  /** The history after a call that carried out `plan` returned. */
  function Returned(h: History, plan: Plan, result: CallResult): History
    requires !plan.NoPlan?
  {
    if plan.Post? then
      var h' := h.(posts := Resolve(h.posts, FateOf(result)));
      if result.Landed? then h'.(owners := h'.owners[result.root := plan.generation]) else h'
    else if plan.UpdateRecovery? && result.Landed? then EditedBack(h, {plan.root})
    else h
  }

  /** Slack timestamps are unique, so an accepted POST names a root nobody has seen. */
  predicate CanReturn(s: System, result: CallResult) {
    && s.proc.Up? && s.proc.flight.Calling? && !s.proc.flight.plan.NoPlan?
    && (s.proc.flight.plan.Post? && result.Landed? ==> result.root !in s.hist.owners)
  }

  function Returns(s: System, result: CallResult, saved: bool): System
    requires CanReturn(s, result)
  {
    var (mem, plan) := (s.proc.mem, s.proc.flight.plan);
    var mem' := Spec.ApplyResult(mem, plan, result);
    System(Up(mem', Idle), Spec.Save(s.disk, mem', saved && Spec.ResultPersists(mem, plan, result)),
           Returned(s.hist, plan, result))
  }

  predicate CanFinishEdits(s: System, outcomes: seq<bool>) {
    s.proc.Up? && s.proc.flight.EditingLate? && |outcomes| <= |s.proc.flight.pending|
  }

  function FinishEdits(s: System, outcomes: seq<bool>, saved: bool): System
    requires CanFinishEdits(s, outcomes)
  {
    var (mem, pending) := (s.proc.mem, s.proc.flight.pending);
    var (edited, failed) := (Late.Attempted(pending, outcomes, true), Late.Attempted(pending, outcomes, false));
    var mem' := mem.(rec := mem.rec.(lateRoots := Late.Rotate(mem.rec.lateRoots, edited, failed)));
    System(Up(mem', Idle),
           Spec.Save(s.disk, mem', saved && Late.RotationPersists(mem.rec.lateRoots, edited, failed)),
           EditedBack(s.hist, set r | r in edited :: r.root))
  }

  /** The process dies: an unanswered POST may have been accepted, and unsaved roots are forgotten. */
  function Crashes(s: System): System
    requires s.proc.Up?
  {
    var posting := s.proc.flight.Calling? && s.proc.flight.plan.Post?;
    System(Down, s.disk,
           s.hist.(settled := {},
                   posts := if posting then Resolve(s.hist.posts, Ambiguous) else s.hist.posts,
                   lost := s.hist.lost + (Tracked(s.proc.mem.rec) - Tracked(s.disk.rec))))
  }

  function Step(cfg: Config, s: System, e: Event): System {
    match e
    case BeginCall =>
      if s.proc.Up? then s.(proc := s.proc.(mem := Spec.Begin(s.proc.mem))) else s
    case FinishCall(c, subject, reason, now, saved) =>
      if s.proc.Up? then
        Observe(s, Spec.Finish(s.proc.mem, c, subject, reason, now), now, saved && Spec.Recorded(s.proc.mem, reason))
      else s
    case DecideProbe =>
      if s.proc.Up? && s.proc.flight.Idle? then
        s.(proc := s.proc.(mem := s.proc.mem.(probeReservedGen := s.proc.mem.activityGen)))
      else s
    case ProbeReturns(outcome, now, saved) =>
      if s.proc.Up? && s.proc.flight.Idle? then
        Observe(s, Spec.ObserveProbe(s.proc.mem, outcome, now), now, saved && !s.proc.mem.sealed)
      else s
    case PlanCall(now, saved) =>
      if s.proc.Up? && s.proc.flight.Idle? then Plans(cfg, s, now, saved) else s
    case CallReturns(result, saved) =>
      if CanReturn(s, result) then Returns(s, result, saved) else s
    case StartLateEdits =>
      if s.proc.Up? && s.proc.flight.Idle? then s.(proc := s.proc.(flight := EditingLate(s.proc.mem.rec.lateRoots)))
      else s
    case LateEditsReturn(outcomes, saved) =>
      if CanFinishEdits(s, outcomes) then FinishEdits(s, outcomes, saved) else s
    case SealTracker =>
      if s.proc.Up? then s.(proc := s.proc.(mem := s.proc.mem.(sealed := true))) else s
    case Crash => if s.proc.Up? then Crashes(s) else s
    case Restart(now) =>
      if s.proc.Down? then s.(proc := Up(Spec.Load(s.disk, now), Idle)) else s
  }

  function Run(cfg: Config, s: System, events: seq<Event>): System
    decreases |events|
  {
    if events == [] then s else Run(cfg, Step(cfg, s, events[0]), events[1..])
  }
}
