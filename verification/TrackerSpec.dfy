/**
  What each tracker operation does, as functions on values: capability verdicts,
  the roll-up, the episode transitions, delivery planning and delivery results.
 */
module TrackerSpec {
  import opened Option
  import opened Health

  /** Who a shared primary success speaks for: the other shared ones and the probe. */
  const RECEIVERS: seq<Capability> := SHARED_PRIMARY + [Probe]

  const MAX_SUBJECTS := 8
  const MIN_PROBE_INTERVAL := 60_000_000_000
  const UNSUPPORTED_RECHECK := 3_600_000_000_000

  // ---- Capability verdicts ----

  function Get(caps: Caps, c: Capability): CapRecord {
    if c in caps then caps[c] else FRESH_CAPABILITY
  }

  function MarkHealthy(caps: Caps, c: Capability, now: Time): Caps {
    caps[c := Get(caps, c).(healthy := true, reason := NoReason, unhealthySince := None,
                            subjects := [], lastSuccessAt := Some(now))]
  }

  function MarkUnhealthy(caps: Caps, c: Capability, reason: Reason, now: Time): Caps {
    var r := Get(caps, c);
    caps[c := r.(healthy := false, reason := reason, lastFailureAt := Some(now),
                 unhealthySince := if r.unhealthySince == None then Some(now) else r.unhealthySince)]
  }

  function AddSubject(subjects: seq<string>, subject: string): seq<string> {
    if subject in subjects then subjects
    else if |subjects| + 1 > MAX_SUBJECTS then (subjects + [subject])[|subjects| + 1 - MAX_SUBJECTS..]
    else subjects + [subject]
  }

  /** One more content failure on a record; the second distinct subject condemns it. */
  function Noted(r: CapRecord, subject: string, reason: Reason, now: Time): CapRecord {
    var subjects := AddSubject(r.subjects, subject);
    var named := if r.healthy || ClassOf(r.reason) == ClassContent then reason else r.reason;
    if |subjects| >= 2 && r.healthy
    then CapRecord(false, named, Some(now), r.lastSuccessAt, Some(now), subjects)
    else CapRecord(r.healthy, named, r.unhealthySince, r.lastSuccessAt, Some(now), subjects)
  }

  function RecordContent(caps: Caps, c: Capability, subject: string, reason: Reason, now: Time): Caps {
    caps[c := Noted(Get(caps, c), subject, reason, now)]
  }

  predicate IsShared(c: Capability) {
    c in SHARED_PRIMARY
  }

  /** A verdict that a success elsewhere may withdraw. */
  predicate DependencyFailed(r: CapRecord) {
    !r.healthy && ClassOf(r.reason) == ClassDependency
  }

  function Cleared(r: CapRecord): CapRecord {
    r.(healthy := true, reason := NoReason, unhealthySince := None)
  }

  function ClearAmong(caps: Caps, succeeded: Capability, receivers: seq<Capability>): Caps {
    map c | c in caps ::
      if c != succeeded && c in receivers && DependencyFailed(caps[c]) then Cleared(caps[c]) else caps[c]
  }

  /** One more receiver clears at most that receiver. */
  lemma ClearAmongNext(caps: Caps, succeeded: Capability, done: seq<Capability>, c: Capability)
    ensures var before := ClearAmong(caps, succeeded, done);
            ClearAmong(caps, succeeded, done + [c]) ==
            if c != succeeded && c in before && DependencyFailed(before[c]) then before[c := Cleared(before[c])]
            else before
  {
    var (before, after) := (ClearAmong(caps, succeeded, done), ClearAmong(caps, succeeded, done + [c]));
    forall x | x in caps
      ensures after[x] == if x == c && c != succeeded && DependencyFailed(before[c]) then Cleared(before[c])
                          else before[x]
    {
      ClearAmongAt(caps, succeeded, done, c, x);
    }
  }

  lemma ClearAmongAt(caps: Caps, succeeded: Capability, done: seq<Capability>, c: Capability, x: Capability)
    requires x in caps
    ensures var (before, after) := (ClearAmong(caps, succeeded, done), ClearAmong(caps, succeeded, done + [c]));
            after[x] == if x == c && c != succeeded && DependencyFailed(before[c]) then Cleared(before[c])
                        else before[x]
  {
    assert x in done + [c] <==> x in done || x == c;
  }

  function ClearShared(caps: Caps, succeeded: Capability): Caps {
    ClearAmong(caps, succeeded, RECEIVERS)
  }

  /** The capability half of finish, for a reason that is not ignored. */
  function ObserveCall(caps: Caps, c: Capability, subject: string, reason: Reason, now: Time): Caps {
    match ClassOf(reason)
    case ClassOk =>
      var ok := MarkHealthy(caps, c, now);
      if IsShared(c) then ClearShared(ok, c) else ok
    case ClassDependency => MarkUnhealthy(caps, c, reason, now)
    case ClassContent => RecordContent(caps, c, subject, reason, now)
    case ClassIgnored => caps
  }

  // ---- Roll-up ----

  predicate Unhealthy(caps: Caps, c: Capability) {
    c in caps && !caps[c].healthy
  }

  function Severity(c: Capability): State {
    if c in {TriageDraft, Assessment, Probe} then Unavailable else Degraded
  }

  function FirstUnhealthy(caps: Caps, order: seq<Capability>): Option<Capability> {
    if order == [] then None
    else if Unhealthy(caps, order[0]) then Some(order[0])
    else FirstUnhealthy(caps, order[1..])
  }

  function Aggregate(caps: Caps): (State, Reason) {
    match FirstUnhealthy(caps, ROLL_UP_ORDER)
    case None => (Healthy, NoReason)
    case Some(c) => (Severity(c), Get(caps, c).reason)
  }

  // ---- Episodes ----

  function DownFor(rec: HealthRecord, now: Time): int {
    match rec.unhealthySince case Some(since) => now - since case None => 0
  }

  function BeginEpisode(rec: HealthRecord, state: State, reason: Reason, now: Time): HealthRecord {
    rec.(outageGeneration := rec.outageGeneration + 1, unhealthySince := Some(now), recoveredAt := None,
         delivery := NotStarted, root := NO_ROOT, slackGeneration := rec.slackGeneration + 1,
         slackState := None, state := state, reason := reason)
  }

  function CloseEpisode(rec: HealthRecord, now: Time): HealthRecord {
    rec.(recoveredAt := Some(now), slackGeneration := rec.slackGeneration + 1,
         state := Healthy, reason := NoReason,
         delivery := match rec.delivery
                     case Delivered => RecoveryPending
                     case NotStarted | Pending | Indeterminate => Suppressed
                     case d => d)
  }

  function ClosePost(posts: map<int, Outstanding>, generation: int, downFor: int): map<int, Outstanding> {
    if generation in posts then posts[generation := Outstanding(true, downFor)] else posts
  }

  /** recompute: roll the capabilities up and move the episode if the state changed. */
  function Recompute(m: Memory, now: Time): Memory {
    var (state, reason) := Aggregate(m.caps);
    if state == m.rec.state then m.(rec := m.rec.(reason := reason))
    else if m.rec.state == Healthy then m.(rec := BeginEpisode(m.rec, state, reason, now))
    else if state == Healthy then
      m.(rec := CloseEpisode(m.rec, now),
         posts := ClosePost(m.posts, m.rec.slackGeneration, DownFor(m.rec, now)))
    else m.(rec := m.rec.(state := state, reason := reason))
  }

  // ---- Observations ----

  function Begin(m: Memory): Memory {
    if m.sealed then m else m.(inFlight := m.inFlight + 1, activityGen := m.activityGen + 1)
  }

  /** Whether finish records anything at all. */
  predicate Recorded(m: Memory, reason: Reason) {
    !m.sealed && ClassOf(reason) != ClassIgnored
  }

  /** What finish records before it rolls up. */
  function Observed(m: Memory, c: Capability, subject: string, reason: Reason, now: Time): Memory {
    var succeeded := ClassOf(reason) == ClassOk;
    m.(idleSince := now, activityGen := m.activityGen + 1,
       rec := m.rec.(lastRealCallAt := Some(now),
                     lastRealSuccessAt := if succeeded then Some(now) else m.rec.lastRealSuccessAt),
       caps := ObserveCall(m.caps, c, subject, reason, now))
  }

  function Rolled(m: Memory, c: Capability, subject: string, reason: Reason, now: Time): Memory {
    Recompute(Observed(m, c, subject, reason, now), now)
  }

  function Finish(m: Memory, c: Capability, subject: string, reason: Reason, now: Time): Memory {
    var ended := m.(inFlight := m.inFlight - 1);
    if Recorded(m, reason) then Rolled(ended, c, subject, reason, now) else ended
  }

  lemma FinishIs(m: Memory, ended: Memory, c: Capability, subject: string, reason: Reason, now: Time)
    requires ended == m.(inFlight := m.inFlight - 1) && Recorded(m, reason)
    ensures Finish(m, c, subject, reason, now) == Rolled(ended, c, subject, reason, now)
  {
  }

  /** A probe failure counts only if no real call began or ended since the probe was decided. */
  function ProbeVerdict(m: Memory, outcome: ProbeOutcome, now: Time): Caps {
    match outcome
    case ProbeOk => MarkHealthy(m.caps, Probe, now)
    case ProbeUnsupported => m.caps
    case ProbeFailed(reason) =>
      if m.activityGen == m.probeReservedGen && ClassOf(reason) == ClassDependency
      then MarkUnhealthy(m.caps, Probe, reason, now) else m.caps
  }

  /** What a probe records before it rolls up. */
  function Probed(m: Memory, outcome: ProbeOutcome, now: Time): Memory {
    m.(rec := m.rec.(lastProbeAt := Some(now), lastProbeOutcome := Some(outcome)),
       probeUnsupported := if outcome == ProbeOk then false
                           else m.probeUnsupported || outcome == ProbeUnsupported,
       caps := ProbeVerdict(m, outcome, now))
  }

  function ObserveProbe(m: Memory, outcome: ProbeOutcome, now: Time): Memory {
    if m.sealed then m else Recompute(Probed(m, outcome, now), now)
  }

  predicate ProbeDue(cfg: Config, m: Memory, now: Time) {
    var sinceProbe := match m.rec.lastProbeAt case Some(at) => Some(now - at) case None => None;
    && m.inFlight <= 0
    && !(m.probeUnsupported && (sinceProbe == None || sinceProbe.value < UNSUPPORTED_RECHECK))
    && now - m.idleSince >= cfg.idleAfter
    && !(sinceProbe != None && sinceProbe.value < MIN_PROBE_INTERVAL)
  }

  // ---- Slack delivery ----

  /** An unhealthy episode that may still post its root and is old enough to. */
  predicate PostDue(cfg: Config, rec: HealthRecord, now: Time) {
    && rec.state != Healthy
    && rec.delivery in {NotStarted, Pending}
    && rec.unhealthySince != None
    && now - rec.unhealthySince.value >= cfg.broadcastAfter
  }

  /** planDelivery: the new memory and the call to make. `saved` says whether the marker commits. */
  function PlanDelivery(cfg: Config, m: Memory, now: Time, saved: bool): (Memory, Plan) {
    var rec := m.rec;
    if rec.state != Healthy && rec.delivery in {NotStarted, Pending} then
      if PostDue(cfg, rec, now) && saved then
        (m.(rec := rec.(delivery := Indeterminate),
            posts := m.posts[rec.slackGeneration := Outstanding(false, 0)]),
         Post(rec.slackGeneration, rec.state, DownFor(rec, now)))
      else (m, NoPlan)
    else if rec.state != Healthy && rec.delivery == Delivered && rec.slackState != Some(rec.state) then
      (m, UpdateState(rec.slackGeneration, rec.state, DownFor(rec, now), rec.root))
    else if rec.state == Healthy && rec.delivery == RecoveryPending then
      var down := if rec.recoveredAt != None then DownFor(rec, rec.recoveredAt.value) else 0;
      (m, UpdateRecovery(rec.slackGeneration, down, rec.root))
    else (m, NoPlan)
  }

  /** Where adoptStaleRoot puts a root: nowhere, back into the record, or into the late queue. */
  datatype Adoption = Orphaned | Adopted | Queued

  function AdoptionOf(rec: HealthRecord, generation: int, op: Outstanding): Adoption {
    if !op.closed then Orphaned
    else if rec.slackGeneration == generation + 1 && rec.state == Healthy && rec.delivery == Suppressed
    then Adopted
    else Queued
  }

  function AdoptStaleRoot(rec: HealthRecord, plan: Plan, op: Outstanding, root: Root): HealthRecord
    requires plan.Post?
  {
    match AdoptionOf(rec, plan.generation, op)
    case Orphaned => rec
    case Adopted => rec.(root := root, slackState := Some(plan.state), delivery := RecoveryPending)
    case Queued => rec.(lateRoots := rec.lateRoots + [LateRoot(root, Millis(op.downFor))])
  }

  /** The outstanding entry a POST's return consumes; a missing one reads as the zero value. */
  function TakePost(posts: map<int, Outstanding>, generation: int): (Outstanding, map<int, Outstanding>) {
    (if generation in posts then posts[generation] else Outstanding(false, 0), posts - {generation})
  }

  function ApplyResult(m: Memory, plan: Plan, result: CallResult): Memory
    requires !plan.NoPlan?
  {
    var (op, rest) := if plan.Post? then TakePost(m.posts, plan.generation) else (Outstanding(false, 0), m.posts);
    var m := m.(posts := rest);
    if plan.generation != m.rec.slackGeneration then
      if plan.Post? && result.Landed? then m.(rec := AdoptStaleRoot(m.rec, plan, op, result.root)) else m
    else
      match plan
      case Post(_, state, _) =>
        if result.Landed? then
          m.(rec := m.rec.(delivery := Delivered, root := result.root, slackState := Some(state)))
        else if result.Refused? then m.(rec := m.rec.(delivery := Pending))
        else m
      case UpdateState(_, state, _, _) =>
        if result.Landed? then m.(rec := m.rec.(slackState := Some(state))) else m
      case UpdateRecovery(_, _, _) =>
        if result.Landed? then m.(rec := m.rec.(delivery := Recovered)) else m
  }

  /** Whether applyDeliveryResult writes to the store afterwards. */
  predicate ResultPersists(m: Memory, plan: Plan, result: CallResult)
    requires !plan.NoPlan?
  {
    if plan.generation == m.rec.slackGeneration then true
    else plan.Post? && result.Landed? &&
         AdoptionOf(m.rec, plan.generation, TakePost(m.posts, plan.generation).0) != Orphaned
  }

  // ---- Persistence ----

  /** SaveLLMHealth upserts: a capability row that is not written keeps its old value. */
  function Save(d: Durable, m: Memory, saved: bool): Durable {
    if saved then Durable(m.rec, d.caps + m.caps) else d
  }

  function Load(d: Durable, now: Time): Memory {
    Memory(d.rec, d.caps, 0, now, false, false, 0, 0, map[])
  }
}
