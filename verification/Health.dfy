/**
  The records of internal/llmhealth and internal/store/llmhealth.go: reasons and
  capabilities, the durable health record, the capability records and the
  process-local fields of the tracker. Times and durations are nanoseconds.
 */
module Health {
  import opened Option

  type Time = int

  /** Reason codes. `NoReason` is the empty code of a capability that has no complaint. */
  datatype Reason =
    | NoReason
    | ReasonOk
    | Canceled
    | BudgetDeferred
    | Timeout
    | Network
    | RateLimited
    | ProviderUnavailable
    | AuthFailed
    | RequestInvalid
    | SchemaViolation
    | ResponseMalformed
    | Unknown

  datatype Class = ClassOk | ClassIgnored | ClassDependency | ClassContent

  /** An unrecognised code, the empty one included, counts as dependency-class. */
  function ClassOf(r: Reason): Class {
    match r
    case ReasonOk => ClassOk
    case Canceled | BudgetDeferred => ClassIgnored
    case RequestInvalid | SchemaViolation | ResponseMalformed => ClassContent
    case _ => ClassDependency
  }

  datatype Capability =
    | TriageDraft
    | VerificationRejudge
    | MemoryClassifier
    | QueryRepair
    | Probe
    | Assessment
    | SemanticProfile

  /** The capabilities served by the one configured primary client. */
  const SHARED_PRIMARY: seq<Capability> :=
    [TriageDraft, Assessment, VerificationRejudge, QueryRepair, SemanticProfile]

  /** The capabilities that drive the roll-up, in priority order. */
  const ROLL_UP_ORDER: seq<Capability> :=
    [TriageDraft, Assessment, Probe, VerificationRejudge, SemanticProfile]

  datatype State = Healthy | Degraded | Unavailable

  datatype Delivery =
    | NotStarted
    | Pending
    | Delivered
    | RecoveryPending
    | Recovered
    | Suppressed
    | Indeterminate

  /** The coordinates of one Slack root message. */
  datatype Root = Root(channel: string, ts: string)

  const NO_ROOT := Root("", "")

  /** A root whose episode closed before its POST returned, with that episode's duration. */
  datatype LateRoot = LateRoot(root: Root, downForMs: int)

  datatype ProbeOutcome = ProbeOk | ProbeUnsupported | ProbeFailed(reason: Reason)

  datatype HealthRecord = HealthRecord(
    state: State,
    reason: Reason,
    unhealthySince: Option<Time>,
    recoveredAt: Option<Time>,
    outageGeneration: int,
    lastRealCallAt: Option<Time>,
    lastRealSuccessAt: Option<Time>,
    lastProbeAt: Option<Time>,
    lastProbeOutcome: Option<ProbeOutcome>,
    delivery: Delivery,
    root: Root,
    slackState: Option<State>,
    slackGeneration: int,
    lateRoots: seq<LateRoot>)

  /** The row a fresh database is seeded with. */
  const FRESH_RECORD := HealthRecord(
    Healthy, NoReason, None, None, 0, None, None, None, None, NotStarted, NO_ROOT, None, 0, [])

  datatype CapRecord = CapRecord(
    healthy: bool,
    reason: Reason,
    unhealthySince: Option<Time>,
    lastSuccessAt: Option<Time>,
    lastFailureAt: Option<Time>,
    subjects: seq<string>)

  const FRESH_CAPABILITY := CapRecord(true, NoReason, None, None, None, [])

  type Caps = map<Capability, CapRecord>

  /** What is kept for a root POST that has left the planner and not yet returned. */
  datatype Outstanding = Outstanding(closed: bool, downFor: int)

  /** The two tables behind the tracker. */
  datatype Durable = Durable(rec: HealthRecord, caps: Caps)

  /** Everything the tracker keeps in memory. */
  datatype Memory = Memory(
    rec: HealthRecord,
    caps: Caps,
    inFlight: int,
    idleSince: Time,
    sealed: bool,
    probeUnsupported: bool,
    activityGen: int,
    probeReservedGen: int,
    posts: map<int, Outstanding>)

  datatype Config = Config(broadcastAfter: int, idleAfter: int)

  /** A Slack call computed under the lock and executed without it. */
  datatype Plan =
    | NoPlan
    | Post(generation: int, state: State, down: int)
    | UpdateState(generation: int, state: State, down: int, root: Root)
    | UpdateRecovery(generation: int, down: int, root: Root)

  /** How one Slack call ended. Every edit failure is `Refused`. */
  datatype CallResult = Landed(root: Root) | Refused | OutcomeUnknown

  /** Duration.Milliseconds: division truncating toward zero. */
  function Millis(d: int): int {
    if d >= 0 then d / 1_000_000 else -((-d) / 1_000_000)
  }
}
