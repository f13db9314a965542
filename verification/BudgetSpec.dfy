/**
  The durable LLM budget as functions on its ledger: admission over a rolling hour
  and a token ceiling, and settlement with saturating 64-bit addition.
 */
module BudgetSpec {
  import opened Option
  import opened Sequences

  const MAX_INT64 := 0x7fff_ffff_ffff_ffff
  const FRAMING := 1024
  const HOUR := 3_600_000_000_000

  type Id = string

  /** Zero or less means no limit. */
  datatype Limits = Limits(callsPerHour: int, totalTokens: int)

  datatype Ledger = Ledger(
    calls: seq<int>, tokens: int, pending: map<Id, int>, unknown: bool, unknownReason: string, unknownAt: int)

  const FRESH := Ledger([], 0, map[], false, "", 0)

  /** The stored document: never written, not decodable, or decoded. */
  datatype Stored = Unwritten | Unreadable | Document(version: int, hasPending: bool, ledger: Ledger)

  /** The ledger an update starts from, if the document is valid. */
  function Opened(doc: Stored): Option<Ledger> {
    match doc
    case Unwritten => Some(FRESH)
    case Unreadable => None
    case Document(version, hasPending, ledger) =>
      if version != 1 || ledger.tokens < 0 || !hasPending then None else Some(ledger)
  }

  // ---- Admission ----

  function Live(calls: seq<int>, now: int): seq<int> {
    if calls == [] then [] else (if calls[0] > now - HOUR then [calls[0]] else []) + Live(calls[1..], now)
  }

  predicate AtMost(x: int, y: int) {
    x <= y
  }

  datatype Admission = Admitted | Deferred(retryAt: Option<int>) | CounterOverflow

  /** The earliest of the last callsPerHour live calls expires at this time. */
  function RetryAt(calls: seq<int>, limit: int, now: int): int
    requires 0 < limit <= |Live(calls, now)|
  {
    var s := Sort(Live(calls, now), AtMost);
    s[|s| - limit] + HOUR
  }

  function Admit(limits: Limits, l: Ledger, allowance: int, now: int): Admission {
    if limits.totalTokens > 0 && l.unknown then Deferred(None)
    else if limits.callsPerHour > 0 && |Live(l.calls, now)| >= limits.callsPerHour then
      Deferred(Some(RetryAt(l.calls, limits.callsPerHour, now)))
    else if limits.totalTokens > 0 && limits.totalTokens - l.tokens < allowance then Deferred(None)
    else if allowance > MAX_INT64 - l.tokens then CounterOverflow
    else Admitted
  }

  function Charge(l: Ledger, id: Id, allowance: int, now: int): Ledger {
    l.(calls := Live(l.calls, now) + [now], tokens := l.tokens + allowance, pending := l.pending[id := allowance])
  }

  /** Only an admission changes the ledger: a denied update is not committed. */
  function Reserve(limits: Limits, l: Ledger, id: Id, allowance: int, now: int): Ledger {
    if Admit(limits, l, allowance, now).Admitted? then Charge(l, id, allowance, now) else l
  }

  /** requestAllowance of a body of this length with this output cap: their sum and the framing, in 64 bits. */
  function Allowance(length: nat, maxTokens: int): (r: Option<int>)
    ensures r.Some? <==> maxTokens > 0 && length + maxTokens + 1024 < 0x8000_0000_0000_0000
    ensures r.Some? ==> r.value - maxTokens == length + 1024
  {
    if maxTokens <= 0 || maxTokens > MAX_INT64 - length - FRAMING then None else Some(length + maxTokens + FRAMING)
  }

  // ---- Settlement ----

  /** What one call's answer says about its use. */
  datatype Usage = Used(tokens: int) | UnknownUse(reason: string)

  function Latch(l: Ledger, reason: string, now: int): Ledger {
    if l.unknown then l else l.(unknown := true, unknownReason := reason, unknownAt := now)
  }

  predicate Saturates(l: Ledger, id: Id, usage: Usage)
    requires id in l.pending
  {
    usage.Used? && usage.tokens > MAX_INT64 - (l.tokens - l.pending[id])
  }

  function Settle(l: Ledger, id: Id, usage: Usage, now: int): Ledger
    requires id in l.pending
  {
    var open := l.(pending := l.pending - {id});
    match usage
    case UnknownUse(reason) => Latch(open, reason, now)
    case Used(used) =>
      if Saturates(l, id, usage) then Latch(open.(tokens := MAX_INT64), "usage_overflow", now)
      else open.(tokens := l.tokens - l.pending[id] + used)
  }

  // ---- Reading the answer ----

  /** One field of the usage object: an integer, null, or anything else. */
  datatype Field = Int(n: int) | Null | Other

  datatype Tokens = Total(n: int) | NotReported | Overflow

  function Keys(usage: map<string, Field>): seq<string> {
    if "prompt_tokens" in usage then ["prompt_tokens", "completion_tokens"]
    else ["input_tokens", "output_tokens", "cache_creation_input_tokens", "cache_read_input_tokens"]
  }

  const MIN_INT64 := -0x8000_0000_0000_0000

  /** A count that decodes: a non-negative 64-bit integer. */
  predicate Counts(f: Field) {
    f.Int? && 0 <= f.n <= MAX_INT64
  }

  /** The answer to one generation POST. */
  datatype Answer = TransportError | Http(status: int, tooLarge: bool, body: Tokens)

  /** The provider refused the request: it costs only what the answer reports. */
  predicate Declined(status: int) {
    400 <= status < 500 || status == 503 || status == 529
  }

  /** settlementUsage. */
  function UsageOf(a: Answer): Usage {
    match a
    case TransportError => UnknownUse("transport_error")
    case Http(status, tooLarge, body) =>
      var read := if tooLarge then NotReported else body;
      if Declined(status) then Used(if read.Total? then read.n else 0)
      else if read.Total? then Used(read.n)
      else if status != 200 then UnknownUse("http")
      else if read.Overflow? then UnknownUse("usage_overflow")
      else UnknownUse("no_usage")
  }
}
