/**
  The audit log as a value. `history` is every row ever committed; the table holds
  the rows from index `kept` on, and row i has seq i + 1. Append and one prune step
  are transactions; verification accepts every log they can produce.
 */
module AuditSpec {
  import opened Option
  import opened AuditHash
  import opened Text

  datatype Row = Row(
    seqNo: int, ts: string, actor: string, kind: string, payload: string, prev: Option<string>, hash: string)

  datatype AuditLog = AuditLog(history: seq<Row>, kept: nat) {
    function Rows(): seq<Row>
      requires kept <= |history|
    {
      history[kept..]
    }
  }

  const EMPTY := AuditLog([], 0)
  const PRUNED := "storage.audit_pruned"
  const RETENTION := "store.retention"

  function EffectivePrev(prev: Option<string>): string {
    match prev case Some(h) => h case None => ""
  }

  function FieldsOf(r: Row): Fields {
    Fields(r.ts, r.actor, r.kind, r.payload, EffectivePrev(r.prev))
  }

  predicate HashOk(env: Env, r: Row) {
    r.hash == env.hash(Joined(FieldsOf(r)))
  }

  // ---- Appending ----

  function NewRow(env: Env, history: seq<Row>, actor: string, kind: string, payload: string, at: int): Row {
    var prev := if history == [] then None else Some(history[|history| - 1].hash);
    var ts := env.timeText(at);
    Row(|history| + 1, ts, actor, kind, payload, prev,
        env.hash(Joined(Fields(ts, actor, kind, payload, EffectivePrev(prev)))))
  }

  /** The request is refused when actor or kind is blank or the payload has no JSON form. */
  predicate Accepts(actor: string, kind: string, payload: Option<string>) {
    TrimSpace(actor) != "" && TrimSpace(kind) != "" && payload.Some?
  }

  function Append(env: Env, log: AuditLog, actor: string, kind: string, payload: Option<string>, at: int): AuditLog {
    if Accepts(actor, kind, payload)
    then log.(history := log.history + [NewRow(env, log.history, actor, kind, payload.value, at)])
    else log
  }

  /** The five hashed texts in order, with one separator between each two. */
  function Chained(ts: string, actor: string, kind: string, payload: string, prev: string): string {
    ts + [SEP] + actor + [SEP] + kind + [SEP] + payload + [SEP] + prev
  }

  lemma ChainedIsJoined(f: Fields)
    ensures Joined(f) == Chained(f.ts, f.actor, f.kind, f.payload, f.prev)
  {
    var tail := [SEP] + f.prev;
    Regroup(f.ts, f.actor, [SEP] + (f.kind + ([SEP] + (f.payload + tail))));
    Regroup(f.ts + [SEP] + f.actor, f.kind, [SEP] + (f.payload + tail));
    Regroup(f.ts + [SEP] + f.actor + [SEP] + f.kind, f.payload, tail);
  }

  /** A new row takes the next seq, says what was asked for and when, and chains to the row before it. */
  lemma ANewRowSays(env: Env, history: seq<Row>, actor: string, kind: string, payload: string, at: int)
    requires EnvOk(env)
    ensures var row := NewRow(env, history, actor, kind, payload, at);
            && row.seqNo == |history| + 1 && env.timeOf(row.ts) == Some(at)
            && row.actor == actor && row.kind == kind && row.payload == payload
            && (if history == [] then
                  row.prev == None && row.hash == env.hash(Chained(row.ts, actor, kind, payload, ""))
                else
                  var before := history[|history| - 1].hash;
                  row.prev == Some(before) && row.hash == env.hash(Chained(row.ts, actor, kind, payload, before)))
  {
    ChainedIsJoined(FieldsOf(NewRow(env, history, actor, kind, payload, at)));
  }

  /**
    Append accepts both of two different requests that hash alike: the separator moves
    from the actor of one into the kind of the other.
   */
  lemma AcceptedRequestsCanCollide(env: Env, history: seq<Row>, payload: string, at: int)
    ensures
      var (x, y) := (['a', SEP, 'b'], ['b', SEP, 'c']);
      && Accepts(x, "c", Some(payload)) && Accepts("a", y, Some(payload))
      && NewRow(env, history, x, "c", payload, at) != NewRow(env, history, "a", y, payload, at)
      && NewRow(env, history, x, "c", payload, at).hash == NewRow(env, history, "a", y, payload, at).hash
  {
    var (x, y) := (['a', SEP, 'b'], ['b', SEP, 'c']);
    TrimmedStays(x);
    TrimmedStays("c");
    TrimmedStays("a");
    TrimmedStays(y);
    var (r, q) := (NewRow(env, history, x, "c", payload, at), NewRow(env, history, "a", y, payload, at));
    var tail := [SEP] + (payload + ([SEP] + EffectivePrev(r.prev)));
    assert x == "a" + ([SEP] + "b") && y == "b" + ([SEP] + "c");
    Regroup("a", "b", [SEP] + ("c" + tail));
    Regroup("b", "c", tail);
    assert Joined(FieldsOf(r)) == Joined(FieldsOf(q));
  }

  // ---- Pruning ----

  /** Row r was recorded before the cutoff and is old enough a seq to be considered. */
  predicate Old(env: Env, r: Row, cutoff: int, last: int) {
    r.seqNo <= last && env.timeOf(r.ts).Some? && env.timeOf(r.ts).value < cutoff
  }

  /** The length of the oldest run of such rows, counting at most `limit`. */
  function OldRun(env: Env, rows: seq<Row>, cutoff: int, last: int, limit: nat): (n: nat)
    ensures n <= |rows| && n <= limit
    ensures forall i :: 0 <= i < n ==> Old(env, rows[i], cutoff, last)
    ensures n < |rows| && n < limit ==> !Old(env, rows[n], cutoff, last)
  {
    if rows == [] || limit == 0 || !Old(env, rows[0], cutoff, last) then 0
    else 1 + OldRun(env, rows[1..], cutoff, last, limit - 1)
  }

  function AnchorFor(env: Env, rows: seq<Row>, n: nat, cutoff: int): Anchor
    requires 0 < n <= |rows|
  {
    Anchor(rows[n - 1].seqNo, rows[n - 1].hash, rows[n - 1].ts, n, env.timeText(cutoff))
  }

  /** Anchors the first n rows and removes them. */
  function Prune(env: Env, log: AuditLog, n: nat, cutoff: int, at: int): AuditLog
    requires log.kept <= |log.history| && 0 < n <= |log.Rows()|
  {
    var payload := env.anchorText(AnchorFor(env, log.Rows(), n, cutoff));
    AuditLog(log.history + [NewRow(env, log.history, RETENTION, PRUNED, payload, at)], log.kept + n)
  }

  function PruneStep(env: Env, log: AuditLog, cutoff: int, last: int, limit: nat, at: int): AuditLog
    requires log.kept <= |log.history|
  {
    var n := OldRun(env, log.Rows(), cutoff, last, limit);
    if n == 0 then log else Prune(env, log, n, cutoff, at)
  }

  // ---- Verification ----

  /** Row j of `rows` is an anchor that accounts for a log starting at `first` with that previous hash. */
  predicate AccountsFor(env: Env, r: Row, first: int, prev: string) {
    && r.kind == PRUNED && env.anchorOf(r.payload).Some?
    && env.anchorOf(r.payload).value.throughHash == prev
    && env.anchorOf(r.payload).value.throughSeq < first
  }

  /** pruneAnchorFor: the latest such row. */
  function FindAnchor(env: Env, rows: seq<Row>, first: int, prev: string): (found: Option<nat>)
    ensures found.Some? ==> found.value < |rows| && AccountsFor(env, rows[found.value], first, prev)
    ensures forall j :: 0 <= j < |rows| && AccountsFor(env, rows[j], first, prev) ==> found.Some? && j <= found.value
  {
    if rows == [] then None
    else if AccountsFor(env, rows[|rows| - 1], first, prev) then Some(|rows| - 1)
    else FindAnchor(env, rows[..|rows| - 1], first, prev)
  }

  /** The start is a NULL previous hash, or one an anchor in the log accounts for. */
  predicate StartOk(env: Env, rows: seq<Row>) {
    rows != [] && rows[0].prev.Some? ==> FindAnchor(env, rows, rows[0].seqNo, rows[0].prev.value).Some?
  }

  /** Row i names the hash of the row before it and hashes to what it says. */
  predicate RowOk(env: Env, rows: seq<Row>, i: nat)
    requires i < |rows|
  {
    (i > 0 ==> EffectivePrev(rows[i].prev) == rows[i - 1].hash) && HashOk(env, rows[i])
  }

  predicate RowsOk(env: Env, rows: seq<Row>) {
    forall i :: 0 <= i < |rows| ==> RowOk(env, rows, i)
  }

  /** Row i chains to the row before it and hashes to what it says; a NULL previous hash counts as empty. */
  predicate Chains(env: Env, rows: seq<Row>, i: nat)
    requires i < |rows|
  {
    var prev := if rows[i].prev.Some? then rows[i].prev.value else "";
    && (i > 0 ==> prev == rows[i - 1].hash)
    && rows[i].hash == env.hash(Chained(rows[i].ts, rows[i].actor, rows[i].kind, rows[i].payload, prev))
  }

  /** Row r is a retention entry that names `prev` as the last hash removed and a seq before `first`. */
  predicate Records(env: Env, r: Row, first: int, prev: string) {
    && r.kind == "storage.audit_pruned" && env.anchorOf(r.payload).Some?
    && env.anchorOf(r.payload).value.throughHash == prev && env.anchorOf(r.payload).value.throughSeq < first
  }

  /** What verification accepts: every row chains, and a pruned start is on record in the log. */
  lemma AcceptedExactlyWhen(env: Env, rows: seq<Row>)
    ensures RowsOk(env, rows) <==> forall i :: 0 <= i < |rows| ==> Chains(env, rows, i)
    ensures StartOk(env, rows) <==>
              rows == [] || rows[0].prev.None? ||
              exists j :: 0 <= j < |rows| && Records(env, rows[j], rows[0].seqNo, rows[0].prev.value)
  {
    forall i | 0 <= i < |rows|
      ensures RowOk(env, rows, i) <==> Chains(env, rows, i)
    {
      ChainedIsJoined(FieldsOf(rows[i]));
    }
    if rows != [] && rows[0].prev.Some? {
      forall j | 0 <= j < |rows|
        ensures AccountsFor(env, rows[j], rows[0].seqNo, rows[0].prev.value)
           <==> Records(env, rows[j], rows[0].seqNo, rows[0].prev.value)
      {
      }
    }
  }

  // ---- The chain invariant ----

  predicate LinkOk(env: Env, history: seq<Row>, i: nat)
    requires i < |history|
  {
    && history[i].seqNo == i + 1
    && history[i].prev == (if i == 0 then None else Some(history[i - 1].hash))
    && HashOk(env, history[i])
    && env.timeOf(history[i].ts).Some?
  }

  predicate ChainOk(env: Env, history: seq<Row>) {
    forall i :: 0 <= i < |history| ==> LinkOk(env, history, i)
  }

  predicate AnchorAt(env: Env, history: seq<Row>, j: nat, through: int)
    requires j < |history|
  {
    && history[j].kind == PRUNED && env.anchorOf(history[j].payload).Some?
    && var a := env.anchorOf(history[j].payload).value;
       a.throughSeq == through && 0 < through <= |history| && a.throughHash == history[through - 1].hash
  }

  predicate LogOk(env: Env, log: AuditLog) {
    && ChainOk(env, log.history)
    && log.kept <= |log.history| && (log.history != [] ==> log.kept < |log.history|)
    && (log.kept > 0 ==> exists j :: log.kept <= j < |log.history| && AnchorAt(env, log.history, j, log.kept))
  }

  lemma RowJoins(env: Env, history: seq<Row>, actor: string, kind: string, payload: string, at: int)
    requires ChainOk(env, history) && EnvOk(env)
    ensures ChainOk(env, history + [NewRow(env, history, actor, kind, payload, at)])
  {
    var history' := history + [NewRow(env, history, actor, kind, payload, at)];
    forall i | 0 <= i < |history'|
      ensures LinkOk(env, history', i)
    {
      if i < |history| {
        assert LinkOk(env, history, i);
      }
    }
  }

  lemma AppendKeeps(env: Env, log: AuditLog, actor: string, kind: string, payload: Option<string>, at: int)
    requires EnvOk(env) && LogOk(env, log)
    ensures LogOk(env, Append(env, log, actor, kind, payload, at))
  {
    if Accepts(actor, kind, payload) {
      RowJoins(env, log.history, actor, kind, payload.value, at);
      if log.kept > 0 {
        var j :| log.kept <= j < |log.history| && AnchorAt(env, log.history, j, log.kept);
        assert AnchorAt(env, Append(env, log, actor, kind, payload, at).history, j, log.kept);
      }
    }
  }

  lemma PruneKeeps(env: Env, log: AuditLog, cutoff: int, last: int, limit: nat, at: int)
    requires EnvOk(env) && LogOk(env, log)
    ensures LogOk(env, PruneStep(env, log, cutoff, last, limit, at))
  {
    var n := OldRun(env, log.Rows(), cutoff, last, limit);
    if n > 0 {
      var log' := PruneStep(env, log, cutoff, last, limit, at);
      var anchor := AnchorFor(env, log.Rows(), n, cutoff);
      RowJoins(env, log.history, RETENTION, PRUNED, env.anchorText(anchor), at);
      assert log.Rows()[n - 1] == log.history[log.kept + n - 1] && LinkOk(env, log.history, log.kept + n - 1);
      assert AnchorAt(env, log'.history, |log.history|, log'.kept);
    }
  }

  // ---- Runs ----

  datatype Event =
    | Appends(actor: string, kind: string, payload: Option<string>, at: int)
    | Prunes(cutoff: int, last: int, limit: nat, now: int)

  function Step(env: Env, log: AuditLog, e: Event): AuditLog
    requires log.kept <= |log.history|
    ensures Step(env, log, e).kept <= |Step(env, log, e).history|
  {
    match e
    case Appends(actor, kind, payload, at) => Append(env, log, actor, kind, payload, at)
    case Prunes(cutoff, last, limit, now) => PruneStep(env, log, cutoff, last, limit, now)
  }

  function Run(env: Env, log: AuditLog, events: seq<Event>): (end: AuditLog)
    requires log.kept <= |log.history|
    ensures end.kept <= |end.history|
    decreases |events|
  {
    if events == [] then log else Run(env, Step(env, log, events[0]), events[1..])
  }

  lemma {:induction false} RunKeeps(env: Env, log: AuditLog, events: seq<Event>)
    requires EnvOk(env) && LogOk(env, log)
    ensures LogOk(env, Run(env, log, events))
    decreases |events|
  {
    if events == [] {
    } else {
      match events[0] {
        case Appends(actor, kind, payload, at) => AppendKeeps(env, log, actor, kind, payload, at);
        case Prunes(cutoff, last, limit, now) => PruneKeeps(env, log, cutoff, last, limit, now);
      }
      RunKeeps(env, Step(env, log, events[0]), events[1..]);
    }
  }

  /** Every interleaving of appends and prune steps leaves a log whose start and every row verify. */
  lemma EveryRunVerifies(env: Env, events: seq<Event>)
    requires EnvOk(env)
    ensures var log := Run(env, EMPTY, events);
            LogOk(env, log) && StartOk(env, log.Rows()) && RowsOk(env, log.Rows())
            && (log.history != [] ==> log.Rows() != [])
  {
    RunKeeps(env, EMPTY, events);
    LogVerifies(env, Run(env, EMPTY, events));
  }

  lemma LogVerifies(env: Env, log: AuditLog)
    requires EnvOk(env) && LogOk(env, log)
    ensures StartOk(env, log.Rows()) && RowsOk(env, log.Rows())
  {
    var rows := log.Rows();
    if log.kept > 0 {
      var j :| log.kept <= j < |log.history| && AnchorAt(env, log.history, j, log.kept);
      FirstRowNamesLastRemoved(env, log);
      assert rows[j - log.kept] == log.history[j];
      assert AccountsFor(env, rows[j - log.kept], rows[0].seqNo, rows[0].prev.value);
    } else if rows != [] {
      assert rows[0] == log.history[0] && LinkOk(env, log.history, 0);
    }
    forall i | 0 <= i < |rows|
      ensures RowOk(env, rows, i)
    {
      assert rows[i] == log.history[log.kept + i] && LinkOk(env, log.history, log.kept + i);
    }
  }

  lemma FirstRowNamesLastRemoved(env: Env, log: AuditLog)
    requires LogOk(env, log) && log.kept > 0
    ensures log.Rows() != [] && log.Rows()[0].seqNo == log.kept + 1
    ensures log.Rows()[0].prev == Some(log.history[log.kept - 1].hash)
  {
    assert log.Rows()[0] == log.history[log.kept] && LinkOk(env, log.history, log.kept);
  }

  // ---- Which anchor verification reports ----

  lemma PrevIsPlain(env: Env, history: seq<Row>, i: nat)
    requires EnvOk(env) && ChainOk(env, history) && i < |history|
    ensures Plain(EffectivePrev(history[i].prev)) && HashOk(env, history[i]) && history[i].hash != ""
    ensures EffectivePrev(history[i].prev) == if i == 0 then "" else history[i - 1].hash
  {
    assert LinkOk(env, history, i);
    if i > 0 {
      assert LinkOk(env, history, i - 1);
    }
  }

  /** No two rows of a chain have the same hash. */
  lemma {:induction false} HashesDiffer(env: Env, history: seq<Row>, i: nat, j: nat)
    requires EnvOk(env) && ChainOk(env, history) && i < j < |history|
    ensures history[i].hash != history[j].hash
  {
    PrevIsPlain(env, history, i);
    PrevIsPlain(env, history, j);
    PrevIsPlain(env, history, j - 1);
    if i > 0 {
      HashesDiffer(env, history, i - 1, j - 1);
    }
    assert EffectivePrev(history[i].prev) != EffectivePrev(history[j].prev);
    if Joined(FieldsOf(history[i])) == Joined(FieldsOf(history[j])) {
      PrevReadsBack(FieldsOf(history[i]), FieldsOf(history[j]));
    }
  }

  /** Up to which seq an anchor says the log was pruned. */
  function Through(env: Env, r: Row): int {
    match env.anchorOf(r.payload) case Some(a) => a.throughSeq case None => 0
  }

  /** The row reads as an anchor. */
  predicate IsAnchor(env: Env, r: Row) {
    r.kind == PRUNED && env.anchorOf(r.payload).Some?
  }

  /** Row j, if an anchor, records a removed row. */
  predicate AnchorSound(env: Env, history: seq<Row>, j: nat, kept: nat)
    requires j < |history|
  {
    IsAnchor(env, history[j]) ==>
      AnchorAt(env, history, j, Through(env, history[j])) && Through(env, history[j]) <= kept
  }

  predicate AnchorsAscend(env: Env, history: seq<Row>) {
    forall i, j :: 0 <= i < j < |history| && IsAnchor(env, history[i]) && IsAnchor(env, history[j]) ==>
      Through(env, history[i]) < Through(env, history[j])
  }

  /** Anchors, oldest first, record ever later rows, and never more than was removed. */
  predicate AnchorsOk(env: Env, log: AuditLog) {
    && (forall j :: 0 <= j < |log.history| ==> AnchorSound(env, log.history, j, log.kept))
    && AnchorsAscend(env, log.history)
  }

  /** What a caller appends does not read as an anchor. */
  predicate Ordinary(env: Env, e: Event) {
    e.Appends? && e.kind == PRUNED && e.payload.Some? ==> env.anchorOf(e.payload.value).None?
  }

  /** Only retention writes anchors. */
  predicate AnchorsReserved(env: Env, events: seq<Event>) {
    forall e :: e in events ==> Ordinary(env, e)
  }

  lemma {:induction false} RunKeepsAnchors(env: Env, log: AuditLog, events: seq<Event>)
    requires EnvOk(env) && LogOk(env, log) && AnchorsOk(env, log) && AnchorsReserved(env, events)
    ensures LogOk(env, Run(env, log, events)) && AnchorsOk(env, Run(env, log, events))
    decreases |events|
  {
    if events == [] {
    } else {
      match events[0] {
        case Appends(actor, kind, payload, at) =>
          assert events[0] in events;
          AppendKeeps(env, log, actor, kind, payload, at);
          AppendKeepsAnchors(env, log, actor, kind, payload, at);
        case Prunes(cutoff, last, limit, now) =>
          PruneKeeps(env, log, cutoff, last, limit, now);
          PruneKeepsAnchors(env, log, cutoff, last, limit, now);
      }
      RunKeepsAnchors(env, Step(env, log, events[0]), events[1..]);
    }
  }

  lemma AppendKeepsAnchors(env: Env, log: AuditLog, actor: string, kind: string, payload: Option<string>, at: int)
    requires LogOk(env, log) && AnchorsOk(env, log) && Ordinary(env, Appends(actor, kind, payload, at))
    ensures AnchorsOk(env, Append(env, log, actor, kind, payload, at))
  {
    var log' := Append(env, log, actor, kind, payload, at);
    forall j | 0 <= j < |log'.history|
      ensures AnchorSound(env, log'.history, j, log'.kept)
    {
      if j < |log.history| {
        assert AnchorSound(env, log.history, j, log.kept);
      }
    }
  }

  lemma PruneKeepsAnchors(env: Env, log: AuditLog, cutoff: int, last: int, limit: nat, at: int)
    requires EnvOk(env) && LogOk(env, log) && AnchorsOk(env, log)
    ensures AnchorsOk(env, PruneStep(env, log, cutoff, last, limit, at))
  {
    var n := OldRun(env, log.Rows(), cutoff, last, limit);
    if n > 0 {
      NewAnchorKeepsAnchors(env, log, AnchorFor(env, log.Rows(), n, cutoff), n, at);
    }
  }

  lemma NewAnchorKeepsAnchors(env: Env, log: AuditLog, anchor: Anchor, n: nat, at: int)
    requires EnvOk(env) && LogOk(env, log) && AnchorsOk(env, log) && 0 < n <= |log.Rows()|
    requires anchor.throughSeq == log.Rows()[n - 1].seqNo && anchor.throughHash == log.Rows()[n - 1].hash
    ensures var row := NewRow(env, log.history, RETENTION, PRUNED, env.anchorText(anchor), at);
            AnchorsOk(env, AuditLog(log.history + [row], log.kept + n))
  {
    var row := NewRow(env, log.history, RETENTION, PRUNED, env.anchorText(anchor), at);
    assert log.Rows()[n - 1] == log.history[log.kept + n - 1] && LinkOk(env, log.history, log.kept + n - 1);
    assert Through(env, row) == log.kept + n;
    NewAnchorIsSound(env, log, row, log.kept + n);
    NewAnchorAscends(env, log, row);
  }

  lemma NewAnchorIsSound(env: Env, log: AuditLog, row: Row, kept: nat)
    requires AnchorsOk(env, log) && log.kept < kept <= |log.history| && Through(env, row) == kept
    requires env.anchorOf(row.payload).Some?
    requires row.kind == PRUNED && env.anchorOf(row.payload).value.throughHash == log.history[kept - 1].hash
    ensures forall j :: 0 <= j <= |log.history| ==> AnchorSound(env, log.history + [row], j, kept)
  {
    var history' := log.history + [row];
    forall j | 0 <= j <= |log.history|
      ensures AnchorSound(env, history', j, kept)
    {
      if j < |log.history| {
        assert AnchorSound(env, log.history, j, log.kept);
      }
    }
  }

  lemma NewAnchorAscends(env: Env, log: AuditLog, row: Row)
    requires AnchorsOk(env, log) && log.kept < Through(env, row)
    ensures AnchorsAscend(env, log.history + [row])
  {
    var history' := log.history + [row];
    forall i, j | 0 <= i < j < |history'| && IsAnchor(env, history'[i]) && IsAnchor(env, history'[j])
      ensures Through(env, history'[i]) < Through(env, history'[j])
    {
      assert AnchorSound(env, log.history, i, log.kept);
    }
  }

  /** An anchor that verification would accept records exactly the last removed row. */
  lemma AcceptedAnchorIsExact(env: Env, log: AuditLog, j: nat)
    requires EnvOk(env) && LogOk(env, log) && AnchorsOk(env, log) && log.kept > 0 && log.kept <= j < |log.history|
    requires AccountsFor(env, log.history[j], log.kept + 1, log.history[log.kept - 1].hash)
    ensures Through(env, log.history[j]) == log.kept
  {
    var through := Through(env, log.history[j]);
    assert AnchorSound(env, log.history, j, log.kept);
    assert AnchorAt(env, log.history, j, through);
    if through < log.kept {
      HashesDiffer(env, log.history, through - 1, log.kept - 1);
    }
  }

  /** Up to which seq verification reports the log as pruned; 0 when nothing was. */
  function Reported(env: Env, rows: seq<Row>): int {
    if rows == [] || rows[0].prev.None? then 0
    else match FindAnchor(env, rows, rows[0].seqNo, rows[0].prev.value)
         case Some(j) => Through(env, rows[j])
         case None => 0
  }

  /** The report names exactly the last removed row. */
  predicate Exact(env: Env, log: AuditLog)
    requires log.kept <= |log.history|
  {
    Reported(env, log.Rows()) == log.kept
  }

  /** The append adds a row that accounts for the log's start. */
  predicate Accounts(env: Env, log: AuditLog, e: Event) {
    && e.Appends? && Accepts(e.actor, e.kind, e.payload) && 0 < log.kept <= |log.history|
    && e.kind == PRUNED && env.anchorOf(e.payload.value).Some?
    && var a := env.anchorOf(e.payload.value).value;
       a.throughHash == log.history[log.kept - 1].hash && a.throughSeq <= log.kept
  }

  /** What the row of an accounting append claims. */
  function Claimed(env: Env, log: AuditLog, e: Event): int
    requires Accounts(env, log, e)
  {
    env.anchorOf(e.payload.value).value.throughSeq
  }

  /** The append accounts for the start, but claims that less was removed. */
  predicate Misleads(env: Env, log: AuditLog, e: Event) {
    Accounts(env, log, e) && Claimed(env, log, e) < log.kept
  }

  /** The event is a prune step that removes something. */
  predicate Removes(env: Env, log: AuditLog, e: Event)
    requires log.kept <= |log.history|
  {
    e.Prunes? && OldRun(env, log.Rows(), e.cutoff, e.last, e.limit) > 0
  }

  /**
    What is reported after an event: the new last removed row after a prune step that
    removes something, whatever was reported before; what an accounting append claims;
    and otherwise what was reported before.
   */
  lemma ReportedAfter(env: Env, log: AuditLog, e: Event)
    requires EnvOk(env) && LogOk(env, log)
    ensures var log' := Step(env, log, e);
            Reported(env, log'.Rows()) ==
            if Removes(env, log, e) then log'.kept
            else if Accounts(env, log, e) then Claimed(env, log, e)
            else Reported(env, log.Rows())
  {
    match e
    case Appends(actor, kind, payload, at) => ReportedAfterAppend(env, log, actor, kind, payload, at);
    case Prunes(cutoff, last, limit, now) =>
      if Removes(env, log, e) {
        PruneKeeps(env, log, cutoff, last, limit, now);
        ReportedAfterPrune(env, log, OldRun(env, log.Rows(), cutoff, last, limit), cutoff, now);
      }
  }

  lemma ReportedAfterAppend(env: Env, log: AuditLog, actor: string, kind: string, payload: Option<string>, at: int)
    requires EnvOk(env) && LogOk(env, log)
    ensures var e := Appends(actor, kind, payload, at);
            Reported(env, Append(env, log, actor, kind, payload, at).Rows()) ==
            if Accounts(env, log, e) then Claimed(env, log, e) else Reported(env, log.Rows())
  {
    if Accepts(actor, kind, payload) {
      var row := NewRow(env, log.history, actor, kind, payload.value, at);
      assert Append(env, log, actor, kind, payload, at).Rows() == log.Rows() + [row];
      if log.kept > 0 {
        FirstRowNamesLastRemoved(env, log);
        FindAnchorGrows(env, log.Rows(), row, log.kept + 1, log.history[log.kept - 1].hash);
      } else if log.history != [] {
        assert log.Rows()[0] == log.history[0] && LinkOk(env, log.history, 0);
      }
    }
  }

  lemma FindAnchorGrows(env: Env, rows: seq<Row>, row: Row, first: int, prev: string)
    ensures FindAnchor(env, rows + [row], first, prev)
         == if AccountsFor(env, row, first, prev) then Some(|rows|) else FindAnchor(env, rows, first, prev)
  {
    assert (rows + [row])[..|rows|] == rows;
  }

  lemma ReportedAfterPrune(env: Env, log: AuditLog, n: nat, cutoff: int, at: int)
    requires EnvOk(env) && LogOk(env, log) && 0 < n <= |log.Rows()|
    requires LogOk(env, Prune(env, log, n, cutoff, at))
    ensures Reported(env, Prune(env, log, n, cutoff, at).Rows()) == log.kept + n
  {
    var log' := Prune(env, log, n, cutoff, at);
    var (rows, anchor) := (log'.Rows(), AnchorFor(env, log.Rows(), n, cutoff));
    FirstRowNamesLastRemoved(env, log');
    assert log.Rows()[n - 1] == log.history[log.kept + n - 1] && LinkOk(env, log.history, log.kept + n - 1);
    assert rows[|rows| - 1] == NewRow(env, log.history, RETENTION, PRUNED, env.anchorText(anchor), at);
    assert AccountsFor(env, rows[|rows| - 1], rows[0].seqNo, rows[0].prev.value);
  }

  /** The report is exact now and after every event. */
  predicate AlwaysExact(env: Env, log: AuditLog, events: seq<Event>)
    requires log.kept <= |log.history|
    decreases |events|
  {
    Exact(env, log) && (events == [] || AlwaysExact(env, Step(env, log, events[0]), events[1..]))
  }

  /** No append misleads at its own point of the run. */
  predicate NeverMisled(env: Env, log: AuditLog, events: seq<Event>)
    requires log.kept <= |log.history|
    decreases |events|
  {
    events == [] || (!Misleads(env, log, events[0]) && NeverMisled(env, Step(env, log, events[0]), events[1..]))
  }

  /** From an exact report, an event keeps it exact exactly when it does not mislead. */
  lemma StepStaysExactExactlyWhen(env: Env, log: AuditLog, e: Event)
    requires EnvOk(env) && LogOk(env, log) && Exact(env, log)
    ensures LogOk(env, Step(env, log, e))
    ensures Exact(env, Step(env, log, e)) <==> !Misleads(env, log, e)
  {
    RunKeeps(env, log, [e]);
    assert Run(env, log, [e]) == Run(env, Step(env, log, e), []);
    ReportedAfter(env, log, e);
  }

  lemma {:induction false} AlwaysExactExactlyWhen(env: Env, log: AuditLog, events: seq<Event>)
    requires EnvOk(env) && LogOk(env, log) && Exact(env, log)
    ensures AlwaysExact(env, log, events) <==> NeverMisled(env, log, events)
    decreases |events|
  {
    if events == [] {
    } else {
      StepStaysExactExactlyWhen(env, log, events[0]);
      if Exact(env, Step(env, log, events[0])) {
        AlwaysExactExactlyWhen(env, Step(env, log, events[0]), events[1..]);
      }
    }
  }

  /**
    In every run of appends and prune steps, the report names exactly the last removed row
    at every point if and only if no append misleads at its own point. When only retention
    writes what reads as an anchor, none does, and the row reported is the only one that
    accounts for the start, even when it is itself the first row kept and older anchors
    are gone.
   */
  lemma TheReportedAnchorIsExact(env: Env, events: seq<Event>)
    requires EnvOk(env)
    ensures AlwaysExact(env, EMPTY, events) <==> NeverMisled(env, EMPTY, events)
    ensures AnchorsReserved(env, events) && Run(env, EMPTY, events).kept > 0 ==>
              var log := Run(env, EMPTY, events);
              var rows := log.Rows();
              rows != [] && rows[0].prev.Some? &&
              var found := FindAnchor(env, rows, rows[0].seqNo, rows[0].prev.value);
              && found.Some?
              && Through(env, rows[found.value]) == log.kept
              && rows[0].prev.value == log.history[log.kept - 1].hash
              && (forall j :: 0 <= j < |rows| && AccountsFor(env, rows[j], rows[0].seqNo, rows[0].prev.value) ==>
                    j == found.value)
  {
    AlwaysExactExactlyWhen(env, EMPTY, events);
    if AnchorsReserved(env, events) && Run(env, EMPTY, events).kept > 0 {
      RunKeepsAnchors(env, EMPTY, events);
      OneAnchorAccounts(env, Run(env, EMPTY, events));
    }
  }

  lemma OneAnchorAccounts(env: Env, log: AuditLog)
    requires EnvOk(env) && LogOk(env, log) && AnchorsOk(env, log) && log.kept > 0
    ensures var rows := log.Rows();
            rows != [] && rows[0].prev == Some(log.history[log.kept - 1].hash) &&
            var found := FindAnchor(env, rows, rows[0].seqNo, rows[0].prev.value);
            && found.Some? && Through(env, rows[found.value]) == log.kept
            && forall j :: 0 <= j < |rows| && AccountsFor(env, rows[j], rows[0].seqNo, rows[0].prev.value) ==>
                 j == found.value
  {
    var rows := log.Rows();
    LogVerifies(env, log);
    FirstRowNamesLastRemoved(env, log);
    forall j | 0 <= j < |rows| && AccountsFor(env, rows[j], rows[0].seqNo, rows[0].prev.value)
      ensures rows[j] == log.history[log.kept + j] && IsAnchor(env, rows[j]) && Through(env, rows[j]) == log.kept
    {
      AcceptedAnchorIsExact(env, log, log.kept + j);
    }
    assert AnchorsAscend(env, log.history);
  }

  /**
    Such appends exist for every log that was pruned: a row naming the last removed hash
    under the retention kind is accepted, verifies, and is what is reported, with whatever
    seq it claims.
   */
  lemma AForgedAnchorIsReported(env: Env, log: AuditLog, actor: string, claimed: int, at: int)
    requires EnvOk(env) && LogOk(env, log) && log.kept > 0 && claimed <= log.kept && TrimSpace(actor) != ""
    ensures var forged := Anchor(claimed, log.history[log.kept - 1].hash, "", 0, "");
            var rows := Append(env, log, actor, PRUNED, Some(env.anchorText(forged)), at).Rows();
            && StartOk(env, rows) && RowsOk(env, rows) && rows != [] && rows[0].prev.Some?
            && FindAnchor(env, rows, rows[0].seqNo, rows[0].prev.value) == Some(|rows| - 1)
            && Through(env, rows[|rows| - 1]) == claimed
  {
    var forged := Anchor(claimed, log.history[log.kept - 1].hash, "", 0, "");
    var log' := Append(env, log, actor, PRUNED, Some(env.anchorText(forged)), at);
    TrimmedStays(PRUNED);
    AppendKeeps(env, log, actor, PRUNED, Some(env.anchorText(forged)), at);
    LogVerifies(env, log');
    FirstRowNamesLastRemoved(env, log');
    var rows := log'.Rows();
    assert rows[|rows| - 1] == log'.history[|log.history|];
    assert AccountsFor(env, rows[|rows| - 1], rows[0].seqNo, rows[0].prev.value);
  }

  // ---- What a verified chain binds ----

  predicate PlainRows(rows: seq<Row>) {
    forall k :: 0 <= k < |rows| ==> AllPlain(FieldsOf(rows[k]))
  }

  /**
    Two logs of equal length whose rows both verify and which end in the same hash agree,
    row by row, on time, actor, kind, payload and effective previous hash, as soon as the
    fields of one of them hold no separator: nothing else could have been hashed.
   */
  lemma {:induction false} EqualEndsMeanEqualRows(env: Env, a: seq<Row>, b: seq<Row>, i: nat)
    requires EnvOk(env) && RowsOk(env, a) && RowsOk(env, b) && |a| == |b| > i
    requires a[|a| - 1].hash == b[|b| - 1].hash
    requires PlainRows(a)
    ensures FieldsOf(a[i]) == FieldsOf(b[i]) && a[i].hash == b[i].hash
    decreases |a| - i
  {
    if i < |a| - 1 {
      EqualEndsMeanEqualRows(env, a, b, i + 1);
      assert RowOk(env, a, i + 1) && RowOk(env, b, i + 1);
    }
    assert RowOk(env, a, i) && RowOk(env, b, i);
    PlainJoinsOnlyOnce(FieldsOf(a[i]), FieldsOf(b[i]));
  }

  /** Nothing a caller appends holds the separator. */
  predicate PlainAppends(events: seq<Event>) {
    forall e :: e in events && e.Appends? && e.payload.Some? ==>
      Plain(e.actor) && Plain(e.kind) && Plain(e.payload.value)
  }

  lemma NewRowIsPlain(env: Env, history: seq<Row>, actor: string, kind: string, payload: string, at: int)
    requires EnvOk(env) && ChainOk(env, history) && PlainRows(history)
    requires Plain(actor) && Plain(kind) && Plain(payload)
    ensures PlainRows(history + [NewRow(env, history, actor, kind, payload, at)])
  {
    if history != [] {
      PrevIsPlain(env, history, |history| - 1);
      assert Plain(history[|history| - 1].hash);
    }
  }

  /** Then every row ever written is separator-free. */
  lemma {:induction false} RunStaysPlain(env: Env, log: AuditLog, events: seq<Event>)
    requires EnvOk(env) && LogOk(env, log) && PlainRows(log.history) && PlainAppends(events)
    ensures PlainRows(Run(env, log, events).history)
    decreases |events|
  {
    if events == [] {
    } else {
      var e := events[0];
      assert e in events;
      match e {
        case Appends(actor, kind, payload, at) =>
          if Accepts(actor, kind, payload) {
            NewRowIsPlain(env, log.history, actor, kind, payload.value, at);
          }
        case Prunes(cutoff, last, limit, now) =>
          var n := OldRun(env, log.Rows(), cutoff, last, limit);
          if n > 0 {
            NewRowIsPlain(env, log.history, RETENTION, PRUNED,
                          env.anchorText(AnchorFor(env, log.Rows(), n, cutoff)), now);
          }
      }
      RunKeeps(env, log, [e]);
      assert Run(env, log, [e]) == Run(env, Step(env, log, e), []);
      RunStaysPlain(env, Step(env, log, e), events[1..]);
    }
  }

  /**
    So the end hash of a log the program wrote from plain appends, pruned or not, binds
    the whole log: any table of the same length that verifies and ends in that hash agrees
    with it row by row.
   */
  lemma WrittenLogsAreBound(env: Env, events: seq<Event>, other: seq<Row>, i: nat)
    requires EnvOk(env) && PlainAppends(events)
    requires var rows := Run(env, EMPTY, events).Rows();
             && RowsOk(env, other) && |other| == |rows| > i && other[|other| - 1].hash == rows[|rows| - 1].hash
    ensures FieldsOf(Run(env, EMPTY, events).Rows()[i]) == FieldsOf(other[i])
  {
    RunKeeps(env, EMPTY, events);
    RunStaysPlain(env, EMPTY, events);
    PlainLogIsBound(env, Run(env, EMPTY, events), other, i);
  }

  lemma PlainLogIsBound(env: Env, log: AuditLog, other: seq<Row>, i: nat)
    requires EnvOk(env) && LogOk(env, log) && PlainRows(log.history) && RowsOk(env, other)
    requires |other| == |log.Rows()| > i && other[|other| - 1].hash == log.Rows()[|other| - 1].hash
    ensures FieldsOf(log.Rows()[i]) == FieldsOf(other[i])
  {
    LogVerifies(env, log);
    KeptRowsArePlain(log);
    EqualEndsMeanEqualRows(env, log.Rows(), other, i);
  }

  lemma KeptRowsArePlain(log: AuditLog)
    requires log.kept <= |log.history| && PlainRows(log.history)
    ensures PlainRows(log.Rows())
  {
  }
}
