/**
  The auditor as an object over its table: AppendTx inserts, Verify walks the rows,
  PruneBefore loops over prune steps while other callers append in between.
 */
module Auditor {
  import opened Option
  import opened AuditHash
  import opened AuditSpec
  import opened Text

  /** How a pruning pass ends: out of old entries, out of time, or with a failed step. */
  datatype PassEnd = Finished | Interrupted | Failed

  datatype Failure = NoFailure | NoAnchor | PrevMismatch | HashMismatch

  datatype Report = Report(
    ok: bool, rowsChecked: nat, failedSeq: int, reason: Failure, firstSeq: int, prunedThroughSeq: int, anchorSeq: int)

  /** One append some other caller makes while a pruning pass pauses. */
  datatype Entry = Entry(actor: string, kind: string, payload: Option<string>, at: int)

  class Auditor {
    const env: Env
    const step: nat
    var rows: seq<Row>
    var lastSeq: int
    ghost var removed: seq<Row>

    ghost function Log(): AuditLog
      reads this
    {
      AuditLog(removed + rows, |removed|)
    }

    ghost predicate Valid()
      reads this
    {
      EnvOk(env) && step > 0 && LogOk(env, Log()) && lastSeq == |removed| + |rows|
    }

    constructor (env: Env, step: nat)
      requires EnvOk(env) && step > 0
      ensures Valid() && Log() == EMPTY && this.env == env && this.step == step
    {
      this.env := env;
      this.step := step;
      rows, lastSeq, removed := [], 0, [];
    }

    /** The table ends in this entry, at this time and the last seq, chained to the row before it. */
    ghost predicate Recorded(rows: seq<Row>, actor: string, kind: string, payload: string, at: int)
      reads this`lastSeq
    {
      rows != [] &&
      var row := rows[|rows| - 1];
      && row.seqNo == lastSeq && env.timeOf(row.ts) == Some(at)
      && row.actor == actor && row.kind == kind && row.payload == payload
      && row.prev == (if |rows| == 1 then None else Some(rows[|rows| - 2].hash))
      && row.hash == env.hash(Chained(row.ts, actor, kind, payload, if row.prev.Some? then row.prev.value else ""))
    }

    /** One insert inside the caller's transaction; a refused request inserts nothing. */
    method AppendTx(actor: string, kind: string, payload: Option<string>, at: int) returns (ok: bool)
      requires Valid()
      modifies this`rows, this`lastSeq
      ensures Valid() && ok == Accepts(actor, kind, payload)
      ensures Log() == Append(env, old(Log()), actor, kind, payload, at)
      ensures ok <==> TrimSpace(actor) != "" && TrimSpace(kind) != "" && payload.Some?
      ensures !ok ==> rows == old(rows) && lastSeq == old(lastSeq)
      ensures ok ==> |rows| == |old(rows)| + 1 && rows[..|old(rows)|] == old(rows) && lastSeq == old(lastSeq) + 1
      ensures ok ==> Recorded(rows, actor, kind, payload.value, at)
    {
      if TrimSpace(actor) == "" || TrimSpace(kind) == "" || payload.None? {
        return false;
      }
      ghost var before := Log();
      AppendKeeps(env, before, actor, kind, payload, at);
      var prev := None;
      if |rows| > 0 {
        prev := Some(rows[|rows| - 1].hash);
        assert rows[|rows| - 1] == before.history[|before.history| - 1];
      }
      var ts := env.timeText(at);
      var hash := env.hash(Joined(Fields(ts, actor, kind, payload.value, EffectivePrev(prev))));
      lastSeq := lastSeq + 1;
      var row := Row(lastSeq, ts, actor, kind, payload.value, prev, hash);
      assert row == NewRow(env, before.history, actor, kind, payload.value, at);
      assert removed + (rows + [row]) == before.history + [row];
      ANewRowSays(env, before.history, actor, kind, payload.value, at);
      rows := rows + [row];
      return true;
    }

    /** The row's time is readable and before the cutoff. */
    predicate Earlier(r: Row, cutoff: int) {
      env.timeOf(r.ts).Some? && env.timeOf(r.ts).value < cutoff
    }

    /** The row's time is readable and is the cutoff or after it. */
    predicate NotEarlier(r: Row, cutoff: int) {
      env.timeOf(r.ts).Some? && env.timeOf(r.ts).value >= cutoff
    }

    /** The n oldest rows, up to a step's worth, are the run recorded before the cutoff; the next one is not of it. */
    predicate EarlierRun(rows: seq<Row>, n: int, cutoff: int, last: int) {
      && 0 <= n <= |rows| && n <= step
      && (forall i :: 0 <= i < n ==> rows[i].seqNo <= last && Earlier(rows[i], cutoff))
      && (n < |rows| && n < step && rows[n].seqNo <= last ==> NotEarlier(rows[n], cutoff))
    }

    lemma TimesAreReadable(log: AuditLog, i: nat)
      requires LogOk(env, log) && i < |log.Rows()|
      ensures env.timeOf(log.Rows()[i].ts).Some? && log.Rows()[i].seqNo == log.kept + i + 1
    {
      assert LinkOk(env, log.history, log.kept + i);
    }

    /** Reads the oldest run recorded before the cutoff, at most `step` rows of it. */
    method ReadPrunablePrefix(cutoff: int, last: int) returns (through: Anchor)
      requires Valid()
      ensures through.pruned == OldRun(env, rows, cutoff, last, step)
      ensures through.pruned > 0 ==>
                through.(cutoff := env.timeText(cutoff)) == AnchorFor(env, rows, through.pruned, cutoff)
      ensures EarlierRun(rows, through.pruned, cutoff, last)
    {
      through := Anchor(0, "", "", 0, "");
      ghost var run := OldRun(env, rows, cutoff, last, step);
      for i := 0 to |rows|
        invariant through.pruned == i <= run && through.cutoff == ""
        invariant i > 0 ==> through == AnchorFor(env, rows, i, cutoff).(cutoff := "")
      {
        if i == step || rows[i].seqNo > last {
          return;
        }
        assert rows[i] == Log().history[|removed| + i] && LinkOk(env, Log().history, |removed| + i);
        if env.timeOf(rows[i].ts).value >= cutoff {
          return;
        }
        through := through.(throughSeq := rows[i].seqNo, throughHash := rows[i].hash, throughTs := rows[i].ts,
                            pruned := through.pruned + 1);
      }
    }

    /**
      The n oldest rows have made place for one new row at the end: a retention entry that
      names the last of them, how many they were, and the cutoff.
     */
    predicate Replaced(was: seq<Row>, rows: seq<Row>, n: int, cutoff: int, now: int) {
      && 0 < n <= |was| && |rows| == |was| - n + 1 && rows[..|rows| - 1] == was[n..]
      && var (row, last) := (rows[|rows| - 1], was[n - 1]);
         && row.actor == "store.retention" && row.kind == "storage.audit_pruned" && env.timeOf(row.ts) == Some(now)
         && env.anchorOf(row.payload) == Some(Anchor(last.seqNo, last.hash, last.ts, n, env.timeText(cutoff)))
    }

    /** One transaction: anchor the run first, then delete it. */
    method PruneStep(cutoff: int, last: int, now: int) returns (n: nat)
      requires Valid()
      modifies this
      ensures Valid()
      ensures Log() == AuditSpec.PruneStep(env, old(Log()), cutoff, last, step, now)
      ensures n == OldRun(env, old(rows), cutoff, last, step)
      ensures Log().kept == old(Log()).kept + n && old(Log()).history <= Log().history
      ensures EarlierRun(old(rows), n, cutoff, last)
      ensures if n == 0 then rows == old(rows) else Replaced(old(rows), rows, n, cutoff, now)
    {
      ghost var before := Log();
      assert before.Rows() == rows;
      var through := ReadPrunablePrefix(cutoff, last);
      n := through.pruned;
      if n == 0 {
        return;
      }
      StepIsPrune(before, cutoff, last, n, now);
      AnchorAndDelete(through.(cutoff := env.timeText(cutoff)), cutoff, now);
    }

    lemma StepIsPrune(before: AuditLog, cutoff: int, last: int, n: nat, now: int)
      requires EnvOk(env) && LogOk(env, before) && n == OldRun(env, before.Rows(), cutoff, last, step) && n > 0
      ensures AuditSpec.PruneStep(env, before, cutoff, last, step, now) == Prune(env, before, n, cutoff, now)
      ensures LogOk(env, Prune(env, before, n, cutoff, now))
      ensures before.history <= Prune(env, before, n, cutoff, now).history
      ensures Prune(env, before, n, cutoff, now).kept == before.kept + n
    {
      PruneKeeps(env, before, cutoff, last, step, now);
    }

    method AnchorAndDelete(through: Anchor, cutoff: int, now: int)
      requires Valid() && 0 < through.pruned <= |rows| && through == AnchorFor(env, rows, through.pruned, cutoff)
      modifies this
      ensures Log() == Prune(env, old(Log()), through.pruned, cutoff, now)
      ensures lastSeq == |removed| + |rows|
      ensures Replaced(old(rows), rows, through.pruned, cutoff, now)
    {
      assert Log().Rows() == rows;
      RetentionIsAccepted(env.anchorText(through));
      ghost var was := rows;
      var ok := AppendTx(RETENTION, PRUNED, Some(env.anchorText(through)), now);
      RunIsReplaced(was, rows, through, cutoff, now);
      DeleteOldest(through.pruned);
    }

    lemma RunIsReplaced(was: seq<Row>, appended: seq<Row>, through: Anchor, cutoff: int, now: int)
      requires EnvOk(env) && 0 < through.pruned <= |was| && through == AnchorFor(env, was, through.pruned, cutoff)
      requires |appended| == |was| + 1 && appended[..|was|] == was
      requires var row := appended[|was|];
               && row.actor == RETENTION && row.kind == PRUNED
               && row.payload == env.anchorText(through) && env.timeOf(row.ts) == Some(now)
      ensures Replaced(was, appended[through.pruned..], through.pruned, cutoff, now)
    {
      var rows := appended[through.pruned..];
      assert rows[..|rows| - 1] == appended[..|was|][through.pruned..];
    }

    /** DELETE of the n oldest rows. */
    method DeleteOldest(n: nat)
      requires n <= |rows|
      modifies this`rows, this`removed
      ensures Log() == old(Log()).(kept := old(Log()).kept + n)
      ensures |removed| + |rows| == old(|removed| + |rows|) && rows == old(rows)[n..]
    {
      assert removed + rows == (removed + rows[..n]) + rows[n..];
      removed := removed + rows[..n];
      rows := rows[n..];
    }

    lemma RetentionIsAccepted(payload: string)
      ensures Accepts(RETENTION, PRUNED, Some(payload))
    {
      TrimmedStays(RETENTION);
      TrimmedStays(PRUNED);
    }

    /**
      A whole pass. During pause i other callers append others[i]; the context ends after
      `patience` pauses, and the store fails step `failing`, if the pass gets there, which
      rolls that step back. A pass that ends on its own has removed exactly the oldest run
      of entries before the cutoff among those present when it started; one cut short or
      failed has removed an initial part of it. Either way the count is exact, and since
      only rows present at the start are ever removed, no anchor the pass wrote is.
     */
    method PruneBefore(cutoff: int, clock: nat -> int, others: seq<seq<Entry>>, patience: nat, failing: Option<nat>)
      returns (total: nat, end: PassEnd)
      requires Valid()
      modifies this
      ensures Valid()
      ensures old(Log()).history <= Log().history && Log().kept == old(Log()).kept + total
      ensures var run := OldRun(env, old(rows), cutoff, |old(Log()).history|, |old(rows)|);
              if end == Finished then total == run else total <= run
      ensures Log().kept <= |old(Log()).history|
      ensures Emptied(old(rows), rows, total, cutoff, end == Finished)
      ensures old(rows) != [] ==> rows != []
      ensures end == Interrupted ==> total > 0
      ensures failing == Some(0) && old(rows) != [] ==> end == Failed && Log() == old(Log())
      ensures failing == None ==> end != Failed
    {
      if |rows| == 0 {
        return 0, Finished;
      }
      ghost var before := Log();
      assert before.Rows() == rows;
      var last := rows[|rows| - 1].seqNo;
      assert LinkOk(env, before.history, |before.history| - 1);
      total, end := StepUntilDone(before, cutoff, last, clock, others, patience, failing);
      RunCovers(env, before, cutoff, last, total);
      PassEmpties(before, Log(), cutoff, last, total, end == Finished);
    }

    /**
      The first `total` of the rows that were there are gone, all strictly before the cutoff;
      the rest still begin the table, and if the pass is finished the first of them is not.
     */
    predicate Emptied(was: seq<Row>, rows: seq<Row>, total: nat, cutoff: int, finished: bool) {
      && total <= |was| && was[total..] <= rows
      && (forall i :: 0 <= i < total ==> Earlier(was[i], cutoff))
      && (finished && total < |was| ==> NotEarlier(was[total], cutoff))
    }

    lemma PassEmpties(before: AuditLog, after: AuditLog, cutoff: int, last: int, total: nat, finished: bool)
      requires LogOk(env, before) && last == |before.history|
      requires before.history <= after.history && after.kept == before.kept + total <= |before.history|
      requires var run := OldRun(env, before.Rows(), cutoff, last, |before.Rows()|);
               if finished then total == run else total <= run
      ensures Emptied(before.Rows(), after.Rows(), total, cutoff, finished)
    {
      RemovedExactly(before, cutoff, last, total, finished);
      KeptRowsStay(before, after, total);
    }

    lemma RemovedExactly(before: AuditLog, cutoff: int, last: int, total: nat, finished: bool)
      requires LogOk(env, before) && last == |before.history|
      requires var run := OldRun(env, before.Rows(), cutoff, last, |before.Rows()|);
               if finished then total == run else total <= run
      ensures total <= |before.Rows()| && forall i :: 0 <= i < total ==> Earlier(before.Rows()[i], cutoff)
      ensures finished && total < |before.Rows()| ==> NotEarlier(before.Rows()[total], cutoff)
    {
      forall i | 0 <= i < total
        ensures Earlier(before.Rows()[i], cutoff)
      {
        assert Old(env, before.Rows()[i], cutoff, last);
      }
      if finished && total < |before.Rows()| {
        TimesAreReadable(before, total);
      }
    }

    /** What a log keeps of an earlier state of itself still begins it. */
    lemma KeptRowsStay(before: AuditLog, after: AuditLog, total: nat)
      requires before.history <= after.history && after.kept == before.kept + total <= |before.history|
      ensures before.Rows()[total..] <= after.Rows()
    {
      assert before.Rows()[total..] == before.history[after.kept..];
      assert after.history[..|before.history|][after.kept..] == before.history[after.kept..];
    }

    /** The loop of a pass. */
    method StepUntilDone(ghost before: AuditLog, cutoff: int, last: int, clock: nat -> int, others: seq<seq<Entry>>,
                         patience: nat, failing: Option<nat>)
      returns (total: nat, end: PassEnd)
      requires Valid() && Log() == before && last == |before.history|
      modifies this
      ensures Passing(before, cutoff, last, total)
      ensures end == Finished ==> OldRun(env, before.Rows(), cutoff, last, |before.Rows()|) == total
      ensures end == Interrupted ==> total > 0
      ensures failing == Some(0) ==> end == Failed && Log() == before
      ensures failing == None ==> end != Failed
    {
      total := 0;
      var steps := 0;
      while true
        invariant Passing(before, cutoff, last, total)
        invariant if steps == 0 then Log() == before else failing != Some(0)
        decreases |before.history| - total
      {
        if failing == Some(steps) {
          return total, Failed;
        }
        var n := PassStep(before, cutoff, last, clock(steps), total);
        total := total + n;
        if n == 0 {
          return total, Finished;
        }
        if steps >= patience {
          return total, Interrupted;
        }
        if steps < |others| {
          Pause(before, cutoff, last, total, others[steps]);
        }
        steps := steps + 1;
      }
    }

    /** Between two steps other callers append. */
    method Pause(ghost before: AuditLog, cutoff: int, last: int, ghost total: nat, entries: seq<Entry>)
      requires Passing(before, cutoff, last, total)
      modifies this`rows, this`lastSeq
      ensures Passing(before, cutoff, last, total)
    {
      AppendAll(entries);
    }

    /** A pass that started from `before` has removed `total` rows, all of its oldest run. */
    ghost predicate Passing(before: AuditLog, cutoff: int, last: int, total: nat)
      reads this
    {
      && Valid() && before.history <= Log().history
      && Log().kept == before.kept + total <= |before.history|
      && forall k :: before.kept <= k < Log().kept ==> Old(env, before.history[k], cutoff, last)
    }

    /** One step of a pass that started from `before`; finding nothing means the whole run is gone. */
    method PassStep(ghost before: AuditLog, cutoff: int, last: int, now: int, ghost total: nat) returns (n: nat)
      requires Passing(before, cutoff, last, total) && last == |before.history|
      modifies this
      ensures Passing(before, cutoff, last, total + n)
      ensures n == 0 ==> OldRun(env, before.Rows(), cutoff, last, |before.Rows()|) == total
    {
      ghost var mid := Log();
      assert mid.Rows() == rows;
      n := PruneStep(cutoff, last, now);
      StepStaysInside(env, before, mid, cutoff, last, n);
      if n == 0 {
        NothingLeft(env, before, mid, cutoff, last, total, step);
      }
    }

    /** The rows a step removes are rows the pass started with. */
    lemma StepStaysInside(env: Env, before: AuditLog, mid: AuditLog, cutoff: int, last: int, n: nat)
      requires LogOk(env, mid) && before.history <= mid.history && mid.kept <= |before.history|
      requires n <= |mid.Rows()| && last == |before.history|
      requires forall i :: 0 <= i < n ==> Old(env, mid.Rows()[i], cutoff, last)
      ensures mid.kept + n <= |before.history|
      ensures forall k :: mid.kept <= k < mid.kept + n ==> Old(env, before.history[k], cutoff, last)
    {
      if n > 0 {
        assert mid.Rows()[n - 1] == mid.history[mid.kept + n - 1] && LinkOk(env, mid.history, mid.kept + n - 1);
        assert Old(env, mid.Rows()[n - 1], cutoff, last);
      }
      forall k | mid.kept <= k < mid.kept + n
        ensures Old(env, before.history[k], cutoff, last)
      {
        assert Old(env, mid.Rows()[k - mid.kept], cutoff, last);
        assert mid.Rows()[k - mid.kept] == mid.history[k] == before.history[k];
      }
    }

    /** Everything removed so far belongs to the oldest run. */
    lemma RunCovers(env: Env, before: AuditLog, cutoff: int, last: int, total: nat)
      requires before.kept + total <= |before.history|
      requires forall k :: before.kept <= k < before.kept + total ==> Old(env, before.history[k], cutoff, last)
      ensures OldRun(env, before.Rows(), cutoff, last, |before.Rows()|) >= total
    {
      var run := OldRun(env, before.Rows(), cutoff, last, |before.Rows()|);
      assert run < |before.Rows()| ==> before.Rows()[run] == before.history[before.kept + run];
    }

    /** A step that finds nothing means the whole run is gone. */
    lemma NothingLeft(env: Env, before: AuditLog, mid: AuditLog, cutoff: int, last: int, total: nat, step: nat)
      requires before.history <= mid.history && mid.kept == before.kept + total <= |before.history|
      requires mid.kept <= |mid.history| && step > 0
      requires OldRun(env, mid.Rows(), cutoff, last, step) == 0
      requires forall k :: before.kept <= k < before.kept + total ==> Old(env, before.history[k], cutoff, last)
      ensures OldRun(env, before.Rows(), cutoff, last, |before.Rows()|) == total
    {
      RunCovers(env, before, cutoff, last, total);
      if total < |before.Rows()| {
        assert mid.Rows()[0] == mid.history[mid.kept] == before.Rows()[total];
        assert !Old(env, before.Rows()[total], cutoff, last);
      }
    }

    method AppendAll(entries: seq<Entry>)
      requires Valid()
      modifies this`rows, this`lastSeq
      ensures Valid() && removed == old(removed) && old(Log()).history <= Log().history
    {
      for i := 0 to |entries|
        invariant Valid() && removed == old(removed) && old(Log()).history <= Log().history
      {
        var ok := AppendTx(entries[i].actor, entries[i].kind, entries[i].payload, entries[i].at);
      }
    }

    /** Whatever appends and pruning passes it went through, the table verifies. */
    lemma AValidLogVerifies()
      requires Valid()
      ensures StartOk(env, rows) && RowsOk(env, rows)
    {
      assert Log().Rows() == rows;
      LogVerifies(env, Log());
    }

    /** Walks the table; the report points at the first row that does not hold. */
    method Verify() returns (report: Report)
      ensures rows == [] ==> report == Report(true, 0, 0, NoFailure, 0, 0, 0)
      ensures report.ok ==> forall i :: 0 <= i < |rows| ==> Chains(env, rows, i)
      ensures report.reason == NoAnchor <==>
                rows != [] && rows[0].prev.Some? &&
                forall j :: 0 <= j < |rows| ==> !Records(env, rows[j], rows[0].seqNo, rows[0].prev.value)
      ensures rows != [] ==> report.firstSeq == rows[0].seqNo
      ensures report.ok <==> StartOk(env, rows) && RowsOk(env, rows)
      ensures report.ok ==> report.rowsChecked == |rows| && report.reason == NoFailure && report.failedSeq == 0
      ensures !StartOk(env, rows) ==>
                report.reason == NoAnchor && report.rowsChecked == 0 && report.failedSeq == rows[0].seqNo
      ensures StartOk(env, rows) && !report.ok ==>
                && report.rowsChecked < |rows| && report.failedSeq == rows[report.rowsChecked].seqNo
                && !RowOk(env, rows, report.rowsChecked)
                && (report.reason == HashMismatch <==> !(report.reason == PrevMismatch))
                && (report.reason == PrevMismatch ==>
                      report.rowsChecked > 0 &&
                      EffectivePrev(rows[report.rowsChecked].prev) != rows[report.rowsChecked - 1].hash)
      ensures forall i :: 0 <= i < report.rowsChecked <= |rows| ==> RowOk(env, rows, i)
      ensures StartOk(env, rows) && rows != [] && rows[0].prev.Some? ==>
                var anchor := rows[FindAnchor(env, rows, rows[0].seqNo, rows[0].prev.value).value];
                report.anchorSeq == anchor.seqNo && report.prunedThroughSeq == Through(env, anchor)
      ensures rows == [] || rows[0].prev.None? ==> report.anchorSeq == 0 && report.prunedThroughSeq == 0
      ensures report.prunedThroughSeq == Reported(env, rows)
    {
      AcceptedExactlyWhen(env, rows);
      report := Report(true, 0, 0, NoFailure, 0, 0, 0);
      if |rows| == 0 {
        return;
      }
      var lastHash := "";
      var first := rows[0];
      report := report.(firstSeq := first.seqNo);
      if first.prev.Some? {
        var found := FindAnchor(env, rows, first.seqNo, first.prev.value);
        if found.None? {
          return report.(ok := false, failedSeq := first.seqNo, reason := NoAnchor);
        }
        report := report.(anchorSeq := rows[found.value].seqNo,
                          prunedThroughSeq := env.anchorOf(rows[found.value].payload).value.throughSeq);
        lastHash := first.prev.value;
      }
      report := CheckRows(report, lastHash);
    }

    /** The row loop, from a report that says how the log starts. */
    method CheckRows(start: Report, firstPrev: string) returns (report: Report)
      requires rows != [] && firstPrev == EffectivePrev(rows[0].prev)
      requires start.ok && start.rowsChecked == 0 && start.reason == NoFailure && start.failedSeq == 0
      ensures report.firstSeq == start.firstSeq && report.anchorSeq == start.anchorSeq
      ensures report.prunedThroughSeq == start.prunedThroughSeq
      ensures report.ok <==> RowsOk(env, rows)
      ensures report.ok ==> report.rowsChecked == |rows| && report.reason == NoFailure && report.failedSeq == 0
      ensures !report.ok ==>
                && report.rowsChecked < |rows| && report.failedSeq == rows[report.rowsChecked].seqNo
                && !RowOk(env, rows, report.rowsChecked)
                && (report.reason == HashMismatch <==> !(report.reason == PrevMismatch))
                && (report.reason == PrevMismatch ==>
                      report.rowsChecked > 0 &&
                      EffectivePrev(rows[report.rowsChecked].prev) != rows[report.rowsChecked - 1].hash)
      ensures forall i :: 0 <= i < report.rowsChecked <= |rows| ==> RowOk(env, rows, i)
    {
      report := start;
      var lastHash := firstPrev;
      for i := 0 to |rows|
        invariant report == start.(rowsChecked := i)
        invariant lastHash == if i == 0 then firstPrev else rows[i - 1].hash
        invariant forall k :: 0 <= k < i ==> RowOk(env, rows, k)
      {
        var actualPrev := EffectivePrev(rows[i].prev);
        if actualPrev != lastHash {
          assert !RowOk(env, rows, i);
          return report.(ok := false, failedSeq := rows[i].seqNo, reason := PrevMismatch);
        }
        if env.hash(Joined(FieldsOf(rows[i]))) != rows[i].hash {
          assert !RowOk(env, rows, i);
          return report.(ok := false, failedSeq := rows[i].seqNo, reason := HashMismatch);
        }
        lastHash := rows[i].hash;
        report := report.(rowsChecked := report.rowsChecked + 1);
      }
    }
  }
}
