/**
  Restore over a directory: files by path, and the renames, removals, copies and WAL
  fold that swap performs, in order. An attempt may stop after any of them, by a crash
  or by an error; a later attempt starts again from whatever files are there.
 */
module RestoreSpec {
  import opened Option

  type Data = string

  datatype Path = Db | Wal | Shm | Staging | Safety | Rejected | Backup | Temp

  type Files = map<Path, Data>

  /** What a database file with a write-ahead log holds, and which files admission accepts. */
  datatype Env = Env(merged: (Data, Data) -> Data, admissible: Data -> bool)

  datatype Mode = Staged | Offline

  datatype Op = Fold | Rename(from: Path, to: Path) | Remove(path: Path) | Copy(from: Path, to: Path)

  function Source(mode: Mode): Path {
    if mode == Staged then Staging else Backup
  }

  /** The content of the database, its log included. */
  function Content(env: Env, fs: Files): Option<Data> {
    if Db !in fs then None
    else if Wal in fs then Some(env.merged(fs[Db], fs[Wal]))
    else Some(fs[Db])
  }

  /** A rename or copy of a missing file, and a fold without a database, have no effect. */
  function Do(env: Env, fs: Files, op: Op): Files {
    match op
    case Fold => if Db in fs then fs[Db := Content(env, fs).value] - {Wal, Shm} else fs
    case Rename(from, to) => if from in fs && from != to then fs[to := fs[from]] - {from} else fs
    case Remove(path) => fs - {path}
    case Copy(from, to) => if from in fs then fs[to := fs[from]] else fs
  }

  function DoAll(env: Env, fs: Files, ops: seq<Op>): Files
    decreases |ops|
  {
    if ops == [] then fs else DoAll(env, Do(env, fs, ops[0]), ops[1..])
  }

  function InstallOps(mode: Mode): seq<Op> {
    if mode == Staged then [Rename(Staging, Db)] else [Copy(Backup, Temp), Rename(Temp, Db)]
  }

  /** What swap does once the source is admitted. */
  function SwapOps(fs: Files, mode: Mode): seq<Op> {
    (if Db in fs then [Fold, Rename(Db, Safety)] else []) + [Remove(Wal), Remove(Shm)] + InstallOps(mode)
  }

  /** What one start does about a staged file: nothing, set it aside, or apply it. */
  function StagedOps(env: Env, fs: Files): seq<Op> {
    if Staging !in fs then []
    else if !env.admissible(fs[Staging]) then [Rename(Staging, Rejected)]
    else SwapOps(fs, Staged)
  }

  /** One start that gets through at most k operations. */
  function Attempt(env: Env, fs: Files, k: nat): Files {
    var ops := StagedOps(env, fs);
    DoAll(env, fs, ops[..if k < |ops| then k else |ops|])
  }

  /** A start that is not cut short. */
  function Complete(env: Env, fs: Files): Files {
    DoAll(env, fs, StagedOps(env, fs))
  }

  function Attempts(env: Env, fs: Files, ks: seq<nat>): Files
    decreases |ks|
  {
    if ks == [] then fs else Attempts(env, Attempt(env, fs, ks[0]), ks[1..])
  }

  // ---- The phases of a restore ----

  /** What a restore starts from: the original content, the file to install, and any older safety copy. */
  datatype Start = Start(original: Option<Data>, source: Data, oldSafety: Option<Data>)

  function Get(fs: Files, p: Path): Option<Data> {
    if p in fs then Some(fs[p]) else None
  }

  /** The safety copy a finished restore owes: the original if there was one, else whatever was there. */
  function OwedSafety(s: Start): Option<Data> {
    if s.original.Some? then s.original else s.oldSafety
  }

  predicate Untouched(env: Env, fs: Files, mode: Mode, s: Start) {
    && s.original.Some? && Content(env, fs) == s.original
    && Get(fs, Source(mode)) == Some(s.source) && Get(fs, Safety) == s.oldSafety
  }

  predicate MovedAside(env: Env, fs: Files, mode: Mode, s: Start) {
    Db !in fs && Get(fs, Source(mode)) == Some(s.source) && Get(fs, Safety) == OwedSafety(s)
  }

  predicate Installed(env: Env, fs: Files, mode: Mode, s: Start) {
    && Content(env, fs) == Some(s.source) && Get(fs, Db) == Some(s.source) && Get(fs, Safety) == OwedSafety(s)
    && (mode == Staged ==> Staging !in fs)
  }

  /** Before the install is done. */
  predicate Underway(env: Env, fs: Files, mode: Mode, s: Start) {
    Untouched(env, fs, mode, s) || MovedAside(env, fs, mode, s)
  }

  /** The start a directory presents. */
  function StartOf(env: Env, fs: Files, mode: Mode): Start
    requires Source(mode) in fs
  {
    Start(Content(env, fs), fs[Source(mode)], Get(fs, Safety))
  }

  /** Db's content with its log merged in, if it has one. */
  predicate Preserved(env: Env, fs: Files, kept: Data)
    requires Db in fs
  {
    kept == if Wal in fs then env.merged(fs[Db], fs[Wal]) else fs[Db]
  }

  /**
    What a restore owes the directory it began in: the database is the file at `source`,
    and the safety copy is the former database with its log merged in; where there was no
    database, the safety copy is whatever it was.
   */
  predicate Restored(env: Env, fs: Files, source: Path, end: Files) {
    && source in fs && Db in end && end[Db] == fs[source]
    && (Wal in end ==> env.merged(end[Db], end[Wal]) == fs[source])
    && if Db in fs then Safety in end && Preserved(env, fs, end[Safety])
       else (Safety in end <==> Safety in fs) && (Safety in fs ==> end[Safety] == fs[Safety])
  }

  /** Until then the former content is whole in the database, or in the safety copy. */
  predicate Whole(env: Env, fs: Files, mid: Files) {
    Db in fs ==>
      || (Safety in mid && Preserved(env, fs, mid[Safety]))
      || (Db in mid && Preserved(env, fs, if Wal in mid then env.merged(mid[Db], mid[Wal]) else mid[Db]))
  }

  lemma InstalledIsRestored(env: Env, fs: Files, mode: Mode, end: Files)
    requires Source(mode) in fs && Installed(env, end, mode, StartOf(env, fs, mode))
    ensures Restored(env, fs, Source(mode), end)
  {
  }

  lemma UnderwayIsWhole(env: Env, fs: Files, mode: Mode, mid: Files)
    requires Source(mode) in fs
    requires var s := StartOf(env, fs, mode); Underway(env, mid, mode, s) || Installed(env, mid, mode, s)
    ensures Whole(env, fs, mid)
  {
  }

  lemma FreshIsUnderway(env: Env, fs: Files, mode: Mode)
    requires Source(mode) in fs
    ensures Underway(env, fs, mode, StartOf(env, fs, mode))
  {
  }

  lemma {:induction false} DoAllSplits(env: Env, fs: Files, a: seq<Op>, b: seq<Op>)
    ensures DoAll(env, fs, a + b) == DoAll(env, DoAll(env, fs, a), b)
    decreases |a|
  {
    if a == [] {
      assert a + b == b;
    } else {
      assert (a + b)[1..] == a[1..] + b;
      DoAllSplits(env, Do(env, fs, a[0]), a[1..], b);
    }
  }

  /** The sidecars are swept while the database is away; nothing else moves. */
  lemma SweepKeeps(env: Env, fs: Files, mode: Mode, s: Start, p: Path)
    requires MovedAside(env, fs, mode, s) && p in {Wal, Shm}
    ensures MovedAside(env, Do(env, fs, Remove(p)), mode, s)
  {
  }

  lemma FoldKeeps(env: Env, fs: Files, mode: Mode, s: Start)
    requires Untouched(env, fs, mode, s)
    ensures var fs' := Do(env, fs, Fold);
            Untouched(env, fs', mode, s) && Wal !in fs'
  {
  }

  /** How far an interrupted swap gets: any proper prefix of it leaves the restore underway. */
  lemma InterruptedStaysUnderway(env: Env, fs: Files, mode: Mode, s: Start, k: nat)
    requires Underway(env, fs, mode, s) && k < |SwapOps(fs, mode)|
    ensures Underway(env, DoAll(env, fs, SwapOps(fs, mode)[..k]), mode, s)
  {
    var ops := SwapOps(fs, mode);
    if Db in fs {
      var folded := Do(env, fs, Fold);
      FoldKeeps(env, fs, mode, s);
      var aside := Do(env, folded, Rename(Db, Safety));
      assert MovedAside(env, aside, mode, s);
      if k >= 2 {
        assert ops[..k] == [Fold, Rename(Db, Safety)] + ops[2..][..k - 2];
        DoAllSplits(env, fs, [Fold, Rename(Db, Safety)], ops[2..][..k - 2]);
        TwoSteps(env, fs, Fold, Rename(Db, Safety));
        assert ops[2..] == [Remove(Wal), Remove(Shm)] + InstallOps(mode);
        SweepingStaysAside(env, aside, mode, s, k - 2);
      } else if k == 1 {
        assert ops[..1] == [Fold];
        TwoSteps(env, fs, Fold, Fold);
      }
    } else {
      assert ops == [Remove(Wal), Remove(Shm)] + InstallOps(mode);
      SweepingStaysAside(env, fs, mode, s, k);
    }
  }

  lemma TwoSteps(env: Env, fs: Files, a: Op, b: Op)
    ensures DoAll(env, fs, [a]) == Do(env, fs, a)
    ensures DoAll(env, fs, [a, b]) == Do(env, Do(env, fs, a), b)
  {
    assert [a, b] == [a] + [b];
    DoAllSplits(env, fs, [a], [b]);
  }

  lemma SweepingStaysAside(env: Env, fs: Files, mode: Mode, s: Start, k: nat)
    requires MovedAside(env, fs, mode, s) && k < 2 + |InstallOps(mode)|
    ensures MovedAside(env, DoAll(env, fs, ([Remove(Wal), Remove(Shm)] + InstallOps(mode))[..k]), mode, s)
  {
    var ops := [Remove(Wal), Remove(Shm)] + InstallOps(mode);
    SweepKeeps(env, fs, mode, s, Wal);
    SweepKeeps(env, Do(env, fs, Remove(Wal)), mode, s, Shm);
    TwoSteps(env, fs, Remove(Wal), Remove(Shm));
    if k == 1 {
      assert ops[..1] == [Remove(Wal)];
    } else if k == 2 {
      assert ops[..2] == [Remove(Wal), Remove(Shm)];
    } else if k == 3 {
      assert ops[..3] == [Remove(Wal), Remove(Shm)] + [Copy(Backup, Temp)];
      DoAllSplits(env, fs, [Remove(Wal), Remove(Shm)], [Copy(Backup, Temp)]);
      TwoSteps(env, Do(env, Do(env, fs, Remove(Wal)), Remove(Shm)), Copy(Backup, Temp), Copy(Backup, Temp));
    }
  }

  /** From anywhere underway, a whole swap installs the source and pays the owed safety copy. */
  lemma CompleteInstalls(env: Env, fs: Files, mode: Mode, s: Start)
    requires Underway(env, fs, mode, s)
    ensures Installed(env, DoAll(env, fs, SwapOps(fs, mode)), mode, s)
  {
    var tail := [Remove(Wal), Remove(Shm)] + InstallOps(mode);
    if Db in fs {
      FoldKeeps(env, fs, mode, s);
      TwoSteps(env, fs, Fold, Rename(Db, Safety));
      assert SwapOps(fs, mode) == [Fold, Rename(Db, Safety)] + tail;
      DoAllSplits(env, fs, [Fold, Rename(Db, Safety)], tail);
      InstallFromAside(env, Do(env, Do(env, fs, Fold), Rename(Db, Safety)), mode, s);
    } else {
      assert SwapOps(fs, mode) == tail;
      InstallFromAside(env, fs, mode, s);
    }
  }

  lemma InstallFromAside(env: Env, fs: Files, mode: Mode, s: Start)
    requires MovedAside(env, fs, mode, s)
    ensures Installed(env, DoAll(env, fs, [Remove(Wal), Remove(Shm)] + InstallOps(mode)), mode, s)
  {
    DoAllSplits(env, fs, [Remove(Wal), Remove(Shm)], InstallOps(mode));
    TwoSteps(env, fs, Remove(Wal), Remove(Shm));
    var swept := Do(env, Do(env, fs, Remove(Wal)), Remove(Shm));
    if mode == Staged {
      TwoSteps(env, swept, Rename(Staging, Db), Fold);
    } else {
      TwoSteps(env, swept, Copy(Backup, Temp), Rename(Temp, Db));
    }
  }

  lemma DoAllExtends(env: Env, fs: Files, ops: seq<Op>, i: nat)
    requires i < |ops|
    ensures DoAll(env, fs, ops[..i + 1]) == Do(env, DoAll(env, fs, ops[..i]), ops[i])
  {
    assert ops[..i + 1] == ops[..i] + [ops[i]];
    DoAllSplits(env, fs, ops[..i], [ops[i]]);
    TwoSteps(env, DoAll(env, fs, ops[..i]), ops[i], ops[i]);
  }

  // ---- Staged mode: exactly once, whatever crashes ----

  /** Every start leaves the restore underway or done, and done stays done. */
  lemma AttemptKeeps(env: Env, fs: Files, s: Start, k: nat)
    requires env.admissible(s.source)
    requires Underway(env, fs, Staged, s) || Installed(env, fs, Staged, s)
    ensures var fs' := Attempt(env, fs, k);
            Underway(env, fs', Staged, s) || Installed(env, fs', Staged, s)
  {
    var ops := StagedOps(env, fs);
    if Underway(env, fs, Staged, s) {
      if k < |ops| {
        InterruptedStaysUnderway(env, fs, Staged, s, k);
      } else {
        assert ops[..|ops|] == ops;
        CompleteInstalls(env, fs, Staged, s);
      }
    }
  }

  lemma {:induction false} AttemptsKeep(env: Env, fs: Files, s: Start, ks: seq<nat>)
    requires env.admissible(s.source)
    requires Underway(env, fs, Staged, s) || Installed(env, fs, Staged, s)
    ensures var fs' := Attempts(env, fs, ks);
            Underway(env, fs', Staged, s) || Installed(env, fs', Staged, s)
    decreases |ks|
  {
    if ks == [] {
    } else {
      AttemptKeeps(env, fs, s, ks[0]);
      AttemptsKeep(env, Attempt(env, fs, ks[0]), s, ks[1..]);
    }
  }

  /**
    However many starts are cut short, and wherever, the original's full content is in
    the database or the safety copy all along, and one whole start ends with the database
    equal to the staged file, the safety copy equal to the original (an older safety copy
    kept when there was no database) and the staging file consumed.
   */
  lemma StagedRestoreSurvivesCrashes(env: Env, fs: Files, ks: seq<nat>)
    requires Staging in fs && env.admissible(fs[Staging])
    ensures var s := StartOf(env, fs, Staged);
            var mid := Attempts(env, fs, ks);
            && Whole(env, fs, mid)
            && Installed(env, Complete(env, mid), Staged, s)
            && Restored(env, fs, Staging, Complete(env, mid)) && Staging !in Complete(env, mid)
  {
    var s := StartOf(env, fs, Staged);
    FreshIsUnderway(env, fs, Staged);
    AttemptsKeep(env, fs, s, ks);
    var mid := Attempts(env, fs, ks);
    if Underway(env, mid, Staged, s) {
      CompleteInstalls(env, mid, Staged, s);
    }
    UnderwayIsWhole(env, fs, Staged, mid);
    InstalledIsRestored(env, fs, Staged, Complete(env, mid));
  }

  /** An inadmissible file is set aside once, and nothing else in the directory changes. */
  lemma {:induction false} InadmissibleChangesNothing(env: Env, fs: Files, ks: seq<nat>)
    requires Staging in fs && !env.admissible(fs[Staging])
    ensures var mid := Attempts(env, fs, ks);
            && (forall p :: p !in {Staging, Rejected} ==> Get(mid, p) == Get(fs, p))
            && (Get(mid, Staging) == Some(fs[Staging]) || (Staging !in mid && Get(mid, Rejected) == Some(fs[Staging])))
            && Complete(env, mid) == fs[Rejected := fs[Staging]] - {Staging}
    decreases |ks|
  {
    TwoSteps(env, fs, Rename(Staging, Rejected), Fold);
    if ks == [] {
    } else {
      var after := Attempt(env, fs, ks[0]);
      assert StagedOps(env, fs)[..1] == [Rename(Staging, Rejected)];
      if ks[0] == 0 {
        assert after == fs;
        InadmissibleChangesNothing(env, fs, ks[1..]);
      } else {
        NothingStaged(env, after, ks[1..]);
      }
    }
  }

  lemma {:induction false} NothingStaged(env: Env, fs: Files, ks: seq<nat>)
    requires Staging !in fs
    ensures Attempts(env, fs, ks) == fs && Complete(env, fs) == fs
    decreases |ks|
  {
    if ks == [] {
    } else {
      NothingStaged(env, fs, ks[1..]);
    }
  }

  // ---- Offline mode: safe until it completes, not after ----

  /** Offline attempts each cut short: at most all operations but the last. */
  function CutShort(env: Env, fs: Files, ks: seq<nat>): Files
    decreases |ks|
  {
    if ks == [] then fs
    else
      var ops := SwapOps(fs, Offline);
      CutShort(env, DoAll(env, fs, ops[..if ks[0] < |ops| then ks[0] else |ops| - 1]), ks[1..])
  }

  lemma {:induction false} CutShortStaysUnderway(env: Env, fs: Files, s: Start, ks: seq<nat>)
    requires Underway(env, fs, Offline, s)
    ensures Underway(env, CutShort(env, fs, ks), Offline, s)
    decreases |ks|
  {
    if ks == [] {
    } else {
      var ops := SwapOps(fs, Offline);
      var k := if ks[0] < |ops| then ks[0] else |ops| - 1;
      InterruptedStaysUnderway(env, fs, Offline, s, k);
      CutShortStaysUnderway(env, DoAll(env, fs, ops[..k]), s, ks[1..]);
    }
  }

  /** Any number of interrupted offline attempts, then a whole one, also keep the original, and the backup. */
  lemma OfflineRestoreSurvivesInterruption(env: Env, fs: Files, ks: seq<nat>)
    requires Backup in fs
    ensures var s := StartOf(env, fs, Offline);
            var mid := CutShort(env, fs, ks);
            var end := DoAll(env, mid, SwapOps(mid, Offline));
            && Whole(env, fs, mid)
            && Installed(env, end, Offline, s)
            && Restored(env, fs, Backup, end) && Backup in end && end[Backup] == fs[Backup]
  {
    var s := StartOf(env, fs, Offline);
    FreshIsUnderway(env, fs, Offline);
    CutShortStaysUnderway(env, fs, s, ks);
    var mid := CutShort(env, fs, ks);
    CompleteInstalls(env, mid, Offline, s);
    BackupStays(env, mid);
    UnderwayIsWhole(env, fs, Offline, mid);
    InstalledIsRestored(env, fs, Offline, DoAll(env, mid, SwapOps(mid, Offline)));
  }

  /** A whole swap is all a restore owes. */
  lemma AWholeSwapRestores(env: Env, fs: Files, mode: Mode)
    requires Source(mode) in fs
    ensures var end := DoAll(env, fs, SwapOps(fs, mode));
            && Restored(env, fs, Source(mode), end)
            && (if mode == Staged then Staging !in end else Backup in end && end[Backup] == fs[Backup])
  {
    FreshIsUnderway(env, fs, mode);
    CompleteInstalls(env, fs, mode, StartOf(env, fs, mode));
    InstalledIsRestored(env, fs, mode, DoAll(env, fs, SwapOps(fs, mode)));
    if mode == Offline {
      BackupStays(env, fs);
    }
  }

  /**
    Running an offline restore keeps the safety copy that is there exactly when no database
    file is in its place, or the database holds the very same content: after a completed
    restore it does not, and the original is overwritten.
   */
  lemma OfflineRerunKeepsSafetyExactlyWhen(env: Env, fs: Files, original: Data)
    requires Backup in fs && Get(fs, Safety) == Some(original)
    ensures Get(DoAll(env, fs, SwapOps(fs, Offline)), Safety) == Some(original) <==>
            Db !in fs || Content(env, fs) == Some(original)
  {
    FreshIsUnderway(env, fs, Offline);
    CompleteInstalls(env, fs, Offline, StartOf(env, fs, Offline));
  }

  /** Restoring the same backup twice offline loses the original. */
  lemma OfflineTwiceLosesTheOriginal(env: Env)
    ensures var fs := map[Db := "original", Backup := "backup"];
            var once := DoAll(env, fs, SwapOps(fs, Offline));
            var twice := DoAll(env, once, SwapOps(once, Offline));
            && Get(once, Safety) == Some("original")
            && Get(twice, Safety) == Some("backup") && Content(env, twice) == Some("backup")
  {
    var fs := map[Db := "original", Backup := "backup"];
    FreshIsUnderway(env, fs, Offline);
    CompleteInstalls(env, fs, Offline, StartOf(env, fs, Offline));
    var once := DoAll(env, fs, SwapOps(fs, Offline));
    BackupStays(env, fs);
    FreshIsUnderway(env, once, Offline);
    CompleteInstalls(env, once, Offline, StartOf(env, once, Offline));
  }

  lemma BackupStays(env: Env, fs: Files)
    requires Backup in fs
    ensures Get(DoAll(env, fs, SwapOps(fs, Offline)), Backup) == Get(fs, Backup)
  {
    NeverNamed(env, fs, SwapOps(fs, Offline));
  }

  lemma {:induction false} NeverNamed(env: Env, fs: Files, ops: seq<Op>)
    requires forall op :: op in ops ==>
               op.Fold? || (op.Rename? && op.from != Backup && op.to != Backup) ||
               (op.Remove? && op.path != Backup) || (op.Copy? && op.to != Backup)
    ensures Get(DoAll(env, fs, ops), Backup) == Get(fs, Backup)
    decreases |ops|
  {
    if ops == [] {
    } else {
      assert ops[0] in ops;
      NeverNamed(env, Do(env, fs, ops[0]), ops[1..]);
    }
  }
}
