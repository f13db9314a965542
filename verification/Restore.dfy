/**
  Restore as the program runs it, one filesystem call after another. `left` counts how
  many more calls succeed before the process dies or one of them fails; from then on
  nothing in the directory changes.
 */
module Restore {
  import opened RestoreSpec

  datatype Outcome = NothingStaged | Applied(safetyCopy: bool) | SetAside | Refused | Stopped

  class Directory {
    const env: Env
    var files: Files
    var left: nat

    constructor (env: Env, files: Files, left: nat)
      ensures this.env == env && this.files == files && this.left == left
    {
      this.env, this.files, this.left := env, files, left;
    }

    /** Starts the process again, with room for `left` more calls. */
    method Restart(left: nat)
      modifies this`left
      ensures this.left == left
    {
      this.left := left;
    }

    /** One filesystem call, unless the process is gone. */
    ghost predicate Did(before: Files, room: nat, op: Op, ok: bool)
      reads this
    {
      if room == 0 then !ok && files == before && left == 0
      else ok && files == Do(env, before, op) && left == room - 1
    }

    method RenameFile(from: Path, to: Path) returns (ok: bool)
      requires from in files && from != to
      modifies this
      ensures Did(old(files), old(left), Rename(from, to), ok)
    {
      if left == 0 {
        return false;
      }
      left := left - 1;
      files := files[to := files[from]] - {from};
      return true;
    }

    method RemoveFile(path: Path) returns (ok: bool)
      modifies this
      ensures Did(old(files), old(left), Remove(path), ok)
    {
      if left == 0 {
        return false;
      }
      left := left - 1;
      files := files - {path};
      return true;
    }

    method CopyFile(from: Path, to: Path) returns (ok: bool)
      requires from in files
      modifies this
      ensures Did(old(files), old(left), Copy(from, to), ok)
    {
      if left == 0 {
        return false;
      }
      left := left - 1;
      files := files[to := files[from]];
      return true;
    }

    /** Leaving WAL mode merges the log and deletes the sidecars, or fails without effect. */
    method FoldAndProveExclusive() returns (ok: bool)
      requires Db in files
      modifies this
      ensures Did(old(files), old(left), Fold, ok)
      ensures ok <==> old(left) > 0
      ensures ok ==>
                && Db in files && Preserved(env, old(files), files[Db]) && Wal !in files && Shm !in files
                && forall p :: p !in {Db, Wal, Shm} ==> Get(files, p) == Get(old(files), p)
    {
      if left == 0 {
        return false;
      }
      left := left - 1;
      var folded := if Wal in files then env.merged(files[Db], files[Wal]) else files[Db];
      files := files[Db := folded] - {Wal, Shm};
      return true;
    }

    /** The first i operations are done and the process still has room for the rest it was given. */
    ghost predicate Reached(start: Files, room: nat, ops: seq<Op>, i: nat)
      reads this
    {
      i <= |ops| && i <= room && files == DoAll(env, start, ops[..i]) && left == room - i
    }

    lemma Advances(start: Files, room: nat, ops: seq<Op>, i: nat, before: Files)
      requires i < |ops| && i < room && before == DoAll(env, start, ops[..i])
      requires files == Do(env, before, ops[i]) && left == room - i - 1
      ensures Reached(start, room, ops, i + 1)
    {
      DoAllExtends(env, start, ops, i);
    }

    /** What a swap leaves: as many of its operations as there was room for. */
    ghost predicate RanFor(start: Files, room: nat, ops: seq<Op>, ok: bool)
      reads this
    {
      ok == (room >= |ops|) && files == DoAll(env, start, ops[..if room < |ops| then room else |ops|])
    }

    method Swap(mode: Mode) returns (ok: bool, safetyCopy: bool)
      requires Source(mode) in files
      modifies this
      ensures RanFor(old(files), old(left), SwapOps(old(files), mode), ok)
      ensures safetyCopy == (Db in old(files))
    {
      ghost var start, room := files, left;
      ghost var ops := SwapOps(files, mode);
      safetyCopy := Db in files;
      ghost var i := 0;
      if safetyCopy {
        ok := FoldAndProveExclusive();
        if !ok {
          return;
        }
        Advances(start, room, ops, 0, start);
        ghost var before := files;
        ok := RenameFile(Db, Safety);
        if !ok {
          return;
        }
        Advances(start, room, ops, 1, before);
        i := 2;
      }
      ok := SweepAndInstall(mode, start, room, ops, i);
    }

    method SweepAndInstall(mode: Mode, ghost start: Files, ghost room: nat, ghost ops: seq<Op>, ghost i: nat)
      returns (ok: bool)
      requires Reached(start, room, ops, i) && ops[i..] == [Remove(Wal), Remove(Shm)] + InstallOps(mode)
      requires Source(mode) in files
      modifies this
      ensures RanFor(start, room, ops, ok)
    {
      ghost var before := files;
      ok := RemoveFile(Wal);
      if !ok {
        return;
      }
      assert ops[i] == ops[i..][0];
      Advances(start, room, ops, i, before);
      before := files;
      ok := RemoveFile(Shm);
      if !ok {
        return;
      }
      assert ops[i + 1] == ops[i..][1];
      Advances(start, room, ops, i + 1, before);
      assert ops[i + 2..] == ops[i..][2..] == InstallOps(mode);
      ok := Install(mode, start, room, ops, i + 2);
    }

    method Install(mode: Mode, ghost start: Files, ghost room: nat, ghost ops: seq<Op>, ghost i: nat)
      returns (ok: bool)
      requires Reached(start, room, ops, i) && ops[i..] == InstallOps(mode)
      requires Source(mode) in files
      modifies this
      ensures RanFor(start, room, ops, ok)
    {
      ghost var before := files;
      assert ops[i] == ops[i..][0];
      if mode == Staged {
        ok := RenameFile(Staging, Db);
        if ok {
          Advances(start, room, ops, i, before);
        }
        return;
      }
      ok := CopyFile(Backup, Temp);
      if !ok {
        return;
      }
      Advances(start, room, ops, i, before);
      assert ops[i + 1] == ops[i..][1];
      before := files;
      ok := RenameFile(Temp, Db);
      if ok {
        Advances(start, room, ops, i + 1, before);
      }
    }

    /** The offline command: a missing or inadmissible backup is refused before anything is touched. */
    method RestoreOffline() returns (outcome: Outcome)
      modifies this
      ensures Backup !in old(files) || !env.admissible(old(files)[Backup]) ==>
                outcome == Refused && files == old(files)
      ensures Backup in old(files) && env.admissible(old(files)[Backup]) ==>
                RanFor(old(files), old(left), SwapOps(old(files), Offline), outcome.Applied?)
                && (!outcome.Applied? ==> outcome == Stopped)
      ensures outcome.Applied? ==>
                && Restored(env, old(files), Backup, files) && outcome.safetyCopy == (Db in old(files))
                && Backup in files && files[Backup] == old(files)[Backup]
    {
      if Backup !in files || !env.admissible(files[Backup]) {
        return Refused;
      }
      AWholeSwapRestores(env, files, Offline);
      ghost var ops := SwapOps(files, Offline);
      assert ops[..|ops|] == ops;
      var ok, safetyCopy := Swap(Offline);
      outcome := if ok then Applied(safetyCopy) else Stopped;
    }

    /** What every start does about the staging path. */
    method ApplyStaged() returns (outcome: Outcome)
      modifies this
      ensures files == Attempt(env, old(files), old(left))
      ensures outcome == NothingStaged <==> Staging !in old(files)
      ensures outcome == Stopped <==> old(left) < |StagedOps(env, old(files))|
      ensures outcome == SetAside ==> !env.admissible(old(files)[Staging]) && files == Complete(env, old(files))
      ensures outcome.Applied? ==>
                env.admissible(old(files)[Staging]) && files == Complete(env, old(files)) &&
                outcome.safetyCopy == (Db in old(files))
      ensures outcome == SetAside ==> files == old(files)[Rejected := old(files)[Staging]] - {Staging}
      ensures outcome.Applied? ==> Restored(env, old(files), Staging, files) && Staging !in files
    {
      if Staging !in files {
        return NothingStaged;
      }
      ghost var ops := StagedOps(env, files);
      assert ops[..|ops|] == ops;
      if !env.admissible(files[Staging]) {
        ghost var start, room := files, left;
        var moved := RenameFile(Staging, Rejected);
        if !moved {
          return Stopped;
        }
        Advances(start, room, ops, 0, start);
        return SetAside;
      }
      AWholeSwapRestores(env, files, Staged);
      var ok, safetyCopy := Swap(Staged);
      outcome := if ok then Applied(safetyCopy) else Stopped;
    }
  }
}
