/**
 * The in-process block archiver as an object: fields updated in place, system calls made
 * one at a time, an explicit clean-up on every error path.  Each listener call is proved
 * to carry out its plan, call for call, under every script of failures.
 */
module FileStreaming {
  import opened Wrappers
  import opened Framing
  import opened ArchivePaths
  import opened DiskModel
  import Plan = ArchivePlan
  import opened ArchivePlan
  import opened ArchiveHistory

  // The operating system's side: answers calls and remembers every image in between.
  class FileSystem {
    var disk: Disk
    var past: seq<Disk>
    const script: seq<Fault>

    constructor (disk: Disk, script: seq<Fault>)
      ensures Now() == World(disk, [], script)
    {
      this.disk, this.past, this.script := disk, [], script;
    }

    function Now(): World
      reads this
    {
      World(disk, past, script)
    }

    method Syscall(op: Op) returns (ok: bool)
      modifies this
      ensures Reply(Now(), ok) == Call(old(Now()), op)
    {
      var fault := if |past| < |script| then script[|past|] else Success;
      var answer := Do(disk, op, fault);
      past := past + [disk];
      disk := answer.disk;
      ok := answer.ok;
    }
  }

  class FileStreamer {
    const cfg: Config
    const fs: FileSystem

    var curHeight: int
    var curMetaFile: Option<nat>
    var curMetaPartialPath: Option<Path>
    var curMetaFinalPath: Option<Path>
    var prepared: bool

    constructor (cfg: Config, fs: FileSystem)
      ensures this.cfg == cfg && this.fs == fs && Valid() && Fields() == IDLE
    {
      this.cfg, this.fs := cfg, fs;
      curHeight, prepared := 0, false;
      curMetaFile, curMetaPartialPath, curMetaFinalPath := None, None, None;
    }

    function Fields(): Streamer
      reads this
    {
      Streamer(curHeight, curMetaFile, curMetaPartialPath, curMetaFinalPath, prepared)
    }

    // While a block is prepared with metadata on, the handle and both paths are those of
    // its height; with metadata off there are none.
    ghost predicate Valid()
      reads this
    {
      FieldsValid(cfg, Fields())
    }

    // One varint-length-prefixed message.
    method WriteProto(fd: nat, m: Bytes) returns (ok: bool)
      modifies fs
      ensures var head := Call(old(fs.Now()), Write(fd, Uvarint(|m|)));
              var body := Call(head.world, Write(fd, m));
              && ok == (head.ok && body.ok)
              && fs.Now() == if head.ok then body.world else head.world
    {
      ok := fs.Syscall(Write(fd, Uvarint(|m|)));
      if ok {
        ok := fs.Syscall(Write(fd, m));
      }
    }

    method RemoveQuietly(p: Path)
      modifies fs
      ensures fs.Now() == Call(old(fs.Now()), Remove(p)).world
    {
      var _ := fs.Syscall(Remove(p));
    }

    method CloseQuietly(fd: nat)
      modifies fs
      ensures fs.Now() == Call(old(fs.Now()), Close(fd)).world
    {
      var _ := fs.Syscall(Close(fd));
    }

    method CloseAndRemove(fd: nat, p: Path)
      modifies fs
      ensures fs.Now() == Undo([Close(fd), Remove(p)], old(fs.Now()))
    {
      UndoFirst(Close(fd), [Remove(p)], fs.Now());
      CloseQuietly(fd);
      UndoFirst(Remove(p), [], fs.Now());
      RemoveQuietly(p);
    }

    method ResetMetaState()
      modifies this
      ensures Fields() == old(Fields()).(metaFile := None, metaPartial := None, metaFinal := None)
    {
      curMetaFile, curMetaPartialPath, curMetaFinalPath := None, None, None;
    }

    method CleanupMeta()
      requires curMetaFile.Some? && curMetaPartialPath.Some? && cfg.outputMeta
      modifies this, fs
      ensures Fields() == old(Fields()).(metaFile := None, metaPartial := None, metaFinal := None)
      ensures fs.Now() == Undo([Close(old(curMetaFile).value)] + RemoveMeta(cfg, old(Fields())), old(fs.Now()))
    {
      UndoFirst(Close(curMetaFile.value), RemoveMeta(cfg, Fields()), fs.Now());
      CloseQuietly(curMetaFile.value);
      DropMeta();
    }

    // Gives up the metadata partial of the current block, when there is one.
    method DropMeta()
      requires cfg.outputMeta ==> curMetaPartialPath.Some?
      modifies this, fs
      ensures Fields() == if cfg.outputMeta
                          then old(Fields()).(metaFile := None, metaPartial := None, metaFinal := None)
                          else old(Fields())
      ensures fs.Now() == Undo(RemoveMeta(cfg, old(Fields())), old(fs.Now()))
    {
      if cfg.outputMeta {
        UndoFirst(Remove(curMetaPartialPath.value), [], fs.Now());
        RemoveQuietly(curMetaPartialPath.value);
        ResetMetaState();
      }
    }

    method ListenFinalizeBlock(live: bool, req: Request, res: Bytes) returns (outcome: Outcome)
      requires Valid()
      modifies this, fs
      ensures Valid()
      ensures Listened(Fields(), fs.Now(), outcome) ==
              Plan.ListenFinalizeBlock(cfg, old(Fields()), old(fs.Now()), live, req, res)
      ensures !live ==> outcome == Error(Canceled) && Fields() == old(Fields())
      ensures live ==> curHeight == req.height && (outcome == Nil <==> prepared)
      ensures live && outcome != Nil ==> if cfg.stopOnErr then outcome.Panic? else outcome.Error?
    {
      if !live {
        return Error(Canceled);
      }
      curHeight := req.height;
      prepared := false;
      if !cfg.outputMeta {
        prepared := true;
        return Nil;
      }
      var failed := PrepareMeta(req, res);
      if failed.Some? {
        return Fail(cfg, failed.value);
      }
      prepared := true;
      return Nil;
    }

    // The block's first two messages, in a partial that stays open until the commit.
    method PrepareMeta(req: Request, res: Bytes) returns (failed: Option<Cause>)
      modifies this, fs
      ensures Exec(FinalizePlan(old(fs.disk.nextFd), req, res), old(fs.Now())) == Run(fs.Now(), failed)
      ensures Fields() == if failed.Some? then old(Fields())
                          else old(Fields()).(metaFile := Some(old(fs.disk.nextFd)),
                                              metaPartial := Some(ArchivePaths.Partial(Meta, req.height)),
                                              metaFinal := Some(Final(Meta, req.height)))
    {
      hide Do, Uvarint;
      var finalPath := Final(Meta, req.height);
      var partialPath := ArchivePaths.Partial(Meta, req.height);
      var mf := fs.disk.nextFd;
      ghost var undo := [Close(mf), Remove(partialPath)];
      ghost var second := FramePlan(mf, res, undo, WriteResponse, Done);
      ghost var plan, start := FinalizePlan(mf, req, res), fs.Now();
      var ok := fs.Syscall(Open(partialPath));
      if !ok {
        return Some(OpenMeta);
      }
      ExecFrame(fs.Now(), mf, req.bytes, undo, WriteRequest, second);
      ok := WriteProto(mf, req.bytes);
      if !ok {
        CloseAndRemove(mf, partialPath);
        return Some(WriteRequest);
      }
      assert Exec(plan, start) == Exec(second, fs.Now());
      ExecFrame(fs.Now(), mf, res, undo, WriteResponse, Done);
      ok := WriteProto(mf, res);
      if !ok {
        CloseAndRemove(mf, partialPath);
        return Some(WriteResponse);
      }
      curMetaFile := Some(mf);
      curMetaPartialPath := Some(partialPath);
      curMetaFinalPath := Some(finalPath);
      return None;
    }

    method ListenCommit(live: bool, commit: Bytes, kvs: seq<Bytes>) returns (outcome: Outcome)
      requires Valid()
      modifies this, fs
      ensures Valid()
      ensures Listened(Fields(), fs.Now(), outcome) ==
              Plan.ListenCommit(cfg, old(Fields()), old(fs.Now()), live, commit, kvs)
      ensures outcome == Nil ==> live && old(prepared)
      ensures !live ==> outcome == Error(Canceled)
      ensures live && !old(prepared) ==> outcome == if cfg.stopOnErr then Panic(NotPrepared) else Error(NotPrepared)
      ensures live && outcome != Nil ==> if cfg.stopOnErr then outcome.Panic? else outcome.Error?
    {
      if !live {
        return Error(Canceled);
      }
      if !prepared {
        return Fail(cfg, NotPrepared);
      }
      prepared := false;
      var failed := CommitBlock(commit, kvs, old(Fields()));
      return if failed.Some? then Fail(cfg, failed.value) else Nil;
    }

    // The block itself: metadata finished, data written, both renamed, directory synced.
    method CommitBlock(commit: Bytes, kvs: seq<Bytes>, ghost st: Streamer) returns (failed: Option<Cause>)
      requires st.prepared && FieldsValid(cfg, st) && Fields() == st.(prepared := false)
      modifies this, fs
      ensures Exec(CommitPlan(cfg, st, old(fs.disk.nextFd), commit, kvs), old(fs.Now())) == Run(fs.Now(), failed)
      ensures Fields() == IDLE.(curHeight := st.curHeight)
    {
      var df := fs.disk.nextFd;
      ghost var plan, start := CommitPlan(cfg, st, df, commit, kvs), fs.Now();
      if cfg.outputMeta && curMetaFile.Some? {
        failed := FinishMeta(curMetaFile.value, commit, st, DataPlan(cfg, st, df, kvs));
        if failed.Some? {
          return;
        }
      }
      assert Exec(plan, start) == Exec(DataPlan(cfg, st, df, kvs), fs.Now());

      var dataFinal := None;
      if cfg.hasListeners {
        failed := WriteData(df, kvs, st);
        if failed.Some? {
          return;
        }
        dataFinal := Some(Final(Data, curHeight));
      }
      assert Exec(plan, start) == Exec(PromotePlan(cfg, st), fs.Now());

      if cfg.outputMeta && curMetaPartialPath.Some? {
        failed := PromoteMeta(dataFinal, st);
        if failed.Some? {
          return;
        }
      }
      assert Exec(plan, start) == Exec(DirectoryPlan(cfg), fs.Now());

      if cfg.fsync {
        var ok := SyncWriteDirectory();
        if !ok {
          return Some(SyncWriteDir);
        }
      }
      return None;
    }

    // Appends the commit record; syncs and closes the metadata partial, which keeps its name.
    method FinishMeta(mf: nat, commit: Bytes, ghost st: Streamer, ghost rest: ArchivePlan.Plan)
      returns (failed: Option<Cause>)
      requires cfg.outputMeta && curMetaFile == Some(mf) && curMetaPartialPath.Some?
      requires Fields() == st.(prepared := false)
      modifies this, fs
      ensures var plan := FramePlan(mf, commit, [Close(mf)] + RemoveMeta(cfg, st), WriteCommit,
                                    MetaClosePlan(cfg, st, mf, rest));
              if failed.Some? then Exec(plan, old(fs.Now())) == Run(fs.Now(), failed)
              else Exec(plan, old(fs.Now())) == Exec(rest, fs.Now())
      ensures failed.None? ==> Fields() == old(Fields()).(metaFile := None) && fs.disk.nextFd == old(fs.disk.nextFd)
      ensures failed.Some? ==> Fields() == IDLE.(curHeight := st.curHeight)
    {
      ExecFrame(fs.Now(), mf, commit, [Close(mf)] + RemoveMeta(cfg, st), WriteCommit, MetaClosePlan(cfg, st, mf, rest));
      var ok := WriteProto(mf, commit);
      if !ok {
        CleanupMeta();
        return Some(WriteCommit);
      }
      if cfg.fsync {
        ok := fs.Syscall(Sync(mf));
        if !ok {
          CleanupMeta();
          return Some(SyncMeta);
        }
      }
      ok := fs.Syscall(Close(mf));
      if !ok {
        DropMeta();
        return Some(CloseMeta);
      }
      curMetaFile := None;
      return None;
    }

    // The completion marker.  When it cannot be put in place, the data file goes as well.
    method PromoteMeta(dataFinal: Option<Path>, ghost st: Streamer) returns (failed: Option<Cause>)
      requires cfg.outputMeta && curMetaPartialPath.Some? && curMetaFinalPath.Some?
      requires Fields() == st.(metaFile := None, prepared := false)
      requires dataFinal == if cfg.hasListeners then Some(Final(Data, st.curHeight)) else None
      modifies this, fs
      ensures if failed.Some? then Exec(PromotePlan(cfg, st), old(fs.Now())) == Run(fs.Now(), failed)
              else Exec(PromotePlan(cfg, st), old(fs.Now())) == Exec(DirectoryPlan(cfg), fs.Now())
      ensures Fields() == IDLE.(curHeight := st.curHeight)
    {
      ghost var dropData := if cfg.hasListeners then [Remove(Final(Data, st.curHeight))] else [];
      var ok := fs.Syscall(Rename(curMetaPartialPath.value, curMetaFinalPath.value));
      if !ok {
        UndoFirst(Remove(curMetaPartialPath.value), dropData, fs.Now());
        RemoveQuietly(curMetaPartialPath.value);
        if dataFinal.Some? {
          UndoFirst(Remove(dataFinal.value), [], fs.Now());
          RemoveQuietly(dataFinal.value);
        }
        failed := Some(RenameMeta);
      } else {
        failed := None;
      }
      ResetMetaState();
    }

    // The data file: written, synced, closed and renamed; nothing but the metadata
    // partial has to be given up when one of these fails.
    method WriteData(df: nat, kvs: seq<Bytes>, ghost st: Streamer)
      returns (failed: Option<Cause>)
      requires cfg.hasListeners && Fields() == st.(metaFile := None, prepared := false)
      requires cfg.outputMeta ==> curMetaPartialPath.Some?
      requires !cfg.outputMeta ==> st.metaFile == None
      requires df == fs.disk.nextFd
      modifies this, fs
      ensures if failed.Some? then Exec(DataPlan(cfg, st, df, kvs), old(fs.Now())) == Run(fs.Now(), failed)
              else Exec(DataPlan(cfg, st, df, kvs), old(fs.Now())) == Exec(PromotePlan(cfg, st), fs.Now())
      ensures failed.None? ==> Fields() == old(Fields())
      ensures failed.Some? ==>
                Fields() == if cfg.outputMeta then IDLE.(curHeight := st.curHeight) else old(Fields())
    {
      var dataPartial := ArchivePaths.Partial(Data, curHeight);
      ghost var plan, start := DataPlan(cfg, st, df, kvs), fs.Now();
      ghost var undo := DataUndo(cfg, st, df);
      var ok := fs.Syscall(Open(dataPartial));
      if !ok {
        DropMeta();
        return Some(OpenData);
      }
      for i := 0 to |kvs|
        invariant Fields() == old(Fields())
        invariant Exec(plan, start) == Exec(PairsPlan(df, kvs[i..], undo, DataClosePlan(cfg, st, df)), fs.Now())
      {
        assert kvs[i..][1..] == kvs[i + 1..];
        ExecFrame(fs.Now(), df, kvs[i], undo, WriteKV, PairsPlan(df, kvs[i + 1..], undo, DataClosePlan(cfg, st, df)));
        ok := WriteProto(df, kvs[i]);
        if !ok {
          CloseAndDrop(df, dataPartial);
          return Some(WriteKV);
        }
      }
      assert kvs[|kvs|..] == [];
      if cfg.fsync {
        ok := fs.Syscall(Sync(df));
        if !ok {
          CloseAndDrop(df, dataPartial);
          return Some(SyncData);
        }
      }
      ghost var rename := Step(Rename(dataPartial, Final(Data, curHeight)), [Remove(dataPartial)] + RemoveMeta(cfg, st),
                               RenameData, PromotePlan(cfg, st));
      ok := fs.Syscall(Close(df));
      if !ok {
        UndoFirst(Remove(dataPartial), RemoveMeta(cfg, st), fs.Now());
        RemoveQuietly(dataPartial);
        DropMeta();
        return Some(CloseData);
      }
      assert Exec(plan, start) == Exec(rename, fs.Now());
      ok := fs.Syscall(Rename(dataPartial, Final(Data, curHeight)));
      if !ok {
        UndoFirst(Remove(dataPartial), RemoveMeta(cfg, st), fs.Now());
        RemoveQuietly(dataPartial);
        DropMeta();
        return Some(RenameData);
      }
      return None;
    }

    // Closes and removes a data partial, then gives up the metadata partial.
    method CloseAndDrop(df: nat, dataPartial: Path)
      requires cfg.outputMeta ==> curMetaPartialPath.Some?
      modifies this, fs
      ensures Fields() == if cfg.outputMeta
                          then old(Fields()).(metaFile := None, metaPartial := None, metaFinal := None)
                          else old(Fields())
      ensures fs.Now() == Undo([Close(df), Remove(dataPartial)] + RemoveMeta(cfg, old(Fields())), old(fs.Now()))
    {
      ghost var drop := RemoveMeta(cfg, Fields());
      assert [Close(df), Remove(dataPartial)] + drop == [Close(df)] + ([Remove(dataPartial)] + drop);
      UndoFirst(Close(df), [Remove(dataPartial)] + drop, fs.Now());
      CloseQuietly(df);
      UndoFirst(Remove(dataPartial), drop, fs.Now());
      RemoveQuietly(dataPartial);
      DropMeta();
    }

    // Flushes the directory entries so that the renames survive a crash; the directory
    // is closed again whether or not its sync worked.
    method SyncWriteDirectory() returns (ok: bool)
      requires cfg.fsync
      modifies fs
      ensures Run(fs.Now(), if ok then None else Some(SyncWriteDir)) == Exec(DirectoryPlan(cfg), old(fs.Now()))
    {
      ExecDirectory(cfg, fs.Now());
      ok := fs.Syscall(OpenDir);
      if ok {
        var synced := fs.Syscall(SyncDir);
        var closed := fs.Syscall(CloseDir);
        ok := synced && closed;
      }
    }
  }

  // Removes what a previous process left half-written; failures are ignored.  Without
  // matches the pattern was malformed.
  method SweepStalePartials(fs: FileSystem, matches: Option<seq<Path>>) returns (ok: bool)
    modifies fs
    ensures ok == matches.Some?
    ensures fs.Now() == if ok then Undo(Removals(matches.value), old(fs.Now())) else old(fs.Now())
  {
    if matches.None? {
      return false;
    }
    ghost var removals := Removals(matches.value);
    for i := 0 to |matches.value|
      invariant Undo(removals[i..], fs.Now()) == Undo(removals, old(fs.Now()))
    {
      assert removals[i..][1..] == removals[i + 1..];
      var _ := fs.Syscall(Remove(matches.value[i]));
    }
    return true;
  }

  // Starting up, once the write directory is there and the options are read: a streamer, or
  // none when the sweep could not tell what is stale.
  method NewFileStreamer(cfg: Config, fs: FileSystem, matches: Option<seq<Path>>) returns (streamer: FileStreamer?)
    modifies fs
    ensures streamer != null <==> matches.Some?
    ensures fs.Now() == if matches.Some? then Undo(Removals(matches.value), old(fs.Now())) else old(fs.Now())
    ensures streamer != null ==>
              && fresh(streamer) && streamer.cfg == cfg && streamer.fs == fs
              && streamer.Valid() && streamer.Fields() == IDLE
  {
    var swept := SweepStalePartials(fs, matches);
    if !swept {
      return null;
    }
    streamer := new FileStreamer(cfg, fs);
  }

  // One process: it starts on a disk, sweeps, and hears calls.  Its world is that of the
  // histories, so what they say holds of this object.
  method Serve(cfg: Config, disk: Disk, script: seq<Fault>, matches: seq<Path>, calls: seq<Listen>)
    returns (fs: FileSystem, streamer: FileStreamer?)
    ensures forall log, acked ::
              var life := Life(cfg, script, matches, calls, 0, false, disk);
              var end := TakeAll(cfg, Boot(life, State(disk, log, acked)), calls);
              streamer != null && fs.Now() == end.world && streamer.Fields() == end.st
  {
    fs := new FileSystem(disk, script);
    streamer := NewFileStreamer(cfg, fs, Some(matches));
    ghost var life := Life(cfg, script, matches, calls, 0, false, disk);
    for i := 0 to |calls|
      invariant streamer != null && fresh(streamer) && fresh(fs)
      invariant streamer.fs == fs && streamer.cfg == cfg && streamer.Valid()
      invariant forall log, acked ::
                  var end := TakeAll(cfg, Boot(life, State(disk, log, acked)), calls[..i]);
                  fs.Now() == end.world && streamer.Fields() == end.st
    {
      assert calls[..i + 1][..i] == calls[..i];
      match calls[i] {
        case FinalizeBlock(live, req, res) =>
          var _ := streamer.ListenFinalizeBlock(live, req, res);
        case Commit(_, live, commit, kvs) =>
          var _ := streamer.ListenCommit(live, commit, kvs);
      }
    }
    assert calls[..|calls|] == calls;
  }
}
