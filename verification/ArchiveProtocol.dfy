/**
 * The plans keep the invariant at every image, whatever fails: one lemma a stretch of the
 * plan, each handing the disk on to the next.
 */
module ArchiveProtocol {
  import opened Wrappers
  import opened Framing
  import opened ArchivePaths
  import opened DiskModel
  import opened ArchivePlan
  import opened ArchiveSafety

  // The call under way: the image it began at, the height it is about and whether it may
  // put that height's marker in place, the log that its images answer to, and whether the
  // rest of the script is free of failures.
  datatype Context = Context(n: nat, start: Disk, h: int, files: bool, log: Log, strict: bool, clean: bool)

  // The marker of height h is in every directory that a power loss may leave.
  ghost predicate Durable(d: Disk, h: int) {
    forall k: nat :: k <= |d.pending| ==> Final(Meta, h) in NamesAt(d, k)
  }

  // An image may differ from the start in the marker of height h, if that, and in no other.
  ghost predicate Sound(c: Context, d: Disk) {
    && Inv(d, c.log, c.strict)
    && (forall h :: h != c.h || !c.files ==> (Final(Meta, h) in d.names <==> Final(Meta, h) in c.start.names))
    && (forall h :: Durable(c.start, h) ==> Durable(d, h))
  }

  predicate Faultless(w: World) {
    forall i :: |w.past| <= i < |w.script| ==> w.script[i] == Success
  }

  ghost predicate SoundSince(c: Context, w: World) {
    && c.n <= |w.past|
    && Sound(c, w.disk)
    && (forall i :: c.n <= i < |w.past| ==> Sound(c, w.past[i]))
    && (c.clean ==> Faultless(w))
  }

  lemma DurableKeeps(d: Disk, op: Op, fault: Fault, h: int)
    requires WellFormed(d) && Durable(d, h) && Final(Meta, h) in Do(d, op, fault).disk.names
    ensures Durable(Do(d, op, fault).disk, h)
  {
    var d' := Do(d, op, fault).disk;
    assert Final(Meta, h) in NamesAt(d, |d.pending|);
    forall k: nat | k <= |d'.pending|
      ensures Final(Meta, h) in NamesAt(d', k)
    {
      if |d'.pending| > |d.pending| {
        NamesAtGrown(d, d', d'.pending[|d.pending|], k);
      } else if d'.pending == d.pending && d'.durable == d.durable {
        assert NamesAt(d', k) == NamesAt(d, k);
      } else {
        assert d'.pending[..k] == [];
      }
    }
  }

  lemma CallKeeps(c: Context, w: World, op: Op)
    requires SoundSince(c, w) && Harmless(w.disk, c.log, op)
    ensures SoundSince(c, Call(w, op).world) && (c.clean ==> w.Fault() == Success)
    ensures forall h :: Final(Meta, h) in Call(w, op).world.disk.names <==> Final(Meta, h) in w.disk.names
  {
    HarmlessKeeps(w.disk, op, w.Fault(), c.log, c.strict);
    forall h | Durable(w.disk, h)
      ensures Durable(Call(w, op).world.disk, h)
    {
      assert Final(Meta, h) in NamesAt(w.disk, |w.disk.pending|);
      DurableKeeps(w.disk, op, w.Fault(), h);
    }
    hide Inv;
  }

  // What clean-up does: close, remove partials, remove data that no marker vouches for.
  ghost predicate CleanUp(c: Context, d: Disk, op: Op) {
    || op.Close?
    || op.CloseDir?
    || (op.Remove? && !op.path.Final?)
    || (op.Remove? && op.path == Final(Data, c.h) && Free(d, c.log, c.h))
  }

  lemma {:induction false} UndoKeeps(c: Context, ops: seq<Op>, w: World)
    requires SoundSince(c, w)
    requires forall op :: op in ops ==> CleanUp(c, w.disk, op)
    ensures SoundSince(c, Undo(ops, w))
    ensures Final(Meta, c.h) in Undo(ops, w).disk.names <==> Final(Meta, c.h) in w.disk.names
  {
    hide Inv, Sound, Durable, Faultless;
    if |ops| > 0 {
      assert ops[0] in ops && (forall op :: op in ops[1..] ==> op in ops);
      CallKeeps(c, w, ops[0]);
      UndoKeeps(c, ops[1..], Call(w, ops[0]).world);
    }
  }

  // --- The end of a commit ------------------------------------------------------------

  // How a commit may end: every image sound, the marker in place exactly when only the
  // directory sync could still fail, and nothing left to lose after a synced success.
  ghost predicate Ends(c: Context, cfg: Config, run: Run) {
    && SoundSince(c, run.world)
    && (Final(Meta, c.h) in run.world.disk.names <==>
          cfg.outputMeta && (run.failed == None || run.failed == Some(SyncWriteDir)))
    && (cfg.fsync && run.failed == None ==> run.world.disk.pending == [])
    && (c.clean ==> run.failed == None)
  }

  lemma DirectoryEnds(c: Context, cfg: Config, w: World)
    requires SoundSince(c, w) && (Final(Meta, c.h) in w.disk.names <==> cfg.outputMeta)
    ensures Ends(c, cfg, Exec(DirectoryPlan(cfg), w))
  {
    hide Inv, Sound, Durable, Faultless, SoundSince, Exec, DirectoryPlan;
    if cfg.fsync {
      ExecDirectory(cfg, w);
      var reached := Call(w, OpenDir);
      CallKeeps(c, w, OpenDir);
      var synced := Call(reached.world, SyncDir);
      CallKeeps(c, reached.world, SyncDir);
      CallKeeps(c, synced.world, CloseDir);
    } else {
      NoDirectoryPlan(cfg, w);
    }
  }

  lemma NoDirectoryPlan(cfg: Config, w: World)
    requires !cfg.fsync
    ensures Exec(DirectoryPlan(cfg), w) == Run(w, None)
  {
  }

  lemma MarkerCallKeeps(c: Context, w: World)
    requires SoundSince(c, w) && Final(Meta, c.h) !in w.disk.names && c.files && c.h in c.log
    requires Staged(w.disk, ArchivePaths.Partial(Meta, c.h), MetaBytes(c.log[c.h]), c.strict)
    requires c.log[c.h].kvs.Some? ==> Staged(w.disk, Final(Data, c.h), Frames(c.log[c.h].kvs.value), c.strict)
    ensures SoundSince(c, Call(w, Rename(ArchivePaths.Partial(Meta, c.h), Final(Meta, c.h))).world)
    ensures c.clean ==> w.Fault() == Success
  {
    var op := Rename(ArchivePaths.Partial(Meta, c.h), Final(Meta, c.h));
    MarkerKeeps(w.disk, c.h, w.Fault(), c.log, c.strict);
    forall h | Durable(w.disk, h)
      ensures Durable(Call(w, op).world.disk, h)
    {
      assert Final(Meta, h) in NamesAt(w.disk, |w.disk.pending|);
      DurableKeeps(w.disk, op, w.Fault(), h);
    }
    hide Inv;
  }

  ghost predicate MetaReady(cfg: Config, h: int, e: Entry, d: Disk) {
    cfg.outputMeta ==> Staged(d, ArchivePaths.Partial(Meta, h), MetaBytes(e), cfg.fsync)
  }

  // Both files are where the marker's rename expects them.
  ghost predicate Ready(cfg: Config, h: int, e: Entry, d: Disk) {
    && MetaReady(cfg, h, e, d)
    && (e.kvs.Some? ==> Staged(d, Final(Data, h), Frames(e.kvs.value), cfg.fsync))
  }

  // A prepared block of height c.h is to be committed as e.
  ghost predicate Committing(c: Context, cfg: Config, st: Streamer, e: Entry) {
    && st.curHeight == c.h && FieldsValid(cfg, st) && st.prepared
    && (e.kvs.Some? <==> cfg.hasListeners)
  }

  lemma PromoteEnds(c: Context, cfg: Config, st: Streamer, w: World, e: Entry)
    requires SoundSince(c, w) && Final(Meta, c.h) !in w.disk.names && (c.strict ==> cfg.fsync)
    requires Committing(c, cfg, st, e) && Ready(cfg, c.h, e, w.disk)
    requires cfg.outputMeta ==> c.files && c.h in c.log && c.log[c.h] == e
    ensures Ends(c, cfg, Exec(PromotePlan(cfg, st), w))
  {
    hide Inv, Sound, Durable, Faultless;
    if cfg.outputMeta {
      var dropData := if cfg.hasListeners then [Remove(Final(Data, c.h))] else [];
      var partial := ArchivePaths.Partial(Meta, c.h);
      var r := Call(w, Rename(partial, Final(Meta, c.h)));
      MarkerCallKeeps(c, w);
      if r.ok {
        DirectoryEnds(c, cfg, r.world);
      } else {
        UndoKeeps(c, [Remove(partial)] + dropData, r.world);
      }
    } else {
      DirectoryEnds(c, cfg, w);
    }
  }

  // --- Files being written ------------------------------------------------------------

  // A handle at the end of the file that the name stands for.
  ghost predicate OpenAt(d: Disk, fd: nat, p: Path, bytes: Bytes) {
    && fd in d.open
    && Holds(d.names, d.data, p, bytes)
    && d.open[fd] == Handle(d.names[p], |bytes|)
  }

  lemma NamesInjective(c: Context, d: Disk)
    requires Sound(c, d)
    ensures Proper(d.names, d)
  {
    assert Proper(NamesAt(d, |d.pending|), d);
  }

  // Writing through it appends; other named files stay as they are.
  lemma AppendKeeps(c: Context, w: World, fd: nat, p: Path, bytes: Bytes, m: Bytes)
    requires SoundSince(c, w) && p.Partial? && OpenAt(w.disk, fd, p, bytes)
    ensures var r := Call(w, Write(fd, m));
            && SoundSince(c, r.world)
            && (if r.ok then OpenAt(r.world.disk, fd, p, bytes + m) else !c.clean)
            && r.world.disk.names == w.disk.names
            && r.world.disk.nextFd == w.disk.nextFd
            && (forall q, held, s :: q != p && Staged(w.disk, q, held, s) ==> Staged(r.world.disk, q, held, s))
  {
    NamesInjective(c, w.disk);
    CallKeeps(c, w, Write(fd, m));
    assert Overwrite(bytes, |bytes|, m) == bytes + m;
  }

  // One message written: the file grows by its frame, or the plan stops with clean-up.
  lemma FrameKeeps(c: Context, w: World, fd: nat, p: Path, ms: seq<Bytes>, m: Bytes,
                   undo: seq<Op>, cause: Cause, next: Plan) returns (w': World, ok: bool)
    requires SoundSince(c, w) && p.Partial? && OpenAt(w.disk, fd, p, Frames(ms))
    ensures SoundSince(c, w') && w'.disk.names == w.disk.names && w'.disk.nextFd == w.disk.nextFd
    ensures forall q, held, s :: q != p && Staged(w.disk, q, held, s) ==> Staged(w'.disk, q, held, s)
    ensures if ok then
              && OpenAt(w'.disk, fd, p, Frames(ms + [m]))
              && Exec(FramePlan(fd, m, undo, cause, next), w) == Exec(next, w')
            else
              && !c.clean
              && Exec(FramePlan(fd, m, undo, cause, next), w) == Run(Undo(undo, w'), Some(cause))
  {
    hide Inv, Sound, Durable, Faultless, SoundSince, Overwrite, Uvarint, Exec;
    ExecFrame(w, fd, m, undo, cause, next);
    var head := Call(w, Write(fd, Uvarint(|m|)));
    AppendKeeps(c, w, fd, p, Frames(ms), Uvarint(|m|));
    w', ok := head.world, head.ok;
    if head.ok {
      var body := Call(head.world, Write(fd, m));
      AppendKeeps(c, head.world, fd, p, Frames(ms) + Uvarint(|m|), m);
      w', ok := body.world, body.ok;
      FramesSnoc(ms, m);
      assert Frames(ms) + Uvarint(|m|) + m == Frames(ms + [m]);
    }
  }

  lemma OpenPartial(c: Context, w: World, p: Path)
    requires SoundSince(c, w) && p.Partial?
    ensures var r := Call(w, Open(p));
            && SoundSince(c, r.world)
            && (forall h :: Final(Meta, h) in r.world.disk.names <==> Final(Meta, h) in w.disk.names)
            && (if r.ok then OpenAt(r.world.disk, w.disk.nextFd, p, []) else !c.clean)
            && (forall q, held, s :: q != p && Staged(w.disk, q, held, s) ==> Staged(r.world.disk, q, held, s))
  {
    NamesInjective(c, w.disk);
    CallKeeps(c, w, Open(p));
  }

  // --- The whole commit ---------------------------------------------------------------

  // Both files are written, under their partial names.
  ghost predicate Gathered(cfg: Config, h: int, e: Entry, d: Disk) {
    && MetaReady(cfg, h, e, d)
    && (e.kvs.Some? ==> Staged(d, ArchivePaths.Partial(Data, h), Frames(e.kvs.value), cfg.fsync))
  }

  // How far a commit gets before any file is final: to the renames, with both files
  // written, or it stops with clean-up; no marker has moved.
  ghost predicate Gathers(c: Context, cfg: Config, st: Streamer, e: Entry, run: Run, w: World, failed: Option<Cause>) {
    && SoundSince(c, w)
    && if failed.None? then
         run == Exec(MovePlan(cfg, st), w) && Gathered(cfg, c.h, e, w.disk)
       else
         run == Run(w, failed) && !c.clean && failed.value != RenameMeta && failed.value != SyncWriteDir
  }

  lemma DataRenameGathers(c: Context, cfg: Config, st: Streamer, w: World, fd: nat, e: Entry)
      returns (w': World, failed: Option<Cause>)
    requires SoundSince(c, w) && Committing(c, cfg, st, e) && e.kvs.Some?
    requires Gathered(cfg, c.h, e, w.disk) && fd in w.disk.open
    ensures Gathers(c, cfg, st, e, Exec(DataRenamePlan(cfg, st, fd), w), w', failed)
  {
    var undo := [Remove(ArchivePaths.Partial(Data, c.h))] + RemoveMeta(cfg, st);
    var closed := Call(w, Close(fd));
    hide Inv, Sound, Durable, Faultless;
    CallKeeps(c, w, Close(fd));
    if closed.ok {
      w', failed := closed.world, None;
    } else {
      UndoKeeps(c, undo, closed.world);
      w', failed := Undo(undo, closed.world), Some(CloseData);
    }
  }

  lemma DataCloseGathers(c: Context, cfg: Config, st: Streamer, w: World, fd: nat, e: Entry)
      returns (w': World, failed: Option<Cause>)
    requires SoundSince(c, w) && Committing(c, cfg, st, e) && e.kvs.Some?
    requires MetaReady(cfg, c.h, e, w.disk)
    requires OpenAt(w.disk, fd, ArchivePaths.Partial(Data, c.h), Frames(e.kvs.value))
    ensures Gathers(c, cfg, st, e, Exec(DataClosePlan(cfg, st, fd), w), w', failed)
  {
    hide Inv, Sound, Durable, Faultless;
    if cfg.fsync {
      var synced := Call(w, Sync(fd));
      CallKeeps(c, w, Sync(fd));
      if synced.ok {
        w', failed := DataRenameGathers(c, cfg, st, synced.world, fd, e);
      } else {
        UndoKeeps(c, DataUndo(cfg, st, fd), synced.world);
        w', failed := Undo(DataUndo(cfg, st, fd), synced.world), Some(SyncData);
      }
    } else {
      w', failed := DataRenameGathers(c, cfg, st, w, fd, e);
    }
  }

  // The pairs one after the other; `done` are in the file already.
  lemma {:induction false} PairsGather(c: Context, cfg: Config, st: Streamer, w: World, fd: nat, e: Entry,
                                      done: seq<Bytes>, kvs: seq<Bytes>)
      returns (w': World, failed: Option<Cause>)
    requires SoundSince(c, w) && Committing(c, cfg, st, e) && e.kvs == Some(done + kvs)
    requires MetaReady(cfg, c.h, e, w.disk)
    requires OpenAt(w.disk, fd, ArchivePaths.Partial(Data, c.h), Frames(done))
    ensures var plan := PairsPlan(fd, kvs, DataUndo(cfg, st, fd), DataClosePlan(cfg, st, fd));
            Gathers(c, cfg, st, e, Exec(plan, w), w', failed)
    decreases |kvs|
  {
    hide Inv, Sound, Durable, Faultless;
    var undo, last := DataUndo(cfg, st, fd), DataClosePlan(cfg, st, fd);
    if |kvs| == 0 {
      assert done + kvs == done;
      w', failed := DataCloseGathers(c, cfg, st, w, fd, e);
    } else {
      var framed, ok := FrameKeeps(c, w, fd, ArchivePaths.Partial(Data, c.h), done, kvs[0], undo, WriteKV,
                                   PairsPlan(fd, kvs[1..], undo, last));
      if ok {
        assert (done + [kvs[0]]) + kvs[1..] == done + kvs;
        w', failed := PairsGather(c, cfg, st, framed, fd, e, done + [kvs[0]], kvs[1..]);
      } else {
        UndoKeeps(c, undo, framed);
        w', failed := Undo(undo, framed), Some(WriteKV);
      }
    }
  }

  lemma DataGathers(c: Context, cfg: Config, st: Streamer, w: World, e: Entry, kvs: seq<Bytes>)
      returns (w': World, failed: Option<Cause>)
    requires SoundSince(c, w) && Committing(c, cfg, st, e)
    requires cfg.hasListeners ==> e.kvs == Some(kvs)
    requires MetaReady(cfg, c.h, e, w.disk)
    ensures Gathers(c, cfg, st, e, Exec(DataPlan(cfg, st, w.disk.nextFd, kvs), w), w', failed)
  {
    hide Inv, Sound, Durable, Faultless;
    if cfg.hasListeners {
      var partial := ArchivePaths.Partial(Data, c.h);
      var reached := Call(w, Open(partial));
      OpenPartial(c, w, partial);
      if reached.ok {
        assert [] + kvs == kvs;
        w', failed := PairsGather(c, cfg, st, reached.world, w.disk.nextFd, e, [], kvs);
      } else {
        UndoKeeps(c, RemoveMeta(cfg, st), reached.world);
        w', failed := Undo(RemoveMeta(cfg, st), reached.world), Some(OpenData);
      }
    } else {
      w', failed := w, None;
    }
  }

  lemma MetaCloseGathers(c: Context, cfg: Config, st: Streamer, w: World, e: Entry, kvs: seq<Bytes>)
      returns (w': World, failed: Option<Cause>)
    requires SoundSince(c, w) && Committing(c, cfg, st, e) && cfg.outputMeta
    requires cfg.hasListeners ==> e.kvs == Some(kvs)
    requires OpenAt(w.disk, st.metaFile.value, ArchivePaths.Partial(Meta, c.h), MetaBytes(e))
    ensures var plan := MetaClosePlan(cfg, st, st.metaFile.value, DataPlan(cfg, st, w.disk.nextFd, kvs));
            Gathers(c, cfg, st, e, Exec(plan, w), w', failed)
  {
    hide Inv, Sound, Durable, Faultless;
    var fd := st.metaFile.value;
    var rest := DataPlan(cfg, st, w.disk.nextFd, kvs);
    var drop := RemoveMeta(cfg, st);
    var before := w;
    if cfg.fsync {
      var synced := Call(w, Sync(fd));
      CallKeeps(c, w, Sync(fd));
      before := synced.world;
      if !synced.ok {
        UndoKeeps(c, [Close(fd)] + drop, before);
        w', failed := Undo([Close(fd)] + drop, before), Some(SyncMeta);
        return;
      }
    }
    var closed := Call(before, Close(fd));
    CallKeeps(c, before, Close(fd));
    assert Exec(MetaClosePlan(cfg, st, fd, rest), w) ==
           if closed.ok then Exec(rest, closed.world) else Run(Undo(drop, closed.world), Some(CloseMeta));
    if closed.ok {
      w', failed := DataGathers(c, cfg, st, closed.world, e, kvs);
    } else {
      UndoKeeps(c, drop, closed.world);
      w', failed := Undo(drop, closed.world), Some(CloseMeta);
    }
  }

  // What ListenFinalizeBlock leaves for ListenCommit: two messages in the open partial.
  ghost predicate Prepared(cfg: Config, st: Streamer, d: Disk, req: Bytes, res: Bytes) {
    && FieldsValid(cfg, st)
    && (st.prepared && cfg.outputMeta ==>
          OpenAt(d, st.metaFile.value, ArchivePaths.Partial(Meta, st.curHeight), Frames([req, res])))
  }

  lemma CommitGathers(c: Context, cfg: Config, st: Streamer, w: World, e: Entry, kvs: seq<Bytes>)
      returns (w': World, failed: Option<Cause>)
    requires SoundSince(c, w) && Committing(c, cfg, st, e)
    requires Prepared(cfg, st, w.disk, e.req, e.res) && (cfg.hasListeners ==> e.kvs == Some(kvs))
    ensures Gathers(c, cfg, st, e, Exec(CommitPlan(cfg, st, w.disk.nextFd, e.commit, kvs), w), w', failed)
  {
    hide Inv, Sound, Durable, Faultless;
    if cfg.outputMeta {
      var fd := st.metaFile.value;
      var undo := [Close(fd)] + RemoveMeta(cfg, st);
      var rest := MetaClosePlan(cfg, st, fd, DataPlan(cfg, st, w.disk.nextFd, kvs));
      var framed, ok := FrameKeeps(c, w, fd, ArchivePaths.Partial(Meta, c.h), [e.req, e.res], e.commit, undo,
                                   WriteCommit, rest);
      assert [e.req, e.res] + [e.commit] == [e.req, e.res, e.commit];
      if ok {
        w', failed := MetaCloseGathers(c, cfg, st, framed, e, kvs);
      } else {
        UndoKeeps(c, undo, framed);
        w', failed := Undo(undo, framed), Some(WriteCommit);
      }
    } else {
      w', failed := DataGathers(c, cfg, st, w, e, kvs);
    }
  }

  // How far a commit gets that replaces no data a marker vouches for: to the marker's
  // rename, with both files ready, or it stops with clean-up; no marker has moved.
  ghost predicate Reaches(c: Context, cfg: Config, st: Streamer, e: Entry, run: Run, w: World, failed: Option<Cause>) {
    && SoundSince(c, w)
    && if failed.None? then
         run == Exec(PromotePlan(cfg, st), w) && Ready(cfg, c.h, e, w.disk)
       else
         run == Run(w, failed) && !c.clean && failed.value != RenameMeta && failed.value != SyncWriteDir
  }

  // The data file may be replaced, and stays replaceable.
  ghost predicate DataFree(c: Context, cfg: Config) {
    !c.files && (cfg.hasListeners ==> Free(c.start, c.log, c.h))
  }

  lemma StaysFree(c: Context, cfg: Config, d: Disk)
    requires DataFree(c, cfg) && Sound(c, d)
    ensures cfg.hasListeners ==> Free(d, c.log, c.h)
  {
  }

  // The data file takes its final name with the contents it has.
  lemma RenameStages(c: Context, w: World, bytes: Bytes)
    requires SoundSince(c, w) && Free(w.disk, c.log, c.h)
    requires Staged(w.disk, ArchivePaths.Partial(Data, c.h), bytes, false)
    ensures var r := Call(w, Rename(ArchivePaths.Partial(Data, c.h), Final(Data, c.h)));
            && SoundSince(c, r.world)
            && (if r.ok then
                  forall s :: Staged(w.disk, ArchivePaths.Partial(Data, c.h), bytes, s) ==>
                                Staged(r.world.disk, Final(Data, c.h), bytes, s)
                else !c.clean)
            && (forall held, s :: Staged(w.disk, ArchivePaths.Partial(Meta, c.h), held, s) ==>
                                    Staged(r.world.disk, ArchivePaths.Partial(Meta, c.h), held, s))
  {
    hide Inv, Sound, Durable, Faultless;
    CallKeeps(c, w, Rename(ArchivePaths.Partial(Data, c.h), Final(Data, c.h)));
  }

  lemma MoveReaches(c: Context, cfg: Config, st: Streamer, w: World, e: Entry)
      returns (w': World, failed: Option<Cause>)
    requires SoundSince(c, w) && DataFree(c, cfg) && Committing(c, cfg, st, e) && Gathered(cfg, c.h, e, w.disk)
    ensures Reaches(c, cfg, st, e, Exec(MovePlan(cfg, st), w), w', failed)
  {
    w', failed := w, None;
    if cfg.hasListeners {
      var partial := ArchivePaths.Partial(Data, c.h);
      var undo := [Remove(partial)] + RemoveMeta(cfg, st);
      var renamed := Call(w, Rename(partial, Final(Data, c.h)));
      StaysFree(c, cfg, w.disk);
      hide Inv, Sound, Durable, Faultless, Free;
      RenameStages(c, w, Frames(e.kvs.value));
      if renamed.ok {
        w' := renamed.world;
      } else {
        UndoKeeps(c, undo, renamed.world);
        w', failed := Undo(undo, renamed.world), Some(RenameData);
      }
    }
  }

  lemma CommitReaches(c: Context, cfg: Config, st: Streamer, w: World, e: Entry, kvs: seq<Bytes>)
      returns (w': World, failed: Option<Cause>)
    requires SoundSince(c, w) && DataFree(c, cfg) && Committing(c, cfg, st, e)
    requires Prepared(cfg, st, w.disk, e.req, e.res) && (cfg.hasListeners ==> e.kvs == Some(kvs))
    ensures Reaches(c, cfg, st, e, Exec(CommitPlan(cfg, st, w.disk.nextFd, e.commit, kvs), w), w', failed)
  {
    hide Inv, Sound, Durable, Faultless, SoundSince, Exec, CommitPlan, Prepared;
    w', failed := CommitGathers(c, cfg, st, w, e, kvs);
    if failed.None? {
      w', failed := MoveReaches(c, cfg, st, w', e);
    }
  }

  // The same commit, its marker's fate left open.
  lemma Unmarked(c: Context, w: World)
    requires SoundSince(c.(files := false), w)
    ensures SoundSince(c, w)
    ensures Final(Meta, c.h) in w.disk.names <==> Final(Meta, c.h) in c.start.names
  {
    hide Inv, Durable;
  }

  // A block that is not there yet.
  lemma CommitEnds(c: Context, cfg: Config, st: Streamer, w: World, e: Entry, kvs: seq<Bytes>)
    requires SoundSince(c.(files := false), w) && Final(Meta, c.h) !in c.start.names && (c.strict ==> cfg.fsync)
    requires Committing(c, cfg, st, e) && Prepared(cfg, st, w.disk, e.req, e.res)
    requires cfg.hasListeners ==> e.kvs == Some(kvs)
    requires cfg.outputMeta ==> c.files && c.h in c.log && c.log[c.h] == e
    ensures Ends(c, cfg, Exec(CommitPlan(cfg, st, w.disk.nextFd, e.commit, kvs), w))
  {
    var w', failed := CommitReaches(c.(files := false), cfg, st, w, e, kvs);
    Unmarked(c, w');
    hide Inv, Sound, Durable, Faultless, SoundSince, Exec, CommitPlan;
    if failed.None? {
      PromoteEnds(c, cfg, st, w', e);
    }
  }

  lemma FinalizeEnds(c: Context, cfg: Config, w: World, req: Request, res: Bytes)
    requires SoundSince(c, w)
    ensures var run := Exec(FinalizePlan(w.disk.nextFd, req, res), w);
            && SoundSince(c, run.world)
            && (Final(Meta, c.h) in run.world.disk.names <==> Final(Meta, c.h) in w.disk.names)
            && (c.clean ==> run.failed == None)
            && (run.failed == None ==>
                  OpenAt(run.world.disk, w.disk.nextFd, ArchivePaths.Partial(Meta, req.height),
                         Frames([req.bytes, res])))
  {
    hide Inv, Sound, Durable, Faultless, SoundSince, Staged, Uvarint, Overwrite, Do;
    var fd := w.disk.nextFd;
    var partial := ArchivePaths.Partial(Meta, req.height);
    var undo := [Close(fd), Remove(partial)];
    var second := FramePlan(fd, res, undo, WriteResponse, Done);
    var reached := Call(w, Open(partial));
    OpenPartial(c, w, partial);
    if reached.ok {
      var w1, ok := FrameKeeps(c, reached.world, fd, partial, [], req.bytes, undo, WriteRequest, second);
      UndoKeeps(c, undo, w1);
      if !ok {
        return;
      }
      var w2, done := FrameKeeps(c, w1, fd, partial, [] + [req.bytes], res, undo, WriteResponse, Done);
      assert [] + [req.bytes] + [res] == [req.bytes, res];
      UndoKeeps(c, undo, w2);
    }
  }
}
