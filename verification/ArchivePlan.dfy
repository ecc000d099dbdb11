/**
 * What one block costs in system calls: the two listener calls as plans, each step with
 * the calls that undo it should it fail.  FileStreamer carries these plans out; the
 * safety and durability arguments are about them.
 */
module ArchivePlan {
  import opened Wrappers
  import opened Framing
  import opened ArchivePaths
  import opened DiskModel

  datatype Config = Config(prefix: string, fsync: bool, outputMeta: bool, stopOnErr: bool, hasListeners: bool)

  // Why a listener call did not return nil.
  datatype Cause =
    | Canceled | NotPrepared
    | OpenMeta | WriteRequest | WriteResponse
    | WriteCommit | SyncMeta | CloseMeta
    | OpenData | WriteKV | SyncData | CloseData
    | RenameData | RenameMeta | SyncWriteDir

  datatype Outcome = Nil | Error(cause: Cause) | Panic(cause: Cause)

  // An I/O failure stops the node when it is configured to.
  function Fail(cfg: Config, cause: Cause): Outcome {
    if cfg.stopOnErr then Panic(cause) else Error(cause)
  }

  // The streamer's per-block fields.
  datatype Streamer = Streamer(
    curHeight: int,
    metaFile: Option<nat>,
    metaPartial: Option<Path>,
    metaFinal: Option<Path>,
    prepared: bool)

  const IDLE := Streamer(0, None, None, None, false)

  // While a block is prepared with metadata on, the handle and both paths are those of
  // its height; with metadata off there are none.
  predicate FieldsValid(cfg: Config, st: Streamer) {
    && (!cfg.outputMeta ==> st.metaFile == None && st.metaPartial == None && st.metaFinal == None)
    && (cfg.outputMeta && st.prepared ==>
          && st.metaFile.Some?
          && st.metaPartial == Some(ArchivePaths.Partial(Meta, st.curHeight))
          && st.metaFinal == Some(Final(Meta, st.curHeight)))
  }

  datatype Request = Request(height: int, bytes: Bytes)

  datatype Plan = Done | Step(op: Op, undo: seq<Op>, cause: Cause, next: Plan)

  datatype Run = Run(world: World, failed: Option<Cause>)

  // Clean-up: every call is made and no answer is looked at.
  function Undo(ops: seq<Op>, w: World): World {
    if |ops| == 0 then w else Undo(ops[1..], Call(w, ops[0]).world)
  }

  // Steps in order until one fails; then its clean-up.
  function Exec(p: Plan, w: World): Run {
    match p
    case Done => Run(w, None)
    case Step(op, undo, cause, next) =>
      var r := Call(w, op);
      if r.ok then Exec(next, r.world) else Run(Undo(undo, r.world), Some(cause))
  }

  // One length-prefixed message: header, then body.
  function FramePlan(fd: nat, m: Bytes, undo: seq<Op>, cause: Cause, next: Plan): Plan {
    Step(Write(fd, Uvarint(|m|)), undo, cause, Step(Write(fd, m), undo, cause, next))
  }

  lemma ExecFrame(w: World, fd: nat, m: Bytes, undo: seq<Op>, cause: Cause, next: Plan)
    ensures var head := Call(w, Write(fd, Uvarint(|m|)));
            var body := Call(head.world, Write(fd, m));
            Exec(FramePlan(fd, m, undo, cause, next), w) ==
            if !head.ok then Run(Undo(undo, head.world), Some(cause))
            else if !body.ok then Run(Undo(undo, body.world), Some(cause))
            else Exec(next, body.world)
  {
  }

  lemma UndoFirst(op: Op, rest: seq<Op>, w: World)
    ensures Undo([op] + rest, w) == Undo(rest, Call(w, op).world)
  {
    assert ([op] + rest)[1..] == rest;
  }

  function FinalizePlan(fd: nat, req: Request, res: Bytes): Plan {
    var partial := ArchivePaths.Partial(Meta, req.height);
    var undo := [Close(fd), Remove(partial)];
    Step(Open(partial), [], OpenMeta,
         FramePlan(fd, req.bytes, undo, WriteRequest,
                   FramePlan(fd, res, undo, WriteResponse, Done)))
  }

  function RemoveMeta(cfg: Config, st: Streamer): seq<Op> {
    if cfg.outputMeta && st.metaPartial.Some? then [Remove(st.metaPartial.value)] else []
  }

  function CommitPlan(cfg: Config, st: Streamer, fd: nat, commit: Bytes, kvs: seq<Bytes>): Plan {
    var rest := DataPlan(cfg, st, fd, kvs);
    if cfg.outputMeta && st.metaFile.Some? then
      var meta := st.metaFile.value;
      var undo := [Close(meta)] + RemoveMeta(cfg, st);
      FramePlan(meta, commit, undo, WriteCommit, MetaClosePlan(cfg, st, meta, rest))
    else rest
  }

  function MetaClosePlan(cfg: Config, st: Streamer, meta: nat, rest: Plan): Plan {
    var close := Step(Close(meta), RemoveMeta(cfg, st), CloseMeta, rest);
    if cfg.fsync then Step(Sync(meta), [Close(meta)] + RemoveMeta(cfg, st), SyncMeta, close) else close
  }

  function DataUndo(cfg: Config, st: Streamer, fd: nat): seq<Op> {
    [Close(fd), Remove(ArchivePaths.Partial(Data, st.curHeight))] + RemoveMeta(cfg, st)
  }

  function DataPlan(cfg: Config, st: Streamer, fd: nat, kvs: seq<Bytes>): Plan {
    if cfg.hasListeners then
      Step(Open(ArchivePaths.Partial(Data, st.curHeight)), RemoveMeta(cfg, st), OpenData,
           PairsPlan(fd, kvs, DataUndo(cfg, st, fd), DataClosePlan(cfg, st, fd)))
    else PromotePlan(cfg, st)
  }

  function PairsPlan(fd: nat, kvs: seq<Bytes>, undo: seq<Op>, next: Plan): Plan {
    if |kvs| == 0 then next
    else FramePlan(fd, kvs[0], undo, WriteKV, PairsPlan(fd, kvs[1..], undo, next))
  }

  function DataClosePlan(cfg: Config, st: Streamer, fd: nat): Plan {
    var close := DataRenamePlan(cfg, st, fd);
    if cfg.fsync then Step(Sync(fd), DataUndo(cfg, st, fd), SyncData, close) else close
  }

  function DataRenamePlan(cfg: Config, st: Streamer, fd: nat): Plan {
    Step(Close(fd), [Remove(ArchivePaths.Partial(Data, st.curHeight))] + RemoveMeta(cfg, st), CloseData,
         MovePlan(cfg, st))
  }

  // The data file, when there is one, takes its final name before the marker does.
  function MovePlan(cfg: Config, st: Streamer): Plan {
    if cfg.hasListeners then
      var partial := ArchivePaths.Partial(Data, st.curHeight);
      Step(Rename(partial, Final(Data, st.curHeight)), [Remove(partial)] + RemoveMeta(cfg, st), RenameData,
           PromotePlan(cfg, st))
    else PromotePlan(cfg, st)
  }

  // The completion marker goes last; when it cannot be put in place the data goes too.
  function PromotePlan(cfg: Config, st: Streamer): Plan {
    if cfg.outputMeta && st.metaPartial.Some? && st.metaFinal.Some? then
      var dropData := if cfg.hasListeners then [Remove(Final(Data, st.curHeight))] else [];
      Step(Rename(st.metaPartial.value, st.metaFinal.value),
           [Remove(st.metaPartial.value)] + dropData, RenameMeta, DirectoryPlan(cfg))
    else DirectoryPlan(cfg)
  }

  function DirectoryPlan(cfg: Config): Plan {
    if cfg.fsync then
      Step(OpenDir, [], SyncWriteDir,
           Step(SyncDir, [CloseDir], SyncWriteDir,
                Step(CloseDir, [], SyncWriteDir, Done)))
    else Done
  }

  // The directory is closed again whether or not its sync worked.
  lemma ExecDirectory(cfg: Config, w: World)
    requires cfg.fsync
    ensures var reached := Call(w, OpenDir);
            var synced := Call(reached.world, SyncDir);
            var closed := Call(synced.world, CloseDir);
            Exec(DirectoryPlan(cfg), w) ==
            if !reached.ok then Run(reached.world, Some(SyncWriteDir))
            else Run(closed.world, if synced.ok && closed.ok then None else Some(SyncWriteDir))
  {
    var close := Step(CloseDir, [], SyncWriteDir, Done);
    var sync := Step(SyncDir, [CloseDir], SyncWriteDir, close);
    var reached := Call(w, OpenDir);
    var synced := Call(reached.world, SyncDir);
    var closed := Call(synced.world, CloseDir);
    UndoFirst(CloseDir, [], synced.world);
    assert [CloseDir] + [] == [CloseDir];
    assert Exec(close, synced.world) == Run(closed.world, if closed.ok then None else Some(SyncWriteDir));
    assert Exec(sync, reached.world) ==
           if synced.ok then Exec(close, synced.world) else Run(closed.world, Some(SyncWriteDir));
  }

  datatype Listened = Listened(st: Streamer, world: World, outcome: Outcome)

  function ListenFinalizeBlock(cfg: Config, st: Streamer, w: World, live: bool, req: Request, res: Bytes): Listened {
    var begun := st.(curHeight := req.height, prepared := false);
    if !live then Listened(st, w, Error(Canceled))
    else if !cfg.outputMeta then Listened(begun.(prepared := true), w, Nil)
    else
      var fd := w.disk.nextFd;
      var run := Exec(FinalizePlan(fd, req, res), w);
      if run.failed.Some? then Listened(begun, run.world, Fail(cfg, run.failed.value))
      else
        Listened(
          begun.(metaFile := Some(fd),
                 metaPartial := Some(ArchivePaths.Partial(Meta, req.height)),
                 metaFinal := Some(Final(Meta, req.height)),
                 prepared := true),
          run.world, Nil)
  }

  function ListenCommit(cfg: Config, st: Streamer, w: World, live: bool, commit: Bytes, kvs: seq<Bytes>): Listened {
    if !live then Listened(st, w, Error(Canceled))
    else if !st.prepared then Listened(st, w, Fail(cfg, NotPrepared))
    else
      var run := Exec(CommitPlan(cfg, st, w.disk.nextFd, commit, kvs), w);
      Listened(IDLE.(curHeight := st.curHeight), run.world,
               if run.failed.Some? then Fail(cfg, run.failed.value) else Nil)
  }
}
