/** What the listener calls answer, and what they put a failure down to. */
module ArchiveAnswers {
  import opened Wrappers
  import opened Framing
  import opened ArchivePaths
  import opened DiskModel
  import opened ArchivePlan
  import opened ArchiveProtocol
  import opened ArchiveHistory

  // --- Answers ------------------------------------------------------------------------

  // A cancelled commit, or one with nothing prepared, is refused and changes nothing; any
  // other failure stops the node when it is configured to, and is returned when it is not.
  lemma CommitAnswers(cfg: Config, n: Node, call: Listen)
    requires call.Commit?
    ensures var t := Take(cfg, n, call);
            && (!call.live ==> t.outcome == Error(Canceled))
            && (call.live && !n.st.prepared ==>
                  t.outcome == if cfg.stopOnErr then Panic(NotPrepared) else Error(NotPrepared))
            && (!call.live || !n.st.prepared ==> t.node.st == n.st && t.node.world == n.world)
            && (t.outcome == Nil ==> call.live && n.st.prepared)
            && (call.live && t.outcome != Nil ==> if cfg.stopOnErr then t.outcome.Panic? else t.outcome.Error?)
            && (call.live && n.st.prepared ==> !t.node.st.prepared && t.node.st.curHeight == n.st.curHeight)
  {
    hide Exec, CommitPlan;
  }

  // A cancelled FinalizeBlock changes nothing; any other moves on to its height, and leaves
  // the block prepared exactly when it answers nil.
  lemma FinalizeAnswers(cfg: Config, n: Node, call: Listen)
    requires call.FinalizeBlock?
    ensures var t := Take(cfg, n, call);
            && (!call.live ==> t.outcome == Error(Canceled) && t.node == n)
            && (call.live ==>
                  && t.node.st.curHeight == call.req.height
                  && (t.outcome == Nil <==> t.node.st.prepared)
                  && (t.outcome != Nil ==> if cfg.stopOnErr then t.outcome.Panic? else t.outcome.Error?)
                  && (!cfg.outputMeta ==> t.outcome == Nil && t.node.world == n.world)
                  && (t.outcome == Nil ==> t.node.req == call.req.bytes && t.node.res == call.res))
  {
    hide Exec, FinalizePlan;
  }

  // --- Causes -------------------------------------------------------------------------

  // The call that a failure is put down to.
  predicate Concerns(cause: Cause, op: Op, h: int, meta: nat, data: nat) {
    match cause
    case OpenMeta => op == Open(ArchivePaths.Partial(Meta, h))
    case WriteRequest => op.Write? && op.fd == meta
    case WriteResponse => op.Write? && op.fd == meta
    case WriteCommit => op.Write? && op.fd == meta
    case SyncMeta => op == Sync(meta)
    case CloseMeta => op == Close(meta)
    case OpenData => op == Open(ArchivePaths.Partial(Data, h))
    case WriteKV => op.Write? && op.fd == data
    case SyncData => op == Sync(data)
    case CloseData => op == Close(data)
    case RenameData => op == Rename(ArchivePaths.Partial(Data, h), Final(Data, h))
    case RenameMeta => op == Rename(ArchivePaths.Partial(Meta, h), Final(Meta, h))
    case SyncWriteDir => op == OpenDir || op == SyncDir || op == CloseDir
    case Canceled => false
    case NotPrepared => false
  }

  predicate Blames(p: Plan, h: int, meta: nat, data: nat) {
    p.Step? ==> Concerns(p.cause, p.op, h, meta, data) && Blames(p.next, h, meta, data)
  }

  function FaultAt(script: seq<Fault>, k: nat): Fault {
    if k < |script| then script[k] else Success
  }

  // Call number k of the run was this one, and failed.
  ghost predicate FailedAt(w: World, k: nat, op: Op) {
    k <= |w.past| && !Do(w.Images()[k], op, FaultAt(w.script, k)).ok
  }

  lemma {:induction false} UndoRemembers(ops: seq<Op>, w: World)
    ensures Undo(ops, w).script == w.script && w.Images() <= Undo(ops, w).Images()
  {
    if |ops| > 0 {
      UndoRemembers(ops[1..], Call(w, ops[0]).world);
    }
  }

  lemma {:induction false} ExecRemembers(p: Plan, w: World)
    ensures Exec(p, w).world.script == w.script && w.Images() <= Exec(p, w).world.Images()
  {
    if p.Step? {
      var r := Call(w, p.op);
      assert w.Images() <= r.world.Images();
      if r.ok {
        ExecRemembers(p.next, r.world);
      } else {
        UndoRemembers(p.undo, r.world);
      }
    }
  }

  // A failure is put down to a call that did fail.
  lemma {:induction false} BlamedFailed(p: Plan, w: World, h: int, meta: nat, data: nat)
    requires Blames(p, h, meta, data) && Exec(p, w).failed.Some?
    ensures var run := Exec(p, w);
            exists k: nat, op ::
              |w.past| <= k && FailedAt(run.world, k, op) && Concerns(run.failed.value, op, h, meta, data)
    decreases p
  {
    var r := Call(w, p.op);
    ExecRemembers(p, w);
    if r.ok {
      BlamedFailed(p.next, r.world, h, meta, data);
    } else {
      assert w.Images()[|w.past|] == w.disk;
      assert FailedAt(Exec(p, w).world, |w.past|, p.op);
    }
  }

  lemma {:induction false} PairsBlame(fd: nat, kvs: seq<Bytes>, undo: seq<Op>, next: Plan, h: int, meta: nat)
    requires Blames(next, h, meta, fd)
    ensures Blames(PairsPlan(fd, kvs, undo, next), h, meta, fd)
    decreases |kvs|
  {
    if |kvs| > 0 {
      PairsBlame(fd, kvs[1..], undo, next, h, meta);
    }
  }

  lemma FrameBlames(fd: nat, m: Bytes, undo: seq<Op>, cause: Cause, next: Plan, h: int, meta: nat, data: nat)
    requires Blames(next, h, meta, data) && Concerns(cause, Write(fd, Uvarint(|m|)), h, meta, data)
    ensures Blames(FramePlan(fd, m, undo, cause, next), h, meta, data)
  {
    assert Blames(Step(Write(fd, m), undo, cause, next), h, meta, data);
  }

  lemma DirectoryBlames(cfg: Config, h: int, meta: nat, data: nat)
    ensures Blames(DirectoryPlan(cfg), h, meta, data)
  {
    var close := Step(CloseDir, [], SyncWriteDir, Done);
    assert Blames(Step(SyncDir, [CloseDir], SyncWriteDir, close), h, meta, data);
  }

  lemma FinalizeBlames(fd: nat, req: Request, res: Bytes)
    ensures Blames(FinalizePlan(fd, req, res), req.height, fd, 0)
  {
    var undo := [Close(fd), Remove(ArchivePaths.Partial(Meta, req.height))];
    FrameBlames(fd, res, undo, WriteResponse, Done, req.height, fd, 0);
    FrameBlames(fd, req.bytes, undo, WriteRequest, FramePlan(fd, res, undo, WriteResponse, Done), req.height, fd, 0);
    hide FramePlan;
  }

  // The handle of the metadata partial, when there is one.
  function MetaHandle(st: Streamer): nat {
    if st.metaFile.Some? then st.metaFile.value else 0
  }

  lemma DataBlames(cfg: Config, st: Streamer, fd: nat, kvs: seq<Bytes>)
    requires FieldsValid(cfg, st) && st.prepared
    ensures Blames(DataPlan(cfg, st, fd, kvs), st.curHeight, MetaHandle(st), fd)
  {
    var h, meta := st.curHeight, MetaHandle(st);
    DirectoryBlames(cfg, h, meta, fd);
    assert Blames(PromotePlan(cfg, st), h, meta, fd);
    assert Blames(MovePlan(cfg, st), h, meta, fd);
    assert Blames(DataRenamePlan(cfg, st, fd), h, meta, fd);
    assert Blames(DataClosePlan(cfg, st, fd), h, meta, fd);
    PairsBlame(fd, kvs, DataUndo(cfg, st, fd), DataClosePlan(cfg, st, fd), h, meta);
    hide DataClosePlan;
  }

  lemma CommitBlames(cfg: Config, st: Streamer, fd: nat, commit: Bytes, kvs: seq<Bytes>)
    requires FieldsValid(cfg, st) && st.prepared
    ensures Blames(CommitPlan(cfg, st, fd, commit, kvs), st.curHeight, MetaHandle(st), fd)
  {
    DataBlames(cfg, st, fd, kvs);
    hide DataPlan;
    if cfg.outputMeta {
      var meta, rest := MetaHandle(st), DataPlan(cfg, st, fd, kvs);
      assert Blames(Step(Close(meta), RemoveMeta(cfg, st), CloseMeta, rest), st.curHeight, meta, fd);
      FrameBlames(meta, commit, [Close(meta)] + RemoveMeta(cfg, st), WriteCommit, MetaClosePlan(cfg, st, meta, rest),
                  st.curHeight, meta, fd);
    }
  }

  // The cause in the answer to a commit is that of a call that failed.
  lemma CauseIsTrue(cfg: Config, n: Node, call: Listen)
    requires FieldsValid(cfg, n.st) && Effective(n, call) && Take(cfg, n, call).outcome != Nil
    ensures var t := Take(cfg, n, call);
            exists k: nat, op :: |n.world.past| <= k && FailedAt(t.node.world, k, op) &&
                                 Concerns(t.outcome.cause, op, n.st.curHeight, MetaHandle(n.st), n.world.disk.nextFd)
  {
    CommitBlames(cfg, n.st, n.world.disk.nextFd, call.commit, call.kvs);
    hide Blames, CommitPlan, Exec, FinalizePlan;
    BlamedFailed(CommitPlan(cfg, n.st, n.world.disk.nextFd, call.commit, call.kvs), n.world, n.st.curHeight,
                 MetaHandle(n.st), n.world.disk.nextFd);
  }

  lemma FinalizeCauseIsTrue(cfg: Config, n: Node, call: Listen)
    requires call.FinalizeBlock? && call.live && Take(cfg, n, call).outcome != Nil
    ensures var t := Take(cfg, n, call);
            exists k: nat, op :: |n.world.past| <= k && FailedAt(t.node.world, k, op) &&
                                 Concerns(t.outcome.cause, op, call.req.height, n.world.disk.nextFd, 0)
  {
    FinalizeBlames(n.world.disk.nextFd, call.req, call.res);
    hide Blames, CommitPlan, Exec, FinalizePlan;
    BlamedFailed(FinalizePlan(n.world.disk.nextFd, call.req, call.res), n.world, call.req.height,
                 n.world.disk.nextFd, 0);
  }
}
