/**
 * What the listener calls leave open or half-written, and what they never touch: laws of
 * whole plans, one structural property of a plan and one induction over carrying it out.
 */
module ArchiveTidy {
  import opened Wrappers
  import opened Framing
  import opened ArchivePaths
  import opened DiskModel
  import opened ArchivePlan
  import opened ArchiveProtocol
  import opened ArchiveHistory
  import opened ArchiveAnswers

  // --- Nothing is left behind ---------------------------------------------------------

  // Of a metadata partial and a data partial: which may be there, and which may be open.
  datatype Held = Held(meta: bool, data: bool, metaOpen: bool, dataOpen: bool)

  const NOTHING := Held(false, false, false, false)

  // The names and the handles that a plan deals in; there may be no data partial among them.
  datatype Own = Own(meta: Path, data: Option<Path>, metaFd: nat, dataFd: nat)

  // After the call, whether it worked or not, as far as handles go.
  function Closing(o: Own, held: Held, op: Op): Held {
    held.(metaOpen := held.metaOpen && op != Close(o.metaFd), dataOpen := held.dataOpen && op != Close(o.dataFd))
  }

  // After it worked.
  function Holding(o: Own, held: Held, op: Op): Held {
    match op
    case Open(p) =>
      if p == o.meta then held.(meta := true, metaOpen := true)
      else held.(data := true, dataOpen := true)
    case Rename(source, _) =>
      held.(meta := held.meta && source != o.meta, data := held.data && Some(source) != o.data)
    case _ => Closing(o, held, op)
  }

  // The calls of a plan are about its own files, and it opens one at most.
  predicate OwnOp(o: Own, op: Op, fd: nat) {
    match op
    case Open(p) =>
      Some(o.meta) != o.data && ((p == o.meta && o.metaFd == fd) || (Some(p) == o.data && o.dataFd == fd))
    case Rename(_, target) => target != o.meta && Some(target) != o.data
    case _ => true
  }

  // Whatever fails, the clean-up closes what is open and removes what is there; and what is
  // held at the end is `end`.
  predicate Tidy(p: Plan, o: Own, held: Held, began: bool, fd: nat, end: Held) {
    match p
    case Done => held == end
    case Step(op, undo, _, next) =>
      && OwnOp(o, op, fd) && (op.Open? ==> !began)
      && (forall u <- undo :: u.Close? || u.Remove? || u.CloseDir?)
      && (held.meta ==> Remove(o.meta) in undo)
      && (held.data ==> o.data.Some? && Remove(o.data.value) in undo)
      && (Closing(o, held, op).metaOpen ==> Close(o.metaFd) in undo)
      && (Closing(o, held, op).dataOpen ==> Close(o.dataFd) in undo)
      && Tidy(next, o, Holding(o, held, op), began || op.Open?, fd, end)
  }

  // Nothing is there or open but what is held.
  ghost predicate Has(o: Own, d: Disk, held: Held) {
    && (o.meta in d.names ==> held.meta)
    && (o.data.Some? && o.data.value in d.names ==> held.data)
    && (o.metaFd in d.open ==> held.metaOpen)
    && (o.dataFd in d.open ==> held.dataOpen)
  }

  // Nothing fails after the first call of the plan that does.
  ghost predicate FailsOnce(p: Plan, w: World)
    decreases p
  {
    p.Step? ==>
      var r := Call(w, p.op);
      if r.ok then FailsOnce(p.next, r.world) else Faultless(r.world)
  }

  lemma {:induction false} UndoCloses(ops: seq<Op>, w: World, fd: nat)
    requires forall u <- ops :: u.Close? || u.Remove? || u.CloseDir?
    requires fd in w.disk.open ==> Close(fd) in ops
    ensures fd !in Undo(ops, w).disk.open
  {
    if |ops| > 0 {
      assert ops == [ops[0]] + ops[1..];
      UndoCloses(ops[1..], Call(w, ops[0]).world, fd);
    }
  }

  lemma {:induction false} UndoRemoves(ops: seq<Op>, w: World, p: Path)
    requires forall u <- ops :: u.Close? || u.Remove? || u.CloseDir?
    requires p in w.disk.names ==> Remove(p) in ops && Faultless(w)
    ensures p !in Undo(ops, w).disk.names
  {
    if |ops| > 0 {
      assert ops == [ops[0]] + ops[1..];
      UndoRemoves(ops[1..], Call(w, ops[0]).world, p);
    }
  }

  lemma WorkedHas(o: Own, held: Held, op: Op, fd: nat, w: World)
    requires Has(o, w.disk, held) && o.metaFd != o.dataFd && OwnOp(o, op, fd) && (op.Open? ==> w.disk.nextFd == fd)
    requires Call(w, op).ok
    ensures Has(o, Call(w, op).world.disk, Holding(o, held, op))
    ensures !op.Open? ==> Call(w, op).world.disk.nextFd == w.disk.nextFd
  {
    hide Overwrite;
  }

  lemma FailedHas(o: Own, held: Held, op: Op, w: World)
    requires Has(o, w.disk, held) && !Call(w, op).ok
    ensures Has(o, Call(w, op).world.disk, Closing(o, held, op))
  {
    hide Overwrite;
  }

  lemma UndoLeaves(o: Own, held: Held, undo: seq<Op>, w: World)
    requires Has(o, w.disk, held) && forall u <- undo :: u.Close? || u.Remove? || u.CloseDir?
    requires (held.meta ==> Remove(o.meta) in undo) && (held.data ==> o.data.Some? && Remove(o.data.value) in undo)
    requires (held.metaOpen ==> Close(o.metaFd) in undo) && (held.dataOpen ==> Close(o.dataFd) in undo)
    ensures o.metaFd !in Undo(undo, w).disk.open && o.dataFd !in Undo(undo, w).disk.open
    ensures Faultless(w) ==> Has(o, Undo(undo, w).disk, NOTHING)
  {
    UndoCloses(undo, w, o.metaFd);
    UndoCloses(undo, w, o.dataFd);
    if Faultless(w) {
      UndoRemoves(undo, w, o.meta);
      if o.data.Some? {
        UndoRemoves(undo, w, o.data.value);
      }
    }
  }

  // Carried out, a tidy plan leaves what it is to leave when it works.  When it fails it
  // leaves no handle, and no partial either unless the clean-up fails as well.
  lemma {:induction false} TidyLeaves(p: Plan, o: Own, held: Held, began: bool, fd: nat, end: Held, w: World)
    requires Tidy(p, o, held, began, fd, end) && Has(o, w.disk, held) && o.metaFd != o.dataFd
    requires began || w.disk.nextFd == fd
    ensures var run := Exec(p, w);
            && (run.failed.None? ==> Has(o, run.world.disk, end))
            && (run.failed.Some? ==> o.metaFd !in run.world.disk.open && o.dataFd !in run.world.disk.open)
            && (run.failed.Some? && FailsOnce(p, w) ==> Has(o, run.world.disk, NOTHING))
    decreases p
  {
    hide Has, Call, Holding, Closing, OwnOp, Faultless;
    if p.Step? {
      var r := Call(w, p.op);
      if r.ok {
        WorkedHas(o, held, p.op, fd, w);
        TidyLeaves(p.next, o, Holding(o, held, p.op), began || p.op.Open?, fd, end, r.world);
      } else {
        FailedHas(o, held, p.op, w);
        ClosingKeepsNames(o, held, p.op);
        UndoLeaves(o, Closing(o, held, p.op), p.undo, r.world);
      }
    }
  }

  lemma ClosingKeepsNames(o: Own, held: Held, op: Op)
    ensures Closing(o, held, op).meta == held.meta && Closing(o, held, op).data == held.data
  {
  }

  lemma {:induction false} PairsTidy(fd: nat, kvs: seq<Bytes>, undo: seq<Op>, next: Plan, o: Own, held: Held, end: Held)
    requires Tidy(next, o, held, true, fd, end)
    requires forall u <- undo :: u.Close? || u.Remove? || u.CloseDir?
    requires (held.meta ==> Remove(o.meta) in undo) && (held.data ==> o.data.Some? && Remove(o.data.value) in undo)
    requires (held.metaOpen ==> Close(o.metaFd) in undo) && (held.dataOpen ==> Close(o.dataFd) in undo)
    ensures Tidy(PairsPlan(fd, kvs, undo, next), o, held, true, fd, end)
    decreases |kvs|
  {
    if |kvs| > 0 {
      PairsTidy(fd, kvs[1..], undo, next, o, held, end);
      FrameTidy(fd, kvs[0], undo, WriteKV, PairsPlan(fd, kvs[1..], undo, next), o, held, true, fd, end);
    }
  }

  lemma FrameTidy(at: nat, m: Bytes, undo: seq<Op>, cause: Cause, next: Plan,
                  o: Own, held: Held, began: bool, fd: nat, end: Held)
    requires Tidy(next, o, held, began, fd, end)
    requires forall u <- undo :: u.Close? || u.Remove? || u.CloseDir?
    requires (held.meta ==> Remove(o.meta) in undo) && (held.data ==> o.data.Some? && Remove(o.data.value) in undo)
    requires (held.metaOpen ==> Close(o.metaFd) in undo) && (held.dataOpen ==> Close(o.dataFd) in undo)
    ensures Tidy(FramePlan(at, m, undo, cause, next), o, held, began, fd, end)
  {
    assert Tidy(Step(Write(at, m), undo, cause, next), o, held, began, fd, end);
  }

  lemma FinalizeTidy(req: Request, res: Bytes, o: Own)
    requires o.meta == ArchivePaths.Partial(Meta, req.height) && o.data != Some(o.meta)
    ensures Tidy(FinalizePlan(o.metaFd, req, res), o, NOTHING, false, o.metaFd, Held(true, false, true, false))
  {
    var undo := [Close(o.metaFd), Remove(o.meta)];
    var held := Held(true, false, true, false);
    FrameTidy(o.metaFd, res, undo, WriteResponse, Done, o, held, true, o.metaFd, held);
    FrameTidy(o.metaFd, req.bytes, undo, WriteRequest, FramePlan(o.metaFd, res, undo, WriteResponse, Done), o,
              held, true, o.metaFd, held);
    hide FramePlan;
  }

  lemma DirectoryTidy(cfg: Config, o: Own, began: bool, fd: nat)
    ensures Tidy(DirectoryPlan(cfg), o, NOTHING, began, fd, NOTHING)
  {
    var close := Step(CloseDir, [], SyncWriteDir, Done);
    assert Tidy(close, o, NOTHING, began, fd, NOTHING);
    assert Tidy(Step(SyncDir, [CloseDir], SyncWriteDir, close), o, NOTHING, began, fd, NOTHING);
  }

  // The partials of height h.
  predicate OwnOf(o: Own, h: int) {
    o.meta == ArchivePaths.Partial(Meta, h) && o.data == Some(ArchivePaths.Partial(Data, h))
  }

  lemma PromoteTidy(cfg: Config, st: Streamer, o: Own, began: bool, fd: nat)
    requires FieldsValid(cfg, st) && st.prepared && OwnOf(o, st.curHeight)
    ensures Tidy(PromotePlan(cfg, st), o, Held(cfg.outputMeta, false, false, false), began, fd, NOTHING)
  {
    DirectoryTidy(cfg, o, began, fd);
    hide DirectoryPlan;
  }

  lemma DataTidy(cfg: Config, st: Streamer, o: Own, kvs: seq<Bytes>)
    requires FieldsValid(cfg, st) && st.prepared && OwnOf(o, st.curHeight)
    ensures Tidy(DataPlan(cfg, st, o.dataFd, kvs), o, Held(cfg.outputMeta, false, false, false), false, o.dataFd,
                 NOTHING)
  {
    var meta := cfg.outputMeta;
    PromoteTidy(cfg, st, o, true, o.dataFd);
    PromoteTidy(cfg, st, o, false, o.dataFd);
    hide PromotePlan;
    if cfg.hasListeners {
      assert Tidy(MovePlan(cfg, st), o, Held(meta, true, false, false), true, o.dataFd, NOTHING);
      assert Tidy(DataRenamePlan(cfg, st, o.dataFd), o, Held(meta, true, false, true), true, o.dataFd, NOTHING);
      assert Tidy(DataClosePlan(cfg, st, o.dataFd), o, Held(meta, true, false, true), true, o.dataFd, NOTHING);
      PairsTidy(o.dataFd, kvs, DataUndo(cfg, st, o.dataFd), DataClosePlan(cfg, st, o.dataFd), o,
                Held(meta, true, false, true), NOTHING);
      hide DataClosePlan, PairsPlan;
    }
  }

  lemma CommitTidy(cfg: Config, st: Streamer, o: Own, commit: Bytes, kvs: seq<Bytes>)
    requires FieldsValid(cfg, st) && st.prepared && OwnOf(o, st.curHeight)
    requires cfg.outputMeta ==> o.metaFd == st.metaFile.value
    ensures Tidy(CommitPlan(cfg, st, o.dataFd, commit, kvs), o, Held(cfg.outputMeta, false, cfg.outputMeta, false),
                 false, o.dataFd, NOTHING)
  {
    DataTidy(cfg, st, o, kvs);
    hide DataPlan;
    if cfg.outputMeta {
      var held, rest := Held(true, false, true, false), DataPlan(cfg, st, o.dataFd, kvs);
      assert Tidy(Step(Close(o.metaFd), RemoveMeta(cfg, st), CloseMeta, rest), o, held, false, o.dataFd, NOTHING);
      assert Tidy(MetaClosePlan(cfg, st, o.metaFd, rest), o, held, false, o.dataFd, NOTHING);
      FrameTidy(o.metaFd, commit, [Close(o.metaFd)] + RemoveMeta(cfg, st), WriteCommit,
                MetaClosePlan(cfg, st, o.metaFd, rest), o, held, false, o.dataFd, NOTHING);
    }
  }

  // File descriptors are handed out in order.
  ghost predicate HandlesOld(d: Disk) {
    forall fd :: fd in d.open ==> fd < d.nextFd
  }

  lemma {:induction false} UndoKeepsHandles(ops: seq<Op>, w: World)
    requires HandlesOld(w.disk)
    ensures HandlesOld(Undo(ops, w).disk)
  {
    if |ops| > 0 {
      UndoKeepsHandles(ops[1..], Call(w, ops[0]).world);
    }
  }

  lemma {:induction false} ExecKeepsHandles(p: Plan, w: World)
    requires HandlesOld(w.disk)
    ensures HandlesOld(Exec(p, w).world.disk)
  {
    if p.Step? {
      var r := Call(w, p.op);
      if r.ok {
        ExecKeepsHandles(p.next, r.world);
      } else {
        UndoKeepsHandles(p.undo, r.world);
      }
    }
  }

  lemma {:induction false} RunKeepsHandles(cfg: Config, n: Node, calls: seq<Listen>)
    requires HandlesOld(n.world.disk)
    ensures HandlesOld(TakeAll(cfg, n, calls).world.disk)
  {
    if |calls| > 0 {
      var m, last := TakeAll(cfg, n, calls[..|calls| - 1]), calls[|calls| - 1];
      RunKeepsHandles(cfg, n, calls[..|calls| - 1]);
      hide Exec;
      if last.FinalizeBlock? {
        ExecKeepsHandles(FinalizePlan(m.world.disk.nextFd, last.req, last.res), m.world);
      } else {
        ExecKeepsHandles(CommitPlan(cfg, m.st, m.world.disk.nextFd, last.commit, last.kvs), m.world);
      }
    }
  }

  // A commit leaves none of its handles open, whatever fails, and neither of its partials,
  // unless a failure is followed by another one.
  lemma CommitLeavesNothing(cfg: Config, n: Node, call: Listen)
    requires FieldsValid(cfg, n.st) && Effective(n, call) && HandlesOld(n.world.disk)
    requires cfg.outputMeta ==> n.st.metaFile.value in n.world.disk.open
    requires ArchivePaths.Partial(Data, n.st.curHeight) !in n.world.disk.names
    requires !cfg.outputMeta ==> ArchivePaths.Partial(Meta, n.st.curHeight) !in n.world.disk.names
    ensures var t, h := Take(cfg, n, call), n.st.curHeight;
            var d := t.node.world.disk;
            var plan := CommitPlan(cfg, n.st, n.world.disk.nextFd, call.commit, call.kvs);
            && (cfg.outputMeta ==> n.st.metaFile.value !in d.open)
            && n.world.disk.nextFd !in d.open
            && (t.outcome == Nil || FailsOnce(plan, n.world) ==>
                  ArchivePaths.Partial(Meta, h) !in d.names && ArchivePaths.Partial(Data, h) !in d.names)
  {
    var fd := n.world.disk.nextFd;
    var h := n.st.curHeight;
    var o := Own(ArchivePaths.Partial(Meta, h), Some(ArchivePaths.Partial(Data, h)),
                 if cfg.outputMeta then n.st.metaFile.value else fd + 1, fd);
    var plan := CommitPlan(cfg, n.st, fd, call.commit, call.kvs);
    CommitTidy(cfg, n.st, o, call.commit, call.kvs);
    hide Tidy, CommitPlan, Exec, FailsOnce;
    TidyLeaves(plan, o, Held(cfg.outputMeta, false, cfg.outputMeta, false), false, fd, NOTHING, n.world);
  }

  // A FinalizeBlock that fails leaves neither its handle nor, unless another failure
  // follows, its partial.
  lemma FinalizeLeavesNothing(cfg: Config, n: Node, call: Listen)
    requires call.FinalizeBlock? && call.live && cfg.outputMeta && HandlesOld(n.world.disk)
    requires ArchivePaths.Partial(Meta, call.req.height) !in n.world.disk.names
    ensures var t, fd := Take(cfg, n, call), n.world.disk.nextFd;
            var d := t.node.world.disk;
            t.outcome != Nil ==>
              && fd !in d.open
              && (FailsOnce(FinalizePlan(fd, call.req, call.res), n.world) ==>
                    ArchivePaths.Partial(Meta, call.req.height) !in d.names)
  {
    var o := Own(ArchivePaths.Partial(Meta, call.req.height), None, n.world.disk.nextFd, n.world.disk.nextFd + 1);
    FinalizeTidy(call.req, call.res, o);
    hide Tidy, FinalizePlan, Exec, FailsOnce;
    TidyLeaves(FinalizePlan(o.metaFd, call.req, call.res), o, NOTHING, false, o.metaFd, Held(true, false, true, false),
               n.world);
  }

  // --- Nothing else is touched --------------------------------------------------------

  predicate OpAvoids(op: Op, p: Path) {
    match op
    case Open(q) => q != p
    case Remove(q) => q != p
    case Rename(source, target) => source != p && target != p
    case _ => true
  }

  predicate Avoids(plan: Plan, p: Path) {
    plan.Step? ==> OpAvoids(plan.op, p) && (forall u <- plan.undo :: OpAvoids(u, p)) && Avoids(plan.next, p)
  }

  // A name that stands, or does not, for the same file as before.
  predicate SameName(d: Disk, d': Disk, p: Path) {
    (p in d.names <==> p in d'.names) && (p in d.names ==> d'.names[p] == d.names[p])
  }

  lemma {:induction false} UndoAvoids(ops: seq<Op>, w: World, p: Path)
    requires forall u <- ops :: OpAvoids(u, p)
    ensures SameName(w.disk, Undo(ops, w).disk, p)
  {
    if |ops| > 0 {
      assert ops[0] in ops && ops == [ops[0]] + ops[1..];
      assert SameName(w.disk, Call(w, ops[0]).world.disk, p);
      UndoAvoids(ops[1..], Call(w, ops[0]).world, p);
    }
  }

  lemma {:induction false} ExecAvoids(plan: Plan, w: World, p: Path)
    requires Avoids(plan, p)
    ensures SameName(w.disk, Exec(plan, w).world.disk, p)
  {
    if plan.Step? {
      var r := Call(w, plan.op);
      if r.ok {
        ExecAvoids(plan.next, r.world, p);
      } else {
        UndoAvoids(plan.undo, r.world, p);
      }
    }
  }

  lemma {:induction false} PairsAvoid(fd: nat, kvs: seq<Bytes>, undo: seq<Op>, next: Plan, p: Path)
    requires Avoids(next, p) && forall u <- undo :: OpAvoids(u, p)
    ensures Avoids(PairsPlan(fd, kvs, undo, next), p)
    decreases |kvs|
  {
    if |kvs| > 0 {
      PairsAvoid(fd, kvs[1..], undo, next, p);
      FrameAvoids(fd, kvs[0], undo, WriteKV, PairsPlan(fd, kvs[1..], undo, next), p);
    }
  }

  lemma FrameAvoids(fd: nat, m: Bytes, undo: seq<Op>, cause: Cause, next: Plan, p: Path)
    requires Avoids(next, p) && forall u <- undo :: OpAvoids(u, p)
    ensures Avoids(FramePlan(fd, m, undo, cause, next), p)
  {
    assert Avoids(Step(Write(fd, m), undo, cause, next), p);
  }

  // The names that calls about height h have no business with.
  predicate Others(cfg: Config, h: int, p: Path) {
    || p.Foreign?
    || p.height != h
    || (p.kind == Meta && !cfg.outputMeta)
    || (p.kind == Data && !cfg.hasListeners)
  }

  lemma DirectoryAvoids(cfg: Config, p: Path)
    ensures Avoids(DirectoryPlan(cfg), p)
  {
    var close := Step(CloseDir, [], SyncWriteDir, Done);
    assert Avoids(Step(SyncDir, [CloseDir], SyncWriteDir, close), p);
  }

  lemma DataAvoids(cfg: Config, st: Streamer, fd: nat, kvs: seq<Bytes>, p: Path)
    requires FieldsValid(cfg, st) && st.prepared && Others(cfg, st.curHeight, p)
    ensures Avoids(DataPlan(cfg, st, fd, kvs), p)
  {
    DirectoryAvoids(cfg, p);
    assert Avoids(PromotePlan(cfg, st), p);
    if cfg.hasListeners {
      assert Avoids(MovePlan(cfg, st), p);
      assert Avoids(DataRenamePlan(cfg, st, fd), p);
      assert Avoids(DataClosePlan(cfg, st, fd), p);
      PairsAvoid(fd, kvs, DataUndo(cfg, st, fd), DataClosePlan(cfg, st, fd), p);
    }
  }

  lemma CommitAvoids(cfg: Config, st: Streamer, fd: nat, commit: Bytes, kvs: seq<Bytes>, p: Path)
    requires FieldsValid(cfg, st) && st.prepared && Others(cfg, st.curHeight, p)
    ensures Avoids(CommitPlan(cfg, st, fd, commit, kvs), p)
  {
    DataAvoids(cfg, st, fd, kvs, p);
    hide DataPlan;
    if cfg.outputMeta {
      var meta, rest := MetaHandle(st), DataPlan(cfg, st, fd, kvs);
      assert Avoids(Step(Close(meta), RemoveMeta(cfg, st), CloseMeta, rest), p);
      FrameAvoids(meta, commit, [Close(meta)] + RemoveMeta(cfg, st), WriteCommit, MetaClosePlan(cfg, st, meta, rest),
                  p);
    }
  }

  // A call touches the files of its own height only, and of those only the kinds that it is
  // configured to write.
  lemma OnlyItsOwn(cfg: Config, n: Node, call: Listen, p: Path)
    requires FieldsValid(cfg, n.st)
    requires Others(cfg, if call.FinalizeBlock? then call.req.height else n.st.curHeight, p)
    ensures SameName(n.world.disk, Take(cfg, n, call).node.world.disk, p)
  {
    hide Exec, CommitPlan, Others;
    if Effective(n, call) {
      CommitAvoids(cfg, n.st, n.world.disk.nextFd, call.commit, call.kvs, p);
      ExecAvoids(CommitPlan(cfg, n.st, n.world.disk.nextFd, call.commit, call.kvs), n.world, p);
    } else if call.FinalizeBlock? && call.live && cfg.outputMeta {
      var fd := n.world.disk.nextFd;
      FinalizeAvoids(cfg, fd, call.req, call.res, p);
      ExecAvoids(FinalizePlan(fd, call.req, call.res), n.world, p);
    }
  }

  lemma FinalizeAvoids(cfg: Config, fd: nat, req: Request, res: Bytes, p: Path)
    requires cfg.outputMeta && Others(cfg, req.height, p)
    ensures Avoids(FinalizePlan(fd, req, res), p)
  {
    var undo := [Close(fd), Remove(ArchivePaths.Partial(Meta, req.height))];
    FrameAvoids(fd, res, undo, WriteResponse, Done, p);
    FrameAvoids(fd, req.bytes, undo, WriteRequest, FramePlan(fd, res, undo, WriteResponse, Done), p);
    hide FramePlan;
  }

  // --- The data of a failed commit ----------------------------------------------------

  predicate Late(cause: Cause) {
    cause == RenameMeta || cause == SyncWriteDir
  }

  predicate OnlyLate(plan: Plan) {
    plan.Step? ==> Late(plan.cause) && OnlyLate(plan.next)
  }

  // Up to a rename onto p nothing concerns p; after it only the marker and the directory can
  // fail, and where the marker fails, p is removed.
  predicate Settles(plan: Plan, p: Path) {
    plan.Step? ==>
      && (forall u <- plan.undo :: !Late(plan.cause) ==> OpAvoids(u, p))
      && (plan.cause == RenameMeta ==> Remove(p) in plan.undo)
      && (forall u <- plan.undo :: u.Close? || u.Remove? || u.CloseDir?)
      && (OpAvoids(plan.op, p) || OnlyLate(plan.next))
      && Settles(plan.next, p)
  }

  lemma {:induction false} LateFails(plan: Plan, w: World)
    requires OnlyLate(plan) && Exec(plan, w).failed.Some?
    ensures Late(Exec(plan, w).failed.value)
  {
    var r := Call(w, plan.op);
    if r.ok {
      LateFails(plan.next, r.world);
    }
  }

  lemma {:induction false} SettlesIt(plan: Plan, w: World, p: Path)
    requires Settles(plan, p) && Exec(plan, w).failed.Some?
    ensures var run := Exec(plan, w);
            && (run.failed == Some(RenameMeta) && FailsOnce(plan, w) ==> p !in run.world.disk.names)
            && (!Late(run.failed.value) ==> SameName(w.disk, run.world.disk, p))
    decreases plan
  {
    var r := Call(w, plan.op);
    if r.ok {
      SettlesIt(plan.next, r.world, p);
      if OnlyLate(plan.next) {
        LateFails(plan.next, r.world);
      } else {
        assert SameName(w.disk, r.world.disk, p);
      }
    } else {
      assert SameName(w.disk, r.world.disk, p);
      if plan.cause == RenameMeta && FailsOnce(plan, w) {
        UndoRemoves(plan.undo, r.world, p);
      }
      if !Late(plan.cause) {
        UndoAvoids(plan.undo, r.world, p);
      }
    }
  }

  lemma {:induction false} PairsSettle(fd: nat, kvs: seq<Bytes>, undo: seq<Op>, next: Plan, p: Path)
    requires Settles(next, p) && forall u <- undo :: OpAvoids(u, p) && (u.Close? || u.Remove? || u.CloseDir?)
    ensures Settles(PairsPlan(fd, kvs, undo, next), p)
    decreases |kvs|
  {
    if |kvs| > 0 {
      PairsSettle(fd, kvs[1..], undo, next, p);
      FrameSettles(fd, kvs[0], undo, WriteKV, PairsPlan(fd, kvs[1..], undo, next), p);
    }
  }

  lemma FrameSettles(fd: nat, m: Bytes, undo: seq<Op>, cause: Cause, next: Plan, p: Path)
    requires Settles(next, p) && !Late(cause)
    requires forall u <- undo :: OpAvoids(u, p) && (u.Close? || u.Remove? || u.CloseDir?)
    ensures Settles(FramePlan(fd, m, undo, cause, next), p)
  {
    assert Settles(Step(Write(fd, m), undo, cause, next), p);
  }

  lemma PromoteSettles(cfg: Config, st: Streamer)
    requires FieldsValid(cfg, st) && st.prepared && cfg.hasListeners
    ensures OnlyLate(PromotePlan(cfg, st)) && Settles(PromotePlan(cfg, st), Final(Data, st.curHeight))
  {
    var p := Final(Data, st.curHeight);
    var close := Step(CloseDir, [], SyncWriteDir, Done);
    var sync := Step(SyncDir, [CloseDir], SyncWriteDir, close);
    assert OnlyLate(close) && Settles(close, p);
    assert OnlyLate(sync) && Settles(sync, p);
    assert OnlyLate(DirectoryPlan(cfg)) && Settles(DirectoryPlan(cfg), p);
    if cfg.outputMeta {
      var dropped := [Remove(ArchivePaths.Partial(Meta, st.curHeight))] + [Remove(p)];
      assert dropped[1] == Remove(p);
    }
  }

  lemma DataSettles(cfg: Config, st: Streamer, fd: nat, kvs: seq<Bytes>)
    requires FieldsValid(cfg, st) && st.prepared && cfg.hasListeners
    ensures Settles(DataPlan(cfg, st, fd, kvs), Final(Data, st.curHeight))
  {
    var p := Final(Data, st.curHeight);
    PromoteSettles(cfg, st);
    hide PromotePlan;
    assert Settles(MovePlan(cfg, st), p);
    assert Settles(DataRenamePlan(cfg, st, fd), p);
    assert Settles(DataClosePlan(cfg, st, fd), p);
    PairsSettle(fd, kvs, DataUndo(cfg, st, fd), DataClosePlan(cfg, st, fd), p);
    hide DataClosePlan, PairsPlan;
  }

  lemma CommitSettles(cfg: Config, st: Streamer, fd: nat, commit: Bytes, kvs: seq<Bytes>)
    requires FieldsValid(cfg, st) && st.prepared && cfg.hasListeners
    ensures Settles(CommitPlan(cfg, st, fd, commit, kvs), Final(Data, st.curHeight))
  {
    var p := Final(Data, st.curHeight);
    DataSettles(cfg, st, fd, kvs);
    hide DataPlan;
    if cfg.outputMeta {
      var meta, rest := MetaHandle(st), DataPlan(cfg, st, fd, kvs);
      assert Settles(Step(Close(meta), RemoveMeta(cfg, st), CloseMeta, rest), p);
      FrameSettles(meta, commit, [Close(meta)] + RemoveMeta(cfg, st), WriteCommit, MetaClosePlan(cfg, st, meta, rest),
                   p);
    }
  }

  // A commit whose marker could not be put in place takes its data away again, unless that
  // fails too; one that fails earlier leaves the final data file as it found it.
  lemma FailedCommitLeavesNoData(cfg: Config, n: Node, call: Listen)
    requires FieldsValid(cfg, n.st) && Effective(n, call) && cfg.hasListeners && Take(cfg, n, call).outcome != Nil
    ensures var t, data := Take(cfg, n, call), Final(Data, n.st.curHeight);
            var plan := CommitPlan(cfg, n.st, n.world.disk.nextFd, call.commit, call.kvs);
            && (t.outcome.cause == RenameMeta && FailsOnce(plan, n.world) ==> data !in t.node.world.disk.names)
            && (t.outcome.cause != RenameMeta && t.outcome.cause != SyncWriteDir ==>
                  SameName(n.world.disk, t.node.world.disk, data))
  {
    CommitSettles(cfg, n.st, n.world.disk.nextFd, call.commit, call.kvs);
    hide Settles, CommitPlan, Exec, FailsOnce, SameName;
    SettlesIt(CommitPlan(cfg, n.st, n.world.disk.nextFd, call.commit, call.kvs), n.world, Final(Data, n.st.curHeight));
  }

  // Starting up touches what the sweep matched only, and removes all of it if nothing fails.
  lemma SweepIsExact(life: Life, s: State, p: Path)
    ensures var d := Boot(life, s).world.disk;
            && (p !in life.matches ==> SameName(s.disk, d, p))
            && (p in life.matches && Faultless(World(s.disk, [], life.script)) ==> p !in d.names)
    ensures Boot(life, s).st == IDLE
  {
    var ops := Removals(life.matches);
    if p !in life.matches {
      UndoAvoids(ops, World(s.disk, [], life.script), p);
    } else if Faultless(World(s.disk, [], life.script)) {
      var i :| 0 <= i < |life.matches| && life.matches[i] == p;
      assert ops[i] == Remove(p);
      UndoRemoves(ops, World(s.disk, [], life.script), p);
    }
  }
}
