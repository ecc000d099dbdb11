/**
 * How far the archiver's promises reach: what a block costs when nothing fails, which
 * block a commit is filed under, and what streaming an archived height again can do.
 */
module ArchiveLimits {
  import opened Wrappers
  import opened Framing
  import opened ArchivePaths
  import opened DiskModel
  import opened ArchivePlan
  import opened ArchiveSafety
  import opened ArchiveProtocol
  import opened ArchiveHistory

  lemma ArchiveDomain(d: Disk, log: Log)
    requires forall h :: Final(Meta, h) in d.names ==> h in log
    ensures forall h :: h in Archive(d, log) <==> Final(Meta, h) in d.names
  {
  }

  // With no failures a block that is not there yet is archived whole, and both calls
  // answer nil.
  lemma QuietBlock(cfg: Config, n: Node, strict: bool, req: Request, res: Bytes, commit: Bytes, kvs: seq<Bytes>)
    requires Good(cfg, n, strict) && Faultless(n.world) && cfg.outputMeta
    requires Final(Meta, req.height) !in n.world.disk.names
    ensures var first := Take(cfg, n, FinalizeBlock(true, req, res));
            var second := Take(cfg, first.node, Commit(req.height, true, commit, kvs));
            && first.outcome == Nil && second.outcome == Nil
            && Archive(second.node.world.disk, second.node.log) ==
               Archive(n.world.disk, n.log)[req.height :=
                 Entry(req.bytes, res, commit, if cfg.hasListeners then Some(kvs) else None)]
  {
    var finalize, call := FinalizeBlock(true, req, res), Commit(req.height, true, commit, kvs);
    var first := Take(cfg, n, finalize);
    FinalizeImages(cfg, n, finalize, strict);
    TakeKeeps(cfg, n, finalize, strict);
    MarkersLogged(n.world.disk, n.log, strict);
    MarkersLogged(first.node.world.disk, first.node.log, strict);
    ArchiveDomain(n.world.disk, n.log);
    ArchiveDomain(first.node.world.disk, first.node.log);
    CommitImages(cfg, first.node, call, strict);
  }

  // So there are histories with blocks in them: a process archives one and dies.
  lemma ABlockIsArchived(cfg: Config, req: Request, res: Bytes, commit: Bytes, kvs: seq<Bytes>)
    requires cfg.outputMeta
    ensures exists life: Life ::
              && life.cfg == cfg && History(EMPTY, [life], false)
              && var s := EndOf(EMPTY, [life]);
                 && Final(Meta, req.height) in s.disk.names && req.height in s.acked
                 && s.acked[req.height] == Entry(req.bytes, res, commit, if cfg.hasListeners then Some(kvs) else None)
  {
    var finalize, call := FinalizeBlock(true, req, res), Commit(req.height, true, commit, kvs);
    var n := Node(IDLE, World(EMPTY.disk, [], []), [], [], map[], map[]);
    assert NamesAt(EMPTY.disk, 0) == map[];
    TwoCalls(cfg, n, req, res, commit, kvs);
    hide Good, Take, Restreams, EndOf, History;
    var second := Take(cfg, Take(cfg, n, finalize).node, call).node;
    var life := Life(cfg, [], [], [finalize, call], |second.world.past|, false, Reboot(second.world.disk));
    LivesTo(life, n, finalize, call);
  }

  lemma TwoCalls(cfg: Config, n: Node, req: Request, res: Bytes, commit: Bytes, kvs: seq<Bytes>)
    requires Good(cfg, n, false) && Faultless(n.world) && cfg.outputMeta
    requires Final(Meta, req.height) !in n.world.disk.names
    ensures var finalize, call := FinalizeBlock(true, req, res), Commit(req.height, true, commit, kvs);
            var first := Take(cfg, n, finalize).node;
            var second := Take(cfg, first, call).node;
            && !Restreams(n, finalize) && !Restreams(first, call) && |first.world.past| <= |second.world.past|
            && Final(Meta, req.height) in second.world.disk.names && req.height in second.acked
            && second.acked[req.height] ==
               Entry(req.bytes, res, commit, if cfg.hasListeners then Some(kvs) else None)
  {
    var finalize, call := FinalizeBlock(true, req, res), Commit(req.height, true, commit, kvs);
    var first := Take(cfg, n, finalize).node;
    QuietBlock(cfg, n, false, req, res, commit, kvs);
    TakeKeeps(cfg, n, finalize, false);
    MarkersLogged(n.world.disk, n.log, false);
    MarkersLogged(first.world.disk, first.log, false);
    ArchiveDomain(n.world.disk, n.log);
    ArchiveDomain(first.world.disk, first.log);
    hide Good, Inv, Exec, FinalizePlan, CommitPlan, Shows;
    TakeKeeps(cfg, first, call, false);
    CommitFiles(cfg, first, call);
  }

  lemma LivesTo(life: Life, n: Node, finalize: Listen, call: Listen)
    requires n == Node(IDLE, World(EMPTY.disk, [], []), [], [], map[], map[])
    requires var first := Take(life.cfg, n, finalize).node;
             var second := Take(life.cfg, first, call).node;
             && life == Life(life.cfg, [], [], [finalize, call], |second.world.past|, false, Reboot(second.world.disk))
             && !Restreams(n, finalize) && !Restreams(first, call) && |first.world.past| <= |second.world.past|
    ensures History(EMPTY, [life], false)
    ensures var second := Take(life.cfg, Take(life.cfg, n, finalize).node, call).node;
            EndOf(EMPTY, [life]) == State(life.left, second.log, second.acked)
  {
    var first := Take(life.cfg, n, finalize).node;
    var second := Take(life.cfg, first, call).node;
    assert Boot(life, EMPTY) == n;
    hide Take, PowerLoss, Restreams, Boot;
    var calls := [finalize, call];
    assert calls[..1] == [finalize] && [finalize][..0] == [];
    assert TakeAll(life.cfg, n, []) == n && TakeAll(life.cfg, n, [finalize]) == first;
    assert TakeAll(life.cfg, n, calls) == second;
    assert StreamsOnce(life.cfg, n, []);
    assert StreamsOnce(life.cfg, n, [finalize]);
    assert StreamsOnce(life.cfg, n, calls);
    assert second.world.Images()[|second.world.past|] == second.world.disk;
    assert Next(life, EMPTY) == State(life.left, second.log, second.acked);
    assert [life][1..] == [];
  }

  // Every way out of a prepared commit clears the fields; and after a commit, or a
  // FinalizeBlock that failed, no number of further commits touches a file or a field: what
  // a failed FinalizeBlock left open is never appended to or renamed.
  lemma {:induction false} ExitIsClean(cfg: Config, n: Node, call: Listen, commits: seq<Listen>)
    requires call.live && (call.Commit? || Take(cfg, n, call).outcome != Nil)
    requires forall c <- commits :: c.Commit?
    ensures Effective(n, call) ==> Take(cfg, n, call).node.st == IDLE.(curHeight := n.st.curHeight)
    ensures TakeAll(cfg, Take(cfg, n, call).node, commits) == Take(cfg, n, call).node
    decreases |commits|
  {
    if |commits| > 0 {
      ExitIsClean(cfg, n, call, commits[..|commits| - 1]);
      assert commits[|commits| - 1] in commits;
      hide Exec;
    }
  }

  // --- Data without metadata ----------------------------------------------------------

  lemma DirectoryLeaves(cfg: Config, w: World)
    ensures var run := Exec(DirectoryPlan(cfg), w);
            if cfg.fsync && run.failed.None? then run.world.disk == w.disk.(durable := w.disk.names, pending := [])
            else run.world.disk == w.disk || run.world.disk == w.disk.(durable := w.disk.names, pending := [])
    ensures Exec(DirectoryPlan(cfg), w).failed in {None, Some(SyncWriteDir)}
    ensures Faultless(w) ==> Exec(DirectoryPlan(cfg), w).failed.None?
  {
    hide Exec, DirectoryPlan;
    if cfg.fsync {
      ExecDirectory(cfg, w);
    } else {
      NoDirectoryPlan(cfg, w);
    }
  }

  // The data file takes its final name, and no other contents or name change.
  lemma MovedIsStaged(d: Disk, h: int, bytes: Bytes, strict: bool)
    requires Staged(d, ArchivePaths.Partial(Data, h), bytes, strict)
    ensures var d' := Do(d, Rename(ArchivePaths.Partial(Data, h), Final(Data, h)), Success).disk;
            && Staged(d', Final(Data, h), bytes, strict)
            && (forall p, held, s :: p != Final(Data, h) && p != ArchivePaths.Partial(Data, h) ==>
                  (Staged(d, p, held, s) <==> Staged(d', p, held, s)))
  {
  }

  // How a commit without metadata gets to its end: through the data file's rename to the
  // directory's sync, or it stops with clean-up.
  lemma DataOnlyRun(c: Context, cfg: Config, st: Streamer, w: World, e: Entry, kvs: seq<Bytes>)
      returns (w': World, failed: Option<Cause>)
    requires SoundSince(c, w) && Committing(c, cfg, st, e) && Prepared(cfg, st, w.disk, e.req, e.res)
    requires !cfg.outputMeta && e.kvs == Some(kvs)
    ensures SoundSince(c, w')
    ensures var run := Exec(CommitPlan(cfg, st, w.disk.nextFd, e.commit, kvs), w);
            if failed.None? then
              var r := Call(w', Rename(ArchivePaths.Partial(Data, c.h), Final(Data, c.h)));
              && Staged(w'.disk, ArchivePaths.Partial(Data, c.h), Frames(kvs), cfg.fsync)
              && r.ok && run == Exec(DirectoryPlan(cfg), r.world)
            else
              run == Run(w', failed) && !c.clean && failed.value != SyncWriteDir
  {
    hide Inv, Sound, Durable, Faultless, CommitPlan, Prepared, Do, Staged, RemoveMeta;
    w', failed := CommitGathers(c, cfg, st, w, e, kvs);
    if failed.None? {
      var partial := ArchivePaths.Partial(Data, c.h);
      var rename := Rename(partial, Final(Data, c.h));
      var undo := [Remove(partial)] + RemoveMeta(cfg, st);
      assert RemoveMeta(cfg, st) == [] by { NothingToRemove(cfg, st); }
      assert PromotePlan(cfg, st) == DirectoryPlan(cfg);
      var r := Call(w', rename);
      if !r.ok {
        DataRefused(c, w', Frames(kvs), cfg.fsync);
        UndoKeeps(c, undo, r.world);
        w', failed := Undo(undo, r.world), Some(RenameData);
      }
    }
  }

  lemma NothingToRemove(cfg: Config, st: Streamer)
    requires !cfg.outputMeta
    ensures RemoveMeta(cfg, st) == []
  {
  }

  // The rename of a file that is there fails only when a failure comes.
  lemma DataRefused(c: Context, w: World, bytes: Bytes, strict: bool)
    requires SoundSince(c, w) && Staged(w.disk, ArchivePaths.Partial(Data, c.h), bytes, strict)
    requires !Call(w, Rename(ArchivePaths.Partial(Data, c.h), Final(Data, c.h))).ok
    ensures !c.clean && SoundSince(c, Call(w, Rename(ArchivePaths.Partial(Data, c.h), Final(Data, c.h))).world)
  {
    hide Inv, Durable;
  }

  // Synced, and in a synced directory, a file outlasts the power.
  lemma SyncedHolds(d: Disk, p: Path, bytes: Bytes)
    ensures d.pending == [] && d.durable == d.names && Staged(d, p, bytes, true) ==>
              forall found :: PowerLoss(d, found) ==> Holds(found.names, found.data, p, bytes)
  {
    forall found | d.pending == [] && d.durable == d.names && Staged(d, p, bytes, true) && PowerLoss(d, found)
      ensures Holds(found.names, found.data, p, bytes)
    {
      assert found.names == NamesAt(d, 0);
    }
  }

  // From the data file's rename on.
  lemma MovedEnds(cfg: Config, w: World, h: int, bytes: Bytes)
    requires Staged(w.disk, ArchivePaths.Partial(Data, h), bytes, cfg.fsync)
    requires Call(w, Rename(ArchivePaths.Partial(Data, h), Final(Data, h))).ok
    ensures var run := Exec(DirectoryPlan(cfg), Call(w, Rename(ArchivePaths.Partial(Data, h), Final(Data, h))).world);
            var d := run.world.disk;
            && Holds(d.names, d.data, Final(Data, h), bytes)
            && (run.failed.None? && cfg.fsync ==>
                  forall found :: PowerLoss(d, found) ==> Holds(found.names, found.data, Final(Data, h), bytes))
            && (Faultless(w) ==> run.failed.None?)
  {
    var r := Call(w, Rename(ArchivePaths.Partial(Data, h), Final(Data, h)));
    MovedIsStaged(w.disk, h, bytes, cfg.fsync);
    hide Exec, DirectoryPlan, PowerLoss;
    DirectoryLeaves(cfg, r.world);
    hide Do;
    SyncedHolds(Exec(DirectoryPlan(cfg), r.world).world.disk, Final(Data, h), bytes);
  }

  // With metadata off a commit moves no marker: what a nil answer gives is the data file
  // itself, with every pair in order, and with syncing on no power loss takes it away.
  lemma DataOnlyCommit(cfg: Config, n: Node, call: Listen, strict: bool)
    requires Good(cfg, n, strict) && Effective(n, call) && !cfg.outputMeta && cfg.hasListeners
    ensures var t := Take(cfg, n, call);
            var d, data := t.node.world.disk, Final(Data, n.st.curHeight);
            && (t.outcome == Nil || OnlyDirectorySyncFailed(t.outcome) ==>
                  Holds(d.names, d.data, data, Frames(call.kvs)))
            && (t.outcome == Nil && cfg.fsync ==>
                  forall found :: PowerLoss(d, found) ==> Holds(found.names, found.data, data, Frames(call.kvs)))
            && (Faultless(n.world) ==> t.outcome == Nil)
  {
    var w, h, e := n.world, n.st.curHeight, EntryOf(cfg, n, call);
    var c := Context(|w.past|, w.disk, h, false, n.log, strict, Faultless(w));
    assert SoundSince(c, w);
    hide Inv, Sound, Durable, Exec, CommitPlan, DirectoryPlan, PowerLoss, Do, Faultless, Staged, Holds, Prepared;
    var w', failed := DataOnlyRun(c, cfg, n.st, w, e, call.kvs);
    if failed.None? {
      MovedEnds(cfg, w', h, Frames(call.kvs));
    }
  }

  // --- Which block a commit is filed under --------------------------------------------

  // A cancelled FinalizeBlock is invisible: the next commit is filed under the block that
  // was prepared before.  So, even when nothing fails, the archive gains a block under the
  // commit's own height exactly when its FinalizeBlock was not cancelled, or when the
  // streamer was at that height anyway.
  lemma FiledUnder(cfg: Config, n: Node, strict: bool, live: bool, req: Request, res: Bytes,
                   commit: Bytes, kvs: seq<Bytes>)
    requires Good(cfg, n, strict) && Faultless(n.world) && cfg.outputMeta
    requires live || n.st.prepared
    requires var h := if live then req.height else n.st.curHeight; Final(Meta, h) !in n.world.disk.names
    ensures var first := Take(cfg, n, FinalizeBlock(live, req, res));
            var second := Take(cfg, first.node, Commit(req.height, true, commit, kvs));
            var before, after := Archive(n.world.disk, n.log), Archive(second.node.world.disk, second.node.log);
            var pairs := if cfg.hasListeners then Some(kvs) else None;
            && second.outcome == Nil
            && after == before[if live then req.height else n.st.curHeight :=
                                 Entry(if live then req.bytes else n.req, if live then res else n.res, commit, pairs)]
            && (Final(Meta, req.height) !in n.world.disk.names ==>
                  (req.height in after <==> live || n.st.curHeight == req.height))
  {
    MarkersLogged(n.world.disk, n.log, strict);
    ArchiveDomain(n.world.disk, n.log);
    if live {
      QuietBlock(cfg, n, strict, req, res, commit, kvs);
    } else {
      CommitImages(cfg, n, Commit(req.height, true, commit, kvs), strict);
    }
  }

  // Two blocks, the second one's FinalizeBlock cancelled: its commit record and change
  // set become those of the first, and every call that was heard answers nil.
  lemma CancelledFinalizeMisfiles(cfg: Config, n: Node, strict: bool, first: Request, res: Bytes,
                                  second: Request, res2: Bytes, commit: Bytes, kvs: seq<Bytes>)
    requires Good(cfg, n, strict) && Faultless(n.world) && cfg.outputMeta
    requires first.height != second.height && Final(Meta, first.height) !in n.world.disk.names
    ensures var a := Take(cfg, n, FinalizeBlock(true, first, res));
            var b := Take(cfg, a.node, FinalizeBlock(false, second, res2));
            var c := Take(cfg, b.node, Commit(second.height, true, commit, kvs));
            && a.outcome == Nil && b.outcome == Error(Canceled) && c.outcome == Nil
            && Archive(c.node.world.disk, c.node.log) ==
               Archive(n.world.disk, n.log)[first.height :=
                 Entry(first.bytes, res, commit, if cfg.hasListeners then Some(kvs) else None)]
  {
    QuietBlock(cfg, n, strict, first, res, commit, kvs);
  }

  // --- Streaming an archived height again ---------------------------------------------

  // A consumer of the image is told the truth: by the old block or by the new one.
  ghost predicate Truthful(d: Disk, log: Log, h: int, e: Entry) {
    Marked(d.names, d.data, log) || Marked(d.names, d.data, log[h := e])
  }

  // In strict mode also a consumer of whatever a power loss makes of it.
  ghost predicate TruthfulAt(d: Disk, log: Log, h: int, e: Entry, strict: bool) {
    && WellFormed(d) && Truthful(d, log, h, e)
    && (strict ==> forall found :: PowerLoss(d, found) ==> Truthful(found, log, h, e))
  }

  // Every image from number k on.
  ghost predicate TruthfulSince(k: nat, w: World, log: Log, h: int, e: Entry, strict: bool) {
    && k <= |w.past|
    && TruthfulAt(w.disk, log, h, e, strict)
    && (forall i :: k <= i < |w.past| ==> TruthfulAt(w.past[i], log, h, e, strict))
  }

  // The same process, its failures to come replaced.
  function Meeting(n: Node, faults: seq<Fault>): Node {
    n.(world := World(n.world.disk, [], faults))
  }

  // The commit tells the truth in every image that it adds.
  ghost predicate CommitTells(cfg: Config, n: Node, call: Listen, strict: bool)
    requires call.Commit?
  {
    TruthfulSince(|n.world.past|, Take(cfg, n, call).node.world, n.log, n.st.curHeight, EntryOf(cfg, n, call), strict)
  }

  ghost predicate CommitTruthful(cfg: Config, n: Node, call: Listen, faults: seq<Fault>, strict: bool)
    requires call.Commit?
  {
    CommitTells(cfg, Meeting(n, faults), call, strict)
  }

  // As long as the marker has not moved it is the old block.
  lemma SoundIsTruthful(c: Context, d: Disk, e: Entry)
    requires Sound(c, d)
    ensures TruthfulAt(d, c.log, c.h, e, c.strict)
  {
    forall found | c.strict && PowerLoss(d, found)
      ensures Truthful(found, c.log, c.h, e)
    {
      var k: nat :| k <= |d.pending| && found.names == NamesAt(d, k);
      FoundMarked(d, c.log, found, k);
    }
  }

  lemma SoundSinceIsTruthful(c: Context, w: World, e: Entry)
    requires SoundSince(c, w)
    ensures TruthfulSince(c.n, w, c.log, c.h, e, c.strict)
  {
    SoundIsTruthful(c, w.disk, e);
    forall i | c.n <= i < |w.past|
      ensures TruthfulAt(w.past[i], c.log, c.h, e, c.strict)
    {
      SoundIsTruthful(c, w.past[i], e);
    }
    hide Sound, TruthfulAt;
  }

  // Once a rename has put both files of a block in place, the block is what is shown.
  lemma RenamedIsMarked(d: Disk, kind: Kind, data: map<nat, Bytes>, log: Log, h: int, e: Entry, strict: bool)
    requires Inv(d, log, strict) && ArchivePaths.Partial(kind, h) in d.names
    requires var d' := Do(d, Rename(ArchivePaths.Partial(kind, h), Final(kind, h)), Success).disk;
             && Staged(d', Final(Meta, h), MetaBytes(e), strict)
             && (e.kvs.Some? ==> Staged(d', Final(Data, h), Frames(e.kvs.value), strict))
    requires data == d.data || strict
    requires data.Keys == d.data.Keys && forall ino :: ino in d.synced && ino in d.data ==> data[ino] == d.data[ino]
    ensures var d' := Do(d, Rename(ArchivePaths.Partial(kind, h), Final(kind, h)), Success).disk;
            Marked(d'.names, data, log[h := e])
  {
    PresentFinished(d, log, strict);
    hide Inv, Frames;
    var d' := Do(d, Rename(ArchivePaths.Partial(kind, h), Final(kind, h)), Success).disk;
    forall g | Final(Meta, g) in d'.names
      ensures g in log[h := e] && Complete(d'.names, data, g, log[h := e][g])
    {
      if g != h {
        assert Finished(d, g, log, strict);
      }
    }
  }

  lemma RenamedIsWellFormed(d: Disk, source: Path, target: Path)
    requires WellFormed(d) && source in d.names
    ensures WellFormed(Do(d, Rename(source, target), Success).disk)
  {
    var d' := Do(d, Rename(source, target), Success).disk;
    assert Proper(NamesAt(d, |d.pending|), d);
    forall k: nat | k <= |d'.pending|
      ensures Proper(NamesAt(d', k), d')
      ensures k == |d'.pending| ==> NamesAt(d', k) == d'.names
    {
      NamesAtGrown(d, d', Move(source, target), k);
      if k <= |d.pending| {
        assert Proper(NamesAt(d, k), d);
      }
    }
  }

  // Should the power go before the directory is synced, it is that one or the old one.
  lemma RenamedIsTruthful(d: Disk, kind: Kind, log: Log, h: int, e: Entry, shown: Entry, strict: bool)
    requires Inv(d, log, strict) && ArchivePaths.Partial(kind, h) in d.names
    requires shown == e || (h in log && shown == log[h])
    requires var d' := Do(d, Rename(ArchivePaths.Partial(kind, h), Final(kind, h)), Success).disk;
             && Staged(d', Final(Meta, h), MetaBytes(shown), strict)
             && (shown.kvs.Some? ==> Staged(d', Final(Data, h), Frames(shown.kvs.value), strict))
    ensures var d' := Do(d, Rename(ArchivePaths.Partial(kind, h), Final(kind, h)), Success).disk;
            TruthfulAt(d', log, h, e, strict) && NamesAt(d', |d'.pending|) == d'.names
  {
    var move := Move(ArchivePaths.Partial(kind, h), Final(kind, h));
    var d' := Do(d, Rename(ArchivePaths.Partial(kind, h), Final(kind, h)), Success).disk;
    assert log[h := shown] == if shown == e then log[h := e] else log;
    RenamedIsMarked(d, kind, d.data, log, h, shown, strict);
    RenamedIsWellFormed(d, ArchivePaths.Partial(kind, h), Final(kind, h));
    hide Staged, Marked, Proper;
    forall found | strict && PowerLoss(d', found)
      ensures Truthful(found, log, h, e)
    {
      var k: nat :| k <= |d'.pending| && found.names == NamesAt(d', k);
      NamesAtGrown(d, d', move, k);
      if k <= |d.pending| {
        FoundMarked(d, log, found, k);
      } else {
        RenamedIsMarked(d, kind, found.data, log, h, shown, strict);
      }
    }
  }

  // Syncing the directory changes no name and no contents, and settles which.
  lemma SyncedIsTruthful(d: Disk, log: Log, h: int, e: Entry, strict: bool)
    requires TruthfulAt(d, log, h, e, strict) && NamesAt(d, |d.pending|) == d.names
    ensures TruthfulAt(d.(durable := d.names, pending := []), log, h, e, strict)
  {
    var d' := d.(durable := d.names, pending := []);
    assert NamesAt(d', 0) == d.names;
    forall found | strict && PowerLoss(d', found)
      ensures Truthful(found, log, h, e)
    {
      assert found.names == NamesAt(d, |d.pending|);
      assert PowerLoss(d, found);
    }
  }

  lemma DirectoryCallTruthful(k: nat, w: World, op: Op, log: Log, h: int, e: Entry, strict: bool)
    requires op == OpenDir || op == SyncDir || op == CloseDir
    requires TruthfulSince(k, w, log, h, e, strict) && NamesAt(w.disk, |w.disk.pending|) == w.disk.names
    ensures var w' := Call(w, op).world;
            TruthfulSince(k, w', log, h, e, strict) && NamesAt(w'.disk, |w'.disk.pending|) == w'.disk.names
  {
    SyncedIsTruthful(w.disk, log, h, e, strict);
    hide TruthfulAt;
  }

  lemma DirectoryTruthful(k: nat, cfg: Config, w: World, log: Log, h: int, e: Entry, strict: bool)
    requires TruthfulSince(k, w, log, h, e, strict) && NamesAt(w.disk, |w.disk.pending|) == w.disk.names
    ensures TruthfulSince(k, Exec(DirectoryPlan(cfg), w).world, log, h, e, strict)
  {
    hide TruthfulSince, NamesAt, Exec, DirectoryPlan;
    if cfg.fsync {
      ExecDirectory(cfg, w);
      var reached := Call(w, OpenDir).world;
      DirectoryCallTruthful(k, w, OpenDir, log, h, e, strict);
      DirectoryCallTruthful(k, reached, SyncDir, log, h, e, strict);
      DirectoryCallTruthful(k, Call(reached, SyncDir).world, CloseDir, log, h, e, strict);
    } else {
      NoDirectoryPlan(cfg, w);
    }
  }

  lemma AddImage(k: nat, w: World, w': World, log: Log, h: int, e: Entry, strict: bool)
    requires TruthfulSince(k, w, log, h, e, strict) && TruthfulAt(w'.disk, log, h, e, strict)
    requires w'.past == w.past + [w.disk]
    ensures TruthfulSince(k, w', log, h, e, strict)
  {
    hide TruthfulAt;
  }

  lemma PromotedTruthful(c: Context, cfg: Config, w: World, e: Entry)
    requires SoundSince(c, w) && (c.strict ==> cfg.fsync)
    requires cfg.outputMeta && Ready(cfg, c.h, e, w.disk)
    requires Call(w, Rename(ArchivePaths.Partial(Meta, c.h), Final(Meta, c.h))).ok
    ensures var r := Call(w, Rename(ArchivePaths.Partial(Meta, c.h), Final(Meta, c.h)));
            TruthfulSince(c.n, Exec(DirectoryPlan(cfg), r.world).world, c.log, c.h, e, c.strict)
  {
    var r := Call(w, Rename(ArchivePaths.Partial(Meta, c.h), Final(Meta, c.h)));
    SoundSinceIsTruthful(c, w, e);
    RenamedIsTruthful(w.disk, Meta, c.log, c.h, e, e, c.strict);
    hide Exec, DirectoryPlan, TruthfulAt, TruthfulSince, Inv, NamesAt, Staged;
    AddImage(c.n, w, r.world, c.log, c.h, e, c.strict);
    DirectoryTruthful(c.n, cfg, r.world, c.log, c.h, e, c.strict);
  }

  // From the marker's rename on.
  lemma PromoteTruthful(c: Context, cfg: Config, st: Streamer, w: World, e: Entry)
    requires SoundSince(c, w) && DataFree(c, cfg) && Committing(c, cfg, st, e) && !c.clean
    requires cfg.outputMeta && Ready(cfg, c.h, e, w.disk) && (c.strict ==> cfg.fsync)
    ensures TruthfulSince(c.n, Exec(PromotePlan(cfg, st), w).world, c.log, c.h, e, c.strict)
  {
    var partial := ArchivePaths.Partial(Meta, c.h);
    var rename := Rename(partial, Final(Meta, c.h));
    var r := Call(w, rename);
    var dropData := if cfg.hasListeners then [Remove(Final(Data, c.h))] else [];
    var undo := [Remove(partial)] + dropData;
    assert PromotePlan(cfg, st) == Step(rename, undo, RenameMeta, DirectoryPlan(cfg));
    if r.ok {
      PromotedTruthful(c, cfg, w, e);
    } else {
      RefusedKeeps(c, w, rename);
      StaysFree(c, cfg, r.world.disk);
      hide Inv, Sound, SoundSince, TruthfulSince, DirectoryPlan, Free;
      UndoKeeps(c, undo, r.world);
      SoundSinceIsTruthful(c, Undo(undo, r.world), e);
    }
  }

  lemma RefusedKeeps(c: Context, w: World, op: Op)
    requires SoundSince(c, w) && !c.clean && op.Rename? && !Call(w, op).ok
    ensures SoundSince(c, Call(w, op).world)
  {
    hide Inv, Durable;
  }

  // A commit that replaces no data a marker vouches for tells the truth at every moment:
  // the old block until the marker's rename, the new one after it.
  lemma FreeIsTruthful(cfg: Config, n: Node, call: Listen, strict: bool)
    requires Good(cfg, n, strict) && Effective(n, call)
    requires cfg.hasListeners ==> Free(n.world.disk, n.log, n.st.curHeight)
    ensures CommitTells(cfg, n, call, strict)
  {
    var w, h, e := n.world, n.st.curHeight, EntryOf(cfg, n, call);
    var c := Context(|w.past|, w.disk, h, false, n.log, strict, false);
    assert SoundSince(c, w);
    hide Inv, Sound, Durable, SoundSince, TruthfulSince, Exec, CommitPlan;
    var w', failed := CommitReaches(c, cfg, n.st, w, e, call.kvs);
    SoundSinceIsTruthful(c, w', e);
    if failed.None? {
      if cfg.outputMeta {
        PromoteTruthful(c, cfg, n.st, w', e);
      } else {
        assert PromotePlan(cfg, n.st) == DirectoryPlan(cfg);
        SoundNames(c, w');
        DirectoryTruthful(c.n, cfg, w', n.log, h, e, strict);
      }
    }
  }

  lemma SoundNames(c: Context, w: World)
    requires SoundSince(c, w)
    ensures NamesAt(w.disk, |w.disk.pending|) == w.disk.names
  {
  }

  // Without metadata a commit may replace the data that a marker vouches for, as long as
  // the pairs are the same, or the messages are, so that it is the new block anyway.
  predicate Alike(was: Entry, e: Entry) {
    was.kvs == e.kvs || (was.req == e.req && was.res == e.res && was.commit == e.commit)
  }

  lemma DataOnlyTruthful(cfg: Config, n: Node, call: Listen, strict: bool)
    requires Good(cfg, n, strict) && Effective(n, call) && !cfg.outputMeta && cfg.hasListeners
    requires var h := n.st.curHeight;
             Final(Meta, h) in n.world.disk.names && h in n.log && Alike(n.log[h], EntryOf(cfg, n, call))
    ensures CommitTells(cfg, n, call, strict)
  {
    var w, h, e := n.world, n.st.curHeight, EntryOf(cfg, n, call);
    var c := Context(|w.past|, w.disk, h, false, n.log, strict, false);
    assert SoundSince(c, w);
    hide Inv, Durable, TruthfulSince, TruthfulAt, Exec, CommitPlan, DirectoryPlan, Prepared, PowerLoss, Staged, NamesAt;
    var w', failed := DataOnlyRun(c, cfg, n.st, w, e, call.kvs);
    SoundSinceIsTruthful(c, w', e);
    if failed.None? {
      MovedTruthful(c, cfg, w', e);
    }
  }

  lemma MovedTruthful(c: Context, cfg: Config, w: World, e: Entry)
    requires SoundSince(c, w) && Final(Meta, c.h) in w.disk.names && c.h in c.log
    requires e.kvs.Some? && Alike(c.log[c.h], e)
    requires Staged(w.disk, ArchivePaths.Partial(Data, c.h), Frames(e.kvs.value), c.strict)
    requires Call(w, Rename(ArchivePaths.Partial(Data, c.h), Final(Data, c.h))).ok
    ensures var r := Call(w, Rename(ArchivePaths.Partial(Data, c.h), Final(Data, c.h)));
            TruthfulSince(c.n, Exec(DirectoryPlan(cfg), r.world).world, c.log, c.h, e, c.strict)
  {
    var r := Call(w, Rename(ArchivePaths.Partial(Data, c.h), Final(Data, c.h)));
    SoundSinceIsTruthful(c, w, e);
    MovedShows(w.disk, c.log, c.h, e, c.strict);
    hide Exec, DirectoryPlan, TruthfulAt, TruthfulSince, Inv, NamesAt, Staged;
    AddImage(c.n, w, r.world, c.log, c.h, e, c.strict);
    DirectoryTruthful(c.n, cfg, r.world, c.log, c.h, e, c.strict);
  }

  // The rename of the data under a marker that stays.
  lemma MovedShows(d: Disk, log: Log, h: int, e: Entry, strict: bool)
    requires Inv(d, log, strict) && Final(Meta, h) in d.names && h in log && e.kvs.Some? && Alike(log[h], e)
    requires Staged(d, ArchivePaths.Partial(Data, h), Frames(e.kvs.value), strict)
    ensures var d' := Do(d, Rename(ArchivePaths.Partial(Data, h), Final(Data, h)), Success).disk;
            TruthfulAt(d', log, h, e, strict) && NamesAt(d', |d'.pending|) == d'.names
  {
    PresentFinished(d, log, strict);
    assert Finished(d, h, log, strict);
    MovedIsStaged(d, h, Frames(e.kvs.value), strict);
    hide Inv, Do, TruthfulAt, AllFinished, Frames;
    RenamedIsTruthful(d, Data, log, h, e, if log[h].kvs == e.kvs then log[h] else e, strict);
  }

  // --- The failure that costs the data ------------------------------------------------

  // Nothing fails before call p, which does; nothing fails after it.
  predicate OnlyFails(w: World, p: nat) {
    && |w.past| <= p < |w.script| && w.script[p] == Failure(0)
    && (forall i :: |w.past| <= i < |w.script| && i != p ==> w.script[i] == Success)
  }

  predicate Feasible(d: Disk, op: Op) {
    match op
    case Write(fd, _) => fd in d.open
    case Sync(fd) => fd in d.open
    case Close(fd) => fd in d.open
    case Remove(p) => p in d.names
    case Rename(source, _) => source in d.names
    case _ => true
  }

  lemma Succeeds(w: World, p: nat, op: Op)
    requires OnlyFails(w, p) && |w.past| < p && Feasible(w.disk, op)
    ensures Call(w, op).ok && OnlyFails(Call(w, op).world, p)
  {
  }

  // The old marker stands, and the file it vouches for is gone.
  predicate Lost(d: Disk, h: int) {
    Final(Meta, h) in d.names && Final(Data, h) !in d.names
  }

  // The names that matter: the old marker and the new metadata partial.
  predicate Replaying(cfg: Config, st: Streamer, d: Disk) {
    && cfg.outputMeta && cfg.hasListeners && FieldsValid(cfg, st) && st.prepared
    && Final(Meta, st.curHeight) in d.names && ArchivePaths.Partial(Meta, st.curHeight) in d.names
  }

  lemma PromoteLoses(cfg: Config, st: Streamer, w: World, p: nat)
    requires Replaying(cfg, st, w.disk) && Final(Data, st.curHeight) in w.disk.names
    requires OnlyFails(w, p) && |w.past| == p && |w.script| == p + 1
    ensures Lost(Exec(PromotePlan(cfg, st), w).world.disk, st.curHeight)
  {
    var h := st.curHeight;
    var partial := ArchivePaths.Partial(Meta, h);
    var r := Call(w, Rename(partial, Final(Meta, h)));
    var a := Call(r.world, Remove(partial));
    var b := Call(a.world, Remove(Final(Data, h)));
    assert [Remove(partial)] + [Remove(Final(Data, h))] == [Remove(partial), Remove(Final(Data, h))];
    UndoFirst(Remove(partial), [Remove(Final(Data, h))], r.world);
    UndoFirst(Remove(Final(Data, h)), [], a.world);
    assert [Remove(Final(Data, h))] + [] == [Remove(Final(Data, h))];
    assert Exec(PromotePlan(cfg, st), w) == Run(b.world, Some(RenameMeta));
  }

  lemma DataRenameLoses(cfg: Config, st: Streamer, w: World, fd: nat, p: nat)
    requires Replaying(cfg, st, w.disk) && ArchivePaths.Partial(Data, st.curHeight) in w.disk.names
    requires fd in w.disk.open && OnlyFails(w, p) && |w.past| + 2 == p && |w.script| == p + 1
    ensures Lost(Exec(DataRenamePlan(cfg, st, fd), w).world.disk, st.curHeight)
  {
    var closed := Call(w, Close(fd));
    Succeeds(w, p, Close(fd));
    var rename := Rename(ArchivePaths.Partial(Data, st.curHeight), Final(Data, st.curHeight));
    Succeeds(closed.world, p, rename);
    PromoteLoses(cfg, st, Call(closed.world, rename).world, p);
  }

  function SyncSteps(cfg: Config): nat {
    if cfg.fsync then 1 else 0
  }

  lemma DataCloseLoses(cfg: Config, st: Streamer, w: World, fd: nat, p: nat)
    requires Replaying(cfg, st, w.disk) && ArchivePaths.Partial(Data, st.curHeight) in w.disk.names
    requires fd in w.disk.open && OnlyFails(w, p) && |w.past| + SyncSteps(cfg) + 2 == p && |w.script| == p + 1
    ensures Lost(Exec(DataClosePlan(cfg, st, fd), w).world.disk, st.curHeight)
  {
    if cfg.fsync {
      Succeeds(w, p, Sync(fd));
      DataRenameLoses(cfg, st, Call(w, Sync(fd)).world, fd, p);
    } else {
      DataRenameLoses(cfg, st, w, fd, p);
    }
  }

  lemma FrameSucceeds(w: World, fd: nat, m: Bytes, undo: seq<Op>, cause: Cause, next: Plan, p: nat) returns (w': World)
    requires fd in w.disk.open && OnlyFails(w, p) && |w.past| + 2 <= p
    ensures Exec(FramePlan(fd, m, undo, cause, next), w) == Exec(next, w')
    ensures w'.disk.names == w.disk.names && w'.disk.open.Keys == w.disk.open.Keys && w'.disk.nextFd == w.disk.nextFd
    ensures OnlyFails(w', p) && |w'.past| == |w.past| + 2 && w'.script == w.script
  {
    var head := Call(w, Write(fd, Uvarint(|m|)));
    Succeeds(w, p, Write(fd, Uvarint(|m|)));
    Succeeds(head.world, p, Write(fd, m));
    w' := Call(head.world, Write(fd, m)).world;
    ExecFrame(w, fd, m, undo, cause, next);
  }

  lemma {:induction false} PairsLose(cfg: Config, st: Streamer, w: World, fd: nat, kvs: seq<Bytes>, p: nat)
    requires Replaying(cfg, st, w.disk) && ArchivePaths.Partial(Data, st.curHeight) in w.disk.names
    requires fd in w.disk.open && OnlyFails(w, p) && |w.script| == p + 1
    requires |w.past| + 2 * |kvs| + SyncSteps(cfg) + 2 == p
    ensures var plan := PairsPlan(fd, kvs, DataUndo(cfg, st, fd), DataClosePlan(cfg, st, fd));
            Lost(Exec(plan, w).world.disk, st.curHeight)
    decreases |kvs|
  {
    if |kvs| == 0 {
      DataCloseLoses(cfg, st, w, fd, p);
    } else {
      var undo, last := DataUndo(cfg, st, fd), DataClosePlan(cfg, st, fd);
      var w' := FrameSucceeds(w, fd, kvs[0], undo, WriteKV, PairsPlan(fd, kvs[1..], undo, last), p);
      PairsLose(cfg, st, w', fd, kvs[1..], p);
    }
  }

  lemma DataLoses(cfg: Config, st: Streamer, w: World, kvs: seq<Bytes>, p: nat)
    requires Replaying(cfg, st, w.disk) && OnlyFails(w, p) && |w.script| == p + 1
    requires |w.past| + 1 + 2 * |kvs| + SyncSteps(cfg) + 2 == p
    ensures Lost(Exec(DataPlan(cfg, st, w.disk.nextFd, kvs), w).world.disk, st.curHeight)
  {
    var create := Open(ArchivePaths.Partial(Data, st.curHeight));
    Succeeds(w, p, create);
    PairsLose(cfg, st, Call(w, create).world, w.disk.nextFd, kvs, p);
  }

  // The script under which exactly the rename of the marker fails.
  function MarkerRenameFails(cfg: Config, kvs: seq<Bytes>): (faults: seq<Fault>) {
    seq(6 + 2 * |kvs| + 2 * SyncSteps(cfg), i => Success) + [Failure(0)]
  }

  lemma CommitLoses(cfg: Config, n: Node, call: Listen)
    requires Effective(n, call) && Replaying(cfg, n.st, n.world.disk) && n.st.metaFile.value in n.world.disk.open
    ensures Lost(Take(cfg, Meeting(n, MarkerRenameFails(cfg, call.kvs)), call).node.world.disk, n.st.curHeight)
  {
    var faults := MarkerRenameFails(cfg, call.kvs);
    var p := |faults| - 1;
    var w, fd := World(n.world.disk, [], faults), n.st.metaFile.value;
    var data := DataPlan(cfg, n.st, w.disk.nextFd, call.kvs);
    var w1 := FrameSucceeds(w, fd, call.commit, [Close(fd)] + RemoveMeta(cfg, n.st), WriteCommit,
                            MetaClosePlan(cfg, n.st, fd, data), p);
    if cfg.fsync {
      Succeeds(w1, p, Sync(fd));
      w1 := Call(w1, Sync(fd)).world;
    }
    Succeeds(w1, p, Close(fd));
    var closed := Call(w1, Close(fd)).world;
    assert Exec(CommitPlan(cfg, n.st, w.disk.nextFd, call.commit, call.kvs), w) == Exec(data, closed);
    DataLoses(cfg, n.st, closed, call.kvs, p);
  }

  // Without metadata nothing has to fail: the marker stays and the pairs under it go.
  lemma DataOnlyMisleads(cfg: Config, n: Node, call: Listen, strict: bool)
    requires Good(cfg, n, strict) && Effective(n, call) && !cfg.outputMeta && cfg.hasListeners
    requires var h := n.st.curHeight;
             && Final(Meta, h) in n.world.disk.names && h in n.log && n.log[h].kvs.Some?
             && !Alike(n.log[h], EntryOf(cfg, n, call))
    ensures Take(cfg, Meeting(n, []), call).outcome == Nil && !CommitTruthful(cfg, n, call, [], strict)
  {
    var w, h, e := World(n.world.disk, [], []), n.st.curHeight, EntryOf(cfg, n, call);
    var c := Context(0, w.disk, h, false, n.log, strict, true);
    assert SoundSince(c, w);
    hide Durable, Exec, CommitPlan, DirectoryPlan, Prepared;
    var w', failed := DataOnlyRun(c, cfg, n.st, w, e, call.kvs);
    var r := Call(w', Rename(ArchivePaths.Partial(Data, h), Final(Data, h)));
    MarkerStands(w'.disk, n.log, h, strict);
    MovedIsStaged(w'.disk, h, Frames(call.kvs), cfg.fsync);
    DirectoryLeaves(cfg, r.world);
    hide Inv, Do, Frames;
    NotTold(Take(cfg, Meeting(n, []), call).node.world.disk, n.log, h, e);
  }

  lemma MarkerStands(d: Disk, log: Log, h: int, strict: bool)
    requires Inv(d, log, strict) && Final(Meta, h) in d.names
    ensures h in log && Staged(d, Final(Meta, h), MetaBytes(log[h]), false)
  {
  }

  lemma NotTold(d: Disk, log: Log, h: int, e: Entry)
    requires h in log && log[h].kvs.Some? && e.kvs.Some? && !Alike(log[h], e)
    requires Staged(d, Final(Meta, h), MetaBytes(log[h]), false)
    requires Staged(d, Final(Data, h), Frames(e.kvs.value), false)
    ensures !Truthful(d, log, h, e)
  {
    if Marked(d.names, d.data, log) {
      FramesInjective(log[h].kvs.value, e.kvs.value);
    }
    if Marked(d.names, d.data, log[h := e]) {
      assert Complete(d.names, d.data, h, log[h := e][h]);
      MessagesRead(log[h], e);
    }
  }

  lemma MessagesRead(a: Entry, b: Entry)
    requires MetaBytes(a) == MetaBytes(b)
    ensures a.req == b.req && a.res == b.res && a.commit == b.commit
  {
    var messages := [a.req, a.res, a.commit];
    FramesInjective(messages, [b.req, b.res, b.commit]);
    assert messages[0] == b.req && messages[1] == b.res && messages[2] == b.commit;
  }

  lemma CommitMisleads(cfg: Config, n: Node, call: Listen, strict: bool)
    requires Good(cfg, n, strict) && Effective(n, call) && cfg.outputMeta && cfg.hasListeners
    requires !Free(n.world.disk, n.log, n.st.curHeight)
    ensures !CommitTruthful(cfg, n, call, MarkerRenameFails(cfg, call.kvs), strict)
  {
    var h := n.st.curHeight;
    MarkersLogged(n.world.disk, n.log, strict);
    CommitLoses(cfg, n, call);
    var d := Take(cfg, Meeting(n, MarkerRenameFails(cfg, call.kvs)), call).node.world.disk;
    assert !Truthful(d, n.log, h, EntryOf(cfg, n, call)) by {
      assert Lost(d, h);
    }
  }

  // A commit that can leave a marker with data that is not its block's.
  predicate Misleading(cfg: Config, n: Node, call: Listen) {
    && Effective(n, call) && cfg.hasListeners
    && var h := n.st.curHeight;
       && Final(Meta, h) in n.world.disk.names && h in n.log && n.log[h].kvs.Some?
       && (cfg.outputMeta || !Alike(n.log[h], EntryOf(cfg, n, call)))
  }

  lemma OthersTell(cfg: Config, n: Node, call: Listen, strict: bool)
    requires Good(cfg, n, strict) && Effective(n, call) && !Misleading(cfg, n, call)
    ensures CommitTells(cfg, n, call, strict)
  {
    MarkersLogged(n.world.disk, n.log, strict);
    hide CommitTells, EntryOf, Good;
    if !cfg.hasListeners || Free(n.world.disk, n.log, n.st.curHeight) {
      FreeIsTruthful(cfg, n, call, strict);
    } else {
      DataOnlyTruthful(cfg, n, call, strict);
    }
  }

  // Committing a prepared block tells consumers the truth under every script of failures --
  // and, in strict mode, after any loss of power -- exactly when the height has no marker
  // yet, no store is exposed, the block that the marker vouches for has no pairs, or no
  // marker is to be moved and the block is that one in its pairs or in its messages.
  lemma RestreamExact(cfg: Config, n: Node, call: Listen, strict: bool)
    requires Good(cfg, n, strict) && Effective(n, call)
    ensures Final(Meta, n.st.curHeight) in n.world.disk.names ==> n.st.curHeight in n.log
    ensures (forall faults :: CommitTruthful(cfg, n, call, faults, strict)) <==>
            || Final(Meta, n.st.curHeight) !in n.world.disk.names
            || !cfg.hasListeners
            || n.log[n.st.curHeight].kvs.None?
            || (!cfg.outputMeta && Alike(n.log[n.st.curHeight], EntryOf(cfg, n, call)))
  {
    MarkersLogged(n.world.disk, n.log, strict);
    if !Misleading(cfg, n, call) {
      forall faults ensures CommitTruthful(cfg, n, call, faults, strict) {
        assert !Misleading(cfg, Meeting(n, faults), call);
        OthersTell(cfg, Meeting(n, faults), call, strict);
      }
    } else if cfg.outputMeta {
      CommitMisleads(cfg, n, call, strict);
    } else {
      DataOnlyMisleads(cfg, n, call, strict);
    }
  }
}
