/**
 * Whole histories of an archive: processes that start, listen to any calls under any
 * failures, and end at any moment -- by dying, or with the power -- each taking over the
 * disk that the one before it left.
 */
module ArchiveHistory {
  import opened Wrappers
  import opened Strings
  import opened Framing
  import opened ArchivePaths
  import opened DiskModel
  import opened ArchivePlan
  import opened ArchiveSafety
  import opened ArchiveProtocol

  // A call from the node.  A commit does not carry its height; `block` is the height the
  // node is committing, which the streamer never sees.
  datatype Listen =
    | FinalizeBlock(live: bool, req: Request, res: Bytes)
    | Commit(block: int, live: bool, commit: Bytes, kvs: seq<Bytes>)

  // A running process: the streamer and its world, the messages it has prepared, what it
  // set out to archive, and what it has been told is archived.
  datatype Node = Node(st: Streamer, world: World, req: Bytes, res: Bytes, log: Log, acked: Log)

  datatype Taken = Taken(node: Node, outcome: Outcome)

  // The commits that reach the disk.
  predicate Effective(n: Node, call: Listen) {
    call.Commit? && call.live && n.st.prepared
  }

  // An effective commit of a height whose marker is in place already.
  predicate Restreams(n: Node, call: Listen) {
    Effective(n, call) && Final(Meta, n.st.curHeight) in n.world.disk.names
  }

  function EntryOf(cfg: Config, n: Node, call: Listen): Entry
    requires call.Commit?
  {
    Entry(n.req, n.res, call.commit, if cfg.hasListeners then Some(call.kvs) else None)
  }

  function Take(cfg: Config, n: Node, call: Listen): Taken {
    match call
    case FinalizeBlock(live, req, res) =>
      var l := ListenFinalizeBlock(cfg, n.st, n.world, live, req, res);
      var staged := live && l.outcome == Nil;
      Taken(Node(l.st, l.world, if staged then req.bytes else n.req, if staged then res else n.res, n.log, n.acked),
            l.outcome)
    case Commit(_, live, commit, kvs) =>
      var l := ListenCommit(cfg, n.st, n.world, live, commit, kvs);
      var h, e := n.st.curHeight, EntryOf(cfg, n, call);
      var filed := Effective(n, call) && cfg.outputMeta;
      Taken(Node(l.st, l.world, n.req, n.res,
                 if filed then n.log[h := e] else n.log,
                 if filed && l.outcome == Nil then n.acked[h := e] else n.acked),
            l.outcome)
  }

  ghost predicate Extends(bigger: Log, smaller: Log) {
    forall h :: h in smaller ==> h in bigger && bigger[h] == smaller[h]
  }

  // What has been acknowledged is there -- in strict mode in every directory that a
  // power loss may leave.
  ghost predicate Kept(d: Disk, log: Log, acked: Log, strict: bool) {
    forall h :: h in acked ==>
      && h in log && log[h] == acked[h]
      && Final(Meta, h) in d.names
      && (strict ==> Durable(d, h))
  }

  ghost predicate Good(cfg: Config, n: Node, strict: bool) {
    && Inv(n.world.disk, n.log, strict)
    && Prepared(cfg, n.st, n.world.disk, n.req, n.res)
    && Kept(n.world.disk, n.log, n.acked, strict)
    && (strict ==> cfg.fsync)
  }

  // The abstraction: the blocks a consumer finds on the disk.
  ghost function Archive(d: Disk, log: Log): Log {
    map h | h in log && Final(Meta, h) in d.names :: log[h]
  }

  // A consumer that finds a marker reads back exactly the block's messages and pairs.
  lemma ConsumerReads(d: Disk, log: Log, strict: bool, h: int)
    requires Inv(d, log, strict) && Final(Meta, h) in d.names
    ensures h in Archive(d, log) && Archive(d, log)[h] == log[h]
    ensures d.names[Final(Meta, h)] in d.data
    ensures Decode(d.data[d.names[Final(Meta, h)]]) == Some([log[h].req, log[h].res, log[h].commit])
    ensures log[h].kvs.Some? ==>
              && Final(Data, h) in d.names && d.names[Final(Data, h)] in d.data
              && Decode(d.data[d.names[Final(Data, h)]]) == Some(log[h].kvs.value)
  {
    RoundTrip([log[h].req, log[h].res, log[h].commit]);
    if log[h].kvs.Some? {
      RoundTrip(log[h].kvs.value);
    }
  }

  // --- One call -----------------------------------------------------------------------

  // Announcing a block whose marker is absent changes nothing for what is there.
  lemma Announce(d: Disk, log: Log, strict: bool, h: int, e: Entry)
    requires Inv(d, log, strict) && Final(Meta, h) !in d.names
    ensures Inv(d, log[h := e], strict)
    ensures Archive(d, log[h := e]) == Archive(d, log)
  {
    var log' := log[h := e];
    assert strict ==> LastingIn(NamesAt(d, |d.pending|), d, log);
    forall k: nat | k <= |d.pending|
      ensures strict ==> LastingIn(NamesAt(d, k), d, log')
    {
      assert strict ==> LastingIn(NamesAt(d, k), d, log);
    }
  }

  ghost predicate Filed(cfg: Config, n: Node, call: Listen) {
    Effective(n, call) && cfg.outputMeta
  }

  // Every image during the call shows the archive as it was, or with the one new block.
  ghost predicate Shows(cfg: Config, n: Node, call: Listen, log: Log, d: Disk) {
    || Archive(d, log) == Archive(n.world.disk, n.log)
    || (Filed(cfg, n, call) &&
        Archive(d, log) == Archive(n.world.disk, n.log)[n.st.curHeight := EntryOf(cfg, n, call)])
  }

  predicate OnlyDirectorySyncFailed(o: Outcome) {
    o == Error(SyncWriteDir) || o == Panic(SyncWriteDir)
  }

  ghost predicate ImageGood(cfg: Config, n: Node, call: Listen, log: Log, strict: bool, d: Disk) {
    Inv(d, log, strict) && Kept(d, log, n.acked, strict) && Shows(cfg, n, call, log, d)
  }

  ghost predicate ImagesGood(cfg: Config, n: Node, call: Listen, t: Node, strict: bool) {
    && |n.world.past| <= |t.world.past|
    && (forall i :: |n.world.past| <= i <= |t.world.past| ==>
          ImageGood(cfg, n, call, t.log, strict, t.world.Images()[i]))
  }

  lemma LastImage(cfg: Config, n: Node, call: Listen, t: Node, strict: bool)
    requires ImagesGood(cfg, n, call, t, strict)
    ensures ImageGood(cfg, n, call, t.log, strict, t.world.disk)
  {
    assert t.world.Images()[|t.world.past|] == t.world.disk;
  }

  lemma MarkersLogged(d: Disk, log: Log, strict: bool)
    requires Inv(d, log, strict)
    ensures forall h :: Final(Meta, h) in d.names ==> h in log
  {
  }

  lemma ArchiveSame(before: Disk, log: Log, d: Disk, log': Log)
    requires forall h :: Final(Meta, h) in d.names <==> Final(Meta, h) in before.names
    requires forall h :: Final(Meta, h) in before.names ==> h in log && h in log' && log'[h] == log[h]
    ensures Archive(d, log') == Archive(before, log)
  {
  }

  lemma ArchiveAdds(before: Disk, log: Log, d: Disk, h: int, e: Entry)
    requires forall g :: g != h ==> (Final(Meta, g) in d.names <==> Final(Meta, g) in before.names)
    requires Final(Meta, h) in d.names
    ensures Archive(d, log[h := e]) == Archive(before, log)[h := e]
  {
  }

  lemma SoundKept(c: Context, d: Disk, log: Log, acked: Log)
    requires Sound(c, d) && Kept(c.start, log, acked, c.strict)
    requires c.log == log || (c.h in c.log && c.log == log[c.h := c.log[c.h]] && Final(Meta, c.h) !in c.start.names)
    requires c.files ==> Final(Meta, c.h) !in c.start.names
    ensures Kept(d, c.log, acked, c.strict)
  {
    hide Inv, Durable;
  }

  lemma SoundShows(cfg: Config, n: Node, call: Listen, c: Context, d: Disk)
    requires Sound(c, d) && c.start == n.world.disk && Inv(c.start, n.log, c.strict)
    requires c.files == Filed(cfg, n, call)
    requires if c.files then
               && c.h == n.st.curHeight && c.log == n.log[c.h := EntryOf(cfg, n, call)]
               && Final(Meta, c.h) !in c.start.names
             else c.log == n.log
    ensures Shows(cfg, n, call, c.log, d)
  {
    MarkersLogged(d, c.log, c.strict);
    MarkersLogged(c.start, n.log, c.strict);
    hide Inv, Durable, Archive, EntryOf;
    if c.files && Final(Meta, c.h) in d.names {
      ArchiveAdds(c.start, n.log, d, c.h, EntryOf(cfg, n, call));
    } else {
      ArchiveSame(c.start, n.log, d, c.log);
    }
  }

  // The archive after a call, by what the call answered.
  ghost function ArchiveAfter(cfg: Config, n: Node, call: Listen, o: Outcome): Log {
    var before := Archive(n.world.disk, n.log);
    if Filed(cfg, n, call) && (o == Nil || OnlyDirectorySyncFailed(o)) then
      before[n.st.curHeight := EntryOf(cfg, n, call)]
    else before
  }

  lemma CommitArchive(cfg: Config, n: Node, call: Listen, c: Context, d: Disk, o: Outcome)
    requires Sound(c, d) && c.start == n.world.disk && Inv(c.start, n.log, c.strict)
    requires Effective(n, call) && c.h == n.st.curHeight && c.files == cfg.outputMeta
    requires c.log == if cfg.outputMeta then n.log[c.h := EntryOf(cfg, n, call)] else n.log
    requires Final(Meta, c.h) !in c.start.names
    requires Final(Meta, c.h) in d.names <==> cfg.outputMeta && (o == Nil || OnlyDirectorySyncFailed(o))
    ensures Archive(d, c.log) == ArchiveAfter(cfg, n, call, o)
  {
    MarkersLogged(d, c.log, c.strict);
    MarkersLogged(c.start, n.log, c.strict);
    hide Inv, Durable, Archive, EntryOf;
    if Final(Meta, c.h) in d.names {
      ArchiveAdds(c.start, n.log, d, c.h, EntryOf(cfg, n, call));
    } else {
      ArchiveSame(c.start, n.log, d, c.log);
    }
  }

  lemma CommitImages(cfg: Config, n: Node, call: Listen, strict: bool)
    requires Good(cfg, n, strict) && Effective(n, call) && !Restreams(n, call)
    ensures var t := Take(cfg, n, call);
            && ImagesGood(cfg, n, call, t.node, strict)
            && Archive(t.node.world.disk, t.node.log) == ArchiveAfter(cfg, n, call, t.outcome)
            && (t.outcome == Nil && strict ==> t.node.world.disk.pending == [])
            && (Filed(cfg, n, call) && t.outcome == Nil ==> Final(Meta, n.st.curHeight) in t.node.world.disk.names)
            && (Faultless(n.world) ==> t.outcome == Nil)
  {
    var t := Take(cfg, n, call);
    var w, h := n.world, n.st.curHeight;
    var c := Context(|w.past|, w.disk, h, cfg.outputMeta, t.node.log, strict, Faultless(w));
    if cfg.outputMeta {
      Announce(w.disk, n.log, strict, h, EntryOf(cfg, n, call));
    }
    var run := Exec(CommitPlan(cfg, n.st, w.disk.nextFd, call.commit, call.kvs), w);
    hide Inv, Durable, Exec, CommitPlan, Archive, Kept;
    assert SoundSince(c.(files := false), w);
    CommitEnds(c, cfg, n.st, w, EntryOf(cfg, n, call), call.kvs);
    forall i | |w.past| <= i <= |run.world.past|
      ensures ImageGood(cfg, n, call, t.node.log, strict, run.world.Images()[i])
    {
      SoundKept(c, run.world.Images()[i], n.log, n.acked);
      SoundShows(cfg, n, call, c, run.world.Images()[i]);
    }
    CommitArchive(cfg, n, call, c, t.node.world.disk, t.outcome);
  }

  lemma FinalizeImages(cfg: Config, n: Node, call: Listen, strict: bool)
    requires Good(cfg, n, strict) && call.FinalizeBlock? && call.live && cfg.outputMeta
    ensures var t := Take(cfg, n, call);
            && ImagesGood(cfg, n, call, t.node, strict)
            && Archive(t.node.world.disk, t.node.log) == Archive(n.world.disk, n.log)
            && Prepared(cfg, t.node.st, t.node.world.disk, t.node.req, t.node.res)
            && (Faultless(n.world) ==> t.outcome == Nil && Faultless(t.node.world))
  {
    var t := Take(cfg, n, call);
    var w := n.world;
    var c := Context(|w.past|, w.disk, call.req.height, false, n.log, strict, Faultless(w));
    var run := Exec(FinalizePlan(w.disk.nextFd, call.req, call.res), w);
    hide Inv, Durable, Exec, FinalizePlan, Archive, Kept;
    assert SoundSince(c, w);
    FinalizeEnds(c, cfg, w, call.req, call.res);
    forall i | |w.past| <= i <= |run.world.past|
      ensures ImageGood(cfg, n, call, t.node.log, strict, run.world.Images()[i])
    {
      SoundKept(c, run.world.Images()[i], n.log, n.acked);
      SoundShows(cfg, n, call, c, run.world.Images()[i]);
    }
    MarkersLogged(run.world.disk, n.log, strict);
    MarkersLogged(w.disk, n.log, strict);
    ArchiveSame(w.disk, n.log, run.world.disk, n.log);
  }

  // Calls that are refused, or have nothing to write yet, touch no file.
  predicate Idle(cfg: Config, n: Node, call: Listen) {
    if call.Commit? then !Effective(n, call) else !call.live || !cfg.outputMeta
  }

  // The main step: whatever fails, every image during the call is good, and the archive
  // afterwards is what the answer says it is.
  lemma TakeKeeps(cfg: Config, n: Node, call: Listen, strict: bool)
    requires Good(cfg, n, strict) && !Restreams(n, call)
    ensures var t := Take(cfg, n, call);
            && Good(cfg, t.node, strict)
            && ImagesGood(cfg, n, call, t.node, strict)
            && Archive(t.node.world.disk, t.node.log) == ArchiveAfter(cfg, n, call, t.outcome)
  {
    var t := Take(cfg, n, call);
    if Idle(cfg, n, call) {
      assert t.node.world == n.world && t.node.log == n.log && t.node.acked == n.acked;
      assert n.world.Images()[|n.world.past|] == n.world.disk;
    } else if call.Commit? {
      CommitImages(cfg, n, call, strict);
      CommitGood(cfg, n, call, strict);
    } else {
      FinalizeImages(cfg, n, call, strict);
      LastImage(cfg, n, call, t.node, strict);
      hide Inv, Durable, Archive, ListenFinalizeBlock;
    }
  }

  lemma EmptiedIsDurable(d: Disk, log: Log, strict: bool, h: int)
    requires Inv(d, log, strict) && d.pending == [] && Final(Meta, h) in d.names
    ensures Durable(d, h)
  {
  }

  // One more acknowledgement.
  lemma KeptMore(d: Disk, log: Log, acked: Log, strict: bool, h: int)
    requires Kept(d, log, acked, strict) && h in log && Final(Meta, h) in d.names && (strict ==> Durable(d, h))
    ensures Kept(d, log, acked[h := log[h]], strict)
  {
    hide Durable;
  }

  // What a commit makes of the log and of the acknowledgements.
  lemma CommitFiles(cfg: Config, n: Node, call: Listen)
    requires Effective(n, call)
    ensures var t, h := Take(cfg, n, call), n.st.curHeight;
            && (Filed(cfg, n, call) ==> h in t.node.log)
            && t.node.acked ==
               if Filed(cfg, n, call) && t.outcome == Nil then n.acked[h := t.node.log[h]] else n.acked
  {
    hide ListenCommit;
  }

  lemma CommitKept(cfg: Config, n: Node, call: Listen, strict: bool)
    requires Good(cfg, n, strict) && Effective(n, call) && !Restreams(n, call)
    ensures var t := Take(cfg, n, call).node; Kept(t.world.disk, t.log, t.acked, strict)
  {
    hide Inv, Good, Take, Kept, Durable, Archive, ImagesGood, Shows;
    var t := Take(cfg, n, call);
    CommitImages(cfg, n, call, strict);
    LastImage(cfg, n, call, t.node, strict);
    CommitFiles(cfg, n, call);
    if Filed(cfg, n, call) && t.outcome == Nil {
      if strict {
        EmptiedIsDurable(t.node.world.disk, t.node.log, strict, n.st.curHeight);
      }
      KeptMore(t.node.world.disk, t.node.log, n.acked, strict, n.st.curHeight);
    }
  }

  lemma CommitGood(cfg: Config, n: Node, call: Listen, strict: bool)
    requires Good(cfg, n, strict) && Effective(n, call) && !Restreams(n, call)
    ensures Good(cfg, Take(cfg, n, call).node, strict)
  {
    CommitImages(cfg, n, call, strict);
    LastImage(cfg, n, call, Take(cfg, n, call).node, strict);
    CommitKept(cfg, n, call, strict);
    hide Inv, Kept, Archive, Exec, CommitPlan, ImagesGood, Shows, EntryOf;
  }

  // When a commit answers nil and syncing is on, no power loss can take its block away.
  lemma NilIsDurable(cfg: Config, n: Node, call: Listen, found: Disk)
    requires Good(cfg, n, true) && Filed(cfg, n, call) && !Restreams(n, call)
    requires Take(cfg, n, call).outcome == Nil
    requires PowerLoss(Take(cfg, n, call).node.world.disk, found)
    ensures Complete(found.names, found.data, n.st.curHeight, EntryOf(cfg, n, call))
  {
    var t := Take(cfg, n, call).node;
    TakeKeeps(cfg, n, call, true);
    PowerLossKeeps(State(t.world.disk, t.log, t.acked), found);
  }

  // --- Processes and their ends ------------------------------------------------------

  // What is handed from one process to the next: the disk, what was set out to be
  // archived and what has been acknowledged.
  datatype State = State(disk: Disk, log: Log, acked: Log)

  ghost predicate StateGood(s: State, strict: bool) {
    Inv(s.disk, s.log, strict) && Kept(s.disk, s.log, s.acked, strict)
  }

  function Removals(matches: seq<Path>): seq<Op> {
    seq(|matches|, i requires 0 <= i < |matches| => Remove(matches[i]))
  }

  // Names that the start-up glob may find: they end like a partial.  Which of those there
  // are, pattern characters in the prefix decide; without any, it finds the partials.
  ghost predicate GlobMatches(prefix: string, d: Disk, matches: seq<Path>) {
    forall p <- matches :: p in d.names && HasSuffix(Render(prefix, p), PARTIAL_SUFFIX)
  }

  // One process: its configuration, the failures it meets, the stale partials it sweeps,
  // the calls it hears until it ends, and the moment of the end -- during its last call,
  // or while starting up when there was none -- with what was left of the disk.
  datatype Life = Life(cfg: Config, script: seq<Fault>, matches: seq<Path>, calls: seq<Listen>,
                       cut: nat, power: bool, left: Disk)

  function Boot(life: Life, s: State): Node {
    Node(IDLE, Undo(Removals(life.matches), World(s.disk, [], life.script)), [], [], s.log, s.acked)
  }

  function TakeAll(cfg: Config, n: Node, calls: seq<Listen>): Node {
    if |calls| == 0 then n
    else Take(cfg, TakeAll(cfg, n, calls[..|calls| - 1]), calls[|calls| - 1]).node
  }

  // No height is streamed again once its marker is in place.
  ghost predicate StreamsOnce(cfg: Config, n: Node, calls: seq<Listen>) {
    |calls| > 0 ==>
      var init := calls[..|calls| - 1];
      StreamsOnce(cfg, n, init) && !Restreams(TakeAll(cfg, n, init), calls[|calls| - 1])
  }

  // The images among which the end may fall start here.
  function LastCallBegins(life: Life, s: State): nat {
    if |life.calls| == 0 then 0
    else |TakeAll(life.cfg, Boot(life, s), life.calls[..|life.calls| - 1]).world.past|
  }

  ghost predicate Lives(life: Life, s: State, strict: bool) {
    var end := TakeAll(life.cfg, Boot(life, s), life.calls);
    && GlobMatches(life.cfg.prefix, s.disk, life.matches)
    && StreamsOnce(life.cfg, Boot(life, s), life.calls)
    && (strict ==> life.cfg.fsync)
    && LastCallBegins(life, s) <= life.cut <= |end.world.past|
    && (if life.power then strict && PowerLoss(end.world.Images()[life.cut], life.left)
        else life.left == Reboot(end.world.Images()[life.cut]))
  }

  // The last call is cut short unless the end came after it.
  predicate CutShort(life: Life, s: State) {
    |life.calls| > 0 && life.cut != |TakeAll(life.cfg, Boot(life, s), life.calls).world.past|
  }

  // The calls that returned.
  function Returned(life: Life, s: State): seq<Listen> {
    if CutShort(life, s) then life.calls[..|life.calls| - 1] else life.calls
  }

  // Only those can have been acknowledged.
  function Next(life: Life, s: State): State {
    State(life.left, TakeAll(life.cfg, Boot(life, s), life.calls).log,
          TakeAll(life.cfg, Boot(life, s), Returned(life, s)).acked)
  }

  lemma RebootKeeps(s: State, strict: bool)
    requires StateGood(s, strict)
    ensures StateGood(s.(disk := Reboot(s.disk)), strict)
  {
    var d, d' := s.disk, Reboot(s.disk);
    assert forall k: nat :: k <= |d.pending| ==> NamesAt(d', k) == NamesAt(d, k);
    assert Proper(NamesAt(d, |d.pending|), d);
    ContentsKeep(d, d', s.log, strict);
    forall h | Durable(d, h)
      ensures Durable(d', h)
    {
      forall k: nat | k <= |d'.pending|
        ensures Final(Meta, h) in NamesAt(d', k)
      {
        assert NamesAt(d', k) == NamesAt(d, k);
      }
    }
  }

  // A power loss leaves a directory some number of changes old, and in it every marker
  // still means a complete block, and every acknowledged block is marked.
  lemma PowerLossKeeps(s: State, found: Disk)
    requires StateGood(s, true) && PowerLoss(s.disk, found)
    ensures StateGood(s.(disk := found), true)
  {
    var d := s.disk;
    var k: nat :| k <= |d.pending| && found.names == NamesAt(d, k);
    assert Proper(NamesAt(d, k), d) && Proper(NamesAt(d, |d.pending|), d);
    assert LastingIn(NamesAt(d, k), d, s.log);
    assert NamesAt(found, 0) == found.names;
    FoundMarked(d, s.log, found, k);
    forall j: nat | j <= |found.pending|
      ensures Proper(NamesAt(found, j), found) && LastingIn(NamesAt(found, j), found, s.log)
    {
      assert j == 0;
    }
    forall h | h in s.acked
      ensures Final(Meta, h) in found.names && Durable(found, h)
    {
      assert Durable(d, h);
    }
  }

  lemma FoundMarked(d: Disk, log: Log, found: Disk, k: nat)
    requires Inv(d, log, true) && k <= |d.pending|
    requires found.names == NamesAt(d, k) && found.data.Keys == d.data.Keys
    requires forall ino :: ino in d.synced && ino in d.data ==> found.data[ino] == d.data[ino]
    ensures Marked(found.names, found.data, log)
  {
    assert LastingIn(NamesAt(d, k), d, log);
    forall h | Final(Meta, h) in found.names
      ensures h in log && Complete(found.names, found.data, h, log[h])
    {
      assert Complete(d.names, d.data, h, log[h]);
    }
  }

  // Starting up removes stale partials and nothing else, whatever fails.
  lemma BootKeeps(life: Life, s: State, strict: bool)
    requires StateGood(s, strict) && GlobMatches(life.cfg.prefix, s.disk, life.matches) && (strict ==> life.cfg.fsync)
    ensures var n := Boot(life, s);
            && Good(life.cfg, n, strict)
            && Archive(n.world.disk, n.log) == Archive(s.disk, s.log)
            && (forall i :: 0 <= i <= |n.world.past| ==>
                  && StateGood(State(n.world.Images()[i], s.log, s.acked), strict)
                  && Archive(n.world.Images()[i], s.log) == Archive(s.disk, s.log))
  {
    var w := World(s.disk, [], life.script);
    var c := Context(0, s.disk, 0, false, s.log, strict, false);
    var ops := Removals(life.matches);
    forall op | op in ops
      ensures CleanUp(c, w.disk, op)
    {
      var p := op.path;
      assert p in life.matches;
      SuffixedIsNotFinal(life.cfg.prefix, p);
    }
    var n := Boot(life, s);
    hide Inv, Durable, Kept, Archive;
    UndoKeeps(c, ops, w);
    forall i | 0 <= i <= |n.world.past|
      ensures StateGood(State(n.world.Images()[i], s.log, s.acked), strict)
      ensures Archive(n.world.Images()[i], s.log) == Archive(s.disk, s.log)
    {
      SoundKept(c, n.world.Images()[i], s.log, s.acked);
      MarkersLogged(s.disk, s.log, strict);
      ArchiveSame(s.disk, s.log, n.world.Images()[i], s.log);
    }
    assert n.world.Images()[|n.world.past|] == n.world.disk;
  }

  lemma {:induction false} TakeAllKeeps(cfg: Config, n: Node, calls: seq<Listen>, strict: bool)
    requires Good(cfg, n, strict) && StreamsOnce(cfg, n, calls)
    ensures Good(cfg, TakeAll(cfg, n, calls), strict)
    ensures Extends(TakeAll(cfg, n, calls).acked, n.acked)
  {
    hide Inv, Prepared, Durable, Archive, Take, ListenFinalizeBlock, ListenCommit;
    if |calls| > 0 {
      var init, last := calls[..|calls| - 1], calls[|calls| - 1];
      TakeAllKeeps(cfg, n, init, strict);
      TakeKeeps(cfg, TakeAll(cfg, n, init), last, strict);
      AckedGrows(cfg, TakeAll(cfg, n, init), last, strict);
    }
  }

  lemma AckedGrows(cfg: Config, n: Node, call: Listen, strict: bool)
    requires Good(cfg, n, strict) && !Restreams(n, call)
    ensures Extends(Take(cfg, n, call).node.acked, n.acked)
  {
    hide Inv, Prepared, Durable, ListenFinalizeBlock, ListenCommit;
  }

  // A call whose block reaches the archive: filed, and answered with nil or with a failure
  // of the directory sync alone.
  ghost predicate Lands(cfg: Config, n: Node, call: Listen) {
    Filed(cfg, n, call) && (var o := Take(cfg, n, call).outcome; o == Nil || OnlyDirectorySyncFailed(o))
  }

  // The log that calls are to build: what was there, and each block that landed.
  ghost function Landed(cfg: Config, n: Node, calls: seq<Listen>): Log {
    if |calls| == 0 then Archive(n.world.disk, n.log)
    else
      var init, last := calls[..|calls| - 1], calls[|calls| - 1];
      var m := TakeAll(cfg, n, init);
      if Lands(cfg, m, last) then Landed(cfg, n, init)[m.st.curHeight := EntryOf(cfg, m, last)]
      else Landed(cfg, n, init)
  }

  lemma NotYetThere(cfg: Config, n: Node, call: Listen)
    requires !Restreams(n, call)
    ensures Filed(cfg, n, call) ==> n.st.curHeight !in Archive(n.world.disk, n.log)
  {
  }

  lemma TakeRefines(cfg: Config, n: Node, call: Listen, strict: bool)
    requires Good(cfg, n, strict) && !Restreams(n, call)
    ensures var before, t := Archive(n.world.disk, n.log), Take(cfg, n, call).node;
            && Archive(t.world.disk, t.log) ==
               (if Lands(cfg, n, call) then before[n.st.curHeight := EntryOf(cfg, n, call)] else before)
            && Extends(Archive(t.world.disk, t.log), before)
  {
    TakeKeeps(cfg, n, call, strict);
    NotYetThere(cfg, n, call);
    hide Good, Archive, Filed, Take, ImagesGood, EntryOf, Restreams;
  }

  // Refinement over a whole run: the archive on the disk is that log, and it only grows.
  lemma {:induction false} TakeAllRefines(cfg: Config, n: Node, calls: seq<Listen>, strict: bool)
    requires Good(cfg, n, strict) && StreamsOnce(cfg, n, calls)
    ensures var end := TakeAll(cfg, n, calls); Archive(end.world.disk, end.log) == Landed(cfg, n, calls)
    ensures Extends(Landed(cfg, n, calls), Archive(n.world.disk, n.log))
  {
    if |calls| > 0 {
      var init, last := calls[..|calls| - 1], calls[|calls| - 1];
      var m := TakeAll(cfg, n, init);
      TakeAllRefines(cfg, n, init, strict);
      TakeAllKeeps(cfg, n, init, strict);
      hide Good, Archive, Take, EntryOf, Lands, Restreams;
      TakeRefines(cfg, m, last, strict);
    }
  }

  // A filed call of the run, at the height and with the content of an entry; one that did
  // not land counts when it is the call that was cut short.
  ghost predicate Streams(cfg: Config, n: Node, calls: seq<Listen>, i: nat, short: bool, h: int, e: Entry)
    requires i < |calls|
  {
    var m := TakeAll(cfg, n, calls[..i]);
    && Filed(cfg, m, calls[i]) && m.st.curHeight == h && EntryOf(cfg, m, calls[i]) == e
    && (Lands(cfg, m, calls[i]) || (short && i == |calls| - 1))
  }

  ghost predicate Streamed(cfg: Config, n: Node, calls: seq<Listen>, short: bool, h: int, e: Entry) {
    exists i: nat :: i < |calls| && Streams(cfg, n, calls, i, short, h, e)
  }

  // Nothing is in that log but what was there and what a call of the run streamed.
  lemma {:induction false} LandedStreamed(cfg: Config, n: Node, calls: seq<Listen>, h: int)
    requires h in Landed(cfg, n, calls)
    ensures var e := Landed(cfg, n, calls)[h];
            || (h in Archive(n.world.disk, n.log) && Archive(n.world.disk, n.log)[h] == e)
            || Streamed(cfg, n, calls, false, h, e)
  {
    if |calls| > 0 {
      var init, last := calls[..|calls| - 1], calls[|calls| - 1];
      var m := TakeAll(cfg, n, init);
      var e := Landed(cfg, n, calls)[h];
      LandsIsFiled(cfg, m, last);
      hide Archive, Take, EntryOf, Lands, Filed;
      if Lands(cfg, m, last) && m.st.curHeight == h {
        assert Streams(cfg, n, calls, |calls| - 1, false, h, e);
      } else {
        LandedStreamed(cfg, n, init, h);
        StreamedEarlier(cfg, n, calls, h, e);
      }
    }
  }

  lemma LandsIsFiled(cfg: Config, n: Node, call: Listen)
    ensures Lands(cfg, n, call) ==> Filed(cfg, n, call)
  {
  }

  // What an earlier call streamed, the run streamed, however it was cut short.
  lemma StreamedEarlier(cfg: Config, n: Node, calls: seq<Listen>, h: int, e: Entry)
    requires |calls| > 0
    ensures Streamed(cfg, n, calls[..|calls| - 1], false, h, e) ==>
              Streamed(cfg, n, calls, false, h, e) && Streamed(cfg, n, calls, true, h, e)
  {
    var init := calls[..|calls| - 1];
    hide Take, EntryOf, Lands, Filed;
    if Streamed(cfg, n, init, false, h, e) {
      var i: nat :| i < |init| && Streams(cfg, n, init, i, false, h, e);
      assert init[..i] == calls[..i];
      assert Streams(cfg, n, calls, i, false, h, e) && Streams(cfg, n, calls, i, true, h, e);
    }
  }

  lemma InLastCall(life: Life, s: State, strict: bool, n: Node, call: Listen)
    requires |life.calls| > 0 && call == life.calls[|life.calls| - 1]
    requires n == TakeAll(life.cfg, Boot(life, s), life.calls[..|life.calls| - 1])
    requires Good(life.cfg, n, strict) && Lives(life, s, strict)
    ensures var t := Take(life.cfg, n, call).node;
            && t == TakeAll(life.cfg, Boot(life, s), life.calls)
            && life.cut <= |t.world.past|
            && StateGood(State(t.world.Images()[life.cut], Next(life, s).log, Next(life, s).acked), strict)
            && Shows(life.cfg, n, call, t.log, t.world.Images()[life.cut])
            && (!CutShort(life, s) ==> t.world.Images()[life.cut] == t.world.disk)
  {
    var t := Take(life.cfg, n, call).node;
    TakeKeeps(life.cfg, n, call, strict);
    assert ImageGood(life.cfg, n, call, t.log, strict, t.world.Images()[life.cut]);
    hide Inv, Kept, Take, Shows, Prepared;
    assert t.world.Images()[|t.world.past|] == t.world.disk;
  }

  // The end takes no block away that the dying process had in the archive; a power loss
  // adds none.
  lemma EndsArchive(life: Life, image: Disk, s: State, strict: bool)
    requires StateGood(s.(disk := image), strict)
    requires if life.power then strict && PowerLoss(image, life.left) else life.left == Reboot(image)
    ensures Extends(Archive(image, s.log), Archive(life.left, s.log))
    ensures !life.power ==> Archive(life.left, s.log) == Archive(image, s.log)
  {
    if life.power {
      var k: nat :| k <= |image.pending| && life.left.names == NamesAt(image, k);
      assert LastingIn(NamesAt(image, k), image, s.log);
    }
  }

  // An entry was in the archive before the run, or some call of the run streamed it.
  ghost predicate Explained(cfg: Config, n: Node, calls: seq<Listen>, short: bool, before: Log, after: Log) {
    forall h :: h in after ==>
      || (h in before && after[h] == before[h])
      || Streamed(cfg, n, calls, short, h, after[h])
  }

  lemma LandedExplained(cfg: Config, n: Node, calls: seq<Listen>)
    ensures Explained(cfg, n, calls, false, Archive(n.world.disk, n.log), Landed(cfg, n, calls))
  {
    hide Archive, Landed, Streamed;
    forall h | h in Landed(cfg, n, calls)
      ensures || (h in Archive(n.world.disk, n.log) && Landed(cfg, n, calls)[h] == Archive(n.world.disk, n.log)[h])
              || Streamed(cfg, n, calls, false, h, Landed(cfg, n, calls)[h])
    {
      LandedStreamed(cfg, n, calls, h);
    }
  }

  // During its last call a run shows what had landed before, and at most that call's block.
  lemma CutRun(cfg: Config, n: Node, calls: seq<Listen>, strict: bool, image: Disk, log: Log)
    requires Good(cfg, n, strict) && StreamsOnce(cfg, n, calls) && |calls| > 0
    requires Shows(cfg, TakeAll(cfg, n, calls[..|calls| - 1]), calls[|calls| - 1], log, image)
    ensures Extends(Archive(image, log), Landed(cfg, n, calls[..|calls| - 1]))
    ensures Explained(cfg, n, calls, true, Archive(n.world.disk, n.log), Archive(image, log))
  {
    var init, last := calls[..|calls| - 1], calls[|calls| - 1];
    var m := TakeAll(cfg, n, init);
    TakeAllRefines(cfg, n, init, strict);
    LandedExplained(cfg, n, init);
    NotYetThere(cfg, m, last);
    hide Good, StreamsOnce, Archive, Landed, Explained, Take, EntryOf, Filed;
    ExplainedLonger(cfg, n, calls, Archive(n.world.disk, n.log), Landed(cfg, n, init));
    if Archive(image, log) != Landed(cfg, n, init) {
      StreamedLast(cfg, n, calls);
      ExplainedWith(cfg, n, calls, Archive(n.world.disk, n.log), Landed(cfg, n, init),
                    m.st.curHeight, EntryOf(cfg, m, last));
    }
  }

  lemma ExplainedLonger(cfg: Config, n: Node, calls: seq<Listen>, before: Log, after: Log)
    requires |calls| > 0 && Explained(cfg, n, calls[..|calls| - 1], false, before, after)
    ensures Explained(cfg, n, calls, true, before, after)
  {
    hide Streamed;
    forall h | h in after
      ensures (h in before && after[h] == before[h]) || Streamed(cfg, n, calls, true, h, after[h])
    {
      StreamedEarlier(cfg, n, calls, h, after[h]);
    }
  }

  lemma ExplainedWith(cfg: Config, n: Node, calls: seq<Listen>, before: Log, after: Log, h: int, e: Entry)
    requires Explained(cfg, n, calls, true, before, after) && Streamed(cfg, n, calls, true, h, e)
    ensures Explained(cfg, n, calls, true, before, after[h := e])
  {
    hide Streamed;
  }

  lemma StreamedLast(cfg: Config, n: Node, calls: seq<Listen>)
    requires |calls| > 0 && Filed(cfg, TakeAll(cfg, n, calls[..|calls| - 1]), calls[|calls| - 1])
    ensures var m := TakeAll(cfg, n, calls[..|calls| - 1]);
            Streamed(cfg, n, calls, true, m.st.curHeight, EntryOf(cfg, m, calls[|calls| - 1]))
  {
    var m := TakeAll(cfg, n, calls[..|calls| - 1]);
    assert Streams(cfg, n, calls, |calls| - 1, true, m.st.curHeight, EntryOf(cfg, m, calls[|calls| - 1]));
  }

  // What the last image of a process shows.
  lemma CutArchive(life: Life, s: State, strict: bool) returns (image: Disk)
    requires StateGood(s, strict) && Lives(life, s, strict)
    ensures image == TakeAll(life.cfg, Boot(life, s), life.calls).world.Images()[life.cut]
    ensures StateGood(State(image, Next(life, s).log, Next(life, s).acked), strict)
    ensures var a := Archive(image, Next(life, s).log);
            && Extends(a, Landed(life.cfg, Boot(life, s), Returned(life, s)))
            && Explained(life.cfg, Boot(life, s), life.calls, CutShort(life, s), Archive(s.disk, s.log), a)
  {
    var boot, calls := Boot(life, s), life.calls;
    var end := TakeAll(life.cfg, boot, calls);
    image := end.world.Images()[life.cut];
    BootKeeps(life, s, strict);
    if |calls| > 0 {
      var init, last := calls[..|calls| - 1], calls[|calls| - 1];
      TakeAllKeeps(life.cfg, boot, init, strict);
      InLastCall(life, s, strict, TakeAll(life.cfg, boot, init), last);
      hide StateGood, Good, Archive, Landed, Shows, Take;
      if CutShort(life, s) {
        CutRun(life.cfg, boot, calls, strict, image, end.log);
      } else {
        TakeAllRefines(life.cfg, boot, calls, strict);
        LandedExplained(life.cfg, boot, calls);
      }
    }
  }

  // Whichever image the process ends on, good state is left behind; what is then archived
  // was archived before or streamed by the process; and a process that merely died has left
  // everything that landed.
  lemma LifeKeeps(life: Life, s: State, strict: bool)
    requires StateGood(s, strict) && Lives(life, s, strict)
    ensures StateGood(Next(life, s), strict)
    ensures Extends(Next(life, s).acked, s.acked)
    ensures Explained(life.cfg, Boot(life, s), life.calls, CutShort(life, s), Archive(s.disk, s.log),
                      Archive(Next(life, s).disk, Next(life, s).log))
    ensures !life.power ==>
              Extends(Archive(Next(life, s).disk, Next(life, s).log),
                      Landed(life.cfg, Boot(life, s), Returned(life, s)))
  {
    var next := Next(life, s);
    var image := CutArchive(life, s, strict);
    AckedStay(life, s, strict);
    EndsArchive(life, image, State(image, next.log, next.acked), strict);
    hide StateGood, Streamed, Archive, Landed;
    if life.power {
      PowerLossKeeps(State(image, next.log, next.acked), life.left);
    } else {
      RebootKeeps(State(image, next.log, next.acked), strict);
    }
  }

  lemma AckedStay(life: Life, s: State, strict: bool)
    requires StateGood(s, strict) && Lives(life, s, strict)
    ensures Extends(Next(life, s).acked, s.acked)
  {
    BootKeeps(life, s, strict);
    hide StateGood, Good;
    TakeAllKeeps(life.cfg, Boot(life, s), Returned(life, s), strict);
  }

  // --- Histories ----------------------------------------------------------------------

  // Every process keeps the names of the one before.
  ghost predicate History(s: State, lives: seq<Life>, strict: bool)
    decreases |lives|
  {
    |lives| > 0 ==>
      && Lives(lives[0], s, strict)
      && (|lives| > 1 ==> lives[1].cfg.prefix == lives[0].cfg.prefix)
      && History(Next(lives[0], s), lives[1..], strict)
  }

  function EndOf(s: State, lives: seq<Life>): State
    decreases |lives|
  {
    if |lives| == 0 then s else EndOf(Next(lives[0], s), lives[1..])
  }

  // Some process of the history streamed this block: a call of it landed, or was the one
  // that its end cut short.
  ghost predicate StreamedIn(s: State, lives: seq<Life>, h: int, e: Entry)
    decreases |lives|
  {
    |lives| > 0 &&
    (|| Streamed(lives[0].cfg, Boot(lives[0], s), lives[0].calls, CutShort(lives[0], s), h, e)
     || StreamedIn(Next(lives[0], s), lives[1..], h, e))
  }

  // Over any history -- any number of processes, any calls, any failures, any ends -- the
  // marker means completeness, and what was acknowledged stays, unchanged, for ever.
  // Without strictness every end is a dead process; with it, and syncing on throughout,
  // the power may go as well.
  lemma {:induction false} HistoryKeeps(s: State, lives: seq<Life>, strict: bool)
    requires StateGood(s, strict) && History(s, lives, strict)
    ensures StateGood(EndOf(s, lives), strict)
    ensures Extends(EndOf(s, lives).acked, s.acked)
    decreases |lives|
  {
    hide StateGood, Lives, Next, Explained;
    if |lives| > 0 {
      LifeKeeps(lives[0], s, strict);
      HistoryKeeps(Next(lives[0], s), lives[1..], strict);
    }
  }

  // And the archive at the end holds nothing but what was there at the start and what the
  // history streamed; while no power is lost it only grows.
  lemma {:induction false} HistoryRefines(s: State, lives: seq<Life>, strict: bool)
    requires StateGood(s, strict) && History(s, lives, strict)
    ensures var before, after := Archive(s.disk, s.log), Archive(EndOf(s, lives).disk, EndOf(s, lives).log);
            && (forall h :: h in after ==>
                  (h in before && after[h] == before[h]) || StreamedIn(s, lives, h, after[h]))
            && ((forall life <- lives :: !life.power) ==> Extends(after, before))
    decreases |lives|
  {
    hide StateGood, Lives, Next, Archive, Landed, Streamed, Boot, CutShort, Returned;
    if |lives| > 0 {
      var life, rest := lives[0], lives[1..];
      LifeKeeps(life, s, strict);
      LandedGrows(life, s, strict);
      HistoryRefines(Next(life, s), rest, strict);
      assert forall l <- rest :: l in lives;
    }
  }

  lemma LandedGrows(life: Life, s: State, strict: bool)
    requires StateGood(s, strict) && Lives(life, s, strict)
    ensures Extends(Landed(life.cfg, Boot(life, s), Returned(life, s)), Archive(s.disk, s.log))
  {
    BootKeeps(life, s, strict);
    hide StateGood, Good;
    TakeAllRefines(life.cfg, Boot(life, s), Returned(life, s), strict);
  }

  const EMPTY := State(Disk.Disk(map[], map[], map[], 0, 0, {}, map[], []), map[], map[])

  // The consumer's view of any history that starts on an empty disk.
  lemma ArchiveNeverLies(lives: seq<Life>, strict: bool, h: int)
    requires History(EMPTY, lives, strict)
    ensures var s := EndOf(EMPTY, lives);
            var names, data := s.disk.names, s.disk.data;
            && (h in s.acked ==> Final(Meta, h) in names && h in s.log && s.log[h] == s.acked[h])
            && (Final(Meta, h) in names ==>
                  && h in s.log && StreamedIn(EMPTY, lives, h, s.log[h])
                  && names[Final(Meta, h)] in data
                  && Decode(data[names[Final(Meta, h)]]) == Some([s.log[h].req, s.log[h].res, s.log[h].commit])
                  && (s.log[h].kvs.Some? ==>
                        && Final(Data, h) in names && names[Final(Data, h)] in data
                        && Decode(data[names[Final(Data, h)]]) == Some(s.log[h].kvs.value)))
  {
    assert Inv(EMPTY.disk, EMPTY.log, strict) by {
      assert NamesAt(EMPTY.disk, 0) == map[];
    }
    HistoryKeeps(EMPTY, lives, strict);
    HistoryRefines(EMPTY, lives, strict);
    hide StreamedIn, History;
    var s := EndOf(EMPTY, lives);
    if Final(Meta, h) in s.disk.names {
      ConsumerReads(s.disk, s.log, strict, h);
    }
  }
}
