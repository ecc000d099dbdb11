/**
 * Histories in which heights are streamed again, as long as no commit is of the kind that
 * can mislead, and processes end by dying.
 */
module ArchiveRestreams {
  import opened Wrappers
  import opened Framing
  import opened ArchivePaths
  import opened DiskModel
  import opened ArchivePlan
  import opened ArchiveSafety
  import opened ArchiveProtocol
  import opened ArchiveHistory
  import opened ArchiveLimits

  // --- One call -----------------------------------------------------------------------

  // The log that an image answers to: the one before the call, unless the call's block has
  // taken over.
  ghost function LogAt(cfg: Config, n: Node, call: Listen, d: Disk): Log {
    if Effective(n, call) && !Marked(d.names, d.data, n.log) then
      n.log[n.st.curHeight := EntryOf(cfg, n, call)]
    else n.log
  }

  ghost function Retake(cfg: Config, n: Node, call: Listen): Node {
    var t := Take(cfg, n, call).node;
    t.(log := LogAt(cfg, n, call, t.world.disk), acked := map[])
  }

  ghost predicate ImagesAnswer(cfg: Config, n: Node, call: Listen, t: Node) {
    && |n.world.past| <= |t.world.past|
    && (forall i :: |n.world.past| <= i <= |t.world.past| ==>
          Inv(t.world.Images()[i], LogAt(cfg, n, call, t.world.Images()[i]), false))
  }

  lemma EffectiveAnswers(cfg: Config, n: Node, call: Listen)
    requires Good(cfg, n, false) && Effective(n, call) && !Misleading(cfg, n, call)
    ensures ImagesAnswer(cfg, n, call, Take(cfg, n, call).node)
  {
    OthersTell(cfg, n, call, false);
    var w := Take(cfg, n, call).node.world;
    hide Take, Marked, WellFormed, Good, EntryOf, Misleading;
    forall i | |n.world.past| <= i <= |w.past|
      ensures Inv(w.Images()[i], LogAt(cfg, n, call, w.Images()[i]), false)
    {
      assert TruthfulAt(w.Images()[i], n.log, n.st.curHeight, EntryOf(cfg, n, call), false);
    }
  }

  lemma OtherAnswers(cfg: Config, n: Node, call: Listen)
    requires Good(cfg, n, false) && !Effective(n, call)
    ensures ImagesAnswer(cfg, n, call, Take(cfg, n, call).node)
    ensures var t := Take(cfg, n, call).node; Prepared(cfg, t.st, t.world.disk, t.req, t.res)
  {
    TakeKeeps(cfg, n, call, false);
    var t := Take(cfg, n, call).node;
    hide Take, Inv, Archive, Prepared, Shows;
    assert t.log == n.log by { OtherKeepsLog(cfg, n, call); }
  }

  lemma OtherKeepsLog(cfg: Config, n: Node, call: Listen)
    requires !Effective(n, call)
    ensures Take(cfg, n, call).node.log == n.log
  {
    hide ListenCommit, ListenFinalizeBlock;
  }

  lemma RetakeKeeps(cfg: Config, n: Node, call: Listen)
    requires Good(cfg, n, false) && !Misleading(cfg, n, call)
    ensures ImagesAnswer(cfg, n, call, Retake(cfg, n, call))
    ensures Good(cfg, Retake(cfg, n, call), false)
  {
    var t := Take(cfg, n, call).node;
    if Effective(n, call) {
      EffectiveAnswers(cfg, n, call);
      ExitIsClean(cfg, n, call, []);
    } else {
      OtherAnswers(cfg, n, call);
    }
    assert t.world.Images()[|t.world.past|] == t.world.disk;
    hide Inv, Take, Misleading, LogAt;
  }

  // --- Runs ---------------------------------------------------------------------------

  ghost function RetakeAll(cfg: Config, n: Node, calls: seq<Listen>): Node {
    if |calls| == 0 then n
    else Retake(cfg, RetakeAll(cfg, n, calls[..|calls| - 1]), calls[|calls| - 1])
  }

  ghost predicate Innocent(cfg: Config, n: Node, calls: seq<Listen>) {
    |calls| > 0 ==>
      var init := calls[..|calls| - 1];
      Innocent(cfg, n, init) && !Misleading(cfg, RetakeAll(cfg, n, init), calls[|calls| - 1])
  }

  // Call i commits this block under this height.
  ghost predicate Offers(cfg: Config, n: Node, calls: seq<Listen>, i: nat, h: int, e: Entry)
    requires i < |calls|
  {
    var m := RetakeAll(cfg, n, calls[..i]);
    Effective(m, calls[i]) && m.st.curHeight == h && EntryOf(cfg, m, calls[i]) == e
  }

  ghost predicate Offered(cfg: Config, n: Node, calls: seq<Listen>, h: int, e: Entry) {
    exists i: nat :: i < |calls| && Offers(cfg, n, calls, i, h, e)
  }

  // An entry was in the log before the run, or some call of the run committed it.
  ghost predicate Sourced(cfg: Config, n: Node, calls: seq<Listen>, log: Log) {
    forall h :: h in log ==> (h in n.log && log[h] == n.log[h]) || Offered(cfg, n, calls, h, log[h])
  }

  lemma OfferedEarlier(cfg: Config, n: Node, calls: seq<Listen>, h: int, e: Entry)
    requires |calls| > 0
    ensures Offered(cfg, n, calls[..|calls| - 1], h, e) ==> Offered(cfg, n, calls, h, e)
  {
    var init := calls[..|calls| - 1];
    hide Effective, EntryOf, RetakeAll;
    if Offered(cfg, n, init, h, e) {
      var i: nat :| i < |init| && Offers(cfg, n, init, i, h, e);
      assert init[..i] == calls[..i];
      assert Offers(cfg, n, calls, i, h, e);
    }
  }

  // Whatever image of the last call the run ends on.
  lemma SourcedAt(cfg: Config, n: Node, calls: seq<Listen>, d: Disk)
    requires |calls| > 0
    requires Sourced(cfg, n, calls[..|calls| - 1], RetakeAll(cfg, n, calls[..|calls| - 1]).log)
    ensures Sourced(cfg, n, calls, LogAt(cfg, RetakeAll(cfg, n, calls[..|calls| - 1]), calls[|calls| - 1], d))
  {
    var init, last := calls[..|calls| - 1], calls[|calls| - 1];
    var m := RetakeAll(cfg, n, init);
    var log := LogAt(cfg, m, last, d);
    hide Marked, EntryOf, RetakeAll;
    forall h | h in log
      ensures (h in n.log && log[h] == n.log[h]) || Offered(cfg, n, calls, h, log[h])
    {
      if log != m.log && h == m.st.curHeight {
        assert Offers(cfg, n, calls, |calls| - 1, h, log[h]);
      } else {
        OfferedEarlier(cfg, n, calls, h, log[h]);
      }
    }
  }

  lemma {:induction false} RetakeAllKeeps(cfg: Config, n: Node, calls: seq<Listen>)
    requires Good(cfg, n, false) && Innocent(cfg, n, calls)
    ensures Good(cfg, RetakeAll(cfg, n, calls), false)
    ensures Sourced(cfg, n, calls, RetakeAll(cfg, n, calls).log)
  {
    hide Good, Misleading, Offered, LogAt;
    if |calls| > 0 {
      var init, last := calls[..|calls| - 1], calls[|calls| - 1];
      var m := RetakeAll(cfg, n, init);
      RetakeAllKeeps(cfg, n, init);
      RetakeKeeps(cfg, m, last);
      SourcedAt(cfg, n, calls, Take(cfg, m, last).node.world.disk);
    }
  }

  // --- Histories ----------------------------------------------------------------------

  // Nothing is kept of acknowledgements: a block streamed again takes the old one's place.
  function Start(life: Life, s: State): Node {
    Boot(life, s.(acked := map[]))
  }

  ghost function LastImages(life: Life, s: State): (images: seq<Disk>) {
    RetakeAll(life.cfg, Start(life, s), life.calls).world.Images()
  }

  ghost function LastCallFrom(life: Life, s: State): nat {
    if |life.calls| == 0 then 0
    else |RetakeAll(life.cfg, Start(life, s), life.calls[..|life.calls| - 1]).world.past|
  }

  ghost predicate Dies(life: Life, s: State) {
    && GlobMatches(life.cfg.prefix, s.disk, life.matches)
    && Innocent(life.cfg, Start(life, s), life.calls)
    && LastCallFrom(life, s) <= life.cut < |LastImages(life, s)|
    && life.left == Reboot(LastImages(life, s)[life.cut])
  }

  ghost function After(life: Life, s: State): State
    requires life.cut < |LastImages(life, s)|
  {
    var log :=
      if |life.calls| == 0 then s.log
      else
        var init, last := life.calls[..|life.calls| - 1], life.calls[|life.calls| - 1];
        LogAt(life.cfg, RetakeAll(life.cfg, Start(life, s), init), last, LastImages(life, s)[life.cut]);
    State(life.left, log, map[])
  }

  lemma DeathKeeps(life: Life, s: State)
    requires StateGood(s.(acked := map[]), false) && Dies(life, s)
    ensures StateGood(After(life, s), false)
    ensures Sourced(life.cfg, Start(life, s), life.calls, After(life, s).log)
  {
    var start, image, log := Start(life, s), LastImages(life, s)[life.cut], After(life, s).log;
    BootKeeps(life, s.(acked := map[]), false);
    if |life.calls| > 0 {
      var init, last := life.calls[..|life.calls| - 1], life.calls[|life.calls| - 1];
      RetakeAllKeeps(life.cfg, start, init);
      RetakeKeeps(life.cfg, RetakeAll(life.cfg, start, init), last);
      SourcedAt(life.cfg, start, life.calls, image);
    }
    assert Inv(image, log, false);
    hide Inv, Good, Innocent, Sourced, LastImages, RetakeAll;
    RebootKeeps(State(image, log, map[]), false);
  }

  ghost predicate History(s: State, lives: seq<Life>)
    decreases |lives|
  {
    |lives| > 0 ==>
      && Dies(lives[0], s)
      && (|lives| > 1 ==> lives[1].cfg.prefix == lives[0].cfg.prefix)
      && History(After(lives[0], s), lives[1..])
  }

  ghost function EndOf(s: State, lives: seq<Life>): State
    requires History(s, lives)
    decreases |lives|
  {
    if |lives| == 0 then s else EndOf(After(lives[0], s), lives[1..])
  }

  // Some process of the history committed this block under this height.
  ghost predicate OfferedIn(s: State, lives: seq<Life>, h: int, e: Entry)
    requires History(s, lives)
    decreases |lives|
  {
    |lives| > 0 &&
    (|| Offered(lives[0].cfg, Start(lives[0], s), lives[0].calls, h, e)
     || OfferedIn(After(lives[0], s), lives[1..], h, e))
  }

  lemma {:induction false} DeathsKeep(s: State, lives: seq<Life>)
    requires StateGood(s.(acked := map[]), false) && History(s, lives)
    ensures StateGood(EndOf(s, lives).(acked := map[]), false)
    ensures forall h :: h in EndOf(s, lives).log ==>
              || (h in s.log && EndOf(s, lives).log[h] == s.log[h])
              || OfferedIn(s, lives, h, EndOf(s, lives).log[h])
    decreases |lives|
  {
    if |lives| > 0 {
      DeathKeeps(lives[0], s);
      DeathsKeep(After(lives[0], s), lives[1..]);
    }
  }

  // However often heights are streamed again in ways that cannot mislead, whatever fails and
  // wherever processes die: a marker decodes, with its pairs, to one block that some process
  // committed under its height.
  lemma RestreamsNeverLie(lives: seq<Life>, h: int)
    requires History(EMPTY, lives)
    ensures var s := EndOf(EMPTY, lives);
            var names, data := s.disk.names, s.disk.data;
            Final(Meta, h) in names ==>
              && h in s.log && OfferedIn(EMPTY, lives, h, s.log[h])
              && names[Final(Meta, h)] in data
              && Decode(data[names[Final(Meta, h)]]) == Some([s.log[h].req, s.log[h].res, s.log[h].commit])
              && (s.log[h].kvs.Some? ==>
                    && Final(Data, h) in names && names[Final(Data, h)] in data
                    && Decode(data[names[Final(Data, h)]]) == Some(s.log[h].kvs.value))
  {
    assert Inv(EMPTY.disk, EMPTY.log, false) by {
      assert NamesAt(EMPTY.disk, 0) == map[];
    }
    DeathsKeep(EMPTY, lives);
    hide OfferedIn, History;
    var s := EndOf(EMPTY, lives);
    if Final(Meta, h) in s.disk.names {
      ConsumerReads(s.disk, s.log, false, h);
    }
  }
}
