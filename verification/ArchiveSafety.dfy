/**
 * What holds of the disk at every moment of a listener call: a final metadata file means
 * that its block is complete -- and, in strict mode, that it stays complete in whatever
 * directory a power loss leaves behind.
 */
module ArchiveSafety {
  import opened Wrappers
  import opened Framing
  import opened ArchivePaths
  import opened DiskModel
  import opened ArchivePlan

  // One archived block: the three protocol messages, and the change set when stores
  // were exposed.
  datatype Entry = Entry(req: Bytes, res: Bytes, commit: Bytes, kvs: Option<seq<Bytes>>)

  type Log = map<int, Entry>

  function MetaBytes(e: Entry): Bytes {
    Frames([e.req, e.res, e.commit])
  }

  ghost predicate Holds(names: Directory, data: map<nat, Bytes>, p: Path, bytes: Bytes) {
    p in names && names[p] in data && data[names[p]] == bytes
  }

  // Both files of height h are there and say exactly what e says.
  ghost predicate Complete(names: Directory, data: map<nat, Bytes>, h: int, e: Entry) {
    && Holds(names, data, Final(Meta, h), MetaBytes(e))
    && (e.kvs.Some? ==> Holds(names, data, Final(Data, h), Frames(e.kvs.value)))
  }

  // The completion marker means completeness.
  ghost predicate Marked(names: Directory, data: map<nat, Bytes>, log: Log) {
    forall h :: Final(Meta, h) in names ==> h in log && Complete(names, data, h, log[h])
  }

  // No two names share an inode, and every name has contents.
  ghost predicate Proper(names: Directory, d: Disk) {
    && (forall p, q :: p in names && q in names && names[p] == names[q] ==> p == q)
    && (forall p :: p in names ==> names[p] < d.nextIno && names[p] in d.data)
  }

  ghost predicate WellFormed(d: Disk) {
    && NamesAt(d, |d.pending|) == d.names
    && (forall k: nat :: k <= |d.pending| ==> Proper(NamesAt(d, k), d))
  }

  // A marker in a directory that a power loss may leave points at the same synced files
  // as the marker that processes see.
  ghost predicate LastingIn(names: Directory, d: Disk, log: Log) {
    forall h :: Final(Meta, h) in names ==>
      && Final(Meta, h) in d.names && names[Final(Meta, h)] == d.names[Final(Meta, h)]
      && names[Final(Meta, h)] in d.synced
      && (h in log && log[h].kvs.Some? ==>
            && Final(Data, h) in names && Final(Data, h) in d.names
            && names[Final(Data, h)] == d.names[Final(Data, h)]
            && names[Final(Data, h)] in d.synced)
  }

  ghost predicate Lasting(d: Disk, log: Log) {
    forall k: nat :: k <= |d.pending| ==> LastingIn(NamesAt(d, k), d, log)
  }

  // The invariant of every image; strict adds survival of power loss.
  ghost predicate Inv(d: Disk, log: Log, strict: bool) {
    && WellFormed(d)
    && Marked(d.names, d.data, log)
    && (strict ==> Lasting(d, log))
  }

  // --- Single calls -------------------------------------------------------------------

  // No marker vouches for the data file of height h: there is none, or its block has no
  // pairs.
  ghost predicate Free(d: Disk, log: Log, h: int) {
    Final(Meta, h) in d.names ==> h in log && log[h].kvs.None?
  }

  // Calls that can meet no file that a marker vouches for.
  ghost predicate Harmless(d: Disk, log: Log, op: Op) {
    match op
    case Open(p) => p.Partial?
    case Write(fd, _) =>
      fd in d.open ==> forall kind, h :: Final(kind, h) in d.names ==> d.names[Final(kind, h)] != d.open[fd].ino
    case Remove(p) => p.Final? ==> p.kind.Data? && Free(d, log, p.height)
    case Rename(source, target) =>
      source.Partial? && target.Final? && target.kind.Data? && Free(d, log, target.height)
    case _ => true
  }

  lemma NamesAtGrown(d: Disk, d': Disk, c: Change, k: nat)
    requires d'.durable == d.durable && d'.pending == d.pending + [c]
    requires k <= |d'.pending|
    ensures k <= |d.pending| ==> NamesAt(d', k) == NamesAt(d, k)
    ensures k == |d'.pending| ==> NamesAt(d', k) == Change1(NamesAt(d, |d.pending|), c)
  {
    if k <= |d.pending| {
      assert d'.pending[..k] == d.pending[..k];
    } else {
      assert d'.pending[..k] == d'.pending;
      assert d'.pending[..|d'.pending| - 1] == d.pending == d.pending[..|d.pending|];
    }
  }

  // The part of the invariant that is about the directory as processes see it.
  lemma Present(d: Disk, log: Log, strict: bool)
    requires Inv(d, log, strict)
    ensures Proper(d.names, d) && Marked(d.names, d.data, log)
    ensures strict ==> LastingIn(d.names, d, log)
  {
    assert Proper(NamesAt(d, |d.pending|), d);
    assert strict ==> LastingIn(NamesAt(d, |d.pending|), d, log);
  }

  // A name that stands for the same file, synced if it was.
  ghost predicate Same(d: Disk, d': Disk, p: Path) {
    p in d.names ==>
      && p in d'.names && d'.names[p] == d.names[p]
      && (d.names[p] in d.data ==> d.names[p] in d'.data && d'.data[d.names[p]] == d.data[d.names[p]])
      && (d.names[p] in d.synced ==> d.names[p] in d'.synced)
  }

  // Marked blocks keep their files.
  ghost predicate Undisturbed(d: Disk, d': Disk, log: Log) {
    forall h :: Final(Meta, h) in d.names ==>
      Same(d, d', Final(Meta, h)) && (h in log && log[h].kvs.Some? ==> Same(d, d', Final(Data, h)))
  }

  // A marked block is complete, and in strict mode its files are synced.
  ghost predicate Finished(d: Disk, h: int, log: Log, strict: bool) {
    && h in log
    && Complete(d.names, d.data, h, log[h])
    && (strict ==> d.names[Final(Meta, h)] in d.synced)
    && (strict && log[h].kvs.Some? ==> d.names[Final(Data, h)] in d.synced)
  }

  ghost predicate AllFinished(d: Disk, log: Log, strict: bool) {
    forall h :: Final(Meta, h) in d.names ==> Finished(d, h, log, strict)
  }

  lemma PresentFinished(d: Disk, log: Log, strict: bool)
    requires Inv(d, log, strict)
    ensures AllFinished(d, log, strict)
  {
    Present(d, log, strict);
  }

  lemma StaysFinished(d: Disk, d': Disk, log: Log, strict: bool)
    requires AllFinished(d, log, strict) && Undisturbed(d, d', log)
    requires forall h :: Final(Meta, h) in d'.names && Final(Meta, h) !in d.names ==> Finished(d', h, log, strict)
    ensures AllFinished(d', log, strict)
  {
    hide Frames;
  }

  // A directory that was good for d is good for d', when marked blocks were left alone.
  lemma EarlierKeeps(names: Directory, d: Disk, d': Disk, log: Log)
    requires LastingIn(names, d, log) && Undisturbed(d, d', log)
    ensures LastingIn(names, d', log)
  {
  }

  // A directory change leaves every earlier directory alone.
  lemma GrownKeeps(d: Disk, d': Disk, c: Change, log: Log, strict: bool)
    requires Inv(d, log, strict)
    requires d'.durable == d.durable && d'.pending == d.pending + [c]
    requires d'.names == Change1(d.names, c) && Proper(d'.names, d')
    requires d.nextIno <= d'.nextIno && d.data.Keys <= d'.data.Keys
    requires Undisturbed(d, d', log) && AllFinished(d', log, strict)
    ensures Inv(d', log, strict)
  {
    hide Frames, Complete, Undisturbed;
    NamesAtGrown(d, d', c, |d'.pending|);
    forall k: nat | k <= |d'.pending|
      ensures Proper(NamesAt(d', k), d') && (strict ==> LastingIn(NamesAt(d', k), d', log))
    {
      NamesAtGrown(d, d', c, k);
      if k <= |d.pending| {
        assert Proper(NamesAt(d, k), d);
        if strict {
          EarlierKeeps(NamesAt(d, k), d, d', log);
        }
      } else if strict {
        FinishedIsLasting(d', log);
      }
    }
  }

  lemma FinishedIsLasting(d: Disk, log: Log)
    requires AllFinished(d, log, true)
    ensures LastingIn(d.names, d, log)
  {
    hide Frames;
  }

  // Contents and handles may change as long as marked files do not.
  lemma ContentsKeep(d: Disk, d': Disk, log: Log, strict: bool)
    requires Inv(d, log, strict)
    requires d'.durable == d.durable && d'.pending == d.pending && d'.names == d.names
    requires d.nextIno == d'.nextIno && d.data.Keys <= d'.data.Keys
    requires Undisturbed(d, d', log)
    ensures Inv(d', log, strict)
  {
    PresentFinished(d, log, strict);
    StaysFinished(d, d', log, strict);
    hide Frames, Complete, Undisturbed;
    assert forall k: nat :: k <= |d.pending| ==> NamesAt(d', k) == NamesAt(d, k);
    forall k: nat | k <= |d'.pending|
      ensures Proper(NamesAt(d', k), d') && (strict ==> LastingIn(NamesAt(d', k), d', log))
    {
      assert Proper(NamesAt(d, k), d);
      if strict {
        EarlierKeeps(NamesAt(d, k), d, d', log);
      }
    }
  }

  lemma SyncedDirectoryKeeps(d: Disk, log: Log, strict: bool)
    requires Inv(d, log, strict)
    ensures Inv(d.(durable := d.names, pending := []), log, strict)
  {
    var d' := d.(durable := d.names, pending := []);
    assert NamesAt(d', 0) == d.names;
    assert Proper(NamesAt(d, |d.pending|), d);
    assert strict ==> LastingIn(NamesAt(d, |d.pending|), d, log);
    forall k: nat | k <= |d'.pending|
      ensures Proper(NamesAt(d', k), d') && (strict ==> LastingIn(NamesAt(d', k), d', log))
    {
      assert k == 0;
    }
  }

  lemma OpenKeeps(d: Disk, p: Path, fault: Fault, log: Log, strict: bool)
    requires Inv(d, log, strict) && p.Partial?
    ensures Inv(Do(d, Open(p), fault).disk, log, strict)
  {
    PresentFinished(d, log, strict);
    Present(d, log, strict);
    hide Inv, AllFinished, Marked, LastingIn;
    var d' := Do(d, Open(p), fault).disk;
    if fault.Success? {
      if p in d.names {
        ContentsKeep(d, d', log, strict);
      } else {
        StaysFinished(d, d', log, strict);
        GrownKeeps(d, d', Link(p, d.nextIno), log, strict);
      }
    }
  }

  lemma WriteKeeps(d: Disk, fd: nat, bytes: Bytes, fault: Fault, log: Log, strict: bool)
    requires Inv(d, log, strict) && Harmless(d, log, Write(fd, bytes))
    ensures Inv(Do(d, Write(fd, bytes), fault).disk, log, strict)
  {
    hide Inv;
    ContentsKeep(d, Do(d, Write(fd, bytes), fault).disk, log, strict);
  }

  lemma RemoveKeeps(d: Disk, p: Path, fault: Fault, log: Log, strict: bool)
    requires Inv(d, log, strict) && Harmless(d, log, Remove(p))
    ensures Inv(Do(d, Remove(p), fault).disk, log, strict)
  {
    PresentFinished(d, log, strict);
    Present(d, log, strict);
    hide Inv, AllFinished, Marked, LastingIn;
    var d' := Do(d, Remove(p), fault).disk;
    if p in d.names && fault.Success? {
      StaysFinished(d, d', log, strict);
      GrownKeeps(d, d', Unlink(p), log, strict);
    }
  }

  lemma DataRenameKeeps(d: Disk, source: Path, target: Path, fault: Fault, log: Log, strict: bool)
    requires Inv(d, log, strict) && Harmless(d, log, Rename(source, target))
    ensures Inv(Do(d, Rename(source, target), fault).disk, log, strict)
  {
    PresentFinished(d, log, strict);
    Present(d, log, strict);
    hide Inv, AllFinished, Marked, LastingIn;
    var d' := Do(d, Rename(source, target), fault).disk;
    if source in d.names && fault.Success? {
      StaysFinished(d, d', log, strict);
      GrownKeeps(d, d', Move(source, target), log, strict);
    }
  }

  lemma HarmlessKeeps(d: Disk, op: Op, fault: Fault, log: Log, strict: bool)
    requires Inv(d, log, strict) && Harmless(d, log, op)
    ensures Inv(Do(d, op, fault).disk, log, strict)
    ensures forall h :: Final(Meta, h) in Do(d, op, fault).disk.names <==> Final(Meta, h) in d.names
  {
    match op
    case Open(p) => OpenKeeps(d, p, fault, log, strict);
    case Write(fd, bytes) => WriteKeeps(d, fd, bytes, fault, log, strict);
    case Remove(p) => RemoveKeeps(d, p, fault, log, strict);
    case Rename(source, target) => DataRenameKeeps(d, source, target, fault, log, strict);
    case SyncDir => SyncedDirectoryKeeps(d, log, strict);
    case _ =>
      ContentsKeep(d, Do(d, op, fault).disk, log, strict);
  }

  // A file that is about to become final.
  ghost predicate Staged(d: Disk, p: Path, bytes: Bytes, strict: bool) {
    Holds(d.names, d.data, p, bytes) && (strict ==> d.names[p] in d.synced)
  }

  // The rename that puts the marker in place, once both files are what they should be.
  lemma MarkerKeeps(d: Disk, h: int, fault: Fault, log: Log, strict: bool)
    requires Inv(d, log, strict) && Final(Meta, h) !in d.names && h in log
    requires Staged(d, ArchivePaths.Partial(Meta, h), MetaBytes(log[h]), strict)
    requires log[h].kvs.Some? ==> Staged(d, Final(Data, h), Frames(log[h].kvs.value), strict)
    ensures Inv(Do(d, Rename(ArchivePaths.Partial(Meta, h), Final(Meta, h)), fault).disk, log, strict)
  {
    PresentFinished(d, log, strict);
    Present(d, log, strict);
    hide Inv, AllFinished, Marked, LastingIn, Frames;
    var partial := ArchivePaths.Partial(Meta, h);
    var d' := Do(d, Rename(partial, Final(Meta, h)), fault).disk;
    if partial in d.names && fault.Success? {
      assert Finished(d', h, log, strict);
      StaysFinished(d, d', log, strict);
      GrownKeeps(d, d', Move(partial, Final(Meta, h)), log, strict);
    }
  }
}
