/**
 * The file system under the archive: a directory of names, inodes with contents, open
 * handles with an offset, and the two things a crash distinguishes -- which inodes have
 * had their contents synced, and which directory changes have not reached the disk yet.
 *
 * Every system call either succeeds or fails as the fault script says; a failing write
 * may leave any prefix of its bytes behind.  All quantification over failures is
 * quantification over scripts.
 */
module DiskModel {
  import opened Framing
  import opened ArchivePaths

  datatype Handle = Handle(ino: nat, offset: nat)

  datatype Change =
    | Link(path: Path, ino: nat)
    | Unlink(path: Path)
    | Move(source: Path, target: Path)

  type Directory = map<Path, nat>

  datatype Disk = Disk(
    names: Directory,          // the directory as processes see it
    data: map<nat, Bytes>,     // contents as processes see them
    open: map<nat, Handle>,    // file descriptors
    nextIno: nat,
    nextFd: nat,
    synced: set<nat>,          // inodes whose present contents have reached the disk
    durable: Directory,        // the directory as of its last sync
    pending: seq<Change>)      // what happened to it since, oldest first

  function Change1(dir: Directory, c: Change): Directory {
    match c
    case Link(p, ino) => dir[p := ino]
    case Unlink(p) => dir - {p}
    case Move(source, target) =>
      if source in dir then (dir - {source})[target := dir[source]] else dir
  }

  function Changed(dir: Directory, cs: seq<Change>): Directory {
    if |cs| == 0 then dir else Change1(Changed(dir, cs[..|cs| - 1]), cs[|cs| - 1])
  }

  // The directory found after a power loss that kept the first k pending changes.
  function NamesAt(d: Disk, k: nat): Directory
    requires k <= |d.pending|
  {
    Changed(d.durable, d.pending[..k])
  }

  datatype Op =
    | Open(path: Path)             // create or truncate, for writing
    | Write(fd: nat, bytes: Bytes)
    | Sync(fd: nat)
    | Close(fd: nat)
    | Remove(path: Path)
    | Rename(source: Path, target: Path)
    | OpenDir
    | SyncDir
    | CloseDir

  // How a call ends: as asked, or with an error after `written` bytes reached the file.
  datatype Fault = Success | Failure(written: nat)

  datatype Answer = Answer(disk: Disk, ok: bool)

  function Zeros(n: nat): (s: Bytes)
    ensures |s| == n
  {
    seq(n, i => 0)
  }

  // The contents after writing at an offset; a gap reads as zeros.
  function Overwrite(content: Bytes, offset: nat, bytes: Bytes): Bytes {
    if offset <= |content| then
      content[..offset] + bytes + (if offset + |bytes| <= |content| then content[offset + |bytes|..] else [])
    else
      content + Zeros(offset - |content|) + bytes
  }

  function Store(d: Disk, fd: nat, bytes: Bytes): Disk
    requires fd in d.open
  {
    var h := d.open[fd];
    var before := if h.ino in d.data then d.data[h.ino] else [];
    d.(data := d.data[h.ino := Overwrite(before, h.offset, bytes)],
       open := d.open[fd := Handle(h.ino, h.offset + |bytes|)],
       synced := d.synced - {h.ino})
  }

  function Do(d: Disk, op: Op, fault: Fault): Answer {
    match op
    case Open(p) =>
      if fault.Failure? then Answer(d, false)
      else
        var known := p in d.names;
        var ino := if known then d.names[p] else d.nextIno;
        Answer(
          d.(names := d.names[p := ino],
             data := d.data[ino := []],
             open := d.open[d.nextFd := Handle(ino, 0)],
             nextIno := if known then d.nextIno else d.nextIno + 1,
             nextFd := d.nextFd + 1,
             synced := d.synced - {ino},
             pending := if known then d.pending else d.pending + [Link(p, ino)]),
          true)
    case Write(fd, bytes) =>
      if fd !in d.open then Answer(d, false)
      else if fault.Success? then Answer(Store(d, fd, bytes), true)
      else Answer(Store(d, fd, if fault.written <= |bytes| then bytes[..fault.written] else bytes), false)
    case Sync(fd) =>
      if fd !in d.open || fault.Failure? then Answer(d, false)
      else Answer(d.(synced := d.synced + {d.open[fd].ino}), true)
    case Close(fd) =>
      if fd !in d.open then Answer(d, false)
      else Answer(d.(open := d.open - {fd}), fault.Success?)
    case Remove(p) =>
      if p !in d.names || fault.Failure? then Answer(d, false)
      else Answer(d.(names := d.names - {p}, pending := d.pending + [Unlink(p)]), true)
    case Rename(source, target) =>
      if source !in d.names || fault.Failure? then Answer(d, false)
      else
        Answer(d.(names := (d.names - {source})[target := d.names[source]],
                  pending := d.pending + [Move(source, target)]), true)
    case OpenDir => Answer(d, fault.Success?)
    case SyncDir =>
      if fault.Failure? then Answer(d, false)
      else Answer(d.(durable := d.names, pending := []), true)
    case CloseDir => Answer(d, fault.Success?)
  }

  // A disk together with every image it went through and the script of faults to come.
  datatype World = World(disk: Disk, past: seq<Disk>, script: seq<Fault>) {
    function Fault(): Fault {
      if |past| < |script| then script[|past|] else Success
    }

    // What a crash during the run so far could interrupt.
    function Images(): (images: seq<Disk>)
      ensures |images| == |past| + 1
    {
      past + [disk]
    }
  }

  datatype Reply = Reply(world: World, ok: bool)

  function Call(w: World, op: Op): (r: Reply)
    ensures r.world.past == w.past + [w.disk] && r.world.script == w.script
  {
    var a := Do(w.disk, op, w.Fault());
    Reply(World(a.disk, w.past + [w.disk], w.script), a.ok)
  }

  // The machine comes back after the process died: names and contents stand as seen.
  function Reboot(d: Disk): Disk {
    d.(open := map[])
  }

  // The machine comes back after a power loss: some number of the pending directory
  // changes made it, in order, and contents survive for synced inodes only.
  ghost predicate PowerLoss(d: Disk, found: Disk) {
    && (exists k: nat :: k <= |d.pending| && found.names == NamesAt(d, k))
    && found.data.Keys == d.data.Keys
    && (forall ino :: ino in d.synced && ino in d.data ==> found.data[ino] == d.data[ino])
    && found.open == map[]
    && found.nextIno == d.nextIno
    && found.synced == found.data.Keys
    && found.durable == found.names && found.pending == []
  }

  // How bad a power loss may be: any number of the pending changes, and any contents at all
  // for what was not synced.
  lemma AnythingUnsyncedGoes(d: Disk, k: nat, contents: map<nat, Bytes>)
    requires k <= |d.pending| && contents.Keys == d.data.Keys
    ensures exists found :: PowerLoss(d, found) && found.names == NamesAt(d, k) &&
              forall ino :: ino in d.data && ino !in d.synced ==> found.data[ino] == contents[ino]
  {
    var data := map ino | ino in d.data :: if ino in d.synced then d.data[ino] else contents[ino];
    var found := Disk(NamesAt(d, k), data, map[], d.nextIno, d.nextFd, data.Keys, NamesAt(d, k), []);
    assert PowerLoss(d, found);
  }

  // And how bad a write: it may fail with any part of its bytes in the file.
  lemma FailedWriteLeavesAny(d: Disk, fd: nat, bytes: Bytes, part: nat)
    requires fd in d.open && part <= |bytes|
    ensures exists fault :: var a := Do(d, Write(fd, bytes), fault);
                            !a.ok && a.disk == Do(d, Write(fd, bytes[..part]), Success).disk
  {
    var a := Do(d, Write(fd, bytes), Failure(part));
    assert !a.ok && a.disk == Do(d, Write(fd, bytes[..part]), Success).disk;
  }
}
