/** The installer of the operations helper: it replaces a set of protected files one by one and
    publishes the sudo entry last; on a failure, and on request, it puts the old files back. Any
    single operation may fail before or after it has taken effect. */
module Installer {

  import opened Common

  type Byte = b: nat | b < 256

  datatype File = File(content: seq<Byte>, mode: nat)

  /** The targets in their fixed order; the sudo entry is one of them. */
  const TARGETS := 8
  const SUDOERS := 6
  const MANIFEST := 7

  /** The modes the installer gives its files. */
  const MODES := [493, 493, 493, 420, 420, 384, 288, 384]

  const READ_LIMIT := 1_048_576
  const REPLACE_LIMIT := 65_536
  const MANIFEST_LIMIT := 8_192
  const MAX_MODE := 511

  type Disk = d: seq<Option<File>> | |d| == TARGETS witness seq(TARGETS, _ => None)

  type Contents = c: seq<seq<Byte>> | |c| == TARGETS witness seq(TARGETS, _ => [])

  /** Writable by group or others. */
  predicate SharedWrite(mode: nat) {
    (mode / 16) % 2 == 1 || (mode / 2) % 2 == 1
  }

  predicate Readable(f: Option<File>, limit: nat) {
    f.Some? ==> |f.value.content| <= limit && !SharedWrite(f.value.mode)
  }

  function ContentOf(f: Option<File>): Option<seq<Byte>> {
    if f.Some? then Some(f.value.content) else None
  }

  /** What the installer puts in place. */
  function NewFiles(new_: Contents): Disk {
    seq(TARGETS, t requires 0 <= t < TARGETS => Some(File(new_[t], MODES[t])))
  }

  ghost predicate SameOthers(a: Disk, b: Disk) {
    forall t :: 0 <= t < TARGETS && t != SUDOERS ==> a[t] == b[t]
  }

  /** While the sudo entry is there, the other files are the complete old or the complete new set. */
  ghost predicate Coherent(d: Disk, old_: Disk, new_: Disk) {
    d[SUDOERS].Some? ==> SameOthers(d, old_) || SameOthers(d, new_)
  }

  datatype Fault = NoFault | Before | After

  /** A complete saved state. Digests stand for contents: SHA-256 is taken to be injective. */
  datatype Snapshot = Snapshot(previous: seq<Option<seq<Byte>>>, files: Disk, published: Contents)

  datatype Outcome = Installed | Rejected | Revoked | RecoveryIncomplete

  datatype Restored = Complete | Refused | Incomplete

  /** The saved modes a restore accepts. */
  predicate RestorableMode(f: Option<File>) {
    f.Some? ==> !SharedWrite(f.value.mode) && f.value.mode <= MAX_MODE
  }

  predicate Restorable(s: Snapshot) {
    && |s.previous| == TARGETS
    && (forall t :: 0 <= t < TARGETS ==> ContentOf(s.files[t]) == s.previous[t])
    && (forall t :: 0 <= t < TARGETS ==> RestorableMode(s.files[t]) && Readable(s.files[t], READ_LIMIT))
  }

  predicate AllReadable(d: Disk, limit: nat) {
    forall t :: 0 <= t < TARGETS ==> Readable(d[t], limit)
  }

  lemma WithoutEntry(d: Disk, limit: nat)
    ensures AllReadable(d, limit) <==> Readable(d[SUDOERS], limit) && AllReadable(d[SUDOERS := None], limit)
  {
    var e := d[SUDOERS := None];
    assert forall t :: 0 <= t < TARGETS && t != SUDOERS ==> e[t] == d[t];
  }

  class Host {
    var disk: Disk
    var saved: map<nat, Snapshot>
    /** The faults still to come, in order; none once they are used up. */
    var faults: seq<Fault>
    /** Every state the disk has been in. */
    ghost var trace: seq<Disk>

    ghost predicate Valid()
      reads this
    {
      trace != [] && trace[|trace| - 1] == disk
    }

    constructor (disk: Disk, faults: seq<Fault>)
      ensures Valid() && this.disk == disk && this.faults == faults && saved == map[]
    {
      this.disk, this.faults, saved, trace := disk, faults, map[], [disk];
    }

    method NextFault() returns (f: Fault)
      modifies this`faults
      ensures old(faults) == [] ==> f == NoFault && faults == []
    {
      if faults == [] {
        return NoFault;
      }
      f, faults := faults[0], faults[1..];
    }

    /** An external command. */
    method Command() returns (ok: bool)
      modifies this`faults
      ensures old(faults) == [] ==> ok && faults == []
    {
      var f := NextFault();
      ok := f == NoFault;
    }

    /** Replaces or removes one file; the file in its place must be readable within the replace limit. */
    method Put(t: nat, f: Option<File>) returns (ok: bool)
      requires Valid() && t < TARGETS
      modifies this`disk, this`faults, this`trace
      ensures Valid()
      ensures (disk == old(disk) && trace == old(trace)) || (disk == old(disk)[t := f] && trace == old(trace) + [disk])
      ensures ok ==> disk == old(disk)[t := f] && Readable(old(disk)[t], REPLACE_LIMIT)
      ensures old(faults) == [] ==> faults == [] && ok == Readable(old(disk)[t], REPLACE_LIMIT)
      ensures !Readable(old(disk)[t], REPLACE_LIMIT) ==> disk == old(disk)
    {
      var fault := NextFault();
      if fault == Before || !Readable(disk[t], REPLACE_LIMIT) {
        return false;
      }
      disk := disk[t := f];
      trace := trace + [disk];
      ok := fault == NoFault;
    }

    /** Replaces all files but the sudo entry, which is absent meanwhile. */
    method PutOthers(files: Disk) returns (ok: bool)
      requires Valid() && disk[SUDOERS].None?
      modifies this`disk, this`faults, this`trace
      ensures Valid() && old(trace) <= trace && disk[SUDOERS].None?
      ensures forall i :: |old(trace)| <= i < |trace| ==> trace[i][SUDOERS].None?
      ensures ok ==> SameOthers(disk, files)
      ensures old(faults) == [] ==> faults == [] && ok == AllReadable(old(disk), REPLACE_LIMIT)
    {
      for t := 0 to TARGETS
        invariant Valid() && old(trace) <= trace && disk[SUDOERS].None?
        invariant forall i :: |old(trace)| <= i < |trace| ==> trace[i][SUDOERS].None?
        invariant forall u :: 0 <= u < TARGETS && u != SUDOERS ==> disk[u] == if u < t then files[u] else old(disk)[u]
        invariant old(faults) == [] ==> faults == []
        invariant forall u :: 0 <= u < t ==> Readable(old(disk)[u], REPLACE_LIMIT)
      {
        if t != SUDOERS {
          ok := Put(t, files[t]);
          if !ok {
            return;
          }
        }
      }
      ok := true;
    }

    /** Saves the present files. It fails if one of them cannot be read, and on any error. */
    method TakeSnapshot(name: nat, previous: seq<Option<seq<Byte>>>, new_: Contents) returns (ok: bool)
      modifies this`saved, this`faults
      ensures ok ==> AllReadable(disk, READ_LIMIT)
      ensures saved == if ok then old(saved)[name := Snapshot(previous, disk, new_)] else old(saved)
      ensures old(faults) == [] ==> faults == [] && ok == AllReadable(disk, READ_LIMIT)
    {
      var fault := NextFault();
      var files: Disk := seq(TARGETS, _ => None);
      for t := 0 to TARGETS
        invariant forall u :: 0 <= u < t ==> files[u] == disk[u]
        invariant forall u :: 0 <= u < t ==> Readable(disk[u], READ_LIMIT)
        invariant saved == old(saved) && (old(faults) == [] ==> faults == [])
      {
        if !Readable(disk[t], READ_LIMIT) {
          return false;
        }
        files := files[t := disk[t]];
      }
      if fault != NoFault {
        return false;
      }
      assert files == disk;
      saved := saved[name := Snapshot(previous, files, new_)];
      ok := true;
    }

    /** Puts the saved files back. The sudo entry goes first and is not restored. */
    method RestoreSnapshot(name: nat, requireNew: bool) returns (r: Restored)
      requires Valid()
      modifies this`disk, this`faults, this`trace
      ensures Valid() && old(trace) <= trace
      ensures forall i :: |old(trace)| <= i < |trace| ==> trace[i][SUDOERS].None?
      ensures r == Complete ==>
        name in saved && disk[SUDOERS].None? && SameOthers(disk, saved[name].files)
        && (requireNew ==> SameContents(old(disk), saved[name].published))
      ensures r == Refused ==> disk == old(disk)
      ensures disk[SUDOERS].Some? ==> disk == old(disk)
      ensures old(faults) == [] ==> faults == []
      ensures old(faults) == [] ==>
        (r == Complete <==>
          && name in saved && Restorable(saved[name]) && AllReadable(old(disk), REPLACE_LIMIT)
          && (requireNew ==> SameContents(old(disk), saved[name].published)))
    {
      var readable := Command();
      if !readable || name !in saved || !Restorable(saved[name]) {
        return Refused;
      }
      var s := saved[name];
      if requireNew && !SameContents(disk, s.published) {
        return Refused;
      }
      WithoutEntry(disk, REPLACE_LIMIT);
      var ok := Put(SUDOERS, None);
      if !ok {
        return Incomplete;
      }
      ok := Command();
      if !ok {
        return Incomplete;
      }
      ok := PutOthers(s.files);
      if !ok {
        return Incomplete;
      }
      ok := Command();
      r := if ok then Complete else Incomplete;
    }

    /** Replaces the files. Whatever fails, and at every instant in between, the sudo entry is only
        there beside the complete old or the complete new set. */
    method Install(name: nat, new_: Contents, expected: seq<Option<seq<Byte>>>) returns (r: Outcome)
      requires Valid()
      modifies this
      ensures Valid() && old(trace) <= trace
      ensures forall i :: |old(trace)| <= i < |trace| ==> Coherent(trace[i], old(disk), NewFiles(new_))
      ensures r == Installed ==>
        disk == NewFiles(new_) && name in saved && saved[name] == Snapshot(expected, old(disk), new_)
        && Expected(old(disk), expected)
      ensures r == Rejected ==> disk == old(disk)
      ensures r == Revoked ==> disk[SUDOERS].None? && SameOthers(disk, old(disk))
      ensures old(faults) == [] ==>
        (r == Installed <==> Expected(old(disk), expected) && AllReadable(old(disk), REPLACE_LIMIT)) && faults == []
    {
      var ok := Command();
      if !ok || !Expected(disk, expected) {
        return Rejected;
      }
      ok := TakeSnapshot(name, expected, new_);
      if !ok {
        return Rejected;
      }
      ok := Publish(new_);
      if ok {
        return Installed;
      }
      ok := Put(SUDOERS, None);
      if !ok {
        return RecoveryIncomplete;
      }
      var restored := RestoreSnapshot(name, false);
      r := if restored == Complete then Revoked else RecoveryIncomplete;
    }

    /** The steps of an installation after the snapshot. */
    method Publish(new_: Contents) returns (ok: bool)
      requires Valid()
      modifies this`disk, this`faults, this`trace
      ensures Valid() && old(trace) <= trace
      ensures forall i :: |old(trace)| <= i < |trace| ==> Coherent(trace[i], old(disk), NewFiles(new_))
      ensures Coherent(disk, old(disk), NewFiles(new_))
      ensures ok ==> disk == NewFiles(new_)
      ensures old(faults) == [] ==> faults == [] && ok == AllReadable(old(disk), REPLACE_LIMIT)
    {
      WithoutEntry(disk, REPLACE_LIMIT);
      ok := Put(SUDOERS, None);
      if !ok {
        return;
      }
      ok := PutOthers(NewFiles(new_));
      if !ok {
        return;
      }
      ok := Command();
      if ok {
        ok := Command();
      }
      if !ok {
        return;
      }
      ok := Put(SUDOERS, Some(File(new_[SUDOERS], MODES[SUDOERS])));
      if ok {
        ok := Command();
      }
      if ok {
        ok := Command();
      }
    }
  }

  /** Installation followed by rollback: the other files are back as they were, bytes and modes, and
      there is no sudo entry. If no operation fails of itself, the rollback completes exactly if every
      installed file is within the replace limit and every old mode is plain. */
  method InstallThenRollBack(host: Host, name: nat, new_: Contents, expected: seq<Option<seq<Byte>>>)
    returns (installed: Outcome, restored: Restored)
    requires host.Valid()
    modifies host
    ensures host.Valid()
    ensures installed == Installed && restored == Complete ==>
      host.disk[SUDOERS].None? && SameOthers(host.disk, old(host.disk))
    ensures installed == Installed && old(host.faults) == [] ==>
      (restored == Complete <==>
        && (forall t :: 0 <= t < TARGETS ==> |new_[t]| <= REPLACE_LIMIT)
        && (forall t :: 0 <= t < TARGETS ==> RestorableMode(old(host.disk)[t])))
    ensures installed == Installed && restored == Refused ==> host.disk == NewFiles(new_)
  {
    restored := Refused;
    installed := host.Install(name, new_, expected);
    if installed == Installed {
      restored := host.RestoreSnapshot(name, true);
      NewFilesReadable(new_);
    }
  }

  lemma NewFilesReadable(new_: Contents)
    ensures AllReadable(NewFiles(new_), REPLACE_LIMIT) <==> forall t :: 0 <= t < TARGETS ==> |new_[t]| <= REPLACE_LIMIT
    ensures SameContents(NewFiles(new_), new_)
  {
    assert forall t :: 0 <= t < TARGETS ==> !SharedWrite(MODES[t]);
    assert forall t :: 0 <= t < TARGETS ==> NewFiles(new_)[t] == Some(File(new_[t], MODES[t]));
  }

  predicate SameContents(d: Disk, c: Contents) {
    forall t :: 0 <= t < TARGETS ==> ContentOf(d[t]) == Some(c[t])
  }

  /** The present manifest can be read, and the present files are those the administrator expects. */
  predicate Expected(d: Disk, expected: seq<Option<seq<Byte>>>) {
    |expected| == TARGETS && Readable(d[MANIFEST], MANIFEST_LIMIT) && forall t :: 0 <= t < TARGETS ==> ContentOf(d[t]) == expected[t]
  }
}
