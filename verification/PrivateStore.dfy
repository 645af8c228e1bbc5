/**
 The node-local store: stage, fsync, rename, fsync over one directory, on a disk
 that may lose any unsynced bytes and any subset of unsynced directory changes.
 */
module PrivateStore {
  import opened Common

  type Bytes = seq<bv8>
  type Name = Bytes
  type Inode = nat

  const DOT: bv8 := 46
  const SLASH: bv8 := 47

  /** ".lock" and ".write.next" */
  const LOCK: Name := [46, 108, 111, 99, 107]
  const STAGE: Name := [46, 119, 114, 105, 116, 101, 46, 110, 101, 120, 116]

  predicate IsBasename(name: Name) {
    name != [] && SLASH !in name && 0 !in name && name != [DOT] && name != [DOT, DOT]
  }

  /** `payload_name` */
  predicate IsPayload(name: Name) {
    IsBasename(name) && |name| <= 128 && name[0] != DOT
  }

  // -------------------------------------------------------------- the disk

  datatype DirChange =
    | Link(name: Name, inode: Inode)
    | Unlink(name: Name)
    | Rename(from: Name, name: Name, inode: Inode)

  /**
   `dir` and `cache` are what the running system reads. After a power cut the
   directory is `base` with any subset of `log` applied, and only the bytes of
   inodes in `durable` are known.
   */
  datatype Disk = Disk(
    base: map<Name, Inode>,
    log: seq<DirChange>,
    durable: map<Inode, Bytes>,
    dir: map<Name, Inode>,
    cache: map<Inode, Bytes>)

  function Change(dir: map<Name, Inode>, op: DirChange): map<Name, Inode> {
    match op
    case Link(n, i) => dir[n := i]
    case Unlink(n) => dir - {n}
    case Rename(from, n, i) => (dir - {from})[n := i]
  }

  /** The directory left when only the masked changes reached the disk. */
  function Replay(dir: map<Name, Inode>, log: seq<DirChange>, mask: seq<bool>): map<Name, Inode>
    requires |mask| == |log|
  {
    if log == [] then dir
    else
      var last := |log| - 1;
      var before := Replay(dir, log[..last], mask[..last]);
      if mask[last] then Change(before, log[last]) else before
  }

  function DirOp(d: Disk, op: DirChange): Disk {
    d.(dir := Change(d.dir, op), log := d.log + [op])
  }

  function WriteFile(d: Disk, i: Inode, bytes: Bytes): Disk {
    d.(cache := d.cache[i := bytes], durable := d.durable - {i})
  }

  function SyncFile(d: Disk, i: Inode): Disk
    requires i in d.cache
  {
    d.(durable := d.durable[i := d.cache[i]])
  }

  function SyncDir(d: Disk): Disk {
    d.(base := d.dir, log := [])
  }

  /** Payload names and their contents. */
  function Files(dir: map<Name, Inode>, content: map<Inode, Bytes>): map<Name, Bytes> {
    map n | n in dir && IsPayload(n) && dir[n] in content :: content[dir[n]]
  }

  /** What the running store reads. */
  function Current(d: Disk): map<Name, Bytes> {
    Files(d.dir, d.cache)
  }

  /** A power cut: some changes survive, unsynced inodes hold anything. */
  ghost predicate CrashTo(d: Disk, mask: seq<bool>, content: map<Inode, Bytes>) {
    && |mask| == |d.log|
    && (forall n :: n in Replay(d.base, d.log, mask) ==> Replay(d.base, d.log, mask)[n] in content)
    && (forall i :: i in content && i in d.durable ==> content[i] == d.durable[i])
  }

  function Restarted(d: Disk, mask: seq<bool>, content: map<Inode, Bytes>): Disk
    requires |mask| == |d.log|
  {
    var dir := Replay(d.base, d.log, mask);
    Disk(dir, [], content, dir, content)
  }

  /** What a reopened store shows when the masked changes survived. */
  function Image(d: Disk, mask: seq<bool>): map<Name, Bytes>
    requires |mask| == |d.log|
  {
    Files(Replay(d.base, d.log, mask), d.durable)
  }

  /** Contents that a reopened store may show after a power cut now. */
  ghost predicate CanShow(d: Disk, files: map<Name, Bytes>) {
    exists mask: seq<bool> :: |mask| == |d.log| && files == Image(d, mask)
  }

  function AllTrue(n: nat): seq<bool> { seq(n, i => true) }

  ghost predicate DirSound(d: Disk, dir: map<Name, Inode>) {
    forall n :: n in dir && IsPayload(n) ==>
      dir[n] in d.durable && dir[n] in d.cache && d.cache[dir[n]] == d.durable[dir[n]]
  }

  ghost predicate OpSound(d: Disk, op: DirChange) {
    match op
    case Link(n, _) => !IsPayload(n)
    case Unlink(_) => true
    case Rename(_, n, i) => i in d.durable && i in d.cache && d.cache[i] == d.durable[i]
  }

  /** Whatever a payload name can lead to, now or after a power cut, holds synced bytes. */
  ghost predicate Sound(d: Disk) {
    && d.dir == Replay(d.base, d.log, AllTrue(|d.log|))
    && DirSound(d, d.base)
    && forall op :: op in d.log ==> OpSound(d, op)
  }

  // ------------------------------------------------------------ disk lemmas

  lemma ReplayOneMore(base: map<Name, Inode>, log: seq<DirChange>, op: DirChange, mask: seq<bool>)
    requires |mask| == |log| + 1
    ensures Replay(base, log + [op], mask)
            == if mask[|log|] then Change(Replay(base, log, mask[..|log|]), op) else Replay(base, log, mask[..|log|])
  {
    assert (log + [op])[..|log|] == log;
  }

  lemma {:induction false} ReplaySound(d: Disk, log: seq<DirChange>, mask: seq<bool>)
    requires |mask| == |log| && DirSound(d, d.base) && forall op :: op in log ==> OpSound(d, op)
    ensures DirSound(d, Replay(d.base, log, mask))
  {
    if log != [] {
      var last := |log| - 1;
      assert log[last] in log;
      ReplaySound(d, log[..last], mask[..last]);
    }
  }

  /** What is read now is one of the things a power cut may leave. */
  lemma CurrentCanShow(d: Disk)
    requires Sound(d)
    ensures CanShow(d, Current(d))
  {
    ReplaySound(d, d.log, AllTrue(|d.log|));
    assert Current(d) == Files(d.dir, d.durable);
  }

  /** A reopened store shows one of the foreseen contents, and is sound again. */
  lemma RestartShows(d: Disk, mask: seq<bool>, content: map<Inode, Bytes>)
    requires Sound(d) && CrashTo(d, mask, content)
    ensures Sound(Restarted(d, mask, content)) && CanShow(d, Current(Restarted(d, mask, content)))
  {
    ReplaySound(d, d.log, mask);
    var dir := Replay(d.base, d.log, mask);
    assert Files(dir, content) == Files(dir, d.durable);
  }

  lemma SyncDirShows(d: Disk)
    requires Sound(d)
    ensures Sound(SyncDir(d)) && forall f :: CanShow(SyncDir(d), f) <==> f == Current(d)
  {
    ReplaySound(d, d.log, AllTrue(|d.log|));
    assert Current(d) == Files(d.dir, d.durable);
    assert |AllTrue(0)| == |SyncDir(d).log|;
  }

  lemma OneMoreChange(d: Disk, op: DirChange)
    requires Sound(d) && OpSound(d, op)
    ensures Sound(DirOp(d, op))
  {
    var e := DirOp(d, op);
    ReplayOneMore(d.base, d.log, op, AllTrue(|e.log|));
    assert AllTrue(|e.log|)[..|d.log|] == AllTrue(|d.log|);
    forall o | o in e.log ensures OpSound(e, o) { assert o in d.log || o == op; }
  }

  lemma FilesWithoutHidden(dir: map<Name, Inode>, op: DirChange, content: map<Inode, Bytes>)
    requires !op.Rename? && !IsPayload(op.name)
    ensures Files(Change(dir, op), content) == Files(dir, content)
  {
  }

  lemma ImageShows(d: Disk, mask: seq<bool>)
    requires |mask| == |d.log|
    ensures CanShow(d, Image(d, mask))
  {
  }

  lemma HiddenImage(d: Disk, op: DirChange, mask: seq<bool>)
    requires !op.Rename? && !IsPayload(op.name) && |mask| == |d.log| + 1
    ensures Image(DirOp(d, op), mask) == Image(d, mask[..|d.log|])
  {
    ReplayOneMore(d.base, d.log, op, mask);
    FilesWithoutHidden(Replay(d.base, d.log, mask[..|d.log|]), op, d.durable);
  }

  lemma HiddenChangeShows(d: Disk, op: DirChange, f: map<Name, Bytes>)
    requires !op.Rename? && !IsPayload(op.name) && CanShow(DirOp(d, op), f)
    ensures CanShow(d, f)
  {
    var e := DirOp(d, op);
    var mask: seq<bool> :| |mask| == |e.log| && f == Image(e, mask);
    HiddenImage(d, op, mask);
    ImageShows(d, mask[..|d.log|]);
  }

  /** A change to a hidden name is invisible. */
  lemma HiddenChange(d: Disk, op: DirChange)
    requires Sound(d) && !op.Rename? && !IsPayload(op.name)
    ensures Sound(DirOp(d, op)) && Current(DirOp(d, op)) == Current(d)
    ensures forall f :: CanShow(DirOp(d, op), f) ==> CanShow(d, f)
  {
    OneMoreChange(d, op);
    FilesWithoutHidden(d.dir, op, d.cache);
    forall f | CanShow(DirOp(d, op), f) ensures CanShow(d, f) { HiddenChangeShows(d, op, f); }
  }

  /** Inodes nothing refers to yet. */
  ghost predicate Fresh(d: Disk, i: Inode) {
    && i !in d.cache && i !in d.durable
    && (forall n :: n in d.base ==> d.base[n] != i)
    && (forall n :: n in d.dir ==> d.dir[n] != i)
    && (forall op :: op in d.log && !op.Unlink? ==> op.inode != i)
  }

  /** The inode is reachable through hidden names only. */
  ghost predicate HiddenOnly(d: Disk, i: Inode) {
    && (forall n :: n in d.base && IsPayload(n) ==> d.base[n] != i)
    && (forall op :: op in d.log && op.Rename? ==> op.inode != i)
  }

  lemma {:induction false} HiddenStaysHidden(d: Disk, i: Inode, log: seq<DirChange>, mask: seq<bool>)
    requires |mask| == |log| && HiddenOnly(d, i) && Sound(d) && forall op :: op in log ==> op in d.log
    ensures forall n :: n in Replay(d.base, log, mask) && IsPayload(n) ==> Replay(d.base, log, mask)[n] != i
  {
    if log != [] {
      var last := |log| - 1;
      assert log[last] in log && OpSound(d, log[last]);
      HiddenStaysHidden(d, i, log[..last], mask[..last]);
    }
  }

  ghost predicate AgreeBut(a: map<Inode, Bytes>, b: map<Inode, Bytes>, i: Inode) {
    forall j :: j != i ==> (j in a <==> j in b) && (j in a ==> a[j] == b[j])
  }

  lemma FilesAgree(dir: map<Name, Inode>, a: map<Inode, Bytes>, b: map<Inode, Bytes>, i: Inode)
    requires AgreeBut(a, b, i) && forall n :: n in dir && IsPayload(n) ==> dir[n] != i
    ensures Files(dir, a) == Files(dir, b)
  {
  }

  lemma HiddenBytesSound(d: Disk, e: Disk, i: Inode)
    requires Sound(d) && HiddenOnly(d, i)
    requires e.base == d.base
    requires e.log == d.log
    requires e.dir == d.dir
    requires AgreeBut(e.cache, d.cache, i)
    requires AgreeBut(e.durable, d.durable, i)
    ensures Sound(e) && HiddenOnly(e, i)
  {
    forall op | op in e.log ensures OpSound(e, op) { assert OpSound(d, op); }
  }

  /** Writing or syncing a hidden file is invisible. */
  lemma HiddenBytes(d: Disk, e: Disk, i: Inode)
    requires Sound(d) && HiddenOnly(d, i)
    requires e.base == d.base
    requires e.log == d.log
    requires e.dir == d.dir
    requires AgreeBut(e.cache, d.cache, i)
    requires AgreeBut(e.durable, d.durable, i)
    ensures Sound(e) && HiddenOnly(e, i) && Current(e) == Current(d)
    ensures forall f :: CanShow(e, f) ==> CanShow(d, f)
  {
    HiddenBytesSound(d, e, i);
    HiddenStaysHidden(d, i, d.log, AllTrue(|d.log|));
    FilesAgree(d.dir, e.cache, d.cache, i);
    forall f | CanShow(e, f) ensures CanShow(d, f) {
      var mask: seq<bool> :| |mask| == |e.log| && f == Image(e, mask);
      HiddenStaysHidden(d, i, d.log, mask);
      FilesAgree(Replay(d.base, d.log, mask), e.durable, d.durable, i);
    }
  }

  /** A change of one payload name is all or nothing. */
  ghost predicate ShowsOldOrNew(d: Disk, e: Disk, name: Name, bytes: Bytes) {
    forall f :: CanShow(e, f) ==> CanShow(d, f) || exists g :: CanShow(d, g) && f == g[name := bytes]
  }

  lemma FilesRenamed(dir: map<Name, Inode>, name: Name, i: Inode, content: map<Inode, Bytes>)
    requires IsPayload(name) && i in content
    ensures Files(Change(dir, Rename(STAGE, name, i)), content) == Files(dir, content)[name := content[i]]
  {
    assert !IsPayload(STAGE);
  }

  lemma RenameShows(d: Disk, name: Name, i: Inode, bytes: Bytes)
    requires Sound(d) && IsPayload(name) && i in d.durable && i in d.cache && d.cache[i] == d.durable[i] == bytes
    ensures var e := DirOp(d, Rename(STAGE, name, i));
            Sound(e) && ShowsOldOrNew(d, e, name, bytes) && Current(e) == Current(d)[name := bytes]
  {
    var op := Rename(STAGE, name, i);
    var e := DirOp(d, op);
    OneMoreChange(d, op);
    FilesRenamed(d.dir, name, i, d.cache);
    forall f | CanShow(e, f) ensures CanShow(d, f) || exists g :: CanShow(d, g) && f == g[name := bytes] {
      var mask: seq<bool> :| |mask| == |e.log| && f == Image(e, mask);
      ReplayOneMore(d.base, d.log, op, mask);
      var dir := Replay(d.base, d.log, mask[..|d.log|]);
      FilesRenamed(dir, name, i, d.durable);
      assert CanShow(d, Files(dir, d.durable));
    }
  }

  function Without(files: map<Name, Bytes>, name: Name): map<Name, Bytes> {
    map n | n in files && n != name :: files[n]
  }

  lemma FilesUnlinked(dir: map<Name, Inode>, name: Name, content: map<Inode, Bytes>)
    ensures Files(Change(dir, Unlink(name)), content) == Without(Files(dir, content), name)
  {
  }

  ghost predicate ShowsOldOrWithout(d: Disk, e: Disk, name: Name) {
    forall f :: CanShow(e, f) ==> CanShow(d, f) || exists g :: CanShow(d, g) && f == Without(g, name)
  }

  lemma UnlinkShowsOne(d: Disk, name: Name, mask: seq<bool>)
    requires |mask| == |d.log| + 1
    ensures var before := Files(Replay(d.base, d.log, mask[..|d.log|]), d.durable);
            var after := Files(Replay(d.base, d.log + [Unlink(name)], mask), d.durable);
            CanShow(d, before) && (after == before || after == Without(before, name))
  {
    ReplayOneMore(d.base, d.log, Unlink(name), mask);
    FilesUnlinked(Replay(d.base, d.log, mask[..|d.log|]), name, d.durable);
  }

  lemma UnlinkShows(d: Disk, name: Name)
    requires Sound(d)
    ensures var e := DirOp(d, Unlink(name));
            Sound(e) && ShowsOldOrWithout(d, e, name) && Current(e) == Without(Current(d), name)
  {
    OneMoreChange(d, Unlink(name));
    FilesUnlinked(d.dir, name, d.cache);
    var e := DirOp(d, Unlink(name));
    forall f | CanShow(e, f) ensures CanShow(d, f) || exists g :: CanShow(d, g) && f == Without(g, name) {
      var mask: seq<bool> :| |mask| == |e.log| && f == Image(e, mask);
      UnlinkShowsOne(d, name, mask);
    }
  }

  /** The directory is exactly what a power cut would leave. */
  ghost predicate Settled(d: Disk) {
    forall f :: CanShow(d, f) <==> f == Current(d)
  }

  /** A power cut at any point of a write to a settled store: the reopened store shows every other
      name unchanged and this one old or completely new; once the write is settled, only new. */
  lemma ReopenedShowsOldOrNew(d: Disk, e: Disk, name: Name, bytes: Bytes, mask: seq<bool>, content: map<Inode, Bytes>)
    requires Sound(d) && Settled(d) && Sound(e) && ShowsOldOrNew(d, e, name, bytes) && CrashTo(e, mask, content)
    ensures var r := Restarted(e, mask, content);
            && Sound(r) && Settled(r)
            && (Current(r) == Current(d) || Current(r) == Current(d)[name := bytes])
            && (Settled(e) ==> Current(r) == Current(e))
  {
    RestartShows(e, mask, content);
    var r := Restarted(e, mask, content);
    SyncDirShows(r);
    assert SyncDir(r) == r;
  }

  /** No power cut brings the name back. */
  ghost predicate NeverShows(d: Disk, name: Name) {
    forall f :: CanShow(d, f) ==> name !in f
  }

  /** A removal stopped between its unlink and its directory sync: the name is gone for the
      running system, so a repeated removal syncs nothing, but a power cut can bring it back. */
  lemma StoppedRemovalCanReturn(name: Name, bytes: Bytes)
    requires IsPayload(name)
    ensures var d := Disk(map[name := 0], [], map[0 := bytes], map[name := 0], map[0 := bytes]);
            var e := DirOp(d, Unlink(name));
            && Sound(d) && Settled(d) && name in d.dir
            && Sound(e) && name !in e.dir && CanShow(e, map[name := bytes]) && !NeverShows(e, name)
  {
    var d := Disk(map[name := 0], [], map[0 := bytes], map[name := 0], map[0 := bytes]);
    var e := DirOp(d, Unlink(name));
    assert d == SyncDir(d) && Sound(d);
    SyncDirShows(d);
    OneMoreChange(d, Unlink(name));
    ReplayOneMore(d.base, d.log, Unlink(name), [false]);
    assert Image(e, [false]) == map[name := bytes];
    ImageShows(e, [false]);
  }

  /** The bytes found after a power cut: synced inodes keep theirs, the others hold anything. */
  function Found(d: Disk, mask: seq<bool>, garbage: Inode -> Bytes): map<Inode, Bytes>
    requires |mask| == |d.log|
  {
    map i | i in Replay(d.base, d.log, mask).Values :: if i in d.durable then d.durable[i] else garbage(i)
  }

  lemma FoundIsCrash(d: Disk, mask: seq<bool>, garbage: Inode -> Bytes)
    requires |mask| == |d.log|
    ensures CrashTo(d, mask, Found(d, mask, garbage))
  {
    var dir := Replay(d.base, d.log, mask);
    forall n | n in dir ensures dir[n] in Found(d, mask, garbage) { assert dir[n] in dir.Values; }
  }

  /** Dropping the staging entry, synced or not, shows nothing new. */
  lemma StageDropShows(d: Disk)
    requires Sound(d)
    ensures var e := DirOp(d, Unlink(STAGE));
      && Sound(e) && Current(e) == Current(d) && STAGE !in e.dir
      && Sound(SyncDir(e)) && Current(SyncDir(e)) == Current(d)
      && (forall f :: CanShow(e, f) ==> CanShow(d, f))
      && (forall f :: CanShow(SyncDir(e), f) ==> CanShow(d, f))
  {
    var e := DirOp(d, Unlink(STAGE));
    HiddenChange(d, Unlink(STAGE));
    SyncDirShows(e);
    CurrentCanShow(e);
  }

  lemma StageDropIsFresh(d: Disk)
    ensures forall i :: Fresh(d, i) ==> Fresh(DirOp(d, Unlink(STAGE)), i) && Fresh(SyncDir(DirOp(d, Unlink(STAGE))), i)
  {
  }

  // --------------------------------------------------------------- the store

  datatype Outcome = Done | Invalid | Exists | Interrupted

  /** The store under its lock. `budget` is how many disk operations happen before the power
      goes or an operation reports an error, so every budget is one fault point. */
  class Store {
    var disk: Disk

    constructor (disk: Disk)
      ensures this.disk == disk
    {
      this.disk := disk;
    }

    /** The sweep of a stale staging entry that `open` ends and `write_inner` begins with. */
    method DropStage(budget: nat) returns (left: nat, finished: bool)
      requires Sound(disk)
      modifies this
      ensures Sound(disk) && Current(disk) == old(Current(disk))
      ensures forall f :: CanShow(disk, f) ==> CanShow(old(disk), f)
      ensures if finished then STAGE !in disk.dir && left + 2 >= budget else budget < 2
      ensures forall i :: Fresh(old(disk), i) ==> Fresh(disk, i)
      ensures finished && old(disk.log) == [] ==> disk.log == []
    {
      left := budget;
      if STAGE in disk.dir {
        if left < 1 { return left, false; }
        StageDropShows(disk);
        StageDropIsFresh(disk);
        disk := DirOp(disk, Unlink(STAGE));
        if left < 2 { return 0, false; }
        disk := SyncDir(disk);
        left := left - 2;
      }
      return left, true;
    }

    /** `open`, from the point where the lock is held. */
    method Open(budget: nat) returns (r: Outcome)
      requires Sound(disk)
      modifies this
      ensures Sound(disk) && Current(disk) == old(Current(disk))
      ensures forall f :: CanShow(disk, f) ==> CanShow(old(disk), f)
      ensures if r == Done then STAGE !in disk.dir else r == Interrupted && budget < 2
      ensures r == Done && old(disk.log) == [] ==> disk.log == []
    {
      var left, finished := DropStage(budget);
      r := if finished then Done else Interrupted;
    }

    /** `read`; `None` for an absent name is the empty option, an oversized file is an error. */
    method Read(name: Name, maxBytes: nat) returns (r: Outcome, found: bool, bytes: Bytes)
      requires Sound(disk)
      ensures !IsPayload(name) ==> r == Invalid
      ensures IsPayload(name) && name !in Current(disk) ==> r == Done && !found
      ensures IsPayload(name) && name in Current(disk) ==>
        if |Current(disk)[name]| <= maxBytes then r == Done && found && bytes == Current(disk)[name]
        else r == Invalid
    {
      found, bytes := false, [];
      if !IsPayload(name) { return Invalid, false, []; }
      ReplaySound(disk, disk.log, AllTrue(|disk.log|));
      if name !in disk.dir { return Done, false, []; }
      bytes := disk.cache[disk.dir[name]];
      if |bytes| > maxBytes { return Invalid, false, []; }
      return Done, true, bytes;
    }

    /** `write_inner`: `write` with `createOnly` off, `create` with it on. */
    method WriteInner(name: Name, bytes: Bytes, createOnly: bool, inode: Inode, budget: nat) returns (r: Outcome)
      requires Sound(disk) && Fresh(disk, inode)
      modifies this
      ensures Sound(disk)
      ensures ShowsOldOrNew(old(disk), disk, name, bytes)
      ensures Current(disk) == old(Current(disk)) || Current(disk) == old(Current(disk))[name := bytes]
      ensures r == Done ==> Current(disk) == old(Current(disk))[name := bytes] && Settled(disk)
      ensures r == Invalid <==> !IsPayload(name)
      ensures r == Exists <==> IsPayload(name) && createOnly && name in old(disk.dir)
      ensures r == Invalid || r == Exists ==> disk == old(disk)
      ensures r == Interrupted ==> budget < 7
    {
      if !IsPayload(name) { return Invalid; }
      if createOnly && name in disk.dir { return Exists; }
      var left, finished := DropStage(budget);
      if !finished || left < 1 { return Interrupted; }
      HiddenChange(disk, Link(STAGE, inode));
      disk := DirOp(disk, Link(STAGE, inode));
      if left < 2 { return Interrupted; }
      HiddenBytes(disk, WriteFile(disk, inode, bytes), inode);
      disk := WriteFile(disk, inode, bytes);
      if left < 3 { return Interrupted; }
      HiddenBytes(disk, SyncFile(disk, inode), inode);
      disk := SyncFile(disk, inode);
      if left < 4 { return Interrupted; }
      RenameShows(disk, name, inode, bytes);
      disk := DirOp(disk, Rename(STAGE, name, inode));
      if left < 5 { return Interrupted; }
      SyncDirShows(disk);
      CurrentCanShow(disk);
      disk := SyncDir(disk);
      return Done;
    }

    /** The power goes: some directory changes survive, and unsynced files hold anything. */
    method PowerCut(survives: nat -> bool, garbage: Inode -> Bytes)
      requires Sound(disk)
      modifies this
      ensures Sound(disk) && Settled(disk) && disk.log == []
      ensures CanShow(old(disk), Current(disk))
    {
      var mask := seq(|disk.log|, survives);
      var content := Found(disk, mask, garbage);
      FoundIsCrash(disk, mask, garbage);
      RestartShows(disk, mask, content);
      disk := Restarted(disk, mask, content);
      SyncDirShows(disk);
      assert SyncDir(disk) == disk;
    }

    /** A write stopped anywhere, a power cut, and the next open. */
    method WriteThenReopen(name: Name, bytes: Bytes, createOnly: bool, inode: Inode, budget: nat,
                           survives: nat -> bool, garbage: Inode -> Bytes, openBudget: nat)
      returns (written: Outcome, reopened: Outcome)
      requires Sound(disk) && Fresh(disk, inode)
      modifies this
      ensures Sound(disk) && Settled(disk)
      ensures CanShow(old(disk), Current(disk))
              || exists g :: CanShow(old(disk), g) && Current(disk) == g[name := bytes]
      ensures Settled(old(disk)) ==>
        Current(disk) == old(Current(disk)) || Current(disk) == old(Current(disk))[name := bytes]
      ensures written == Done ==> Current(disk) == old(Current(disk))[name := bytes]
      ensures written == Invalid || written == Exists ==> CanShow(old(disk), Current(disk))
      ensures written == Invalid <==> !IsPayload(name)
      ensures written == Exists <==> IsPayload(name) && createOnly && name in old(disk.dir)
      ensures written == Interrupted ==> budget < 7
      ensures if reopened == Done then STAGE !in disk.dir && disk.base == disk.dir && disk.log == []
              else reopened == Interrupted && openBudget < 2
    {
      written := WriteInner(name, bytes, createOnly, inode, budget);
      PowerCut(survives, garbage);
      reopened := Open(openBudget);
      CurrentCanShow(disk);
    }

    /** `remove` */
    method Remove(name: Name, budget: nat) returns (r: Outcome)
      requires Sound(disk)
      modifies this
      ensures Sound(disk)
      ensures ShowsOldOrWithout(old(disk), disk, name)
      ensures Current(disk) == old(Current(disk)) || Current(disk) == Without(old(Current(disk)), name)
      ensures r == Done ==> Current(disk) == Without(old(Current(disk)), name)
      ensures r == Done && (name in old(disk.dir) || Settled(old(disk))) ==> Settled(disk)
      ensures r == Done ==> (NeverShows(disk, name) <==> name in old(disk.dir) || NeverShows(old(disk), name))
      ensures r == Invalid <==> !IsPayload(name)
      ensures r == Interrupted ==> name in old(disk.dir) && budget < 2
    {
      if !IsPayload(name) { return Invalid; }
      if name in disk.dir {
        if budget < 1 { return Interrupted; }
        UnlinkShows(disk, name);
        disk := DirOp(disk, Unlink(name));
        if budget < 2 { return Interrupted; }
        SyncDirShows(disk);
        CurrentCanShow(disk);
        disk := SyncDir(disk);
      } else {
        assert Current(disk) == Without(Current(disk), name);
      }
      return Done;
    }

    /** The entries `names` looks at. */
    function Listed(): set<Name>
      reads this
    {
      disk.dir.Keys - {LOCK, STAGE}
    }

    /** `names`: every entry once, in directory order; an error exactly on a foreign name or too many entries. */
    method Names(maxEntries: nat) returns (r: Outcome, names: seq<Name>)
      ensures r == Done || r == Invalid
      ensures r == Done <==> (forall n :: n in Listed() ==> IsPayload(n)) && |Listed()| <= maxEntries
      ensures r == Done ==> (forall n :: n in names <==> n in Listed()) && |names| == |Listed()|
    {
      names := [];
      var todo := Listed();
      while todo != {}
        invariant todo <= Listed() && |names| + |todo| == |Listed()| && |names| <= maxEntries
        invariant forall n :: n in names <==> n in Listed() && n !in todo
        invariant forall n :: n in names ==> IsPayload(n)
        decreases todo
      {
        var n :| n in todo;
        if !IsPayload(n) { return Invalid, []; }
        assert |todo - {n}| == |todo| - 1;
        if |names| >= maxEntries { return Invalid, []; }
        todo := todo - {n};
        names := names + [n];
      }
      return Done, names;
    }
  }

  /** A name the store accepts is one path component, is none of its own entries, and is not hidden. */
  lemma PayloadNames(name: Name)
    ensures IsPayload(name) <==> 0 < |name| <= 128 && name[0] != 46 && 47 !in name && 0 !in name
    ensures IsPayload(name) ==> name != LOCK && name != STAGE && name != [46] && name != [46, 46]
  {
  }
}
