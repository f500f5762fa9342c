/** The whole flush, from the mapped chunks to the log of durable writes. */
module DurableFlush {
  import opened Common
  import opened SliceGraph
  import opened ResidentImage
  import opened SyncOrder
  import opened ResidentFlush

  datatype Result = Flushed | WrongDigest | Failed(why: Outcome)

  function DirSyncs(order: seq<Path>): seq<Action> {
    seq(|order|, i requires 0 <= i < |order| => SyncDir(order[i]))
  }

  /** No directory is synced before a block or before one of its own descendants. */
  ghost predicate BottomUp(log: seq<Action>) {
    forall i, j :: 0 <= i < j < |log| && log[i].SyncDir? ==>
      !log[j].SyncFile? && (log[j].SyncDir? ==> !Ancestor(log[i].path, log[j].path))
  }

  /** Every directory above a synced block is synced. */
  ghost predicate Anchored(log: seq<Action>) {
    forall i, d :: 0 <= i < |log| && log[i].SyncFile? && Ancestor(d, log[i].path) ==> SyncDir(d) in log
  }

  /** The mapping snapshot is written once, at the very end, right after the container directory's sync if there is one. */
  ghost predicate SnapshotLast(log: seq<Action>) {
    && log != [] && log[|log| - 1] == WriteSnapshot
    && (forall i :: 0 <= i < |log| - 1 ==> !log[i].WriteSnapshot?)
    && (|log| > 1 ==> log[|log| - 2] == SyncDir([]))
  }

  ghost predicate AllSynced(disk: Disk, base: Path, segs: seq<Segment>, log: seq<Action>) {
    forall i :: 0 <= i < |segs| ==> SyncFile(NameOf(disk, base, segs[i].key)) in log
  }

  /** The syncs of `files` and then of the directories `order`. */
  function Syncs(files: seq<Path>, order: seq<Path>): seq<Action> {
    FileSyncs(files) + DirSyncs(order)
  }

  lemma SyncsAt(files: seq<Path>, order: seq<Path>, i: nat)
    requires i < |files| + |order|
    ensures |Syncs(files, order)| == |files| + |order|
    ensures Syncs(files, order)[i] == if i < |files| then SyncFile(files[i]) else SyncDir(order[i - |files|])
  {
  }

  /** However far the directory syncs got, no directory came before something below it. */
  lemma SyncsAreBottomUp(dirs: set<Path>, files: seq<Path>, order: seq<Path>, done: nat)
    requires Sorted(order) && multiset(order) == multiset(dirs) && [] in dirs && done <= |order| && forall d :: d in dirs ==> Plain(d)
    ensures BottomUp(Syncs(files, order[..done])) && WriteSnapshot !in Syncs(files, order[..done])
  {
    OrderIsBottomUp(dirs, order);
    var log := Syncs(files, order[..done]);
    forall i, j | 0 <= i < j < |log| && log[i].SyncDir?
      ensures !log[j].SyncFile? && (log[j].SyncDir? ==> !Ancestor(log[i].path, log[j].path))
    {
      SyncsAt(files, order[..done], i);
      SyncsAt(files, order[..done], j);
    }
    forall i | 0 <= i < |log| ensures log[i] != WriteSnapshot {
      SyncsAt(files, order[..done], i);
    }
  }

  lemma SyncsAreComplete(disk: Disk, base: Path, st: Reading, order: seq<Path>)
    requires BlocksSynced(disk, base, st.segs, st.files, st.dirs) && forall d :: d in st.dirs ==> d in order
    ensures Anchored(Syncs(st.files, order)) && AllSynced(disk, base, st.segs, Syncs(st.files, order))
  {
    var log := Syncs(st.files, order);
    forall i, d | 0 <= i < |log| && log[i].SyncFile? && Ancestor(d, log[i].path) ensures SyncDir(d) in log {
      SyncsAt(st.files, order, i);
      assert d in st.dirs;
      var k :| 0 <= k < |order| && order[k] == d;
      SyncsAt(st.files, order, |st.files| + k);
    }
    forall i | 0 <= i < |st.segs| ensures SyncFile(NameOf(disk, base, st.segs[i].key)) in log {
      var k :| 0 <= k < |st.files| && st.files[k] == NameOf(disk, base, st.segs[i].key);
      SyncsAt(st.files, order, k);
    }
  }

  /**
   What a log may be at any moment: directories bottom-up, and a snapshot only
   at the end and only over blocks that are all synced and all anchored.
   */
  ghost predicate Safe(disk: Disk, base: Path, segs: seq<Segment>, log: seq<Action>) {
    BottomUp(log) && (WriteSnapshot in log ==> SnapshotLast(log) && AllSynced(disk, base, segs, log) && Anchored(log))
  }

  /** A crash leaves a prefix of the log, which is safe too. */
  lemma CrashIsSafe(disk: Disk, base: Path, segs: seq<Segment>, log: seq<Action>, k: nat)
    requires Safe(disk, base, segs, log) && k <= |log|
    ensures Safe(disk, base, segs, log[..k])
  {
    if WriteSnapshot in log[..k] {
      assert k == |log|;
      assert log[..k] == log;
    }
  }

  /** The snapshot over a complete, ordered log of syncs. */
  lemma SnapshotIsSafe(disk: Disk, base: Path, segs: seq<Segment>, syncs: seq<Action>)
    requires BottomUp(syncs) && WriteSnapshot !in syncs && AllSynced(disk, base, segs, syncs) && Anchored(syncs)
    requires syncs != [] ==> syncs[|syncs| - 1] == SyncDir([])
    ensures Safe(disk, base, segs, syncs + [WriteSnapshot])
  {
    var log := syncs + [WriteSnapshot];
    assert forall i :: 0 <= i < |syncs| ==> log[i] == syncs[i];
    assert forall x :: x in syncs ==> x in log;
    assert SnapshotLast(log);
    assert AllSynced(disk, base, segs, log);
    assert Anchored(log);
  }

  /**
   Syncs the recorded directories one after the other and appends each sync to
   the log; it stops at the first outside check that does not go.
   */
  method SyncDirectories(dirs: set<Path>, goes: nat -> bool, n: nat, before: seq<Action>)
    returns (log: seq<Action>, order: seq<Path>, done: nat, checks: nat, ok: bool)
    ensures Sorted(order) && multiset(order) == multiset(dirs) && done <= |order|
    ensures log == before + DirSyncs(order[..done])
    ensures ok ==> done == |order|
    ensures !ok ==> !goes(checks)
  {
    order := Order(dirs);
    log, checks, done := before, n, 0;
    while done < |order|
      invariant done <= |order| && log == before + DirSyncs(order[..done])
    {
      if !goes(checks) {
        return log, order, done, checks, false;
      }
      if !goes(checks + 1) {
        return log, order, done, checks + 1, false;
      }
      log := log + [SyncDir(order[done])];
      assert DirSyncs(order[..done + 1]) == DirSyncs(order[..done]) + [SyncDir(order[done])];
      checks, done := checks + 2, done + 1;
    }
    ok := true;
  }

  /** The mapping snapshot is written between two rounds of outside checks. */
  method WriteMappings(goes: nat -> bool, n: nat, syncs: seq<Action>) returns (r: Result, log: seq<Action>)
    ensures log == syncs || log == syncs + [WriteSnapshot]
    ensures r.Flushed? ==> log == syncs + [WriteSnapshot]
    ensures !r.Flushed? ==> r.Failed? && r.why.Stopped? && !goes(r.why.check)
  {
    log := syncs;
    if !goes(n) {
      return Failed(Stopped(n)), log;
    }
    log := log + [WriteSnapshot];
    if !goes(n + 1) {
      return Failed(Stopped(n + 1)), log;
    }
    if !goes(n + 2) {
      return Failed(Stopped(n + 2)), log;
    }
    r := Flushed;
  }

  lemma FileSyncsAreSafe(disk: Disk, base: Path, segs: seq<Segment>, files: seq<Path>)
    ensures Safe(disk, base, segs, FileSyncs(files)) && WriteSnapshot !in FileSyncs(files)
  {
  }

  /** Syncs the directories bottom-up and then writes the mapping snapshot. */
  method MakeDurable(disk: Disk, base: Path, st: Reading, goes: nat -> bool, n: nat, files: seq<Action>)
    returns (r: Result, log: seq<Action>)
    requires Recorded(disk, st.dirs) && BlocksSynced(disk, base, st.segs, st.files, st.dirs) && files == FileSyncs(st.files)
    ensures Safe(disk, base, st.segs, log)
    ensures r.Flushed? ==> WriteSnapshot in log
    ensures !r.Flushed? ==> r.Failed? && r.why.Stopped? && !goes(r.why.check)
  {
    var order, done, checks, ok;
    log, order, done, checks, ok := SyncDirectories(st.dirs.Keys, goes, n, files);
    SyncsAreBottomUp(st.dirs.Keys, st.files, order, done);
    assert log == Syncs(st.files, order[..done]);
    if !ok {
      return Failed(Stopped(checks)), log;
    }
    assert order[..done] == order;
    OrderIsBottomUp(st.dirs.Keys, order);
    SyncsAreComplete(disk, base, st, order);
    SnapshotIsSafe(disk, base, st.segs, log);
    r, log := WriteMappings(goes, checks, log);
  }

  /**
   The flush. However it ends, `st` is what it has read and recorded and `log`
   what it has made durable, and the log is safe; a snapshot is in it only over
   exactly the bytes of the file under the expected digest. It succeeds only
   with the snapshot, and fails only for a volume directory that is not there, a
   byte that is not resident, a limit really exceeded, a digest that differs on
   the true bytes, or an outside check, which may come after the snapshot.
   */
  method FlushResidentImage(disk: Disk, base: Path, root: Name, chunks: seq<seq<Extent>>, size: nat, blockSize: nat,
                            sha: seq<Octet> -> Name, want: Name, goes: nat -> bool)
    returns (r: Result, st: Reading, log: seq<Action>)
    requires CompleteMap(chunks, size) && blockSize > 0 && Plain(base)
    ensures |st.bytes| <= size && Progress(disk, base, chunks, blockSize, |st.bytes|, st) && Safe(disk, base, st.segs, log)
    ensures WriteSnapshot in log ==> |st.bytes| == size && sha(st.bytes) == want
    ensures r.Flushed? ==> WriteSnapshot in log
    ensures size > 0 && !HasDirs(disk, base) ==> r == Failed(NoVolume)
    ensures r.WrongDigest? ==> |st.bytes| == size && sha(st.bytes) != want
    ensures r.Failed? ==> match r.why
      case Hashed => false
      case NoVolume => size > 0 && !HasDirs(disk, base) && log == []
      case NotResident => |st.bytes| < size && ByteAt(chunks, BlocksOf(disk, base), blockSize, |st.bytes|).None?
      case Stopped(check) => !goes(check)
      case TooLarge => OverLimit(st) && WriteSnapshot !in log
  {
    var dirs := map[[] := root];
    if size == 0 {
      st, log := Reading([], [], [], dirs), [];
      ProgressStart(disk, base, chunks, blockSize, dirs);
      if sha([]) != want {
        return WrongDigest, st, log;
      }
      SnapshotIsSafe(disk, base, [], []);
      r, log := WriteMappings(goes, 0, []);
      return;
    }
    var there;
    there, dirs := WalkDirs(disk, base, dirs);
    if !there {
      st, log := Reading([], [], [], dirs), [];
      ProgressStart(disk, base, chunks, blockSize, dirs);
      return Failed(NoVolume), st, log;
    }
    var hashed, n;
    hashed, st, log, n := HashImage(disk, base, dirs, chunks, size, blockSize, goes);
    FileSyncsAreSafe(disk, base, st.segs, st.files);
    if !hashed.Hashed? {
      return Failed(hashed), st, log;
    }
    if sha(st.bytes) != want {
      return WrongDigest, st, log;
    }
    r, log := MakeDurable(disk, base, st, goes, n, log);
  }
}
