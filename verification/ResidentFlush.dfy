/**
 The flush of a resident image: read and sync every block, record every
 directory on the way, sync the directories bottom-up, then write the mapping
 snapshot. The disk does not change during the flush; `goes` answers, check by
 check, whether the outside world lets the flush go on (cancellation, a mapping
 that is no longer current, a failing sync).
 */
module ResidentFlush {
  import opened Common
  import opened SliceGraph
  import opened ResidentImage
  import opened SyncOrder

  const MAX_BLOCKS: nat := 0x10_0000

  datatype Node = Dir(identity: Name) | File(content: seq<Octet>)

  type Disk = map<Path, Node>

  datatype Opened = Found(content: seq<Octet>) | Absent | Bad

  predicate RefusedPart(part: string) {
    part == "" || part == "." || part == ".."
  }

  /** What opening `path` yields, component by component from the `k`-th on. */
  function FindFrom(disk: Disk, path: Path, k: nat): Opened
    requires k < |path|
    decreases |path| - k
  {
    if RefusedPart(path[k]) then Bad
    else if path[..k + 1] !in disk then Absent
    else if k == |path| - 1 then
      if disk[path[..k + 1]].File? then Found(disk[path[..k + 1]].content) else Bad
    else if disk[path[..k + 1]].Dir? then FindFrom(disk, path, k + 1)
    else Bad
  }

  function Find(disk: Disk, path: Path): Opened {
    if path == [] then Bad else FindFrom(disk, path, 0)
  }

  /** The recorded directories are directories of the disk under their recorded identity. */
  ghost predicate Recorded(disk: Disk, dirs: map<Path, Name>) {
    && [] in dirs
    && (forall d :: d in dirs ==> Plain(d))
    && (forall d :: d in dirs && d != [] ==> d in disk && disk[d] == Dir(dirs[d]))
  }

  /** `dirs'` keeps every recorded directory and adds all those above `name`. */
  ghost predicate Extends(dirs: map<Path, Name>, dirs': map<Path, Name>, name: Path) {
    (forall d :: d in dirs ==> d in dirs') && (forall d :: Ancestor(d, name) ==> d in dirs')
  }

  /** Walks to a file and records every directory it passes. */
  method Walk(disk: Disk, path: Path, dirs: map<Path, Name>) returns (r: Opened, dirs': map<Path, Name>)
    requires Recorded(disk, dirs) && Plain(path)
    ensures Recorded(disk, dirs') && r == Find(disk, path)
    ensures forall d :: d in dirs ==> d in dirs'
    ensures r.Found? ==> forall d :: Ancestor(d, path) ==> d in dirs'
  {
    dirs' := dirs;
    if path == [] {
      return Bad, dirs';
    }
    for k := 0 to |path| - 1
      invariant Recorded(disk, dirs') && Find(disk, path) == FindFrom(disk, path, k)
      invariant forall d :: d in dirs ==> d in dirs'
      invariant forall i :: 0 <= i <= k ==> path[..i] in dirs'
    {
      var prefix := path[..k + 1];
      if RefusedPart(path[k]) {
        return Bad, dirs';
      }
      if prefix !in disk {
        return Absent, dirs';
      }
      if disk[prefix].File? {
        return Bad, dirs';
      }
      if prefix !in dirs' {
        dirs' := dirs'[prefix := disk[prefix].identity];
      }
    }
    var last := |path| - 1;
    if RefusedPart(path[last]) {
      return Bad, dirs';
    }
    assert path[..last + 1] == path;
    if path !in disk {
      return Absent, dirs';
    }
    if disk[path].Dir? {
      return Bad, dirs';
    }
    return Found(disk[path].content), dirs';
  }

  /** Every component down to `path` itself is a directory. */
  predicate HasDirs(disk: Disk, path: Path) {
    path != [] && forall k :: 0 <= k < |path| ==> !RefusedPart(path[k]) && path[..k + 1] in disk && disk[path[..k + 1]].Dir?
  }

  /** Walks to a directory and records it and every directory it passes. */
  method WalkDirs(disk: Disk, path: Path, dirs: map<Path, Name>) returns (ok: bool, dirs': map<Path, Name>)
    requires Recorded(disk, dirs) && Plain(path)
    ensures ok <==> HasDirs(disk, path)
    ensures Recorded(disk, dirs') && forall d :: d in dirs ==> d in dirs'
    ensures ok ==> path in dirs' && forall d :: Ancestor(d, path) ==> d in dirs'
  {
    dirs' := dirs;
    if path == [] {
      return false, dirs';
    }
    for k := 0 to |path|
      invariant Recorded(disk, dirs') && forall d :: d in dirs ==> d in dirs'
      invariant forall i :: 0 <= i <= k ==> path[..i] in dirs'
      invariant forall i :: 0 <= i < k ==> !RefusedPart(path[i]) && path[..i + 1] in disk && disk[path[..i + 1]].Dir?
    {
      var prefix := path[..k + 1];
      if RefusedPart(path[k]) || prefix !in disk || disk[prefix].File? {
        return false, dirs';
      }
      if prefix !in dirs' {
        dirs' := dirs'[prefix := disk[prefix].identity];
      }
    }
    assert path[..|path|] == path;
    return true, dirs';
  }

  // --- the names of a block --------------------------------------------------------------

  function Digit(d: nat): char
    requires d < 16
  {
    "0123456789ABCDEF"[d]
  }

  function Decimal(n: nat): string {
    if n < 10 then [Digit(n)] else Decimal(n / 10) + [Digit(n % 10)]
  }

  lemma {:induction false} DecimalIsPlain(n: nat)
    ensures PlainPart(Decimal(n))
    decreases n
  {
    if n >= 10 { DecimalIsPlain(n / 10); }
  }

  function FileName(key: Key): string {
    Decimal(key.id) + "_" + Decimal(key.block) + "_" + Decimal(key.length)
  }

  function PlainName(base: Path, key: Key): Path {
    base + [Decimal(key.id / 1000 / 1000), Decimal(key.id / 1000), FileName(key)]
  }

  function HashedName(base: Path, key: Key): Path {
    base + [[Digit(key.id % 256 / 16), Digit(key.id % 16)], Decimal(key.id / 1000 / 1000), FileName(key)]
  }

  lemma NamesArePlain(base: Path, key: Key)
    requires Plain(base)
    ensures Plain(PlainName(base, key)) && Plain(HashedName(base, key))
  {
    DecimalIsPlain(key.id / 1000 / 1000);
    DecimalIsPlain(key.id / 1000);
    DecimalIsPlain(key.id);
    DecimalIsPlain(key.block);
    DecimalIsPlain(key.length);
  }

  /** A block is opened under its plain name, or under its hashed name where there is no plain one. */
  function NameOf(disk: Disk, base: Path, key: Key): Path {
    if Find(disk, PlainName(base, key)).Absent? then HashedName(base, key) else PlainName(base, key)
  }

  /** The blocks of the volume, by key. */
  function BlocksOf(disk: Disk, base: Path): Blocks {
    (key: Key) =>
      var found := Find(disk, NameOf(disk, base, key));
      if found.Found? then Some(found.content) else None
  }

  method OpenBlock(disk: Disk, base: Path, key: Key, dirs: map<Path, Name>)
    returns (content: Option<seq<Octet>>, name: Path, dirs': map<Path, Name>)
    requires Recorded(disk, dirs) && Plain(base)
    ensures Recorded(disk, dirs') && name == NameOf(disk, base, key) && content == BlocksOf(disk, base)(key)
    ensures content.Some? ==> Extends(dirs, dirs', name)
  {
    NamesArePlain(base, key);
    name := PlainName(base, key);
    var r;
    r, dirs' := Walk(disk, name, dirs);
    if r.Absent? {
      name := HashedName(base, key);
      r, dirs' := Walk(disk, name, dirs');
    }
    content := if r.Found? then Some(r.content) else None;
  }

  // --- reading and syncing the blocks ------------------------------------------------------

  /** The hashed bytes, the segments they came in, the files synced and the directories recorded so far. */
  datatype Reading = Reading(bytes: seq<Octet>, segs: seq<Segment>, files: seq<Path>, dirs: map<Path, Name>)

  /** `check` is the outside check that did not go. */
  datatype Outcome = Hashed | NoVolume | NotResident | Stopped(check: nat) | TooLarge

  /** What has been made durable, in order; the snapshot counts from the attempt to write it. */
  datatype Action = SyncFile(path: Path) | SyncDir(path: Path) | WriteSnapshot

  function FileSyncs(files: seq<Path>): seq<Action> {
    seq(|files|, i requires 0 <= i < |files| => SyncFile(files[i]))
  }

  /** Every segment's block was synced, once, and every directory above it recorded. */
  ghost predicate BlocksSynced(disk: Disk, base: Path, segs: seq<Segment>, files: seq<Path>, dirs: map<Path, Name>) {
    && (forall i :: 0 <= i < |segs| ==> NameOf(disk, base, segs[i].key) in files)
    && (forall i, j :: 0 <= i < j < |files| ==> files[i] != files[j])
    && (forall i, d :: 0 <= i < |files| && Ancestor(d, files[i]) ==> d in dirs)
  }

  /** The first `off` bytes were read, in segments that tile them. */
  ghost predicate ReadUpTo(chunks: seq<seq<Extent>>, blocks: Blocks, blockSize: nat, off: nat, bytes: seq<Octet>, segs: seq<Segment>)
    requires blockSize > 0
  {
    |bytes| == off && Shows(chunks, blocks, blockSize, bytes) && Tiles(chunks, blockSize, segs, off)
  }

  /** The loop has read, tiled and synced the file up to `off`. */
  ghost predicate Progress(disk: Disk, base: Path, chunks: seq<seq<Extent>>, blockSize: nat, off: nat, st: Reading)
    requires blockSize > 0
  {
    && ReadUpTo(chunks, BlocksOf(disk, base), blockSize, off, st.bytes, st.segs)
    && Recorded(disk, st.dirs) && BlocksSynced(disk, base, st.segs, st.files, st.dirs)
  }

  function AddFile(files: seq<Path>, name: Path): seq<Path> {
    if name in files then files else files + [name]
  }

  /** Hashes the segment's part of its block and lists the block's file unless it is listed already. */
  function Advance(st: Reading, s: Segment, content: seq<Octet>, name: Path, dirs: map<Path, Name>): Reading
    requires s.inBlock + s.amount <= |content|
  {
    Reading(st.bytes + content[s.inBlock..s.inBlock + s.amount], st.segs + [s],
            AddFile(st.files, name), dirs)
  }

  /** A segment that was read from its block, opened under `name`. */
  ghost predicate Read(disk: Disk, base: Path, chunks: seq<seq<Extent>>, size: nat, blockSize: nat, off: nat,
                       s: Segment, content: seq<Octet>, name: Path)
  {
    && s.off == off && off + s.amount <= size && Fits(chunks, blockSize, s)
    && BlocksOf(disk, base)(s.key) == Some(content) && |content| == s.key.length && name == NameOf(disk, base, s.key)
  }

  /** A segment whose block cannot be read starts with a byte that is not resident. */
  lemma UnreadableSegment(chunks: seq<seq<Extent>>, blocks: Blocks, size: nat, blockSize: nat, s: Segment)
    requires CompleteMap(chunks, size) && s.off < size && Fits(chunks, blockSize, s) && !Readable(blocks, s.key)
    ensures ByteAt(chunks, blocks, blockSize, s.off).None?
  {
    ChunkExists(size, s.off);
    SegmentBytes(chunks, blocks, blockSize, s, 0);
  }

  method ReadSegment(disk: Disk, base: Path, chunks: seq<seq<Extent>>, size: nat, blockSize: nat, off: nat, dirs: map<Path, Name>)
    returns (s: Option<Segment>, content: seq<Octet>, name: Path, dirs': map<Path, Name>)
    requires CompleteMap(chunks, size) && blockSize > 0 && Plain(base) && off < size && Recorded(disk, dirs)
    ensures s.Some? ==>
      && Read(disk, base, chunks, size, blockSize, off, s.value, content, name)
      && Recorded(disk, dirs') && Extends(dirs, dirs', name)
    ensures s.None? ==> ByteAt(chunks, BlocksOf(disk, base), blockSize, off).None?
  {
    content, name, dirs' := [], [], dirs;
    s := SegmentAt(chunks, size, blockSize, off, BlocksOf(disk, base));
    if s.None? {
      return;
    }
    var block;
    block, name, dirs' := OpenBlock(disk, base, s.value.key, dirs);
    if block.None? || |block.value| != s.value.key.length {
      UnreadableSegment(chunks, BlocksOf(disk, base), size, blockSize, s.value);
      s := None;
    } else {
      content := block.value;
      assert Read(disk, base, chunks, size, blockSize, off, s.value, content, name);
    }
  }

  lemma ProgressStart(disk: Disk, base: Path, chunks: seq<seq<Extent>>, blockSize: nat, dirs: map<Path, Name>)
    requires blockSize > 0 && Recorded(disk, dirs)
    ensures Progress(disk, base, chunks, blockSize, 0, Reading([], [], [], dirs))
  {
  }

  lemma ReadStep(chunks: seq<seq<Extent>>, blocks: Blocks, blockSize: nat, off: nat, bytes: seq<Octet>, segs: seq<Segment>,
                 s: Segment, content: seq<Octet>)
    requires Fits(chunks, blockSize, s) && Resolved(chunks[s.off / CHUNK_SIZE]) && s.off == off
    requires blocks(s.key) == Some(content) && |content| == s.key.length
    requires ReadUpTo(chunks, blocks, blockSize, off, bytes, segs)
    ensures s.inBlock + s.amount <= |content|
    ensures ReadUpTo(chunks, blocks, blockSize, off + s.amount, bytes + content[s.inBlock..s.inBlock + s.amount], segs + [s])
  {
    SegmentExtends(chunks, blocks, blockSize, bytes, s);
    TilesStep(chunks, blockSize, segs, s);
  }

  lemma ReadGoesOn(disk: Disk, base: Path, chunks: seq<seq<Extent>>, size: nat, blockSize: nat, off: nat, st: Reading,
                   s: Segment, content: seq<Octet>, name: Path)
    requires CompleteMap(chunks, size) && blockSize > 0 && off < size
    requires Read(disk, base, chunks, size, blockSize, off, s, content, name)
    requires ReadUpTo(chunks, BlocksOf(disk, base), blockSize, off, st.bytes, st.segs)
    ensures off < off + s.amount <= size && s.inBlock + s.amount <= |content|
    ensures ReadUpTo(chunks, BlocksOf(disk, base), blockSize, off + s.amount, st.bytes + content[s.inBlock..s.inBlock + s.amount], st.segs + [s])
  {
    ChunkExists(size, off);
    ReadStep(chunks, BlocksOf(disk, base), blockSize, off, st.bytes, st.segs, s, content);
  }

  /** One turn of the loop, up to the sync of the file; `first` says whether the file is still to be synced. */
  method ReadNext(disk: Disk, base: Path, chunks: seq<seq<Extent>>, size: nat, blockSize: nat, off: nat, st: Reading)
    returns (ok: bool, st': Reading, off': nat, name: Path, first: bool)
    requires CompleteMap(chunks, size) && blockSize > 0 && Plain(base) && off < size
    requires Progress(disk, base, chunks, blockSize, off, st)
    ensures ok ==> off < off' <= size && Progress(disk, base, chunks, blockSize, off', st')
    ensures ok ==> st'.files == if first then st.files + [name] else st.files
    ensures !ok ==> ByteAt(chunks, BlocksOf(disk, base), blockSize, off).None?
  {
    var s, content, dirs;
    s, content, name, dirs := ReadSegment(disk, base, chunks, size, blockSize, off, st.dirs);
    if s.None? {
      return false, st, off, name, false;
    }
    ReadGoesOn(disk, base, chunks, size, blockSize, off, st, s.value, content, name);
    KeepsSynced(disk, base, st.segs, st.files, st.dirs, s.value, name, dirs);
    st' := Advance(st, s.value, content, name, dirs);
    assert ReadUpTo(chunks, BlocksOf(disk, base), blockSize, off + s.value.amount, st'.bytes, st'.segs);
    assert BlocksSynced(disk, base, st'.segs, st'.files, st'.dirs);
    return true, st', off + s.value.amount, name, name !in st.files;
  }

  lemma KeepsSynced(disk: Disk, base: Path, segs: seq<Segment>, files: seq<Path>, dirs: map<Path, Name>,
                    s: Segment, name: Path, dirs': map<Path, Name>)
    requires BlocksSynced(disk, base, segs, files, dirs) && name == NameOf(disk, base, s.key) && Extends(dirs, dirs', name)
    ensures BlocksSynced(disk, base, segs + [s], AddFile(files, name), dirs')
  {
    var files' := AddFile(files, name);
    forall i | 0 <= i < |segs + [s]| ensures NameOf(disk, base, (segs + [s])[i].key) in files' {
      if i < |segs| { assert NameOf(disk, base, segs[i].key) in files; }
    }
  }

  lemma FileSyncsSnoc(files: seq<Path>, name: Path)
    ensures FileSyncs(files + [name]) == FileSyncs(files) + [SyncFile(name)]
  {
  }

  predicate OverLimit(st: Reading) {
    |st.files| > MAX_BLOCKS || |st.dirs| > 2 * MAX_BLOCKS + 4
  }

  /**
   The hashing loop. However it ends, `st` is what it has read, tiled, synced
   and recorded so far, and `log` holds exactly the syncs it made. It ends with
   the bytes of the whole file, or names a byte that is not resident, the
   outside check that stopped it, or has really exceeded a limit.
   */
  method HashImage(disk: Disk, base: Path, dirs: map<Path, Name>, chunks: seq<seq<Extent>>, size: nat, blockSize: nat, goes: nat -> bool)
    returns (r: Outcome, st: Reading, log: seq<Action>, n: nat)
    requires CompleteMap(chunks, size) && blockSize > 0 && Plain(base) && Recorded(disk, dirs)
    ensures !r.NoVolume?
    ensures |st.bytes| <= size && Progress(disk, base, chunks, blockSize, |st.bytes|, st) && log == FileSyncs(st.files)
    ensures r.Hashed? ==> |st.bytes| == size
    ensures r.NotResident? ==> |st.bytes| < size && ByteAt(chunks, BlocksOf(disk, base), blockSize, |st.bytes|).None?
    ensures r.Stopped? ==> !goes(r.check)
    ensures r.TooLarge? ==> OverLimit(st)
  {
    st, log, n := Reading([], [], [], dirs), [], 0;
    var off := 0;
    ProgressStart(disk, base, chunks, blockSize, dirs);
    while off < size
      invariant off <= size && Progress(disk, base, chunks, blockSize, off, st) && log == FileSyncs(st.files)
      decreases size - off
    {
      if !goes(n) {
        return Stopped(n), st, log, n;
      }
      var ok, st', off', name, first := ReadNext(disk, base, chunks, size, blockSize, off, st);
      if !ok {
        return NotResident, st, log, n;
      }
      if !goes(n + 1) {
        return Stopped(n + 1), st, log, n;
      }
      n := n + 2;
      if first {
        if !goes(n) {
          return Stopped(n), st, log, n;
        }
        FileSyncsSnoc(st.files, name);
        log, n := log + [SyncFile(name)], n + 1;
      }
      st, off := st', off';
      assert |st.bytes| == off;
      if |st.files| > MAX_BLOCKS || |st.dirs| > 2 * MAX_BLOCKS + 4 {
        return TooLarge, st, log, n;
      }
    }
    r := Hashed;
  }
}
