/**
 The durable serving intent: one revisioned record that Start, Stop, NFS
 completion and crash recovery race on. Every operation reads the record,
 checks it, and writes it whole; a write may be durable, may not happen, or may
 happen without the caller learning so.
 */
module Desired {
  import opened Common
  import O = Owner

  const MAX_REVISION: nat := 0xFFFF_FFFF_FFFF_FFFF

  datatype State = Pending | Running | Recovering | Stopped

  datatype Phase = NoNFS | NFSPending | NFSBound

  /** A requested configuration; the secret part never reaches the disk. */
  datatype Config = Config(public: Name, secret: Name)

  datatype Record = Record(
    version: int, build: Name, root: Name, revision: nat, desired: State, config: Config,
    owner: Option<O.Intent>, phase: Phase, nfs: Option<Name>)

  /** The running build and its isolation root. */
  datatype Site = Site(build: Name, root: Name)

  /** The record's own file, and the archive of records whose retired owner belonged to another build. */
  datatype Disk = Disk(file: Option<Record>, archive: map<Name, Option<Record>>)

  datatype Landing = Durable | Lost | Uncertain

  /** How creating an archive file ends: kept, not created, cut short, or whole without the caller learning so. */
  datatype Archiving = Kept | Missing | Cut | Unsure

  /**
   What the outside decides about one read and write: whether the retirement of
   a predecessor of another build is proven at the read and at the write, and
   how the archive and the record itself land.
   */
  datatype Write = Write(landing: Landing, provenAtRead: bool, provenAtWrite: bool, archiving: Archiving)

  datatype Outcome = Outcome(disk: Disk, ok: bool)

  function Persistable(c: Config): Config {
    c.(secret := EMPTY)
  }

  predicate ValidIntent(site: Site, i: O.Intent) {
    && site.build != EMPTY && i.build == site.build && i.root == site.root && i.digest != EMPTY
    && ValidID(i.instance) && ValidID(i.claimID) && ValidID(i.mountID) && ValidID(i.probeID)
    && i.instance != i.claimID && i.instance != i.mountID && i.instance != i.probeID
    && i.claimID != i.mountID && i.claimID != i.probeID && i.mountID != i.probeID
  }

  /** The parser's checks, whatever build wrote the record. */
  predicate Canonical(site: Site, r: Record) {
    && r.version == 1 && r.build != EMPTY && r.root == site.root && 0 < r.revision <= MAX_REVISION
    && (r.phase.NoNFS? ==> r.nfs.None?)
    && (r.phase.NFSBound? ==> r.nfs.Some? && r.nfs.value != EMPTY)
  }

  /** The reader's checks on a record of this build. */
  predicate Accepts(site: Site, r: Record) {
    && Canonical(site, r) && r.build == site.build
    && (r.desired.Running? || r.desired.Recovering? ==> r.owner.Some? && ValidIntent(site, r.owner.value))
  }

  /** A stopped record whose retirement can be proven at all; the proof itself comes from outside. */
  predicate Retired(r: Record, proven: bool) {
    && r.desired.Stopped? && !r.phase.NFSPending? && proven
    && if r.owner.None? then r.phase.NoNFS? && r.nfs.None? else r.owner.value.build == r.build
  }

  /** A record of another build is read only if it is stopped, and once it had an owner or NFS, retired. */
  predicate Reads(site: Site, r: Record, proven: bool) {
    if r.build == site.build then Accepts(site, r)
    else Canonical(site, r) && r.desired.Stopped? && ((r.owner.None? && r.phase.NoNFS?) || Retired(r, proven))
  }

  /** A record of this build: the only one that can be read and is not stopped. */
  predicate Readable(site: Site, file: Option<Record>) {
    file.Some? && Accepts(site, file.value)
  }

  /** A record under which an owner of another build served. */
  predicate Legacy(site: Site, r: Record) {
    r.build != site.build && r.owner.Some?
  }

  /** An archive file is created once and never replaced; a later attempt must find exactly the same record. */
  function Archive(archive: map<Name, Option<Record>>, r: Record, a: Archiving): (map<Name, Option<Record>>, bool)
    requires r.owner.Some?
  {
    var leaf := r.owner.value.instance;
    if leaf in archive then (archive, archive[leaf] == Some(r) && a.Kept?)
    else
      match a
      case Kept => (archive[leaf := Some(r)], true)
      case Missing => (archive, false)
      case Cut => (archive[leaf := None], false)
      case Unsure => (archive[leaf := Some(r)], false)
  }

  function Land(d: Disk, r: Record, landing: Landing): Outcome {
    if landing.Lost? then Outcome(d, false) else Outcome(d.(file := Some(r)), landing.Durable?)
  }

  /** An owner of another build is kept only by a stopped record of that build. */
  predicate ForeignOwner(site: Site, r: Record) {
    r.owner.Some? && r.owner.value.build != site.build
  }

  /** What is written for `r`: version, build and root are set and the secret is stripped. */
  function Stamped(site: Site, r: Record): Record {
    r.(version := 1, build := if ForeignOwner(site, r) then r.build else site.build, root := site.root,
       config := Persistable(r.config))
  }

  /** Over a retired predecessor: its own repeated stop, or a fresh Start after the predecessor is archived. */
  function Supersede(d: Disk, prior: Record, r: Record, w: Write): Outcome
    requires prior.owner.Some?
  {
    if !Retired(prior, w.provenAtWrite) || r.revision != prior.revision + 1 then Outcome(d, false)
    else if r.build == prior.build then
      if r.(revision := prior.revision) != prior then Outcome(d, false) else Land(d, r, w.landing)
    else if !r.desired.Pending? || r.owner.Some? || !r.phase.NoNFS? || r.nfs.Some? then Outcome(d, false)
    else
      var (archive, kept) := Archive(d.archive, prior, w.archiving);
      if !kept then Outcome(d.(archive := archive), false) else Land(d.(archive := archive), r, w.landing)
  }

  function Store(site: Site, d: Disk, r: Record, w: Write): Outcome {
    if ForeignOwner(site, r) && (!r.desired.Stopped? || r.build != r.owner.value.build) then Outcome(d, false)
    else if d.file.Some? && !Canonical(site, d.file.value) then Outcome(d, false)
    else if d.file.Some? && Legacy(site, d.file.value) then Supersede(d, d.file.value, Stamped(site, r), w)
    else Land(d, Stamped(site, r), w.landing)
  }

  function Begin(site: Site, d: Disk, c: Config, w: Write): Outcome {
    if d.file.Some? && (!Reads(site, d.file.value, w.provenAtRead) || d.file.value.revision == MAX_REVISION) then Outcome(d, false)
    else
      var next := (if d.file.Some? then d.file.value.revision else 0) + 1;
      Store(site, d, Record(0, EMPTY, EMPTY, next, Pending, c, None, NoNFS, None), w)
  }

  /** A later step of the Start that was admitted under `revision`; a record of another build is stopped, so never this. */
  predicate Current(site: Site, file: Option<Record>, revision: nat) {
    Readable(site, file) && file.value.revision == revision && !file.value.desired.Stopped?
  }

  function Bind(site: Site, d: Disk, revision: nat, i: O.Intent, w: Write): Outcome {
    if !Current(site, d.file, revision) then Outcome(d, false)
    else Store(site, d, d.file.value.(owner := Some(i)), w)
  }

  function Confirm(site: Site, d: Disk, revision: nat, w: Write): Outcome {
    if !Current(site, d.file, revision) || d.file.value.owner.None? || !ValidIntent(site, d.file.value.owner.value) ||
       d.file.value.desired.Running?
    then Outcome(d, false)
    else Store(site, d, d.file.value.(desired := Running), w)
  }

  function MarkPending(site: Site, d: Disk, revision: nat, w: Write): Outcome {
    if revision == 0 || !Current(site, d.file, revision) then Outcome(d, false)
    else Store(site, d, d.file.value.(phase := NFSPending, nfs := None), w)
  }

  function MarkBound(site: Site, d: Disk, revision: nat, operation: Name, w: Write): Outcome {
    if operation == EMPTY || !Current(site, d.file, revision) || !d.file.value.phase.NFSPending? then Outcome(d, false)
    else Store(site, d, d.file.value.(phase := NFSBound, nfs := Some(operation)), w)
  }

  /** The record is still the confirmed one a recovery observed. */
  predicate SameIntent(r: Record, expected: Record) {
    r.revision == expected.revision && r.desired.Running? && r.config == expected.config &&
    r.owner == expected.owner && r.phase == expected.phase
  }

  function Admit(site: Site, d: Disk, expected: Record, w: Write): Outcome {
    if !Readable(site, d.file) || !SameIntent(d.file.value, expected) then Outcome(d, false)
    else Store(site, d, d.file.value.(desired := Recovering), w)
  }

  const Nothing := Record(0, EMPTY, EMPTY, 0, Pending, Config(EMPTY, EMPTY), None, NoNFS, None)

  function Stop(site: Site, d: Disk, w: Write): Outcome {
    if d.file.Some? && (!Reads(site, d.file.value, w.provenAtRead) || d.file.value.revision == MAX_REVISION) then Outcome(d, false)
    else
      var prior := if d.file.Some? then d.file.value else Nothing;
      Store(site, d, prior.(revision := prior.revision + 1, desired := Stopped), w)
  }

  /** Whether the record still is the stop that returned `revision`. */
  predicate StoppedAt(site: Site, file: Option<Record>, revision: nat, proven: bool) {
    revision != 0 && file.Some? && Reads(site, file.value, proven) && file.value.revision == revision && file.value.desired.Stopped?
  }
}
