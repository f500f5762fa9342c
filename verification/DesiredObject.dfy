/** The serving process's view of the durable record: read, check, mutate a copy, write it back. */
module DesiredObject {
  import opened Common
  import O = Owner
  import opened D = Desired

  class ServingDesired {
    const site: Site
    var file: Option<Record>
    var archive: map<Name, Option<Record>>
    var active: nat   // the revision NFS completions of this process publish under

    function Files(): Disk
      reads this
    {
      Disk(file, archive)
    }

    /** A process finds whatever an earlier process, of this or another build, left on disk. */
    constructor (site: Site, found: Disk)
      ensures this.site == site && Files() == found && active == 0
    {
      this.site, file, archive, active := site, found.file, found.archive, 0;
    }

    method ArchivePredecessor(r: Record, a: Archiving) returns (ok: bool)
      requires r.owner.Some?
      modifies this`archive
      ensures (archive, ok) == D.Archive(old(archive), r, a)
    {
      var leaf := r.owner.value.instance;
      if leaf in archive { return archive[leaf] == Some(r) && a.Kept?; }
      if a.Missing? { return false; }
      archive := archive[leaf := if a.Cut? then None else Some(r)];
      return a.Kept?;
    }

    method Write(r: Record, w: D.Write) returns (ok: bool)
      modifies this`file, this`archive
      ensures Outcome(Files(), ok) == Store(site, old(Files()), r, w)
    {
      var build := site.build;
      if r.owner.Some? && r.owner.value.build != site.build {
        if !r.desired.Stopped? || r.build != r.owner.value.build { return false; }
        build := r.build;
      }
      var out := r;
      out := out.(version := 1, build := build, root := site.root);
      out := out.(config := Persistable(out.config));
      if file.Some? {
        var previous := file.value;
        if !Canonical(site, previous) { return false; }
        if previous.build != site.build && previous.owner.Some? {
          if !Retired(previous, w.provenAtWrite) { return false; }
          if out.build == previous.build {
            if out.revision != previous.revision + 1 || out.(revision := previous.revision) != previous { return false; }
          } else {
            if !out.desired.Pending? || out.owner.Some? || !out.phase.NoNFS? || out.nfs.Some? ||
               out.revision != previous.revision + 1 {
              return false;
            }
            var kept := ArchivePredecessor(previous, w.archiving);
            if !kept { return false; }
          }
        }
      }
      if w.landing.Lost? { return false; }
      file := Some(out);
      return w.landing.Durable?;
    }

    method BeginStart(c: Config, w: D.Write) returns (revision: Option<nat>)
      modifies this`file, this`archive, this`active
      ensures Outcome(Files(), revision.Some?) == Begin(site, old(Files()), c, w)
      ensures revision.Some? ==> file.Some? && revision.value == file.value.revision == active
      ensures revision.None? ==> active == old(active)
    {
      var prior := 0;
      if file.Some? {
        if !Reads(site, file.value, w.provenAtRead) { return None; }
        prior := file.value.revision;
      }
      if prior == MAX_REVISION { return None; }
      var ok := Write(Record(0, EMPTY, EMPTY, prior + 1, Pending, c, None, NoNFS, None), w);
      if !ok { return None; }
      active := prior + 1;
      return Some(prior + 1);
    }

    method BindOwner(revision: nat, i: O.Intent, w: D.Write) returns (ok: bool)
      modifies this`file, this`archive
      ensures Outcome(Files(), ok) == Bind(site, old(Files()), revision, i, w)
    {
      if !Current(site, file, revision) { return false; }
      var r := file.value;
      r := r.(owner := Some(i));
      ok := Write(r, w);
    }

    method ConfirmStart(revision: nat, w: D.Write) returns (ok: bool)
      modifies this`file, this`archive
      ensures Outcome(Files(), ok) == Confirm(site, old(Files()), revision, w)
    {
      if !Current(site, file, revision) { return false; }
      var r := file.value;
      if r.owner.None? || !ValidIntent(site, r.owner.value) { return false; }
      if !r.desired.Pending? && !r.desired.Recovering? { return false; }
      r := r.(desired := Running);
      ok := Write(r, w);
    }

    method MarkNFSPending(w: D.Write) returns (ok: bool)
      modifies this`file, this`archive
      ensures Outcome(Files(), ok) == MarkPending(site, old(Files()), active, w)
    {
      if active == 0 || !Current(site, file, active) { return false; }
      var r := file.value;
      r := r.(phase := NFSPending, nfs := None);
      ok := Write(r, w);
    }

    method MarkNFSBound(revision: nat, operation: Name, w: D.Write) returns (ok: bool)
      modifies this`file, this`archive
      ensures Outcome(Files(), ok) == MarkBound(site, old(Files()), revision, operation, w)
    {
      if operation == EMPTY { return false; }
      if !Current(site, file, revision) { return false; }
      var r := file.value;
      if !r.phase.NFSPending? { return false; }
      r := r.(phase := NFSBound, nfs := Some(operation));
      ok := Write(r, w);
    }

    method AdmitRecovery(expected: Record, w: D.Write) returns (admitted: Option<Record>)
      modifies this`file, this`archive, this`active
      ensures Outcome(Files(), admitted.Some?) == Admit(site, old(Files()), expected, w)
      ensures admitted.Some? ==> file == admitted && active == admitted.value.revision
      ensures admitted.None? ==> active == old(active)
    {
      if file.None? || !Readable(site, file) { return None; }
      var r := file.value;
      if r.revision != expected.revision || !r.desired.Running? || r.config != expected.config ||
         r.owner != expected.owner || r.phase != expected.phase {
        return None;
      }
      r := r.(desired := Recovering);
      var ok := Write(r, w);
      if !ok { return None; }
      active := r.revision;
      return file;
    }

    method StopServing(w: D.Write) returns (revision: Option<nat>)
      modifies this`file, this`archive, this`active
      ensures Outcome(Files(), revision.Some?) == Stop(site, old(Files()), w)
      ensures revision.Some? ==> file.Some? && revision.value == file.value.revision && active == 0
      ensures revision.None? ==> active == old(active)
    {
      var r := Nothing;
      if file.Some? {
        if !Reads(site, file.value, w.provenAtRead) { return None; }
        r := file.value;
      }
      if r.revision == MAX_REVISION { return None; }
      r := r.(revision := r.revision + 1);
      r := r.(desired := Stopped);
      var ok := Write(r, w);
      if !ok { return None; }
      active := 0;
      return Some(r.revision);
    }
  }
}
