/**
 Every interleaving of Starts, Stops, late NFS completions, delayed HTTP stops,
 the recovery worker, crashes and engines of other builds over the durable record.
 */
module DesiredRun {
  import opened Common
  import O = Owner
  import opened D = Desired

  /** The one recovery worker; from `Rechecked` on it holds the lifecycle lock. */
  datatype Worker =
    | Resting
    | Observed(seen: Record)    // read a confirmed record whose NFS admission is not uncertain
    | Ready(seen: Record)       // the original NFS mount was observed retired
    | Rechecked(seen: Record)   // re-read under the lifecycle lock, unchanged
    | OwnerFound(seen: Record)  // the original owner answered with the same identity
    | ReadyAgain(seen: Record)  // a second NFS observation
    | Admitted(seen: Record, record: Record)

  /** A replacement engine that was started: what its worker had seen, the record it started from, and the disk then. */
  datatype Started = Started(seen: Record, record: Record, disk: Option<Record>)

  /**
   `engine` is the revision of the Start whose server is up; `stops` the revisions
   of acknowledged HTTP stops whose teardown is still to come; `torn` records the
   teardowns they made.
   */
  datatype World = World(
    site: Site, disk: Disk, active: nat, worker: Worker, engine: Option<nat>, stops: set<nat>,
    starts: seq<Started>, torn: set<(nat, nat)>)

  datatype Event =
    | BeginStart(config: Config, w: Write)
    | BindOwner(revision: nat, intent: O.Intent, w: Write)
    | ConfirmStart(revision: nat, w: Write)
    | NFSPend(revision: nat, w: Write)
    | NFSBind(revision: nat, operation: Name, w: Write)
    | StopNow(http: bool, w: Write)
    | Teardown(revision: nat, proven: bool)
    | AdmitNow(expected: Record, w: Write)
    | WorkerSteps(ok: bool, w: Write)
    | Crash
    | Replaced(build: Name)   // the process is gone and an engine of this or another build takes over

  function Init(site: Site): World {
    World(site, Disk(None, map[]), 0, Resting, None, {}, [], {})
  }

  predicate HoldsLifecycle(k: Worker) {
    k.Rechecked? || k.OwnerFound? || k.ReadyAgain? || k.Admitted?
  }

  /** Equality of everything the worker compares when it re-reads the record. */
  predicate Unchanged(site: Site, file: Option<Record>, seen: Record) {
    Readable(site, file) && SameIntent(file.value, seen) && file.value.nfs == seen.nfs
  }

  function WorkerStep(s: World, ok: bool, w: Write): World {
    match s.worker
    case Resting =>
      if Readable(s.site, s.disk.file) && s.disk.file.value.desired.Running? && !s.disk.file.value.phase.NFSPending?
      then s.(worker := Observed(s.disk.file.value)) else s
    case Observed(seen) => s.(worker := if ok then Ready(seen) else Resting)
    case Ready(seen) => s.(worker := if Unchanged(s.site, s.disk.file, seen) then Rechecked(seen) else Resting)
    case Rechecked(seen) => s.(worker := if ok then OwnerFound(seen) else Resting)
    case OwnerFound(seen) => s.(worker := if ok then ReadyAgain(seen) else Resting)
    case ReadyAgain(seen) =>
      var a := Admit(s.site, s.disk, seen, w);
      if a.ok then s.(disk := a.disk, active := a.disk.file.value.revision, worker := Admitted(seen, a.disk.file.value))
      else s.(disk := a.disk, worker := Resting)
    case Admitted(seen, record) =>
      s.(worker := Resting, engine := if ok then Some(record.revision) else s.engine,
         starts := s.starts + [Started(seen, record, s.disk.file)])
  }

  function Gone(s: World): World {
    s.(active := 0, worker := Resting, engine := None, stops := {})
  }

  function Next(s: World, e: Event): World {
    match e
    case BeginStart(c, w) =>
      if HoldsLifecycle(s.worker) then s
      else
        var b := Begin(s.site, s.disk, c, w);
        if b.ok then s.(disk := b.disk, active := b.disk.file.value.revision, engine := Some(b.disk.file.value.revision)) else s.(disk := b.disk)
    case BindOwner(revision, i, w) =>
      if !HoldsLifecycle(s.worker) && ValidIntent(s.site, i) then s.(disk := Bind(s.site, s.disk, revision, i, w).disk) else s
    case ConfirmStart(revision, w) =>
      if HoldsLifecycle(s.worker) then s else s.(disk := Confirm(s.site, s.disk, revision, w).disk)
    case NFSPend(revision, w) => s.(disk := MarkPending(s.site, s.disk, revision, w).disk)
    case NFSBind(revision, operation, w) => s.(disk := MarkBound(s.site, s.disk, revision, operation, w).disk)
    case StopNow(http, w) =>
      if HoldsLifecycle(s.worker) then s
      else
        var b := Stop(s.site, s.disk, w);
        if !b.ok then s.(disk := b.disk)
        else if http then s.(disk := b.disk, active := 0, stops := s.stops + {b.disk.file.value.revision})
        else s.(disk := b.disk, active := 0, engine := None)
    case Teardown(revision, proven) =>
      if HoldsLifecycle(s.worker) || revision !in s.stops then s
      else if StoppedAt(s.site, s.disk.file, revision, proven) && s.engine.Some?
      then s.(stops := s.stops - {revision}, engine := None, torn := s.torn + {(revision, s.engine.value)})
      else s.(stops := s.stops - {revision})
    case AdmitNow(expected, w) => s.(disk := Admit(s.site, s.disk, expected, w).disk)
    case WorkerSteps(ok, w) => WorkerStep(s, ok, w)
    case Crash => Gone(s)
    case Replaced(build) => if build == EMPTY then s else Gone(s).(site := s.site.(build := build))
  }

  function Run(s: World, es: seq<Event>): World
    decreases |es|
  {
    if es == [] then s else Run(Next(s, es[0]), es[1..])
  }

  // --- the invariant ------------------------------------------------------------------

  /** A record is one that its own build accepts, without a secret. */
  predicate Proper(root: Name, r: Record) {
    Accepts(Site(r.build, root), r) && r.config.secret == EMPTY
  }

  /** The record on disk is proper, and the engine's revision never runs ahead of it. */
  ghost predicate RecordInv(s: World) {
    && s.site.build != EMPTY
    && (s.disk.file.Some? ==> Proper(s.site.root, s.disk.file.value))
    && (s.engine.Some? ==> NotPast(s.disk.file, s.engine.value))
  }

  /** `disk` is `record` up to a mark of the NFS phase, which needs no lifecycle lock. */
  predicate SameButNFS(disk: Option<Record>, record: Record) {
    disk.Some? && disk.value == record.(phase := disk.value.phase, nfs := disk.value.nfs)
  }

  /**
   An admitted recovery is the durable record until its engine starts;
   replacement engines started from records that were observed and were then on
   disk; and stops only tear down what came before them.
   */
  ghost predicate HistoryInv(s: World) {
    && (s.worker.Admitted? ==> StartedFrom(s.worker.seen, s.worker.record) && SameButNFS(s.disk.file, s.worker.record))
    && (forall k :: 0 <= k < |s.starts| ==> StartOK(s.starts[k]))
    && (forall t :: t in s.torn ==> t.1 < t.0)
  }

  predicate StartOK(x: Started) {
    StartedFrom(x.seen, x.record) && SameButNFS(x.disk, x.record)
  }

  ghost predicate Inv(s: World) {
    RecordInv(s) && HistoryInv(s)
  }

  /** The record has reached `revision`, and while it stays there it is not a stop. */
  predicate NotPast(file: Option<Record>, revision: nat) {
    file.Some? && revision <= file.value.revision && (revision == file.value.revision ==> !file.value.desired.Stopped?)
  }

  /** A recovery record is exactly the confirmed record that was observed, marked recovering. */
  predicate StartedFrom(seen: Record, record: Record) {
    record.desired.Recovering? && record.revision == seen.revision && record.config == seen.config &&
    record.owner == seen.owner && record.phase == seen.phase
  }

  lemma WorkerKeepsRecord(s: World, ok: bool, w: Write)
    requires RecordInv(s) && (s.worker.Admitted? ==> SameButNFS(s.disk.file, s.worker.record) && s.worker.record.desired.Recovering?)
    ensures RecordInv(WorkerStep(s, ok, w))
  {
  }

  lemma StopIsProper(site: Site, d: Disk, w: Write)
    requires site.build != EMPTY && (d.file.Some? ==> Proper(site.root, d.file.value))
    ensures var d' := Stop(site, d, w).disk; d'.file.Some? ==> Proper(site.root, d'.file.value)
  {
  }

  lemma NextKeepsRecord(s: World, e: Event)
    requires RecordInv(s) && (s.worker.Admitted? ==> SameButNFS(s.disk.file, s.worker.record) && s.worker.record.desired.Recovering?)
    ensures RecordInv(Next(s, e))
  {
    if e.WorkerSteps? { WorkerKeepsRecord(s, e.ok, e.w); } else if e.StopNow? { StopIsProper(s.site, s.disk, e.w); }
  }

  lemma WorkerKeepsHistory(s: World, ok: bool, w: Write)
    requires Inv(s)
    ensures HistoryInv(WorkerStep(s, ok, w))
  {
  }

  lemma NextKeepsHistory(s: World, e: Event)
    requires Inv(s)
    ensures HistoryInv(Next(s, e))
  {
    if e.WorkerSteps? { WorkerKeepsHistory(s, e.ok, e.w); }
  }

  lemma NextKeepsInv(s: World, e: Event)
    requires Inv(s)
    ensures Inv(Next(s, e))
  {
    NextKeepsRecord(s, e);
    NextKeepsHistory(s, e);
  }

  lemma {:induction false} RunKeepsInv(s: World, es: seq<Event>)
    requires Inv(s)
    ensures Inv(Run(s, es))
    decreases |es|
  {
    if es != [] {
      NextKeepsInv(s, es[0]);
      RunKeepsInv(Next(s, es[0]), es[1..]);
    }
  }

  /**
   In every run, across crashes and engines of any build, the record is accepted
   by the reader of the build that wrote it, has no secret and no NFS authority
   in the "none" phase; every replacement engine started from a recovering
   record equal to the confirmed one its worker observed, and that record was on
   disk when it started, up to an NFS mark; and a delayed HTTP stop only ever
   tears down a Start admitted before it.
   */
  lemma DesiredSafety(site: Site, es: seq<Event>)
    requires site.build != EMPTY
    ensures var s := Run(Init(site), es);
      && (s.disk.file.Some? ==> var r := s.disk.file.value;
            Accepts(Site(r.build, site.root), r) && r.config.secret == EMPTY && (r.phase.NoNFS? ==> r.nfs.None?))
      && (forall k :: 0 <= k < |s.starts| ==> StartedFrom(s.starts[k].seen, s.starts[k].record) && SameButNFS(s.starts[k].disk, s.starts[k].record))
      && (forall t :: t in s.torn ==> t.1 < t.0)
  {
    RunKeepsInv(Init(site), es);
    RunKeepsRoot(Init(site), es);
  }

  lemma {:induction false} RunKeepsRoot(s: World, es: seq<Event>)
    ensures Run(s, es).site.root == s.site.root
    decreases |es|
  {
    if es != [] { RunKeepsRoot(Next(s, es[0]), es[1..]); }
  }

  /** From `at` on: the record only moves to higher revisions, or stays at `n` in a state that satisfies nothing new. */
  ghost predicate PastOrStill(s: World, n: nat, still: Record -> bool) {
    s.disk.file.Some? && (s.disk.file.value.revision > n || (s.disk.file.value.revision == n && still(s.disk.file.value)))
  }

  predicate IsStopped(r: Record) { r.desired.Stopped? }

  predicate NotRunning(r: Record) { !r.desired.Running? }

  lemma StopStep(s: World, n: nat, e: Event)
    requires Inv(s) && PastOrStill(s, n, IsStopped)
    ensures PastOrStill(Next(s, e), n, IsStopped)
    ensures s.disk.file.value.desired.Stopped? && !e.BeginStart? ==> Next(s, e).disk.file.value.desired.Stopped?
  {
  }

  /**
   A stop that returned revision `n` stays: the record never drops below `n`, at
   `n` it is stopped, and it stays stopped until a later Start.
   */
  lemma {:induction false} StopHolds(s: World, n: nat, es: seq<Event>)
    requires Inv(s) && PastOrStill(s, n, IsStopped)
    ensures PastOrStill(Run(s, es), n, IsStopped)
    ensures s.disk.file.value.desired.Stopped? && (forall k :: 0 <= k < |es| ==> !es[k].BeginStart?) ==> Run(s, es).disk.file.value.desired.Stopped?
    decreases |es|
  {
    if es != [] {
      NextKeepsInv(s, es[0]);
      StopStep(s, n, es[0]);
      StopHolds(Next(s, es[0]), n, es[1..]);
    }
  }

  lemma StartsAreFresh(s: World, n: nat, e: Event)
    requires Inv(s) && PastOrStill(s, n, IsStopped)
    ensures s.starts <= Next(s, e).starts
    ensures forall k :: |s.starts| <= k < |Next(s, e).starts| ==> Next(s, e).starts[k].record.revision > n
  {
  }

  /** After an acknowledged stop `n`, every replacement engine that starts belongs to a later Start. */
  lemma {:induction false} NoEngineAfterStop(s: World, n: nat, es: seq<Event>)
    requires Inv(s) && PastOrStill(s, n, IsStopped)
    ensures s.starts <= Run(s, es).starts
    ensures forall k :: |s.starts| <= k < |Run(s, es).starts| ==> Run(s, es).starts[k].record.revision > n
    decreases |es|
  {
    if es != [] {
      NextKeepsInv(s, es[0]);
      StopStep(s, n, es[0]);
      StartsAreFresh(s, n, es[0]);
      NoEngineAfterStop(Next(s, es[0]), n, es[1..]);
    }
  }

  /** A step that belongs to a Start or recovery admitted at `n` or earlier. */
  predicate Late(s: World, e: Event, n: nat) {
    match e
    case BindOwner(revision, _, _) => revision <= n
    case ConfirmStart(revision, _) => revision <= n
    case NFSPend(revision, _) => revision <= n
    case NFSBind(revision, _, _) => revision <= n
    case AdmitNow(expected, _) => expected.revision <= n
    case WorkerSteps(_, _) => s.worker.ReadyAgain? && s.worker.seen.revision <= n
    case _ => false
  }

  /** After an acknowledged stop `n`, no late confirmation, NFS publication or recovery admission changes the record. */
  lemma LateStepsAreRefused(s: World, n: nat, es: seq<Event>, e: Event)
    requires Inv(s) && PastOrStill(s, n, IsStopped) && Late(Run(s, es), e, n)
    ensures Next(Run(s, es), e).disk == Run(s, es).disk
  {
    StopHolds(s, n, es);
  }

  /** The record of revision `n` waits for its confirmation. */
  predicate Confirmable(site: Site, file: Option<Record>, n: nat) {
    Current(site, file, n) && file.value.owner.Some? && ValidIntent(site, file.value.owner.value) && !file.value.desired.Running?
  }

  /** A confirmation of revision `n` that is admitted and not lost, whether or not its caller learns so. */
  predicate Confirms(s: World, e: Event, n: nat) {
    e.ConfirmStart? && e.revision == n && !HoldsLifecycle(s.worker) && Confirmable(s.site, s.disk.file, n) && !e.w.landing.Lost?
  }

  /** These are exactly the confirmations that change the disk. */
  lemma ConfirmsReachesDisk(s: World, e: Event, n: nat)
    requires Inv(s) && e.ConfirmStart? && e.revision == n
    ensures Confirms(s, e, n) <==> Next(s, e).disk != s.disk
  {
  }

  predicate Unconfirmed(s: World, es: seq<Event>, n: nat)
    decreases |es|
  {
    es == [] || (!Confirms(s, es[0], n) && Unconfirmed(Next(s, es[0]), es[1..], n))
  }

  lemma RecoveryStep(s: World, n: nat, e: Event)
    requires Inv(s) && PastOrStill(s, n, NotRunning) && !Confirms(s, e, n)
    ensures PastOrStill(Next(s, e), n, NotRunning)
  {
    RevisionStep(s, e);
    RunningStep(s, e, n);
  }

  /**
   Between two recovery admissions of the same revision a confirmation reaches
   the disk: an interrupted recovery is never replayed.
   */
  lemma {:induction false} RecoveryNeedsConfirmation(s: World, n: nat, es: seq<Event>, again: Record, w: Write)
    requires Inv(s) && PastOrStill(s, n, NotRunning) && again.revision == n && Unconfirmed(s, es, n)
    ensures var s' := Run(s, es); Admit(s'.site, s'.disk, again, w) == Outcome(s'.disk, false)
    decreases |es|
  {
    if es != [] {
      NextKeepsInv(s, es[0]);
      RecoveryStep(s, n, es[0]);
      RecoveryNeedsConfirmation(Next(s, es[0]), n, es[1..], again, w);
    }
  }

  /** An admission leaves the record in exactly the state from which the lemma above starts. */
  lemma AdmittedRecovery(s: World, expected: Record, w: Write, es: seq<Event>, again: Record, w': Write)
    requires Inv(s) && Admit(s.site, s.disk, expected, w).ok && again.revision == expected.revision
    requires Unconfirmed(Next(s, AdmitNow(expected, w)), es, expected.revision)
    ensures var s' := Run(Next(s, AdmitNow(expected, w)), es); !Admit(s'.site, s'.disk, again, w').ok
  {
    NextKeepsInv(s, AdmitNow(expected, w));
    RecoveryNeedsConfirmation(Next(s, AdmitNow(expected, w)), expected.revision, es, again, w');
  }

  /** Some recovery of revision `n` would be admitted, and its write would be durable. */
  ghost predicate CanRecover(site: Site, d: Disk, n: nat) {
    exists expected: Record, w :: expected.revision == n && Admit(site, d, expected, w).ok
  }

  /** The record is running at `n`. */
  predicate RunningAt(d: Disk, n: nat) {
    d.file.Some? && d.file.value.revision == n && d.file.value.desired.Running?
  }

  lemma CanRecoverIff(site: Site, d: Disk, n: nat)
    ensures CanRecover(site, d, n) <==> RunningAt(d, n) && Readable(site, d.file)
  {
    if RunningAt(d, n) && Readable(site, d.file) {
      assert Admit(site, d, d.file.value, Write(Durable, true, true, Kept)).ok;
    }
  }

  /**
   A confirmation that reports a failure lets a recovery in that was not
   possible before exactly when the record waited for it and its write was left
   uncertain.
   */
  lemma FailedConfirmationIff(s: World, n: nat, w: Write)
    requires Inv(s) && !Confirm(s.site, s.disk, n, w).ok
    ensures CanRecover(s.site, Confirm(s.site, s.disk, n, w).disk, n) <==>
            CanRecover(s.site, s.disk, n) || (Confirmable(s.site, s.disk.file, n) && w.landing.Uncertain?)
  {
    CanRecoverIff(s.site, s.disk, n);
    CanRecoverIff(s.site, Confirm(s.site, s.disk, n, w).disk, n);
  }

  /** A Start, a stop or a recovery admission over a running record that is not lost. */
  predicate Ends(s: World, e: Event) {
    && Readable(s.site, s.disk.file)
    && match e
       case BeginStart(_, w) => !HoldsLifecycle(s.worker) && s.disk.file.value.revision < MAX_REVISION && !w.landing.Lost?
       case StopNow(_, w) => !HoldsLifecycle(s.worker) && s.disk.file.value.revision < MAX_REVISION && !w.landing.Lost?
       case AdmitNow(expected, w) => SameIntent(s.disk.file.value, expected) && !w.landing.Lost?
       case WorkerSteps(_, w) => s.worker.ReadyAgain? && SameIntent(s.disk.file.value, s.worker.seen) && !w.landing.Lost?
       case _ => false
  }

  predicate Unended(s: World, es: seq<Event>)
    decreases |es|
  {
    es == [] || (!Ends(s, es[0]) && Unended(Next(s, es[0]), es[1..]))
  }

  /** Some confirmation of `n` reaches the disk, and nothing after it ends what it confirmed. */
  predicate Confirmed(s: World, es: seq<Event>, n: nat)
    decreases |es|
  {
    es != [] && ((Confirms(s, es[0], n) && Unended(Next(s, es[0]), es[1..])) || Confirmed(Next(s, es[0]), es[1..], n))
  }

  lemma WorkerRunning(s: World, ok: bool, w: Write, n: nat)
    requires Inv(s)
    ensures RunningAt(WorkerStep(s, ok, w).disk, n) <==> RunningAt(s.disk, n) && !Ends(s, WorkerSteps(ok, w))
  {
  }

  lemma RunningStep(s: World, e: Event, n: nat)
    requires Inv(s)
    ensures RunningAt(Next(s, e).disk, n) <==> Confirms(s, e, n) || (RunningAt(s.disk, n) && !Ends(s, e))
  {
    if e.WorkerSteps? { WorkerRunning(s, e.ok, e.w, n); }
  }

  /** The record is running at `n` after a run exactly when it was confirmed last, before the run or in it. */
  lemma {:induction false} RunningAfter(s: World, es: seq<Event>, n: nat)
    requires Inv(s)
    ensures RunningAt(Run(s, es).disk, n) <==> Confirmed(s, es, n) || (RunningAt(s.disk, n) && Unended(s, es))
    decreases |es|
  {
    if es != [] {
      NextKeepsInv(s, es[0]);
      RunningStep(s, es[0], n);
      RunningAfter(Next(s, es[0]), es[1..], n);
    }
  }

  /**
   From any state in which no recovery of `n` can be admitted because the
   record is not running at `n`, one can be admitted after a run exactly when a
   confirmation of `n` reached the disk, no Start, stop or recovery came after
   it, and the engine is of the record's build.
   */
  lemma RecoveryIffConfirmed(s: World, es: seq<Event>, n: nat)
    requires Inv(s) && !RunningAt(s.disk, n)
    ensures var s' := Run(s, es);
      CanRecover(s'.site, s'.disk, n) <==> Confirmed(s, es, n) && s'.disk.file.Some? && s'.disk.file.value.build == s'.site.build
  {
    var s' := Run(s, es);
    RunKeepsInv(s, es);
    RunningAfter(s, es, n);
    CanRecoverIff(s'.site, s'.disk, n);
  }

  /** Revisions never decrease and the record never disappears; "bound" is only entered from "pending". */
  lemma RevisionStep(s: World, e: Event)
    requires Inv(s)
    ensures var s' := Next(s, e);
      && (s.disk.file.Some? ==> s'.disk.file.Some? && s.disk.file.value.revision <= s'.disk.file.value.revision)
      && (s'.disk.file.Some? && s'.disk.file.value.phase.NFSBound? ==>
            s.disk.file.Some? && (s.disk.file.value.phase.NFSPending? || (s.disk.file.value.phase.NFSBound? && s'.disk.file.value.nfs == s.disk.file.value.nfs)))
  {
  }

  lemma {:induction false} RevisionsGrow(s: World, es: seq<Event>)
    requires Inv(s) && s.disk.file.Some?
    ensures Run(s, es).disk.file.Some? && s.disk.file.value.revision <= Run(s, es).disk.file.value.revision
    decreases |es|
  {
    if es != [] {
      NextKeepsInv(s, es[0]);
      RevisionStep(s, es[0]);
      RevisionsGrow(Next(s, es[0]), es[1..]);
    }
  }

  // --- records of another build -----------------------------------------------------------

  lemma NextKeepsArchive(s: World, e: Event)
    ensures forall leaf :: leaf in s.disk.archive ==> leaf in Next(s, e).disk.archive && Next(s, e).disk.archive[leaf] == s.disk.archive[leaf]
  {
  }

  /** `r` is `p`, up to the revisions that repeated stops have taken since. */
  predicate SameButRevision(r: Record, p: Record) {
    r.revision >= p.revision && r.(revision := p.revision) == p
  }

  predicate OnFile(d: Disk, p: Record) {
    d.file.Some? && SameButRevision(d.file.value, p)
  }

  predicate InArchive(d: Disk, p: Record)
    requires p.owner.Some?
  {
    var leaf := p.owner.value.instance;
    leaf in d.archive && d.archive[leaf].Some? && SameButRevision(d.archive[leaf].value, p)
  }

  /**
   One step over the record of an owner of another build: a repeated stop takes
   the next revision and changes nothing else, or a fresh Start without owner or
   NFS replaces it, and then the archive holds exactly the replaced record.
   */
  lemma LegacyStep(s: World, e: Event)
    requires Inv(s) && s.disk.file.Some? && Legacy(s.site, s.disk.file.value)
    ensures var p, s' := s.disk.file.value, Next(s, e);
      && s'.disk.file.Some?
      && var r := s'.disk.file.value;
         || r == p
         || (p.desired.Stopped? && r == p.(revision := p.revision + 1))
         || (InArchive(s'.disk, p) && s'.disk.archive[p.owner.value.instance].value == p &&
             r.build == s.site.build && r.desired.Pending? && r.owner.None? && r.phase.NoNFS? && r.revision == p.revision + 1)
  {
  }

  /** No engine of the build `build` takes over during the run. */
  predicate Without(es: seq<Event>, build: Name) {
    forall k :: 0 <= k < |es| ==> es[k] != Replaced(build)
  }

  lemma ProvenanceStep(s: World, p: Record, e: Event)
    requires Inv(s) && p.owner.Some? && s.site.build != p.build && (OnFile(s.disk, p) || InArchive(s.disk, p)) && e != Replaced(p.build)
    ensures var s' := Next(s, e); s'.site.build != p.build && (OnFile(s'.disk, p) || InArchive(s'.disk, p))
  {
    if InArchive(s.disk, p) { NextKeepsArchive(s, e); } else { LegacyStep(s, e); }
  }

  /**
   The record under which an owner of another build served is never lost: while
   no engine of that build takes over, it stays on file or is in the archive,
   unchanged up to the revisions of repeated stops.
   */
  lemma {:induction false} ProvenanceIsKept(s: World, p: Record, es: seq<Event>)
    requires Inv(s) && p.owner.Some? && s.site.build != p.build && (OnFile(s.disk, p) || InArchive(s.disk, p)) && Without(es, p.build)
    ensures var s' := Run(s, es); OnFile(s'.disk, p) || InArchive(s'.disk, p)
    decreases |es|
  {
    if es != [] {
      NextKeepsInv(s, es[0]);
      ProvenanceStep(s, p, es[0]);
      ProvenanceIsKept(Next(s, es[0]), p, es[1..]);
    }
  }

  lemma HeldStep(s: World, e: Event)
    requires Inv(s) && s.disk.file.Some? && s.disk.file.value.build != s.site.build && !s.disk.file.value.desired.Stopped?
    ensures Next(s, e).disk == s.disk
  {
  }

  /** A record of another build that is not stopped is changed by nobody but an engine of its own build. */
  lemma {:induction false} HeldAcrossBuilds(s: World, es: seq<Event>)
    requires Inv(s) && s.disk.file.Some? && s.disk.file.value.build != s.site.build && !s.disk.file.value.desired.Stopped?
    requires Without(es, s.disk.file.value.build)
    ensures Run(s, es).disk == s.disk
    decreases |es|
  {
    if es != [] {
      NextKeepsInv(s, es[0]);
      HeldStep(s, es[0]);
      HeldAcrossBuilds(Next(s, es[0]), es[1..]);
    }
  }

  /**
   With every outside answer favourable, a fresh Start replaces such a record
   exactly when it is retired and no other record is archived in its place.
   */
  lemma ReplaceableIff(s: World, c: Config)
    requires Inv(s) && s.disk.file.Some? && Legacy(s.site, s.disk.file.value)
    ensures var p := s.disk.file.value;
      Begin(s.site, s.disk, c, Write(Durable, true, true, Kept)).ok <==>
      && Retired(p, true) && p.revision < MAX_REVISION
      && (p.owner.value.instance in s.disk.archive ==> s.disk.archive[p.owner.value.instance] == Some(p))
  {
  }

  /** The archive holds something that no repeated stop can make equal to the record on file. */
  predicate Conflict(d: Disk) {
    d.file.Some? && d.file.value.owner.Some? &&
    var leaf := d.file.value.owner.value.instance;
    leaf in d.archive && (d.archive[leaf].Some? ==> d.archive[leaf].value.revision < d.file.value.revision)
  }

  lemma ConflictStep(s: World, e: Event)
    requires Inv(s) && Conflict(s.disk) && Legacy(s.site, s.disk.file.value)
    ensures Conflict(Next(s, e).disk) && SameButRevision(Next(s, e).disk.file.value, s.disk.file.value)
  {
    LegacyStep(s, e);
    NextKeepsArchive(s, e);
  }

  /**
   A cut archive, or a stop repeated after an archive whose Start did not land,
   holds the record: no engine of another build ever starts over it.
   */
  lemma {:induction false} ConflictIsHeld(s: World, es: seq<Event>)
    requires Inv(s) && Conflict(s.disk) && Legacy(s.site, s.disk.file.value) && Without(es, s.disk.file.value.build)
    ensures OnFile(Run(s, es).disk, s.disk.file.value)
    decreases |es|
  {
    if es != [] {
      NextKeepsInv(s, es[0]);
      ConflictStep(s, es[0]);
      ConflictIsHeld(Next(s, es[0]), es[1..]);
    }
  }

  // --- when a record of another build is held for good --------------------------------------

  /**
   Repeated stops and a fresh Start can still replace the record: it is retired,
   and what is archived for it, if anything, is it or a later stop of it.
   */
  predicate Supersedable(d: Disk) {
    && d.file.Some? && d.file.value.owner.Some? && Retired(d.file.value, true)
    && var p, leaf := d.file.value, d.file.value.owner.value.instance;
       if leaf in d.archive
       then d.archive[leaf].Some? && SameButRevision(d.archive[leaf].value, p) && d.archive[leaf].value.revision < MAX_REVISION
       else p.revision < MAX_REVISION
  }

  lemma StuckStep(s: World, e: Event)
    requires Inv(s) && s.disk.file.Some? && Legacy(s.site, s.disk.file.value) && !Supersedable(s.disk)
    ensures var s' := Next(s, e);
      s'.disk.file.Some? && SameButRevision(s'.disk.file.value, s.disk.file.value) && !Supersedable(s'.disk)
  {
    LegacyStep(s, e);
    NextKeepsArchive(s, e);
  }

  lemma {:induction false} StuckIsHeld(s: World, p: Record, es: seq<Event>)
    requires Inv(s) && p.owner.Some? && OnFile(s.disk, p) && s.site.build != p.build && !Supersedable(s.disk) && Without(es, p.build)
    ensures OnFile(Run(s, es).disk, p)
    decreases |es|
  {
    if es != [] {
      NextKeepsInv(s, es[0]);
      StuckStep(s, es[0]);
      StuckIsHeld(Next(s, es[0]), p, es[1..]);
    }
  }

  /** Every outside answer is favourable. */
  const Favourable := Write(Durable, true, true, Kept)

  lemma RepeatedStop(s: World)
    requires Inv(s) && s.disk.file.Some? && Legacy(s.site, s.disk.file.value) && s.worker.Resting?
    requires Retired(s.disk.file.value, true) && s.disk.file.value.revision < MAX_REVISION
    ensures var s' := Next(s, StopNow(false, Favourable));
      s'.disk == s.disk.(file := Some(s.disk.file.value.(revision := s.disk.file.value.revision + 1))) && s'.site == s.site && s'.worker.Resting?
  {
  }

  /** Stops up to the archived revision, and then a Start. */
  lemma {:induction false} SupersedingRun(s: World, c: Config) returns (es: seq<Event>)
    requires Inv(s) && s.disk.file.Some? && Legacy(s.site, s.disk.file.value) && s.worker.Resting? && Supersedable(s.disk)
    ensures forall k :: 0 <= k < |es| ==> !es[k].Replaced?
    ensures Run(s, es).disk.file.Some? && Run(s, es).disk.file.value.build == s.site.build
    decreases MAX_REVISION - s.disk.file.value.revision
  {
    var p := s.disk.file.value;
    var leaf := p.owner.value.instance;
    if leaf in s.disk.archive && s.disk.archive[leaf] != Some(p) {
      var e := StopNow(false, Favourable);
      NextKeepsInv(s, e);
      RepeatedStop(s);
      var rest := SupersedingRun(Next(s, e), c);
      es := [e] + rest;
      assert es[1..] == rest;
      assert forall k :: 0 < k < |es| ==> es[k] == rest[k - 1];
    } else {
      ReplaceableIff(s, c);
      var e := BeginStart(c, Favourable);
      LegacyStep(s, e);
      es := [e];
      assert Run(s, es) == Run(Next(s, e), []);
    }
  }

  /**
   The record of a retired owner of another build is held through every run of
   other builds exactly when its archive, or an exhausted revision, or a missing
   retirement, leaves no way to supersede it.
   */
  lemma HeldForGoodIff(s: World)
    requires Inv(s) && s.disk.file.Some? && Legacy(s.site, s.disk.file.value)
    ensures (forall es :: Without(es, s.disk.file.value.build) ==> OnFile(Run(s, es).disk, s.disk.file.value)) <==> !Supersedable(s.disk)
  {
    var p := s.disk.file.value;
    if Supersedable(s.disk) {
      NextKeepsInv(s, Crash);
      var rest := SupersedingRun(Next(s, Crash), Config(EMPTY, EMPTY));
      var es := [Crash] + rest;
      assert es[1..] == rest;
      assert forall k :: 0 < k < |es| ==> es[k] == rest[k - 1];
      assert Without(es, p.build) && !OnFile(Run(s, es).disk, p);
    } else {
      forall es | Without(es, p.build) ensures OnFile(Run(s, es).disk, p) { StuckIsHeld(s, p, es); }
    }
  }
}
