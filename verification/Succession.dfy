/**
 Who may own the volume across engine and owner crashes: the intent file, the
 retirement records and the lifetime lock. Every process may die between any
 two of its steps; a dead process loses the lock. A live owner carries the
 whole owner system of `OwnerRun`.
 */
module Succession {
  import opened Common
  import opened Owner
  import R = OwnerRun

  /** The intent file: a torn unfenced write stays on disk and is never read as an intent. */
  datatype IntentFile = Absent | Torn | Present(intent: Intent)

  datatype Disk = Disk(file: IntentFile, retired: set<Intent>)

  datatype Holder = Engine(e: nat) | OwnerProcess(p: nat)

  /** Control points of an engine choosing an owner intent. */
  datatype EnginePc =
    | Idle
    | Selecting(digest: Name)
    | Chosen(digest: Name, prior: Intent)            // read an intent of this build; its retirement not yet read
    | Fencing(digest: Name, first: Option<Intent>) // about to take the lifetime lock
    | HistoricFencing(digest: Name)                // the intent is of another build or unreadable
    | Fenced(digest: Name, first: Option<Intent>)
    | HistoricFenced(digest: Name)
    | Matched(digest: Name, prior: Intent)           // under the lock, the intent file still holds `prior`
    | Proven(digest: Name, prior: Intent)            // ... and `prior` has its retirement record
    | Unfenced(digest: Name)
    | Creating(digest: Name)                       // found no intent file; about to create it exclusively
    | Launching(next: Intent)                      // durably created; about to start its process
    | Confirming                                   // holds the lock only to read a retirement record

  datatype EngineProc = EngineProc(build: Name, pc: EnginePc)

  datatype Phase = Born | Authorized | Locked | Checked | Serving | Draining | Joined | Publishing | Held | Exited

  datatype OwnerProc = OwnerProc(build: Name, nonce: Name, intent: Intent, phase: Phase, published: bool, sys: R.Sys)

  datatype World = World(
    disk: Disk, lock: Option<Holder>, engines: map<nat, EngineProc>, owners: map<nat, OwnerProc>, used: set<Name>)

  /** The outcome of the outside operation a step waits for, and a freshly drawn intent. */
  datatype Choice = Choice(ok: bool, evidence: bool, next: Intent, pid: nat)

  datatype Event =
    | EngineStarts(e: nat, build: Name)
    | EngineSelects(e: nat, digest: Name)
    | EngineConfirms(e: nat)
    | EngineSteps(e: nat, c: Choice)
    | EngineDies(e: nat)
    | OwnerSteps(p: nat, c: Choice)
    | OwnerWorks(p: nat, ev: R.Event)
    | OwnerDies(p: nat)

  const NoIntent := Intent(EMPTY, EMPTY, EMPTY, EMPTY, EMPTY, EMPTY, EMPTY, EMPTY)

  function Init(): World {
    World(Disk(Absent, {}), None, map[], map[], {})
  }

  predicate EngineHolds(pc: EnginePc) {
    pc.Fenced? || pc.HistoricFenced? || pc.Matched? || pc.Proven? || pc.Confirming?
  }

  predicate OwnerHolds(phase: Phase) {
    !phase.Born? && !phase.Authorized? && !phase.Exited?
  }

  /** From admission under the lock until exit. */
  predicate Admitted(phase: Phase) {
    phase.Serving? || phase.Draining? || phase.Joined? || phase.Publishing? || phase.Held?
  }

  predicate FreshIntent(w: World, i: Intent, build: Name, digest: Name) {
    i.build == build && i.digest == digest && i.instance != EMPTY && i.instance !in w.used
  }

  function Engine'(w: World, e: nat, pc: EnginePc): World
    requires e in w.engines
  {
    w.(engines := w.engines[e := w.engines[e].(pc := pc)])
  }

  /** Ends the selection, dropping the lock if it was held. */
  function GiveUp(w: World, e: nat): World
    requires e in w.engines
  {
    Engine'(w, e, Idle).(lock := if w.lock == Some(Engine(e)) then None else w.lock)
  }

  function TakeLock(w: World, e: nat, pc: EnginePc): World
    requires e in w.engines
  {
    if w.lock.None? then Engine'(w, e, pc).(lock := Some(Engine(e))) else GiveUp(w, e)
  }

  /** The file is written; an error after that still leaves it selected but never launches it. */
  function Publish(w: World, e: nat, next: Intent, ok: bool): World
    requires e in w.engines
  {
    var w' := GiveUp(w, e).(disk := w.disk.(file := Present(next)), used := w.used + {next.instance});
    if ok then Engine'(w', e, Launching(next)) else w'
  }

  function EngineStep(w: World, e: nat, c: Choice): World
    requires e in w.engines
  {
    var E := w.engines[e];
    match E.pc
    case Idle => w
    case Selecting(digest) =>
      (match w.disk.file
       case Absent => Engine'(w, e, Fencing(digest, None))
       case Torn => Engine'(w, e, HistoricFencing(digest))
       case Present(i) => Engine'(w, e, if i.build == E.build then Chosen(digest, i) else HistoricFencing(digest)))
    case Chosen(digest, prior) =>
      if prior in w.disk.retired then Engine'(w, e, Fencing(digest, Some(prior))) else Engine'(w, e, Unfenced(digest))
    case Fencing(digest, first) => TakeLock(w, e, Fenced(digest, first))
    case HistoricFencing(digest) => TakeLock(w, e, HistoricFenced(digest))
    case Fenced(digest, first) =>
      if w.disk.file.Absent? && first.None? then Engine'(w, e, Unfenced(digest)).(lock := w.lock)
      else if w.disk.file.Present? && first == Some(w.disk.file.intent) && w.disk.file.intent.build == E.build
      then Engine'(w, e, Matched(digest, w.disk.file.intent))
      else GiveUp(w, e)
    case HistoricFenced(digest) =>
      if w.disk.file.Present? && w.disk.file.intent.build != E.build && c.evidence
      then Engine'(w, e, Matched(digest, w.disk.file.intent)) else GiveUp(w, e)
    case Matched(digest, prior) => if prior in w.disk.retired then Engine'(w, e, Proven(digest, prior)) else GiveUp(w, e)
    case Proven(digest, prior) =>
      if FreshIntent(w, c.next, E.build, digest) then Publish(w, e, c.next, c.ok) else GiveUp(w, e)
    case Unfenced(digest) =>
      if w.disk.file.Absent? then Engine'(w, e, Creating(digest)) else GiveUp(w, e)
    case Creating(digest) =>
      if !w.disk.file.Absent? || !FreshIntent(w, c.next, E.build, digest) then GiveUp(w, e)
      else if !c.evidence then GiveUp(w, e).(disk := w.disk.(file := Torn), used := w.used + {c.next.instance})
      else Publish(w, e, c.next, c.ok)
    case Launching(next) =>
      if c.ok && c.pid !in w.owners
      then Engine'(w, e, Idle).(owners := w.owners[c.pid := OwnerProc(E.build, next.instance, NoIntent, Born, false, R.Init(NoIntent))])
      else GiveUp(w, e)
    case Confirming => GiveUp(w, e)
  }

  function Owner'(w: World, p: nat, phase: Phase): World
    requires p in w.owners
  {
    w.(owners := w.owners[p := w.owners[p].(phase := phase)])
  }

  function Exit(w: World, p: nat): World
    requires p in w.owners
  {
    Owner'(w, p, Exited).(lock := if w.lock == Some(OwnerProcess(p)) then None else w.lock)
  }

  /** The owner still holds a resource or an unsettled operation. */
  predicate StillLive(o: Owner) {
    o.manager.Some? || o.link.Some? || o.releaseLink.Some? || o.releasePending ||
    exists id :: id in o.ops && o.ops[id].outcome.Pending?
  }

  function OwnerStep(w: World, p: nat, c: Choice): World
    requires p in w.owners
  {
    var o := w.owners[p];
    match o.phase
    case Born =>
      if w.disk.file.Present? && w.disk.file.intent.build == o.build && w.disk.file.intent.instance == o.nonce
      then w.(owners := w.owners[p := o.(phase := Authorized, intent := w.disk.file.intent, sys := R.Init(w.disk.file.intent))])
      else Exit(w, p)
    case Authorized => if w.lock.None? then Owner'(w, p, Locked).(lock := Some(OwnerProcess(p))) else Exit(w, p)
    case Locked => if w.disk.file == Present(o.intent) then Owner'(w, p, Checked) else Exit(w, p)
    case Checked => if o.intent !in w.disk.retired then Owner'(w, p, Serving) else Exit(w, p)
    case Serving => Owner'(w, p, Draining)
    case Draining => if o.sys.reqs == map[] && c.ok then Owner'(w, p, Joined) else if c.ok then w else Owner'(w, p, Held)
    case Joined =>
      if o.sys.o.terminal && !StillLive(o.sys.o) && c.evidence then Owner'(w, p, Publishing)
      else if o.sys.o.terminal || StillLive(o.sys.o) then Owner'(w, p, Held)
      else Exit(w, p)
    case Publishing =>
      if w.disk.file != Present(o.intent) then w
      else
        var w' := w.(disk := w.disk.(retired := w.disk.retired + {o.intent}), owners := w.owners[p := o.(published := true)]);
        if c.ok then Exit(w', p) else w'
    case Held => w
    case Exited => w
  }

  /** Goroutines run as long as the process does; requests are taken only while it serves. */
  predicate Takes(phase: Phase, ev: R.Event) {
    phase.Serving? || (Admitted(phase) && (ev.Advance? || ev.RequestReturns?))
  }

  function Next(w: World, ev: Event): World {
    match ev
    case EngineStarts(e, build) => if e in w.engines then w else w.(engines := w.engines[e := EngineProc(build, Idle)])
    case EngineSelects(e, digest) => if e in w.engines && w.engines[e].pc.Idle? then Engine'(w, e, Selecting(digest)) else w
    case EngineConfirms(e) => if e in w.engines && w.engines[e].pc.Idle? then TakeLock(w, e, Confirming) else w
    case EngineSteps(e, c) => if e in w.engines then EngineStep(w, e, c) else w
    case EngineDies(e) => if e in w.engines then GiveUp(w, e) else w
    case OwnerSteps(p, c) => if p in w.owners then OwnerStep(w, p, c) else w
    case OwnerWorks(p, e) =>
      if p in w.owners && Takes(w.owners[p].phase, e)
      then w.(owners := w.owners[p := w.owners[p].(sys := R.Next(w.owners[p].sys, e))]) else w
    case OwnerDies(p) => if p in w.owners then Exit(w, p) else w
  }

  function Run(w: World, es: seq<Event>): World
    decreases |es|
  {
    if es == [] then w else Run(Next(w, es[0]), es[1..])
  }
}
