/**
 Every interleaving of the owner's goroutines. An operation admitted by
 `Begin` runs as a thread that advances one locked section or one outside call
 at a time; plain probe and Manager requests run beside the operations. The
 results of outside calls (FUSE, Link, clock) are the inputs of the events.
 */
module OwnerRun {
  import opened Common
  import opened Owner
  import Policy

  datatype Pc =
    | ClaimEnter | ClaimStarting
    | MountEnter | MountCalling(fm: nat) | MountCheck(fm: nat, ok: bool) | Monitoring(fm: nat, ok: bool)
    | MountSettling(fm: nat, ok: bool) | MountLeaving(ok: bool)
    | StopEnter | StopUnmanaged | StopCalling(fm: nat) | StopSettling(fm: nat, complete: bool)
    | Releasing(node: nat) | Released
    | ProbeEnter | ProbeWorking(node: nat) | ProbeCheck(node: nat) | ProbeLeaving(ok: bool)
    | ShutdownEnter
    | Finished(ok: bool)

  /** A request that uses the Link without being an operation. */
  datatype Request = Probing | Enrolling

  /** What has physically happened so far; no section reads it. */
  datatype History = History(
    managers: nat, installed: seq<nat>,
    mountCalls: nat, mountOK: bool, monitorCalls: nat, probeOK: bool,
    stopComplete: bool, releasing: Option<nat>, released: seq<nat>)

  /** `started` counts how often the work of each operation ID was started. */
  datatype Sys = Sys(o: Owner, work: map<Name, Pc>, reqs: map<nat, Request>, h: History, started: multiset<Name>)

  /** The result of the outside call a section waits for. */
  datatype Input = Input(ok: bool, text: Name, manager: nat, node: Option<nat>)

  datatype Event =
    | Submit(kind: Kind, instance: Name, id: Name, payload: Payload)
    | Advance(id: Name, input: Input)
    | ProbeRequest(r: nat)
    | EnrollRequest(r: nat, instance: Name, digest: Name, root: Name, token: Name, epoch: nat, allowed: bool)
    | RequestReturns(r: nat)
    | AttachRequest(instance: Name, digest: Name, root: Name, token: Name, expected: nat)
    | PolicyRequest(instance: Name, digest: Name, root: Name, which: Policy.Which,
                    epoch: nat, expected: nat, first: bool, second: bool)

  function Init(intent: Intent): Sys {
    Sys(Fresh(intent), map[], map[], History(0, [], 0, false, 0, false, false, None, []), multiset{})
  }

  // --- classes of program counters -------------------------------------------

  predicate PreInstall(pc: Pc) { pc.ClaimEnter? || pc.ClaimStarting? }

  /** Between setting and clearing the owner's mount flag. */
  predicate MountBusy(pc: Pc) {
    pc.MountCalling? || pc.MountCheck? || pc.Monitoring? || pc.MountSettling? || pc.MountLeaving?
  }

  predicate MountPc(pc: Pc) { pc.MountEnter? || MountBusy(pc) }

  predicate ProbeBusy(pc: Pc) { pc.ProbeWorking? || pc.ProbeCheck? || pc.ProbeLeaving? }

  predicate ProbePc(pc: Pc) { pc.ProbeEnter? || ProbeBusy(pc) }

  predicate ReleaseBusy(pc: Pc) { pc.Releasing? || pc.Released? }

  predicate IsReleasing(pc: Pc) { pc.Releasing? }

  predicate StopPc(pc: Pc) {
    pc.StopEnter? || pc.StopUnmanaged? || pc.StopCalling? || pc.StopSettling? || ReleaseBusy(pc)
  }

  /** A thread runs the code of its operation's kind. */
  predicate WellTyped(op: Operation, pc: Pc) {
    && (op.kind.Claim? ==> op.payload.ClaimPayload?) && (op.kind.Mount? ==> op.payload.MountPayload?)
    && (PreInstall(pc) ==> op.kind.Claim?) && (MountPc(pc) ==> op.kind.Mount?)
    && (StopPc(pc) ==> op.kind.Stop?) && (ProbePc(pc) ==> op.kind.ProbeStartup?)
    && (pc.ShutdownEnter? ==> op.kind.Shutdown?)
  }

  function StartPc(m: Kind): Pc {
    match m
    case Claim => ClaimEnter
    case Mount => MountEnter
    case Stop => StopEnter
    case Shutdown => ShutdownEnter
    case ProbeStartup => ProbeEnter
  }

  // --- one move of one thread ----------------------------------------------------

  datatype Move = Move(o: Owner, pc: Pc, h: History)

  function ClaimMove(o: Owner, h: History, op: Operation, pc: Pc, i: Input): Move
    requires PreInstall(pc) && op.payload.ClaimPayload?
  {
    var p := op.payload;
    if pc.ClaimEnter? then
      if i.ok && ClaimProceeds(o, p.digest) then Move(o, ClaimStarting, h)
      else Move(o, Finished(i.ok && ClaimRepeats(o, p.digest, p.redis)), h)
    else if !i.ok then Move(o, Finished(false), h)
    else Move(Install(o, p.digest, p.redis, i.manager, i.node), Finished(!o.stopRequested),
              h.(managers := h.managers + 1, installed := h.installed + OptSeq(i.node)))
  }

  function MountMove(o: Owner, h: History, op: Operation, pc: Pc, i: Input): Move
    requires MountPc(pc) && op.payload.MountPayload?
  {
    match pc
    case MountEnter =>
      if !MountAdmitted(o) then Move(o, Finished(false), h)
      else if o.manager.None? then Move(MountEntered(o), MountLeaving(false), h)
      else if op.payload.inline
      then Move(MountEntered(o), MountCalling(o.manager.value), h.(mountCalls := h.mountCalls + 1))
      else Move(MountEntered(o), MountCheck(o.manager.value, true), h)
    case MountCalling(fm) => Move(o, MountCheck(fm, i.ok), h.(mountOK := i.ok))
    case MountCheck(fm, ok) =>
      if StillCurrent(o, fm) then Move(o, Monitoring(fm, ok), h.(monitorCalls := h.monitorCalls + 1))
      else Move(o, MountSettling(fm, ok), h)
    case Monitoring(fm, ok) => Move(o, MountSettling(fm, ok), h)
    case MountSettling(fm, ok) => Move(o, MountLeaving(ok && StillCurrent(o, fm)), h)
    case MountLeaving(ok) => Move(MountLeft(o), Finished(ok), h)
  }

  function StopMove(o: Owner, h: History, pc: Pc, i: Input): Move
    requires StopPc(pc)
  {
    match pc
    case StopEnter =>
      Move(StopEntered(o), if o.manager.None? then StopUnmanaged else StopCalling(o.manager.value), h)
    case StopUnmanaged => Move(StopEmpty(o), Finished(StopsEmpty(o)), h)
    case StopCalling(fm) => Move(o, StopSettling(fm, i.ok), h.(stopComplete := h.stopComplete || i.ok))
    case StopSettling(fm, complete) =>
      if !StopsManaged(o, fm, complete) then Move(o, Finished(false), h)
      else Move(StopManaged(o, fm, complete),
                if o.releaseLink.Some? then Releasing(o.releaseLink.value) else Finished(true),
                h.(releasing := o.releaseLink))
    case Releasing(node) => Move(o, Released, h.(releasing := None, released := h.released + [node]))
    case Released => Move(LinkReleased(o), Finished(true), h)
  }

  function ProbeMove(o: Owner, h: History, pc: Pc, i: Input): Move
    requires ProbePc(pc)
  {
    match pc
    case ProbeEnter =>
      if !ProbeAdmitted(o) then Move(o, Finished(false), h)
      else Move(ProbeEntered(o), ProbeWorking(o.link.value), h)
    case ProbeWorking(node) => Move(o, if i.ok then ProbeCheck(node) else ProbeLeaving(false), h)
    case ProbeCheck(node) =>
      var ok := o.link == Some(node) && !o.stopRequested && !o.retired;
      Move(o, ProbeLeaving(ok), h.(probeOK := h.probeOK || ok))
    case ProbeLeaving(ok) => Move(ProbeLeft(o), Finished(ok), h)
  }

  function ThreadMove(o: Owner, h: History, op: Operation, pc: Pc, i: Input): Move
    requires WellTyped(op, pc) && !pc.Finished?
  {
    if PreInstall(pc) then ClaimMove(o, h, op, pc, i)
    else if MountPc(pc) then MountMove(o, h, op, pc, i)
    else if StopPc(pc) then StopMove(o, h, pc, i)
    else if ProbePc(pc) then ProbeMove(o, h, pc, i)
    else Move(ShutDown(o), Finished(ShutsDown(o)), h)
  }

  // --- the whole system --------------------------------------------------------------

  function Started(s: Sys, m: Kind, id: Name, payload: Payload): Sys {
    s.(o := Admit(s.o, m, id, payload), work := s.work[id := StartPc(m)], started := s.started + multiset{id})
  }

  function Moved(s: Sys, id: Name, mv: Move): Sys {
    s.(o := mv.o, work := s.work[id := mv.pc], h := mv.h)
  }

  function Settle(s: Sys, id: Name, text: Name): Sys
    requires id in s.work && s.work[id].Finished? && id in s.o.ops
  {
    s.(o := Finish(s.o, id, s.work[id].ok, text), work := s.work - {id})
  }

  function Entered(s: Sys, r: nat, q: Request): Sys {
    s.(o := if q.Probing? then ProbeEntered(s.o) else EnrollEntered(s.o), reqs := s.reqs[r := q])
  }

  function Uncounted(o: Owner, q: Request): Owner {
    if q.Probing? then ProbeLeft(o) else EnrollLeft(o)
  }

  function Returned(s: Sys, r: nat): Sys
    requires r in s.reqs
  {
    s.(o := Uncounted(s.o, s.reqs[r]), reqs := s.reqs - {r})
  }

  // A request that a guard turns away leaves the state unchanged.

  function Submitted(s: Sys, m: Kind, instance: Name, id: Name, payload: Payload): Sys {
    if Authorized(s.o, m, instance, id, payload) && Begin(s.o, m, id, payload).started
    then Started(s, m, id, payload) else s
  }

  function Advanced(s: Sys, id: Name, i: Input): Sys {
    if id !in s.work || id !in s.o.ops || !WellTyped(s.o.ops[id], s.work[id]) then s
    else if s.work[id].Finished? then Settle(s, id, i.text)
    else Moved(s, id, ThreadMove(s.o, s.h, s.o.ops[id], s.work[id], i))
  }

  function Requested(s: Sys, r: nat, q: Request, admitted: bool): Sys {
    if r !in s.reqs && admitted then Entered(s, r, q) else s
  }

  function Ended(s: Sys, r: nat): Sys {
    if r in s.reqs then Returned(s, r) else s
  }

  function Next(s: Sys, e: Event): Sys {
    match e
    case Submit(m, instance, id, payload) => Submitted(s, m, instance, id, payload)
    case Advance(id, i) => Advanced(s, id, i)
    case ProbeRequest(r) => Requested(s, r, Probing, ProbeAdmitted(s.o))
    case EnrollRequest(r, instance, digest, root, token, epoch, allowed) =>
      Requested(s, r, Enrolling, EnrollAdmitted(s.o, instance, digest, root, token, epoch, allowed))
    case RequestReturns(r) => Ended(s, r)
    case AttachRequest(instance, digest, root, token, expected) =>
      s.(o := Attached(s.o, instance, digest, root, token, expected))
    case PolicyRequest(instance, digest, root, w, epoch, expected, first, second) =>
      s.(o := PolicyUpdated(s.o, instance, digest, root, w, epoch, expected, first, second))
  }

  function Run(s: Sys, es: seq<Event>): Sys
    decreases |es|
  {
    if es == [] then s else Run(Next(s, es[0]), es[1..])
  }
}
