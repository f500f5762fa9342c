/**
 The inductive invariant of the owner under every interleaving, proved in the
 Owicki-Gries manner: what each thread knows (`Knows`) survives the moves of
 every thread that may run beside it, and the shared facts survive every move.
 */
module OwnerInvariant {
  import opened Common
  import opened Owner
  import opened OwnerRun
  import Policy

  // --- facts about the shared fields -------------------------------------------------

  /** The physical fact behind a "complete" answer. */
  ghost predicate Achieved(o: Owner, h: History, op: Operation) {
    match op.kind
    case Claim => h.managers == 1
    case Mount => h.monitorCalls == 1 && (op.payload.MountPayload? && op.payload.inline ==> h.mountOK)
    case Stop => o.retired && o.manager.None? && o.link.None? && h.released == h.installed
    case Shutdown => o.terminal
    case ProbeStartup => h.probeOK
  }

  /** Managers and Links: installed at most once, and every installed Link is held, being released or released. */
  ghost predicate Shared(o: Owner, h: History) {
    && o.bound && o.claimDigest == o.intent.digest && (o.config == EMPTY || o.config == o.intent.digest)
    && h.managers <= 1 && |h.installed| <= h.managers && h.mountCalls <= 1 && h.monitorCalls <= 1
    && (h.managers == 0 ==> o.manager.None? && o.config == EMPTY)
    && o.link == o.releaseLink
    && (o.link.Some? ==> o.manager.Some?)
    && h.installed == h.released + OptSeq(h.releasing) + OptSeq(o.link)
    && (h.releasing.Some? || h.released != [] ==> o.retired && h.stopComplete)
    && (h.releasing.Some? ==> o.releasePending) && (o.releasePending ==> o.retired)
    && (o.retired ==> o.stopRequested && o.manager.None? && !o.mountActive && o.probeActive == 0 && o.enrollActive == 0)
    && (o.terminal ==> Quiet(o))
  }

  /** What a thread of operation `op` at `pc` may rely on. */
  ghost predicate Knows(o: Owner, h: History, op: Operation, pc: Pc) {
    var inline := op.payload.MountPayload? && op.payload.inline;
    && (PreInstall(pc) ==> h.managers == 0 && !o.retired)
    && (pc.ClaimStarting? ==> op.payload.ClaimPayload? && op.payload.digest == o.intent.digest)
    && (pc.MountEnter? ==> h.mountCalls == 0 && h.monitorCalls == 0)
    && (MountBusy(pc) ==> o.mountActive)
    && (pc.MountCalling? || pc.MountCheck? ==> h.monitorCalls == 0)
    && (pc.MountCalling? || pc.MountCheck? || pc.Monitoring? || pc.MountSettling? ==> o.manager == Some(pc.fm))
    && ((pc.MountCheck? || pc.Monitoring? || pc.MountSettling? || pc.MountLeaving?) && pc.ok && inline ==> h.mountOK)
    && (pc.Monitoring? ==> h.monitorCalls == 1)
    && (pc.MountSettling? && !o.stopRequested && !o.retired ==> h.monitorCalls == 1)
    && (pc.MountLeaving? && pc.ok ==> h.monitorCalls == 1)
    && (StopPc(pc) && !pc.StopEnter? ==> o.stopRequested)
    && (pc.StopSettling? && pc.complete ==> h.stopComplete)
    && (pc.Releasing? ==> h.releasing == Some(pc.node) && o.retired)
    && (pc.Released? ==> h.releasing.None? && o.retired)
    && (ReleaseBusy(pc) ==> o.releasePending)
    && (pc.ProbeLeaving? && pc.ok ==> h.probeOK)
    && (pc.Finished? && pc.ok ==> Achieved(o, h, op))
  }

  /** Two pending operations are never both claims, both mounts, both startup probes or both stops. */
  predicate Beside(a: Operation, b: Operation) {
    a.kind == b.kind ==> a.kind.Shutdown?
  }

  // --- local proofs: one move, no quantifier over threads ----------------------------------

  ghost predicate Before(o: Owner, h: History, op: Operation, pc: Pc) {
    Shared(o, h) && WellTyped(op, pc) && !pc.Finished? && Knows(o, h, op, pc) &&
    (o.terminal ==> op.kind.Shutdown?) && (ProbeBusy(pc) ==> o.probeActive > 0)
  }

  ghost predicate After(op: Operation, o: Owner, mv: Move) {
    Shared(mv.o, mv.h) && Knows(mv.o, mv.h, op, mv.pc) && WellTyped(op, mv.pc) && mv.o.ops == o.ops
  }

  lemma ClaimKeepsShared(o: Owner, h: History, op: Operation, pc: Pc, i: Input)
    requires Before(o, h, op, pc) && PreInstall(pc)
    ensures After(op, o, ClaimMove(o, h, op, pc, i))
  {
    assert h.installed == [] && h.released == [] && OptSeq(h.releasing) == [];
  }

  lemma MountKeepsShared(o: Owner, h: History, op: Operation, pc: Pc, i: Input)
    requires Before(o, h, op, pc) && MountPc(pc)
    ensures After(op, o, MountMove(o, h, op, pc, i))
  {
    MountKnows(o, h, op, pc, i);
  }

  lemma MountKnows(o: Owner, h: History, op: Operation, pc: Pc, i: Input)
    requires Before(o, h, op, pc) && MountPc(pc)
    ensures var mv := MountMove(o, h, op, pc, i); Knows(mv.o, mv.h, op, mv.pc) && WellTyped(op, mv.pc)
  {
  }

  lemma StopKeepsShared(o: Owner, h: History, op: Operation, pc: Pc, i: Input)
    requires Before(o, h, op, pc) && StopPc(pc)
    ensures After(op, o, StopMove(o, h, pc, i))
  {
    StopKnows(o, h, op, pc, i);
  }

  lemma StopKnows(o: Owner, h: History, op: Operation, pc: Pc, i: Input)
    requires Before(o, h, op, pc) && StopPc(pc)
    ensures var mv := StopMove(o, h, pc, i); Knows(mv.o, mv.h, op, mv.pc) && WellTyped(op, mv.pc)
  {
  }

  lemma ProbeKeepsShared(o: Owner, h: History, op: Operation, pc: Pc, i: Input)
    requires Before(o, h, op, pc) && ProbePc(pc)
    ensures After(op, o, ProbeMove(o, h, pc, i))
  {
  }

  lemma MoveKeepsShared(o: Owner, h: History, op: Operation, pc: Pc, i: Input)
    requires Before(o, h, op, pc)
    ensures After(op, o, ThreadMove(o, h, op, pc, i))
  {
    if PreInstall(pc) { ClaimKeepsShared(o, h, op, pc, i); }
    else if MountPc(pc) { MountKeepsShared(o, h, op, pc, i); }
    else if StopPc(pc) { StopKeepsShared(o, h, op, pc, i); }
    else if ProbePc(pc) { ProbeKeepsShared(o, h, op, pc, i); }
  }

  lemma MoveKeepsOthers(o: Owner, h: History, op: Operation, pc: Pc, i: Input, other: Name, pc': Pc)
    requires Before(o, h, op, pc)
    requires other in o.ops && o.ops[other].outcome.Pending? && Beside(op, o.ops[other])
    requires WellTyped(o.ops[other], pc') && Knows(o, h, o.ops[other], pc')
    ensures var mv := ThreadMove(o, h, op, pc, i); Knows(mv.o, mv.h, o.ops[other], pc')
  {
  }

  lemma MoveKeepsAchieved(o: Owner, h: History, op: Operation, pc: Pc, i: Input, op': Operation)
    requires Before(o, h, op, pc) && Achieved(o, h, op')
    requires op.kind.Mount? ==> !op'.kind.Mount?
    ensures var mv := ThreadMove(o, h, op, pc, i); Achieved(mv.o, mv.h, op')
  {
  }

  // --- the whole invariant ---------------------------------------------------------------

  predicate LiveStop(op: Operation) { op.kind.Stop? && Live(op) }

  /** The operation table: bounded, and each one-shot kind and each live Stop at most once. */
  ghost predicate TableInv(o: Owner) {
    && |o.ops| <= MAX_OPERATIONS
    && (forall a, b :: a in o.ops && b in o.ops && o.ops[a].kind == o.ops[b].kind && OneShot(o.ops[a].kind) ==> a == b)
    && (forall a, b :: a in o.ops && b in o.ops && LiveStop(o.ops[a]) && LiveStop(o.ops[b]) ==> a == b)
  }

  ghost predicate ThreadOK(o: Owner, h: History, op: Operation, pc: Pc) {
    op.outcome.Pending? && WellTyped(op, pc) && Knows(o, h, op, pc)
  }

  /** Exactly the pending operations have a thread, and each thread's knowledge holds. */
  ghost predicate ThreadInv(s: Sys) {
    && (forall id :: id in s.work ==> id in s.o.ops && ThreadOK(s.o, s.h, s.o.ops[id], s.work[id]))
    && (forall id :: id in s.o.ops && s.o.ops[id].outcome.Pending? ==> id in s.work)
  }

  predicate IsProbing(q: Request) { q.Probing? }

  predicate IsEnrolling(q: Request) { q.Enrolling? }

  /** The flags and the counters are exactly the work in progress. */
  ghost predicate CountInv(s: Sys) {
    && (s.o.mountActive <==> Having(s.work, MountBusy) != {})
    && (s.o.releasePending <==> Having(s.work, ReleaseBusy) != {})
    && (s.h.releasing.Some? <==> Having(s.work, IsReleasing) != {})
    && s.o.probeActive == |Having(s.work, ProbeBusy)| + |Having(s.reqs, IsProbing)|
    && s.o.enrollActive == |Having(s.reqs, IsEnrolling)|
  }

  ghost predicate TableMeans(o: Owner, h: History) {
    && (h.managers > 0 ==> Selected(o, Claim))
    && (h.mountCalls > 0 || h.monitorCalls > 0 ==> Selected(o, Mount))
    && (o.terminal ==> AllSettled(o, Shutdown))
    && (forall id :: id in o.ops && o.ops[id].outcome.Done? && o.ops[id].outcome.ok ==> Achieved(o, h, o.ops[id]))
  }

  ghost predicate Inv(s: Sys) {
    TableInv(s.o) && ThreadInv(s) && CountInv(s) && Shared(s.o, s.h) && TableMeans(s.o, s.h)
  }

  lemma InitInv(intent: Intent)
    ensures Inv(Init(intent))
  {
    var s := Init(intent);
    assert Having(s.work, MountBusy) == {} && Having(s.work, ReleaseBusy) == {} && Having(s.work, IsReleasing) == {};
    assert Having(s.work, ProbeBusy) == {} && Having(s.reqs, IsProbing) == {} && Having(s.reqs, IsEnrolling) == {};
  }

  /** A class of which a move enters or leaves exactly when its flag is set or cleared. */
  lemma FlagFollows(work: map<Name, Pc>, id: Name, pc: Pc, p: Pc -> bool, flag: bool, flag': bool)
    requires id in work && (flag <==> Having(work, p) != {})
    requires p(pc) ==> flag'
    requires !p(pc) ==> if p(work[id]) then !flag' && forall x :: x in Having(work, p) ==> x == id else flag' == flag
    ensures flag' <==> Having(work[id := pc], p) != {}
  {
    HavingUpdate(work, id, pc, p);
    if !p(pc) && p(work[id]) {
      assert Having(work, p) - {id} == {};
    } else if p(pc) {
      assert id in Having(work[id := pc], p);
    }
  }

  /** Two different threads run operations that may run beside each other. */
  lemma ThreadsBeside(s: Sys, a: Name, b: Name)
    requires TableInv(s.o) && ThreadInv(s) && a in s.work && b in s.work && a != b
    ensures Beside(s.o.ops[a], s.o.ops[b])
  {
  }

  /** At most one thread is inside the mount, and at most one inside a Link release. */
  lemma Alone(s: Sys, a: Name, b: Name)
    requires TableInv(s.o) && ThreadInv(s) && a in s.work && b in s.work
    requires (MountBusy(s.work[a]) && MountBusy(s.work[b])) || (ReleaseBusy(s.work[a]) && ReleaseBusy(s.work[b]))
    ensures a == b
  {
  }

  lemma ReadyToMove(s: Sys, id: Name)
    requires Inv(s) && id in s.work && !s.work[id].Finished?
    ensures Before(s.o, s.h, s.o.ops[id], s.work[id])
  {
    if ProbeBusy(s.work[id]) {
      assert id in Having(s.work, ProbeBusy);
    }
  }

  lemma MoveKeepsThreads(s: Sys, id: Name, i: Input)
    requires Inv(s) && id in s.work && !s.work[id].Finished?
    ensures ThreadInv(Moved(s, id, ThreadMove(s.o, s.h, s.o.ops[id], s.work[id], i)))
  {
    ReadyToMove(s, id);
    var mv := ThreadMove(s.o, s.h, s.o.ops[id], s.work[id], i);
    MoveKeepsShared(s.o, s.h, s.o.ops[id], s.work[id], i);
    forall other | other in s.work && other != id
      ensures ThreadOK(mv.o, mv.h, s.o.ops[other], s.work[other])
    {
      ThreadsBeside(s, id, other);
      MoveKeepsOthers(s.o, s.h, s.o.ops[id], s.work[id], i, other, s.work[other]);
    }
  }

  /** How a single move changes the flags and the counters. */
  lemma MoveCounts(o: Owner, h: History, op: Operation, pc: Pc, i: Input)
    requires Before(o, h, op, pc)
    ensures var mv := ThreadMove(o, h, op, pc, i);
      && mv.o.enrollActive == o.enrollActive
      && mv.o.probeActive == o.probeActive - (if ProbeBusy(pc) then 1 else 0) + (if ProbeBusy(mv.pc) then 1 else 0)
      && (if MountBusy(mv.pc) then mv.o.mountActive else if MountBusy(pc) then !mv.o.mountActive else mv.o.mountActive == o.mountActive)
      && (if ReleaseBusy(mv.pc) then mv.o.releasePending else if ReleaseBusy(pc) then !mv.o.releasePending else mv.o.releasePending == o.releasePending)
      && (if IsReleasing(mv.pc) then mv.h.releasing.Some? else if IsReleasing(pc) then mv.h.releasing.None? else mv.h.releasing.Some? == h.releasing.Some?)
  {
    if StopPc(pc) { StopKeepsShared(o, h, op, pc, i); }
    else if MountPc(pc) { MountKnows(o, h, op, pc, i); }
  }

  lemma OnlyItself(s: Sys, id: Name)
    requires TableInv(s.o) && ThreadInv(s) && id in s.work
    ensures MountBusy(s.work[id]) ==> forall x :: x in Having(s.work, MountBusy) ==> x == id
    ensures ReleaseBusy(s.work[id]) ==> forall x :: x in Having(s.work, ReleaseBusy) ==> x == id
    ensures IsReleasing(s.work[id]) ==> forall x :: x in Having(s.work, IsReleasing) ==> x == id
  {
    forall x | x in s.work && ((MountBusy(s.work[x]) && MountBusy(s.work[id])) || (ReleaseBusy(s.work[x]) && ReleaseBusy(s.work[id])))
      ensures x == id
    {
      Alone(s, x, id);
    }
  }

  lemma MoveKeepsCounts(s: Sys, id: Name, i: Input)
    requires TableInv(s.o) && ThreadInv(s) && CountInv(s) && id in s.work && Before(s.o, s.h, s.o.ops[id], s.work[id])
    ensures CountInv(Moved(s, id, ThreadMove(s.o, s.h, s.o.ops[id], s.work[id], i)))
  {
    var mv := ThreadMove(s.o, s.h, s.o.ops[id], s.work[id], i);
    MoveCounts(s.o, s.h, s.o.ops[id], s.work[id], i);
    OnlyItself(s, id);
    FlagFollows(s.work, id, mv.pc, MountBusy, s.o.mountActive, mv.o.mountActive);
    FlagFollows(s.work, id, mv.pc, ReleaseBusy, s.o.releasePending, mv.o.releasePending);
    FlagFollows(s.work, id, mv.pc, IsReleasing, s.h.releasing.Some?, mv.h.releasing.Some?);
    HavingUpdate(s.work, id, mv.pc, ProbeBusy);
  }

  lemma MoveKeepsMeaning(o: Owner, h: History, id: Name, pc: Pc, i: Input)
    requires TableInv(o) && TableMeans(o, h) && id in o.ops && o.ops[id].outcome.Pending? && Before(o, h, o.ops[id], pc)
    ensures var mv := ThreadMove(o, h, o.ops[id], pc, i); TableMeans(mv.o, mv.h)
  {
    var op := o.ops[id];
    var mv := ThreadMove(o, h, op, pc, i);
    MoveHistory(o, h, op, pc, i);
    forall x | x in o.ops && o.ops[x].outcome.Done? && o.ops[x].outcome.ok
      ensures Achieved(mv.o, mv.h, o.ops[x])
    {
      MoveKeepsAchieved(o, h, op, pc, i, o.ops[x]);
    }
  }

  /** Which history and fence a move may change. */
  lemma MoveHistory(o: Owner, h: History, op: Operation, pc: Pc, i: Input)
    requires Before(o, h, op, pc)
    ensures var mv := ThreadMove(o, h, op, pc, i);
      && mv.o.ops == o.ops
      && (mv.h.managers != h.managers ==> op.kind.Claim?)
      && (mv.h.mountCalls != h.mountCalls || mv.h.monitorCalls != h.monitorCalls ==> op.kind.Mount?)
      && (mv.o.terminal ==> o.terminal || ShutsDown(o))
  {
  }

  lemma MoveKeepsInv(s: Sys, id: Name, i: Input)
    requires Inv(s) && id in s.work && !s.work[id].Finished?
    ensures Inv(Moved(s, id, ThreadMove(s.o, s.h, s.o.ops[id], s.work[id], i)))
  {
    ReadyToMove(s, id);
    MoveKeepsShared(s.o, s.h, s.o.ops[id], s.work[id], i);
    MoveKeepsThreads(s, id, i);
    MoveKeepsCounts(s, id, i);
    MoveKeepsMeaning(s.o, s.h, id, s.work[id], i);
  }

  /** The fields behind `Achieved` and `Knows` that admitting or settling an operation leaves alone. */
  ghost predicate SameWork(o: Owner, o': Owner) {
    && o'.intent == o.intent
    && o'.manager == o.manager && o'.link == o.link && o'.releaseLink == o.releaseLink && o'.config == o.config
    && o'.releasePending == o.releasePending && o'.mountActive == o.mountActive && o'.probeActive == o.probeActive
    && o'.enrollActive == o.enrollActive && o'.retired == o.retired && o'.terminal == o.terminal
    && (o.stopRequested ==> o'.stopRequested)
  }

  lemma SameWorkKeeps(o: Owner, o': Owner, h: History, op: Operation, pc: Pc)
    requires SameWork(o, o') && ThreadOK(o, h, op, pc)
    ensures ThreadOK(o', h, op, pc)
  {
  }

  lemma NewThreadKnows(o: Owner, h: History, m: Kind, id: Name, payload: Payload)
    requires TableMeans(o, h) && Begin(o, m, id, payload).started
    requires (m.Claim? ==> payload.ClaimPayload?) && (m.Mount? ==> payload.MountPayload?)
    ensures ThreadOK(Admit(o, m, id, payload), h, Operation(m, payload, Pending), StartPc(m))
  {
    assert Refuses(o, m, payload).None?;
  }

  lemma SubmitKeepsThreads(s: Sys, m: Kind, id: Name, payload: Payload)
    requires ThreadInv(s) && TableMeans(s.o, s.h) && Begin(s.o, m, id, payload).started
    requires (m.Claim? ==> payload.ClaimPayload?) && (m.Mount? ==> payload.MountPayload?)
    ensures ThreadInv(Started(s, m, id, payload))
  {
    var s' := Started(s, m, id, payload);
    NewThreadKnows(s.o, s.h, m, id, payload);
    forall x | x in s.work
      ensures x in s.o.ops && x != id && ThreadOK(s'.o, s'.h, s.o.ops[x], s.work[x])
    {
      SameWorkKeeps(s.o, s'.o, s.h, s.o.ops[x], s.work[x]);
    }
  }

  lemma TableGrows(ops: map<Name, Operation>, id: Name, op: Operation)
    requires id !in ops
    ensures |ops[id := op]| == |ops| + 1
  {
    assert ops[id := op].Keys == ops.Keys + {id};
  }

  lemma SubmitKeepsTable(o: Owner, m: Kind, id: Name, payload: Payload)
    requires TableInv(o) && Begin(o, m, id, payload).started
    ensures TableInv(Admit(o, m, id, payload))
  {
    TableGrows(o.ops, id, Operation(m, payload, Pending));
    assert Refuses(o, m, payload).None?;
    assert OneShot(m) ==> forall x :: x in o.ops ==> o.ops[x].kind != m;
    assert m.Stop? ==> forall x :: x in o.ops ==> !LiveStop(o.ops[x]);
  }

  lemma SubmitKeepsMeaning(o: Owner, h: History, m: Kind, id: Name, payload: Payload)
    requires TableMeans(o, h) && Begin(o, m, id, payload).started
    ensures TableMeans(Admit(o, m, id, payload), h)
  {
    var o' := Admit(o, m, id, payload);
    assert forall x :: x in o.ops ==> x in o'.ops && o'.ops[x] == o.ops[x];
  }

  lemma SubmitKeepsShared(o: Owner, h: History, m: Kind, id: Name, payload: Payload)
    requires Shared(o, h) && Begin(o, m, id, payload).started
    ensures Shared(Admit(o, m, id, payload), h)
  {
    assert Refuses(o, m, payload).None?;
  }

  lemma SubmitKeepsCounts(s: Sys, m: Kind, id: Name, payload: Payload)
    requires CountInv(s) && id !in s.work
    ensures CountInv(Started(s, m, id, payload))
  {
    HavingUpdate(s.work, id, StartPc(m), MountBusy);
    HavingUpdate(s.work, id, StartPc(m), ReleaseBusy);
    HavingUpdate(s.work, id, StartPc(m), IsReleasing);
    HavingUpdate(s.work, id, StartPc(m), ProbeBusy);
  }

  lemma SubmitKeepsInv(s: Sys, m: Kind, id: Name, payload: Payload)
    requires Inv(s) && Begin(s.o, m, id, payload).started
    requires (m.Claim? ==> payload.ClaimPayload?) && (m.Mount? ==> payload.MountPayload?)
    ensures Inv(Started(s, m, id, payload))
  {
    var s' := Started(s, m, id, payload);
    SubmitKeepsThreads(s, m, id, payload);
    SubmitKeepsTable(s.o, m, id, payload);
    SubmitKeepsShared(s.o, s.h, m, id, payload);
    SubmitKeepsMeaning(s.o, s.h, m, id, payload);
    assert id !in s.work;
    SubmitKeepsCounts(s, m, id, payload);
    assert TableInv(s'.o) && ThreadInv(s') && CountInv(s') && Shared(s'.o, s'.h) && TableMeans(s'.o, s'.h);
  }

  lemma SettleKeepsThreads(s: Sys, id: Name, text: Name)
    requires ThreadInv(s) && id in s.work && s.work[id].Finished?
    ensures ThreadInv(Settle(s, id, text))
  {
    var s' := Settle(s, id, text);
    forall x | x in s'.work
      ensures x in s.o.ops && x != id && ThreadOK(s'.o, s'.h, s.o.ops[x], s.work[x])
    {
      SameWorkKeeps(s.o, s'.o, s.h, s.o.ops[x], s.work[x]);
    }
  }

  lemma SettleKeepsTable(o: Owner, id: Name, ok: bool, text: Name)
    requires TableInv(o) && id in o.ops && o.ops[id].outcome.Pending?
    ensures TableInv(Finish(o, id, ok, text))
  {
    var o' := Finish(o, id, ok, text);
    assert o'.ops.Keys == o.ops.Keys;
    assert |o'.ops| == |o'.ops.Keys|;
    assert forall x :: x in o.ops ==> o'.ops[x].kind == o.ops[x].kind && (LiveStop(o'.ops[x]) ==> LiveStop(o.ops[x]));
  }

  lemma SettleKeepsMeaning(o: Owner, h: History, id: Name, ok: bool, text: Name)
    requires TableMeans(o, h) && id in o.ops && o.ops[id].outcome.Pending?
    requires ok ==> Achieved(o, h, o.ops[id])
    ensures TableMeans(Finish(o, id, ok, text), h)
  {
    var o' := Finish(o, id, ok, text);
    assert forall x :: x in o.ops ==> x in o'.ops && o'.ops[x].kind == o.ops[x].kind;
  }

  lemma SettleKeepsCounts(s: Sys, id: Name, text: Name)
    requires CountInv(s) && id in s.work && s.work[id].Finished? && id in s.o.ops
    ensures CountInv(Settle(s, id, text))
  {
    HavingDrop(s.work, id, MountBusy);
    HavingDrop(s.work, id, ReleaseBusy);
    HavingDrop(s.work, id, IsReleasing);
    HavingDrop(s.work, id, ProbeBusy);
  }

  lemma SettleKeepsInv(s: Sys, id: Name, text: Name)
    requires Inv(s) && id in s.work && s.work[id].Finished?
    ensures Inv(Settle(s, id, text))
  {
    SettleKeepsThreads(s, id, text);
    SettleKeepsTable(s.o, id, s.work[id].ok, text);
    SettleKeepsMeaning(s.o, s.h, id, s.work[id].ok, text);
    SettleKeepsCounts(s, id, text);
  }

  lemma RequestKeepsThreads(s: Sys, s': Sys)
    requires ThreadInv(s) && s'.work == s.work && s'.h == s.h && s'.o.ops == s.o.ops
    requires s'.o == s.o.(probeActive := s'.o.probeActive, enrollActive := s'.o.enrollActive, policy := s'.o.policy)
    ensures ThreadInv(s')
  {
    forall x | x in s.work
      ensures ThreadOK(s'.o, s'.h, s.o.ops[x], s.work[x])
    {
      assert ThreadOK(s.o, s.h, s.o.ops[x], s.work[x]);
    }
  }

  lemma EnteredKeepsCounts(s: Sys, r: nat, q: Request)
    requires CountInv(s) && r !in s.reqs && (q.Probing? ==> ProbeAdmitted(s.o))
    ensures CountInv(Entered(s, r, q))
  {
    HavingUpdate(s.reqs, r, q, IsProbing);
    HavingUpdate(s.reqs, r, q, IsEnrolling);
  }

  /** Counting a request under way touches no other fact; nothing is under way in a retired or terminal owner. */
  lemma CountKeepsFacts(o: Owner, h: History, probes: int, enrolls: int)
    requires Shared(o, h) && TableMeans(o, h) && (o.retired || o.terminal ==> probes == 0 && enrolls == 0)
    ensures var o' := o.(probeActive := probes, enrollActive := enrolls); Shared(o', h) && TableMeans(o', h)
  {
    var o' := o.(probeActive := probes, enrollActive := enrolls);
    forall id | id in o.ops && o.ops[id].outcome.Done? && o.ops[id].outcome.ok ensures Achieved(o', h, o.ops[id]) {
      assert Achieved(o, h, o.ops[id]);
    }
  }

  lemma EnteredKeepsInv(s: Sys, r: nat, q: Request)
    requires Inv(s) && r !in s.reqs && ProbeAdmitted(s.o) && !s.o.terminal
    ensures Inv(Entered(s, r, q))
  {
    var s' := Entered(s, r, q);
    EnteredKeepsCounts(s, r, q);
    RequestKeepsThreads(s, s');
    CountKeepsFacts(s.o, s.h, s'.o.probeActive, s'.o.enrollActive);
    assert TableInv(s'.o) && ThreadInv(s') && CountInv(s') && Shared(s'.o, s'.h) && TableMeans(s'.o, s'.h);
  }

  lemma ReturnedKeepsCounts(s: Sys, r: nat)
    requires CountInv(s) && r in s.reqs
    ensures CountInv(Returned(s, r))
    ensures if s.reqs[r].Probing? then s.o.probeActive > 0 else s.o.enrollActive > 0
  {
    HavingDrop(s.reqs, r, IsProbing);
    HavingDrop(s.reqs, r, IsEnrolling);
    assert r in (if s.reqs[r].Probing? then Having(s.reqs, IsProbing) else Having(s.reqs, IsEnrolling));
  }

  lemma ReturnedKeepsInv(s: Sys, r: nat)
    requires Inv(s) && r in s.reqs
    ensures Inv(Returned(s, r))
  {
    ReturnedKeepsCounts(s, r);
    RequestKeepsThreads(s, Returned(s, r));
  }

  lemma PolicyKeepsFacts(o: Owner, h: History, policy: Policy.Policy)
    requires Shared(o, h) && TableMeans(o, h)
    ensures Shared(o.(policy := policy), h) && TableMeans(o.(policy := policy), h)
  {
    var o' := o.(policy := policy);
    forall id | id in o.ops && o.ops[id].outcome.Done? && o.ops[id].outcome.ok ensures Achieved(o', h, o.ops[id]) {
      assert Achieved(o, h, o.ops[id]);
    }
  }

  lemma PolicyKeepsInv(s: Sys, policy: Policy.Policy)
    requires Inv(s)
    ensures Inv(s.(o := s.o.(policy := policy)))
  {
    var s' := s.(o := s.o.(policy := policy));
    PolicyKeepsFacts(s.o, s.h, policy);
    RequestKeepsThreads(s, s');
    assert TableInv(s'.o);
    assert ThreadInv(s');
    assert CountInv(s');
    assert TableMeans(s'.o, s'.h);
  }

  lemma SubmittedKeepsInv(s: Sys, m: Kind, instance: Name, id: Name, payload: Payload)
    requires Inv(s)
    ensures Inv(Submitted(s, m, instance, id, payload))
  {
    if Authorized(s.o, m, instance, id, payload) && Begin(s.o, m, id, payload).started {
      SubmitKeepsInv(s, m, id, payload);
    }
  }

  lemma AdvancedKeepsInv(s: Sys, id: Name, i: Input)
    requires Inv(s)
    ensures Inv(Advanced(s, id, i))
  {
    if id in s.work {
      if s.work[id].Finished? { SettleKeepsInv(s, id, i.text); } else { MoveKeepsInv(s, id, i); }
    }
  }

  lemma RequestedKeepsInv(s: Sys, r: nat, q: Request, admitted: bool)
    requires Inv(s) && (admitted ==> ProbeAdmitted(s.o) && !s.o.terminal)
    ensures Inv(Requested(s, r, q, admitted))
  {
    if r !in s.reqs && admitted { EnteredKeepsInv(s, r, q); }
  }

  lemma EndedKeepsInv(s: Sys, r: nat)
    requires Inv(s)
    ensures Inv(Ended(s, r))
  {
    if r in s.reqs { ReturnedKeepsInv(s, r); }
  }

  lemma OperationKeepsInv(s: Sys, e: Event)
    requires Inv(s) && (e.Submit? || e.Advance?)
    ensures Inv(Next(s, e))
  {
    if e.Submit? {
      SubmittedKeepsInv(s, e.kind, e.instance, e.id, e.payload);
    } else {
      AdvancedKeepsInv(s, e.id, e.input);
    }
  }

  lemma EnrollKeepsInv(s: Sys, e: Event)
    requires Inv(s) && e.EnrollRequest?
    ensures Inv(Next(s, e))
  {
    RequestedKeepsInv(s, e.r, Enrolling, EnrollAdmitted(s.o, e.instance, e.digest, e.root, e.token, e.epoch, e.allowed));
  }

  lemma RequestKeepsInv(s: Sys, e: Event)
    requires Inv(s) && (e.ProbeRequest? || e.RequestReturns?)
    ensures Inv(Next(s, e))
  {
    if e.ProbeRequest? { RequestedKeepsInv(s, e.r, Probing, ProbeAdmitted(s.o)); } else { EndedKeepsInv(s, e.r); }
  }

  lemma LaneStep(s: Sys, e: Event)
    requires e.AttachRequest? || e.PolicyRequest?
    ensures Next(s, e) == s.(o := s.o.(policy := Next(s, e).o.policy))
  {
  }

  lemma LaneKeepsInv(s: Sys, e: Event)
    requires Inv(s) && (e.AttachRequest? || e.PolicyRequest?)
    ensures Inv(Next(s, e))
  {
    LaneStep(s, e);
    PolicyKeepsInv(s, Next(s, e).o.policy);
  }

  lemma NextKeepsInv(s: Sys, e: Event)
    requires Inv(s)
    ensures Inv(Next(s, e))
  {
    if e.Submit? || e.Advance? {
      OperationKeepsInv(s, e);
    } else if e.AttachRequest? || e.PolicyRequest? {
      LaneKeepsInv(s, e);
    } else if e.EnrollRequest? {
      EnrollKeepsInv(s, e);
    } else {
      RequestKeepsInv(s, e);
    }
  }

  lemma {:induction false} RunKeepsInv(s: Sys, es: seq<Event>)
    requires Inv(s)
    ensures Inv(Run(s, es))
    decreases |es|
  {
    if es != [] {
      NextKeepsInv(s, es[0]);
      RunKeepsInv(Next(s, es[0]), es[1..]);
    }
  }
}
