/** What every run of the owner guarantees. */
module OwnerTheorems {
  import opened Common
  import opened Owner
  import opened OwnerRun
  import opened OwnerInvariant
  import Policy

  /** An operation keeps its kind and payload, and a settled outcome is never replaced. */
  predicate SameOperation(a: Operation, b: Operation) {
    a.kind == b.kind && a.payload == b.payload && (a.outcome.Done? ==> b.outcome == a.outcome)
  }

  /** Fences only close, and behind a closed fence work only drains. */
  ghost predicate FencesHold(o: Owner, h: History, o': Owner, h': History) {
    && o'.intent == o.intent
    && (o.stopRequested ==> o'.stopRequested) && (o.retired ==> o'.retired) && (o.terminal ==> o'.terminal)
    && h.released <= h'.released
    && (o.stopRequested ==>
         (o'.mountActive ==> o.mountActive) && o'.probeActive <= o.probeActive && o'.enrollActive <= o.enrollActive)
    && (o.retired ==> h'.managers == h.managers && h'.installed == h.installed &&
                      h'.mountCalls == h.mountCalls && h'.monitorCalls == h.monitorCalls)
    && (h'.mountCalls >= h.mountCalls && h'.monitorCalls >= h.monitorCalls && h'.managers >= h.managers)
  }

  /** An epoch belongs to one token for good. */
  ghost predicate EpochAdvances(p: Policy.Policy, p': Policy.Policy) {
    p.epoch <= p'.epoch && (p.epoch == p'.epoch ==> p'.token == p.token)
  }

  ghost predicate TableGrows(s: Sys, s': Sys) {
    && (forall id :: id in s.o.ops ==> id in s'.o.ops && SameOperation(s.o.ops[id], s'.o.ops[id]))
    && (forall id :: id in s.o.ops ==> s'.started[id] == s.started[id])
    && (forall id :: id in s.o.ops && id !in s.work ==> id !in s'.work)
    && (s.o.terminal ==> s'.o.ops.Keys == s.o.ops.Keys)
  }

  ghost predicate Forward(s: Sys, s': Sys) {
    TableGrows(s, s') && FencesHold(s.o, s.h, s'.o, s'.h) && EpochAdvances(s.o.policy, s'.o.policy)
  }

  /** What no step of an operation touches: the table and the policy lanes; and it never reopens the stop fence. */
  predicate Untouched(o: Owner, o': Owner) {
    o'.ops == o.ops && o'.policy == o.policy && (o.stopRequested ==> o'.stopRequested)
  }

  lemma MountTouchesNot(o: Owner, h: History, op: Operation, pc: Pc, i: Input)
    requires MountPc(pc) && op.payload.MountPayload?
    ensures Untouched(o, MountMove(o, h, op, pc, i).o)
  {
  }

  lemma StopTouchesNot(o: Owner, h: History, pc: Pc, i: Input)
    requires StopPc(pc)
    ensures Untouched(o, StopMove(o, h, pc, i).o)
  {
  }

  lemma MoveTouchesNot(o: Owner, h: History, op: Operation, pc: Pc, i: Input)
    requires WellTyped(op, pc) && !pc.Finished?
    ensures Untouched(o, ThreadMove(o, h, op, pc, i).o)
  {
    if MountPc(pc) { MountTouchesNot(o, h, op, pc, i); } else if StopPc(pc) { StopTouchesNot(o, h, pc, i); }
  }

  lemma MountForward(o: Owner, h: History, op: Operation, pc: Pc, i: Input)
    requires Before(o, h, op, pc) && MountPc(pc)
    ensures var mv := MountMove(o, h, op, pc, i); FencesHold(o, h, mv.o, mv.h)
  {
  }

  lemma StopForward(o: Owner, h: History, op: Operation, pc: Pc, i: Input)
    requires Before(o, h, op, pc) && StopPc(pc)
    ensures var mv := StopMove(o, h, pc, i); FencesHold(o, h, mv.o, mv.h)
  {
  }

  lemma MoveForward(o: Owner, h: History, op: Operation, pc: Pc, i: Input)
    requires Before(o, h, op, pc)
    ensures var mv := ThreadMove(o, h, op, pc, i); FencesHold(o, h, mv.o, mv.h) && mv.o.policy == o.policy && mv.o.ops == o.ops
  {
    MoveTouchesNot(o, h, op, pc, i);
    if MountPc(pc) { MountForward(o, h, op, pc, i); } else if StopPc(pc) { StopForward(o, h, op, pc, i); }
  }

  lemma SettleForward(s: Sys, id: Name, text: Name)
    requires id in s.work && s.work[id].Finished? && id in s.o.ops && s.o.ops[id].outcome.Pending?
    ensures Forward(s, Settle(s, id, text))
  {
    var s' := Settle(s, id, text);
    assert s'.o.ops.Keys == s.o.ops.Keys;
    assert SameOperation(s.o.ops[id], s'.o.ops[id]);
  }

  lemma SubmitForward(s: Sys, m: Kind, id: Name, payload: Payload)
    requires Begin(s.o, m, id, payload).started
    ensures Forward(s, Started(s, m, id, payload))
  {
    assert Refuses(s.o, m, payload).None?;
  }

  lemma EnteredForward(s: Sys, r: nat, q: Request)
    requires ProbeAdmitted(s.o)
    ensures Forward(s, Entered(s, r, q))
  {
  }

  lemma UncountedHolds(o: Owner, h: History, q: Request)
    ensures Untouched(o, Uncounted(o, q)) && FencesHold(o, h, Uncounted(o, q), h)
  {
  }

  lemma ReturnedForward(s: Sys, r: nat)
    requires r in s.reqs
    ensures Forward(s, Returned(s, r))
  {
    UncountedHolds(s.o, s.h, s.reqs[r]);
  }

  lemma LaneForward(s: Sys, policy: Policy.Policy)
    requires EpochAdvances(s.o.policy, policy)
    ensures Forward(s, s.(o := s.o.(policy := policy)))
  {
  }

  lemma LaneAdvances(s: Sys, e: Event)
    requires e.AttachRequest? || e.PolicyRequest?
    ensures EpochAdvances(s.o.policy, Next(s, e).o.policy)
  {
  }

  lemma RequestForward(s: Sys, e: Event)
    requires !e.Advance? && !e.Submit?
    ensures Forward(s, Next(s, e))
  {
    if e.AttachRequest? || e.PolicyRequest? {
      LaneStep(s, e);
      LaneAdvances(s, e);
      LaneForward(s, Next(s, e).o.policy);
    } else if e.RequestReturns? {
      if e.r in s.reqs { ReturnedForward(s, e.r); }
    } else if Next(s, e) != s {
      EnteredForward(s, e.r, if e.ProbeRequest? then Probing else Enrolling);
    }
  }

  lemma MovedForward(s: Sys, id: Name, mv: Move)
    requires id in s.work && FencesHold(s.o, s.h, mv.o, mv.h) && mv.o.policy == s.o.policy && mv.o.ops == s.o.ops
    ensures Forward(s, Moved(s, id, mv))
  {
  }

  lemma AdvanceForward(s: Sys, id: Name, i: Input)
    requires Inv(s) && id in s.work
    ensures Forward(s, Advanced(s, id, i))
  {
    if s.work[id].Finished? {
      SettleForward(s, id, i.text);
    } else {
      ReadyToMove(s, id);
      MoveForward(s.o, s.h, s.o.ops[id], s.work[id], i);
      MovedForward(s, id, ThreadMove(s.o, s.h, s.o.ops[id], s.work[id], i));
    }
  }

  lemma NextForward(s: Sys, e: Event)
    requires Inv(s)
    ensures Forward(s, Next(s, e))
  {
    if e.Advance? {
      if e.id in s.work { AdvanceForward(s, e.id, e.input); }
    } else if e.Submit? {
      if Next(s, e) != s { SubmitForward(s, e.kind, e.id, e.payload); }
    } else {
      RequestForward(s, e);
    }
  }

  lemma ForwardTransitive(a: Sys, b: Sys, c: Sys)
    requires Forward(a, b) && Forward(b, c)
    ensures Forward(a, c)
  {
  }

  /**
   Over every run: an operation ID keeps its kind and payload, the work of an
   admitted operation, pending or settled, is never started again, a settled
   result never changes, the stop, retirement and terminal fences never reopen,
   and an attachment epoch keeps its token.
   */
  lemma {:induction false} RunForward(s: Sys, es: seq<Event>)
    requires Inv(s)
    ensures Forward(s, Run(s, es))
    decreases |es|
  {
    if es != [] {
      NextKeepsInv(s, es[0]);
      NextForward(s, es[0]);
      RunForward(Next(s, es[0]), es[1..]);
      ForwardTransitive(s, Next(s, es[0]), Run(s, es));
    }
  }

  /** Exactly the operations of the table were started, each once. */
  ghost predicate StartedOnce(s: Sys) {
    forall id :: s.started[id] == if id in s.o.ops then 1 else 0
  }

  lemma AdvancedKeepsTable(s: Sys, id: Name, i: Input)
    ensures Advanced(s, id, i).o.ops.Keys == s.o.ops.Keys && Advanced(s, id, i).started == s.started
  {
    if id in s.work && id in s.o.ops && WellTyped(s.o.ops[id], s.work[id]) && !s.work[id].Finished? {
      MoveTouchesNot(s.o, s.h, s.o.ops[id], s.work[id], i);
    }
  }

  lemma NextKeepsStarts(s: Sys, e: Event)
    requires StartedOnce(s)
    ensures StartedOnce(Next(s, e))
  {
    if e.Advance? {
      AdvancedKeepsTable(s, e.id, e.input);
    } else if !e.Submit? {
      RequestKeepsTable(s, e);
    }
  }

  lemma RequestedKeepsTable(s: Sys, r: nat, q: Request, admitted: bool)
    ensures var s' := Requested(s, r, q, admitted); s'.o.ops == s.o.ops && s'.started == s.started && s'.h == s.h
  {
  }

  lemma EndedKeepsTable(s: Sys, r: nat)
    ensures var s' := Ended(s, r); s'.o.ops == s.o.ops && s'.started == s.started && s'.h == s.h
  {
    if r in s.reqs { UncountedHolds(s.o, s.h, s.reqs[r]); }
  }

  lemma RequestKeepsTable(s: Sys, e: Event)
    requires !e.Advance? && !e.Submit?
    ensures var s' := Next(s, e); s'.o.ops == s.o.ops && s'.started == s.started && s'.h == s.h
  {
    match e {
      case ProbeRequest(r) => RequestedKeepsTable(s, r, Probing, ProbeAdmitted(s.o));
      case EnrollRequest(r, instance, digest, root, token, epoch, allowed) =>
        RequestedKeepsTable(s, r, Enrolling, EnrollAdmitted(s.o, instance, digest, root, token, epoch, allowed));
      case RequestReturns(r) => EndedKeepsTable(s, r);
      case _ => LaneStep(s, e);
    }
  }

  lemma {:induction false} RunKeepsStarts(s: Sys, es: seq<Event>)
    requires StartedOnce(s)
    ensures StartedOnce(Run(s, es))
    decreases |es|
  {
    if es != [] {
      NextKeepsStarts(s, es[0]);
      RunKeepsStarts(Next(s, es[0]), es[1..]);
    }
  }

  /**
   In every reachable state: the table is bounded and holds at most one claim,
   mount and startup probe; at most one FUSE manager was ever installed, at most
   one Mount and one StartMonitor call was ever made and at most one Link was
   ever released, only after a complete manager Stop on a retired owner; a
   retired owner runs no mount, probe or Manager request; every operation
   reported complete has physically succeeded; and no operation's work was ever
   started twice.
   */
  lemma OwnerSafety(intent: Intent, es: seq<Event>)
    ensures var s := Run(Init(intent), es);
      && |s.o.ops| <= 128 && (forall id :: s.started[id] == if id in s.o.ops then 1 else 0)
      && (forall a, b :: a in s.o.ops && b in s.o.ops && s.o.ops[a].kind == s.o.ops[b].kind && OneShot(s.o.ops[a].kind) ==> a == b)
      && s.h.managers <= 1 && s.h.mountCalls <= 1 && s.h.monitorCalls <= 1 && |s.h.released| <= 1
      && (s.h.releasing.Some? || s.h.released != [] ==> s.o.retired && s.h.stopComplete)
      && (s.o.retired ==> s.reqs == map[] && forall id :: id in s.work ==> !MountBusy(s.work[id]) && !ProbeBusy(s.work[id]) && !PreInstall(s.work[id]))
      && (forall id :: id in s.o.ops && s.o.ops[id].outcome.Done? && s.o.ops[id].outcome.ok ==> Achieved(s.o, s.h, s.o.ops[id]))
  {
    var s := Run(Init(intent), es);
    InitInv(intent);
    RunKeepsInv(Init(intent), es);
    RunKeepsStarts(Init(intent), es);
    if s.o.retired { RetiredIsIdle(s); }
  }

  lemma NoRequests(s: Sys)
    requires CountInv(s) && s.o.probeActive == 0 && s.o.enrollActive == 0
    ensures s.reqs == map[]
  {
    assert s.reqs.Keys == Having(s.reqs, IsProbing) + Having(s.reqs, IsEnrolling);
  }

  lemma RetiredIsIdle(s: Sys)
    requires Inv(s) && s.o.retired
    ensures s.reqs == map[]
    ensures forall id :: id in s.work ==> !MountBusy(s.work[id]) && !ProbeBusy(s.work[id]) && !PreInstall(s.work[id])
  {
    NoRequests(s);
    HavingNone(s.work, MountBusy);
    HavingNone(s.work, ProbeBusy);
  }

  /**
   A terminal owner holds nothing, every operation but shutdowns is settled, and
   no continuation admits an operation, calls the manager or takes a Link.
   */
  lemma TerminalIsFinal(s: Sys, es: seq<Event>)
    requires Inv(s) && s.o.terminal
    ensures var s' := Run(s, es);
      && s'.o.terminal && Quiet(s'.o) && AllSettled(s'.o, Shutdown) && s'.o.ops.Keys == s.o.ops.Keys
      && s'.reqs == map[] && s'.h.managers == s.h.managers && s'.h.mountCalls == s.h.mountCalls
      && s'.h.monitorCalls == s.h.monitorCalls && s'.h.released == s.h.released
    decreases |es|
  {
    TerminalIsIdle(s);
    if es != [] {
      NextKeepsInv(s, es[0]);
      TerminalStep(s, es[0]);
      TerminalIsFinal(Next(s, es[0]), es[1..]);
    }
  }

  lemma TerminalIsIdle(s: Sys)
    requires Inv(s) && s.o.terminal
    ensures s.reqs == map[]
    ensures forall id :: id in s.work ==> s.o.ops[id].kind.Shutdown?
  {
    NoRequests(s);
  }

  lemma TerminalStep(s: Sys, e: Event)
    requires Inv(s) && s.o.terminal
    ensures var s' := Next(s, e);
      && s'.o.terminal && s'.o.ops.Keys == s.o.ops.Keys && s'.h == s.h
  {
    NextForward(s, e);
    TerminalHistory(s, e);
  }

  lemma TerminalHistory(s: Sys, e: Event)
    requires Inv(s) && s.o.terminal
    ensures Next(s, e).h == s.h
  {
    if e.Advance? && e.id in s.work {
      TerminalIsIdle(s);
      assert s.work[e.id].Finished? || s.work[e.id].ShutdownEnter?;
    } else if !e.Advance? && !e.Submit? {
      RequestKeepsTable(s, e);
    }
  }

  lemma EpochsGrow(s: Sys, es: seq<Event>)
    requires Inv(s)
    ensures EpochAdvances(s.o.policy, Run(s, es).o.policy)
  {
    RunForward(s, es);
  }

  lemma OlderRequestIsRefused(s: Sys, e: Event)
    requires (e.PolicyRequest? || e.EnrollRequest?) && e.epoch < s.o.policy.epoch
    ensures Next(s, e) == s
  {
  }

  /** After a newer attachment no delayed request of an older epoch changes a policy lane or is admitted. */
  lemma OlderEpochIsFenced(s: Sys, es: seq<Event>, epoch: nat, e: Event)
    requires Inv(s) && epoch < s.o.policy.epoch
    requires (e.PolicyRequest? || e.EnrollRequest?) && e.epoch == epoch
    ensures Next(Run(s, es), e) == Run(s, es)
  {
    EpochsGrow(s, es);
    OlderRequestIsRefused(Run(s, es), e);
  }

  /** Once Stop was admitted, no run raises the mount flag or a work counter again. */
  lemma WorkOnlyDrainsAfterStop(s: Sys, es: seq<Event>)
    requires Inv(s) && s.o.stopRequested
    ensures var o' := Run(s, es).o;
      (o'.mountActive ==> s.o.mountActive) && o'.probeActive <= s.o.probeActive && o'.enrollActive <= s.o.enrollActive
  {
    RunForward(s, es);
  }

  /** A "complete" or "error" answer to a query is the answer for ever after. */
  lemma SettledAnswerIsFinal(s: Sys, es: seq<Event>, instance: Name, id: Name, digest: Name)
    requires Inv(s) && Query(s.o, instance, id, digest).Settled?
    ensures Query(Run(s, es).o, instance, id, digest) == Query(s.o, instance, id, digest)
  {
    SettledStays(s, es, id);
    RunIntent(s, es);
  }

  lemma SettledStays(s: Sys, es: seq<Event>, id: Name)
    requires Inv(s) && id in s.o.ops && s.o.ops[id].outcome.Done?
    ensures id in Run(s, es).o.ops && Run(s, es).o.ops[id].outcome == s.o.ops[id].outcome
  {
    RunForward(s, es);
  }

  /** The claim of a bound owner, its intent and so what it answers to, is fixed. */
  lemma RunIntent(s: Sys, es: seq<Event>)
    requires Inv(s)
    ensures Run(s, es).o.intent == s.o.intent && SelectedDigest(Run(s, es).o) == SelectedDigest(s.o)
  {
    RunForward(s, es);
    RunKeepsInv(s, es);
  }

  // --- what the leaving sections leave behind ------------------------------------------------

  lemma ReachableInv(intent: Intent, es: seq<Event>)
    ensures Inv(Run(Init(intent), es))
  {
    InitInv(intent);
    RunKeepsInv(Init(intent), es);
  }

  lemma ReachableCounts(intent: Intent, es: seq<Event>, e: Event)
    ensures CountInv(Run(Init(intent), es)) && CountInv(Next(Run(Init(intent), es), e))
  {
    ReachableInv(intent, es);
    NextKeepsInv(Run(Init(intent), es), e);
  }

  lemma ReachableThread(intent: Intent, es: seq<Event>, id: Name)
    requires id in Run(Init(intent), es).work
    ensures var s := Run(Init(intent), es); id in s.o.ops && WellTyped(s.o.ops[id], s.work[id])
  {
    ReachableInv(intent, es);
  }

  /** The mount flag that a leaving mount clears was its own: nobody is inside the mount afterwards. */
  lemma LeavingMountEmptiesIt(intent: Intent, es: seq<Event>, id: Name, i: Input)
    requires id in Run(Init(intent), es).work && Run(Init(intent), es).work[id].MountLeaving?
    ensures var s' := Next(Run(Init(intent), es), Advance(id, i));
      !s'.o.mountActive && forall x :: x in s'.work ==> !MountBusy(s'.work[x])
  {
    ReachableThread(intent, es, id);
    ReachableCounts(intent, es, Advance(id, i));
    HavingNone(Next(Run(Init(intent), es), Advance(id, i)).work, MountBusy);
  }

  /** A leaving probe was counted: the counter stays the number of probes still in flight. */
  lemma LeavingProbeUncountsItself(intent: Intent, es: seq<Event>, id: Name, i: Input)
    requires id in Run(Init(intent), es).work && Run(Init(intent), es).work[id].ProbeLeaving?
    ensures var s := Run(Init(intent), es);
      var s' := Next(s, Advance(id, i));
      && s'.o.probeActive == s.o.probeActive - 1 >= 0 && id !in Having(s'.work, ProbeBusy)
      && s'.o.probeActive == |Having(s'.work, ProbeBusy)| + |Having(s'.reqs, IsProbing)|
  {
    ReachableThread(intent, es, id);
    ReachableCounts(intent, es, Advance(id, i));
  }

  lemma ReturnsOne(s: Sys, r: nat)
    requires r in s.reqs
    ensures var s' := Next(s, RequestReturns(r));
      s'.reqs == s.reqs - {r} && s'.work == s.work && s'.o.enrollActive + s'.o.probeActive == s.o.enrollActive + s.o.probeActive - 1
  {
    assert Next(s, RequestReturns(r)) == Returned(s, r);
  }

  /** A returning Manager or probe request was counted: the counters stay the requests still in flight. */
  lemma ReturningRequestUncountsItself(intent: Intent, es: seq<Event>, r: nat)
    requires r in Run(Init(intent), es).reqs
    ensures var s := Run(Init(intent), es);
      var s' := Next(s, RequestReturns(r));
      && s'.reqs == s.reqs - {r}
      && s'.o.enrollActive == |Having(s'.reqs, IsEnrolling)|
      && s'.o.probeActive == |Having(s'.work, ProbeBusy)| + |Having(s'.reqs, IsProbing)|
      && s'.o.enrollActive + s'.o.probeActive == s.o.enrollActive + s.o.probeActive - 1
  {
    ReturnsOne(Run(Init(intent), es), r);
    ReachableCounts(intent, es, RequestReturns(r));
  }

  lemma ReachableShared(intent: Intent, es: seq<Event>, id: Name)
    requires id in Run(Init(intent), es).work && Run(Init(intent), es).work[id].Released?
    ensures var s := Run(Init(intent), es);
      && id in s.o.ops && WellTyped(s.o.ops[id], s.work[id])
      && s.h.releasing.None? && s.o.link.None? && s.h.installed == s.h.released
  {
    ReachableInv(intent, es);
    var s := Run(Init(intent), es);
    assert Knows(s.o, s.h, s.o.ops[id], s.work[id]);
  }

  /** After the release returned, every Link that was ever installed has been released, and no release is under way. */
  lemma ReturnedReleaseLeavesNothing(intent: Intent, es: seq<Event>, id: Name, i: Input)
    requires id in Run(Init(intent), es).work && Run(Init(intent), es).work[id].Released?
    ensures var s' := Next(Run(Init(intent), es), Advance(id, i));
      && !s'.o.releasePending && s'.h.releasing.None? && s'.h.released == s'.h.installed
      && forall x :: x in s'.work ==> !ReleaseBusy(s'.work[x])
  {
    ReachableShared(intent, es, id);
    ReachableCounts(intent, es, Advance(id, i));
    HavingNone(Next(Run(Init(intent), es), Advance(id, i)).work, ReleaseBusy);
  }
}
