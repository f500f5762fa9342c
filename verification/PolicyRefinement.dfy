/**
 The policy lanes of the owner system are the lanes of the facade model: every
 owner event either leaves them alone or handles one attach or lane request. So
 what the facade model guarantees holds for the owner system and its facades
 running together.
 */
module PolicyRefinement {
  import opened Common
  import opened Owner
  import P = Policy
  import R = OwnerRun
  import OI = OwnerInvariant
  import OT = OwnerTheorems
  import F = Facade
  import FI = FacadeInvariant

  /** The request an owner event carries to the policy lanes, if any. */
  function RequestOf(e: R.Event): Option<F.Request> {
    match e
    case AttachRequest(_, _, _, token, expected) => Some(F.AttachReq(token, expected))
    case PolicyRequest(_, _, _, w, epoch, expected, first, second) => Some(F.LaneReq(w, epoch, expected, first, second))
    case _ => None
  }

  /** Whether the owner's identity and lifecycle checks let the request through. */
  predicate OpenFor(o: Owner, e: R.Event) {
    (e.AttachRequest? || e.PolicyRequest?) && PolicyOpen(o, e.instance, e.digest, e.root)
  }

  // --- one step ---------------------------------------------------------------------------

  lemma AttachStep(s: R.Sys, e: R.Event, f: F.Sys)
    requires e.AttachRequest? && f.p == s.o.policy && f.open == PolicyOpen(s.o, e.instance, e.digest, e.root)
    ensures R.Next(s, e).o.policy == F.Handle(f, F.AttachReq(e.token, e.expected)).p
  {
    assert R.Next(s, e).o.policy == P.Attach(s.o.policy, f.open, e.token, e.expected);
  }

  lemma LaneStep(s: R.Sys, e: R.Event, f: F.Sys)
    requires e.PolicyRequest? && f.p == s.o.policy && f.open == PolicyOpen(s.o, e.instance, e.digest, e.root)
    ensures R.Next(s, e).o.policy == F.Handle(f, F.LaneReq(e.which, e.epoch, e.expected, e.first, e.second)).p
  {
    assert R.Next(s, e).o.policy == P.Update(s.o.policy, f.open, e.which, e.epoch, e.expected, e.first, e.second);
  }

  /** The lanes are untouched and a closed stop fence stays closed. */
  predicate SameLanes(s: R.Sys, s': R.Sys) {
    s'.o.policy == s.o.policy && (s.o.stopRequested ==> s'.o.stopRequested)
  }

  lemma AdvancedSameLanes(s: R.Sys, id: Name, i: R.Input)
    ensures SameLanes(s, R.Advanced(s, id, i))
  {
    if id in s.work && id in s.o.ops && R.WellTyped(s.o.ops[id], s.work[id]) && !s.work[id].Finished? {
      OT.MoveTouchesNot(s.o, s.h, s.o.ops[id], s.work[id], i);
    }
  }

  lemma RequestedSameLanes(s: R.Sys, r: nat, q: R.Request, admitted: bool)
    ensures SameLanes(s, R.Requested(s, r, q, admitted))
  {
  }

  lemma EndedSameLanes(s: R.Sys, r: nat)
    ensures SameLanes(s, R.Ended(s, r))
  {
    if r in s.reqs { OT.UncountedHolds(s.o, s.h, s.reqs[r]); }
  }

  lemma OtherStep(s: R.Sys, e: R.Event)
    requires RequestOf(e).None?
    ensures SameLanes(s, R.Next(s, e))
  {
    match e {
      case Submit(_, _, _, _) =>
      case Advance(id, i) => AdvancedSameLanes(s, id, i);
      case ProbeRequest(r) => RequestedSameLanes(s, r, R.Probing, ProbeAdmitted(s.o));
      case EnrollRequest(r, instance, digest, root, token, epoch, allowed) =>
        RequestedSameLanes(s, r, R.Enrolling, EnrollAdmitted(s.o, instance, digest, root, token, epoch, allowed));
      case RequestReturns(r) => EndedSameLanes(s, r);
    }
  }

  /** Every event of the owner system is a step, or no step, of the facade model's owner. */
  lemma OwnerStepIsPolicyStep(s: R.Sys, e: R.Event, f: F.Sys)
    requires f.p == s.o.policy && f.open == OpenFor(s.o, e)
    ensures R.Next(s, e).o.policy == if RequestOf(e).Some? then F.Handle(f, RequestOf(e).value).p else f.p
  {
    if e.AttachRequest? {
      AttachStep(s, e, f);
    } else if e.PolicyRequest? {
      LaneStep(s, e, f);
    } else {
      OtherStep(s, e);
    }
  }

  lemma StopStays(s: R.Sys, e: R.Event)
    requires s.o.stopRequested
    ensures R.Next(s, e).o.stopRequested
  {
    if RequestOf(e).None? { OtherStep(s, e); } else { OI.LaneStep(s, e); }
  }

  /** Once Stop is admitted the lanes are closed to every request, for good. */
  lemma {:induction false} ClosedLanesStayClosed(s: R.Sys, es: seq<R.Event>)
    requires s.o.stopRequested
    ensures R.Run(s, es).o.policy == s.o.policy
    decreases |es|
  {
    if es != [] {
      StopStays(s, es[0]);
      OwnerStepIsPolicyStep(s, es[0], F.Init().(p := s.o.policy, open := false));
      ClosedLanesStayClosed(R.Next(s, es[0]), es[1..]);
    }
  }

  // --- owner and facades running together ----------------------------------------------------

  datatype Both = Both(own: R.Sys, f: F.Sys)

  datatype Step =
    | OwnerEvent(e: R.Event)            // any event of the owner; a policy request is one some facade once sent
    | FacadeEvent(ev: F.Event)          // a facade is born, starts, reconciles, loses a reply or digests one
    | Call(i: nat, e: R.Event)          // the owner takes the request facade `i` waits on and answers it
    | Look(i: nat)                      // the owner answers the inspection facade `i` waits on

  function Begin(intent: Intent): Both {
    Both(R.Init(intent), F.Init())
  }

  /** The facades' view of an owner event: the lanes are open for it or not, and then `ev` happens. */
  function Seen(b: Both, e: R.Event, ev: F.Event): F.Sys {
    F.Next(F.Next(b.f, F.SetOpen(OpenFor(b.own.o, e))), ev)
  }

  function Next(b: Both, step: Step): Both {
    match step
    case OwnerEvent(e) =>
      var req := RequestOf(e);
      if req.None? then b.(own := R.Next(b.own, e))
      else if req.value in b.f.sent then Both(R.Next(b.own, e), Seen(b, e, F.Deliver(req.value)))
      else b
    case FacadeEvent(e) => if e.Deliver? || e.SetOpen? || e.Serve? then b else b.(f := F.Next(b.f, e))
    case Call(i, e) =>
      if i in b.f.fs && F.Waits(b.f.fs[i]) && RequestOf(e).Some? && RequestOf(e) == F.Outstanding(b.f.fs[i])
      then Both(R.Next(b.own, e), Seen(b, e, F.Serve(i))) else b
    case Look(i) =>
      if i in b.f.fs && F.Waits(b.f.fs[i]) && F.Outstanding(b.f.fs[i]).None?
      then b.(f := F.Next(b.f, F.Serve(i))) else b
  }

  function Run(b: Both, steps: seq<Step>): Both
    decreases |steps|
  {
    if steps == [] then b else Run(Next(b, steps[0]), steps[1..])
  }

  lemma FacadesKeepPolicy(f: F.Sys, e: F.Event)
    requires !e.Deliver? && !e.Serve?
    ensures F.Next(f, e).p == f.p
  {
    if e.Consume? && e.i in f.fs { ConsumeKeepsPolicy(f, e.i); }
  }

  lemma ConsumeKeepsPolicy(f: F.Sys, i: nat)
    requires i in f.fs
    ensures F.ConsumeReply(f, i).p == f.p
  {
  }

  lemma ServeHandles(f: F.Sys, i: nat)
    requires i in f.fs && F.Waits(f.fs[i])
    ensures var out := F.Outstanding(f.fs[i]);
      F.Next(f, F.Serve(i)).p == if out.Some? then F.Handle(f, out.value).p else f.p
  {
  }

  lemma StepKeepsLink(b: Both, step: Step)
    requires b.f.p == b.own.o.policy
    ensures Next(b, step).f.p == Next(b, step).own.o.policy
  {
    match step {
      case OwnerEvent(e) => OwnerStepIsPolicyStep(b.own, e, b.f.(open := OpenFor(b.own.o, e)));
      case FacadeEvent(e) => if !e.Deliver? && !e.Serve? { FacadesKeepPolicy(b.f, e); }
      case Call(i, e) =>
        OwnerStepIsPolicyStep(b.own, e, b.f.(open := OpenFor(b.own.o, e)));
        if i in b.f.fs && F.Waits(b.f.fs[i]) { ServeHandles(b.f.(open := OpenFor(b.own.o, e)), i); }
      case Look(i) => if i in b.f.fs && F.Waits(b.f.fs[i]) { ServeHandles(b.f, i); }
    }
  }

  lemma SeenKeepsInv(b: Both, e: R.Event, ev: F.Event)
    requires FI.Inv(b.f)
    ensures FI.Inv(Seen(b, e, ev))
  {
    FI.NextKeepsInv(b.f, F.SetOpen(OpenFor(b.own.o, e)));
    FI.NextKeepsInv(F.Next(b.f, F.SetOpen(OpenFor(b.own.o, e))), ev);
  }

  lemma StepKeepsFacades(b: Both, step: Step)
    requires FI.Inv(b.f)
    ensures FI.Inv(Next(b, step).f)
  {
    match step {
      case OwnerEvent(e) => if RequestOf(e).Some? { SeenKeepsInv(b, e, F.Deliver(RequestOf(e).value)); }
      case FacadeEvent(ev) => FI.NextKeepsInv(b.f, ev);
      case Call(i, e) => SeenKeepsInv(b, e, F.Serve(i));
      case Look(i) => FI.NextKeepsInv(b.f, F.Serve(i));
    }
  }

  lemma {:induction false} RunKeepsLink(b: Both, steps: seq<Step>)
    requires b.f.p == b.own.o.policy && FI.Inv(b.f)
    ensures Run(b, steps).f.p == Run(b, steps).own.o.policy && FI.Inv(Run(b, steps).f)
    decreases |steps|
  {
    if steps != [] {
      StepKeepsLink(b, steps[0]);
      StepKeepsFacades(b, steps[0]);
      RunKeepsLink(Next(b, steps[0]), steps[1..]);
    }
  }

  /**
   In every run of a whole owner together with its facades, with replies lost
   and requests late or repeated: a facade attached under the owner's current
   epoch holds the owner's token and agrees with the owner's lanes up to its own
   pending update; no update is applied twice; every cleared one was applied; and
   nothing is ever reported superseded.
   */
  lemma OwnerAndFacadesAgree(intent: Intent, steps: seq<Step>)
    ensures var b := Run(Begin(intent), steps);
      && (forall i :: i in b.f.fs && b.f.fs[i].epoch == b.own.o.policy.epoch != 0 ==>
            b.own.o.policy.token == b.f.fs[i].token && FI.BothAgree(b.own.o.policy, b.f.fs[i], b.f.applied))
      && (forall x :: b.f.applied[x] <= 1) && (forall x :: x in b.f.confirmed ==> x in b.f.applied)
      && !b.f.superseded && !b.f.mismatched
  {
    RunKeepsLink(Begin(intent), steps);
  }
}
