/** Both ends of the policy lanes agree, over every run with lost and delayed messages. */
module FacadeInvariant {
  import opened Common
  import P = Policy
  import opened Facade

  /**
   The two-ended agreement: without a pending update the lane is exactly as
   believed; with one, the owner has either not applied it or applied exactly it.
   */
  ghost predicate Agrees(l: P.Lane, v: View, w: P.Which, epoch: nat, applied: multiset<Applied>) {
    && (v.known <==> v.sequence != 0)
    && match v.pending
       case None => l == P.Lane(v.sequence, v.first, v.second)
       case Some(q) =>
         && q.expected == v.sequence && (v.sequence == 0 || q.first != v.first || q.second != v.second)
         && (l == P.Lane(v.sequence, v.first, v.second) ||
             (l == P.Lane(v.sequence + 1, q.first, q.second) && Applied(w, epoch, q.expected, q.first, q.second) in applied))
  }

  ghost predicate BothAgree(r: P.Policy, f: Facade, applied: multiset<Applied>) {
    Agrees(r.cost, f.cost, P.Cost, f.epoch, applied) && Agrees(r.offline, f.offline, P.Offline, f.epoch, applied)
  }

  /** `token` is the holder of epoch `epoch`. */
  predicate HolderOf(holders: seq<Name>, epoch: nat, token: Name) {
    if epoch == 0 then token == EMPTY else epoch <= |holders| && holders[epoch - 1] == token
  }

  predicate Receipt(pc: Pc) {
    pc.AttachReply? || pc.AttachLook? || pc.SendReply? || pc.Look?
  }

  predicate AttachPhase(pc: Pc) {
    pc.AttachStart? || pc.AttachHave? || pc.Attaching? || pc.AttachReply? || pc.AttachCheck? || pc.AttachLook?
  }

  /** The lane an update is in flight on. */
  predicate Uses(pc: Pc, w: P.Which) {
    (pc.Sending? || pc.SendReply? || pc.Inspecting? || pc.Look? || pc.Replaying?) && pc.w == w
  }

  ghost predicate ReceiptOK(p: P.Policy, holders: seq<Name>, r: P.Policy) {
    && r.epoch <= p.epoch && HolderOf(holders, r.epoch, r.token)
    && (r.epoch == p.epoch ==> r.cost.sequence <= p.cost.sequence && r.offline.sequence <= p.offline.sequence)
  }

  /** A pending update targets the sequence the facade last confirmed. */
  predicate Slotted(v: View) {
    v.pending.Some? ==> v.pending.value.expected == v.sequence
  }

  ghost predicate FacadeOK(p: P.Policy, holders: seq<Name>, applied: multiset<Applied>, f: Facade) {
    && f.token != EMPTY && Slotted(f.cost) && Slotted(f.offline)
    && (f.epoch != 0 ==> HolderOf(holders, f.epoch, f.token))
    && (AttachPhase(f.pc) ==> f.epoch == 0 && f.cost == Blank && f.offline == Blank)
    && (forall w :: Uses(f.pc, w) ==> f.Get(w).pending.Some?)
    && (f.epoch != 0 && f.epoch == p.epoch ==> BothAgree(p, f, applied))
    && (f.pc.SendReply? && f.pc.ok && f.epoch != 0 ==> Matches(f, f.pc.w, f.pc.r))
    && (Receipt(f.pc) ==>
         && ReceiptOK(p, holders, f.pc.r)
         && (f.epoch != 0 && f.pc.r.epoch == f.epoch ==> BothAgree(f.pc.r, f, applied))
         && (AttachPhase(f.pc) && f.pc.r.token == f.token && f.pc.r.epoch == p.epoch ==> f.pc.r == p))
  }

  /** A lane request was sent by the holder of its epoch, and is either old or exactly the pending update. */
  predicate Covers(f: Facade, req: Request)
    requires req.LaneReq?
  {
    var v := f.Get(req.w);
    && f.epoch == req.epoch
    && (req.expected < v.sequence || (req.expected == v.sequence && v.pending == Some(Pending(req.expected, req.first, req.second))))
  }

  ghost predicate RequestOK(fs: map<nat, Facade>, req: Request) {
    req.LaneReq? && req.epoch != 0 ==> exists i :: i in fs && Covers(fs[i], req)
  }

  ghost predicate OwnerOK(s: Sys) {
    && |s.holders| == s.p.epoch && HolderOf(s.holders, s.p.epoch, s.p.token)
    && (forall x :: x in s.applied ==> x.expected < s.p.Get(x.w).sequence && s.applied[x] == 1)
    && (forall x, y :: x in s.applied && y in s.applied && x.w == y.w && x.expected == y.expected ==> x == y)
  }

  ghost predicate FacadesOK(s: Sys) {
    forall i :: i in s.fs ==> FacadeOK(s.p, s.holders, s.applied, s.fs[i])
  }

  ghost predicate TokensDiffer(s: Sys) {
    forall i, j :: i in s.fs && j in s.fs && s.fs[i].token == s.fs[j].token ==> i == j
  }

  ghost predicate RequestsOK(s: Sys) {
    forall req :: req in s.sent ==> RequestOK(s.fs, req)
  }

  ghost predicate ConfirmedApplied(s: Sys) {
    forall x :: x in s.confirmed ==> x in s.applied
  }

  ghost predicate Inv(s: Sys) {
    OwnerOK(s) && FacadesOK(s) && TokensDiffer(s) && RequestsOK(s) && ConfirmedApplied(s) && !s.superseded && !s.mismatched
  }

  // --- the owner handles a request ---------------------------------------------------

  /** An admitted request of a facade that agrees is its pending update, and it takes the lane one step. */
  lemma LaneFits(p: P.Policy, open: bool, f: Facade, req: Request, applied: multiset<Applied>)
    requires req.LaneReq? && Covers(f, req) && BothAgree(p, f, applied)
    requires P.Admits(p, open, req.w, req.epoch, req.expected)
    ensures f.Get(req.w).pending == Some(Pending(req.expected, req.first, req.second))
    ensures var p' := P.Update(p, open, req.w, req.epoch, req.expected, req.first, req.second);
      && p'.Get(req.w) == P.Lane(req.expected + 1, req.first, req.second)
      && BothAgree(p', f, applied + multiset{Applied(req.w, req.epoch, req.expected, req.first, req.second)})
  {
  }

  lemma SameHolder(s: Sys, i: nat, j: nat)
    requires Inv(s) && i in s.fs && j in s.fs && s.fs[i].epoch == s.fs[j].epoch != 0
    ensures i == j
  {
    assert FacadeOK(s.p, s.holders, s.applied, s.fs[i]) && FacadeOK(s.p, s.holders, s.applied, s.fs[j]);
  }

  lemma AttachKeepsFacade(s: Sys, token: Name, f: Facade)
    requires OwnerOK(s) && FacadeOK(s.p, s.holders, s.applied, f)
    ensures FacadeOK(s.p.(epoch := s.p.epoch + 1, token := token), s.holders + [token], s.applied, f)
  {
  }

  lemma AgreeGrows(r: P.Policy, f: Facade, applied: multiset<Applied>, more: multiset<Applied>)
    requires BothAgree(r, f, applied) && applied <= more
    ensures BothAgree(r, f, more)
  {
  }

  /** The holder of the current epoch sees its own update arrive. */
  lemma LaneKeepsHolder(s: Sys, req: Request, j: nat)
    requires Inv(s) && req.LaneReq? && RequestOK(s.fs, req) && j in s.fs && Handle(s, req).p != s.p
    requires s.fs[j].epoch == s.p.epoch != 0
    ensures var s' := Handle(s, req); BothAgree(s'.p, s.fs[j], s'.applied)
  {
    var i :| i in s.fs && Covers(s.fs[i], req);
    SameHolder(s, i, j);
    assert FacadeOK(s.p, s.holders, s.applied, s.fs[j]);
    LaneFits(s.p, s.open, s.fs[j], req, s.applied);
  }

  /** No request of the current epoch exists before its holder knows that it is attached. */
  lemma LaneNeedsAttached(s: Sys, req: Request, j: nat)
    requires Inv(s) && req.LaneReq? && RequestOK(s.fs, req) && j in s.fs && Handle(s, req).p != s.p
    ensures s.fs[j].token == s.p.token ==> s.fs[j].epoch == s.p.epoch
  {
    assert FacadeOK(s.p, s.holders, s.applied, s.fs[j]);
    if s.p.epoch != 0 {
      var i :| i in s.fs && Covers(s.fs[i], req);
      assert FacadeOK(s.p, s.holders, s.applied, s.fs[i]);
    }
  }

  lemma LaneKeepsFacade(s: Sys, req: Request, j: nat)
    requires Inv(s) && req.LaneReq? && RequestOK(s.fs, req) && j in s.fs && Handle(s, req).p != s.p
    ensures var s' := Handle(s, req); FacadeOK(s'.p, s'.holders, s'.applied, s.fs[j])
  {
    var s', f := Handle(s, req), s.fs[j];
    LaneNeedsAttached(s, req, j);
    if f.epoch == s.p.epoch != 0 { LaneKeepsHolder(s, req, j); }
    LaneKeepsReceipt(s, s', f);
  }

  lemma LaneKeepsReceipt(s: Sys, s': Sys, f: Facade)
    requires OwnerOK(s) && FacadeOK(s.p, s.holders, s.applied, f) && s'.holders == s.holders && s.applied <= s'.applied
    requires s'.p.epoch == s.p.epoch && s'.p.token == s.p.token
    requires s.p.cost.sequence <= s'.p.cost.sequence && s.p.offline.sequence <= s'.p.offline.sequence
    requires f.token == s.p.token ==> f.epoch == s.p.epoch
    requires f.epoch == s.p.epoch != 0 ==> BothAgree(s'.p, f, s'.applied)
    ensures FacadeOK(s'.p, s'.holders, s'.applied, f)
  {
    if Receipt(f.pc) && f.epoch != 0 && f.pc.r.epoch == f.epoch {
      AgreeGrows(f.pc.r, f, s.applied, s'.applied);
    }
  }

  lemma LaneKeepsOwner(s: Sys, req: Request)
    requires OwnerOK(s) && req.LaneReq?
    ensures OwnerOK(Handle(s, req))
  {
  }

  lemma AttachKeepsOwner(s: Sys, req: Request)
    requires OwnerOK(s) && req.AttachReq?
    ensures OwnerOK(Handle(s, req))
  {
  }

  lemma HandleKeepsInv(s: Sys, req: Request)
    requires Inv(s) && RequestOK(s.fs, req)
    ensures Inv(Handle(s, req))
  {
    var s' := Handle(s, req);
    if s' != s {
      forall j | j in s.fs ensures FacadeOK(s'.p, s'.holders, s'.applied, s.fs[j]) {
        if req.AttachReq? { AttachKeepsFacade(s, req.token, s.fs[j]); } else { LaneKeepsFacade(s, req, j); }
      }
      if req.AttachReq? { AttachKeepsOwner(s, req); } else { LaneKeepsOwner(s, req); }
      assert FacadesOK(s');
      assert RequestsOK(s');
      assert ConfirmedApplied(s');
    }
  }

  // --- a facade moves ------------------------------------------------------------------

  /** The new facade still covers whatever the old one covered. */
  predicate Succeeds(f: Facade, f': Facade) {
    && f'.token == f.token && (f.epoch != 0 ==> f'.epoch == f.epoch)
    && forall w :: Keeps(f.Get(w), f'.Get(w)) || f.epoch == 0
  }

  predicate Keeps(v: View, v': View) {
    || (v'.sequence == v.sequence && (v.pending.None? || v'.pending == v.pending))
    || v'.sequence == v.sequence + 1
  }

  /** A request stays covered when one facade moves on. */
  lemma StaysCovered(fs: map<nat, Facade>, i: nat, f': Facade, req: Request)
    requires i in fs && Succeeds(fs[i], f') && RequestOK(fs, req)
    ensures RequestOK(fs[i := f'], req)
  {
    if req.LaneReq? && req.epoch != 0 {
      var j :| j in fs && Covers(fs[j], req);
      assert j in fs[i := f'] && Covers(fs[i := f'][j], req);
    }
  }

  lemma PutKeepsInv(s: Sys, i: nat, f': Facade, s': Sys)
    requires Inv(s) && i in s.fs && Succeeds(s.fs[i], f') && FacadeOK(s.p, s.holders, s.applied, f')
    requires s' == Put(s, i, f').(sent := s'.sent, confirmed := s'.confirmed)
    requires forall req :: req in s'.sent ==> req in s.sent || RequestOK(s'.fs, req)
    requires forall x :: x in s'.confirmed ==> x in s.confirmed || x in s.applied
    ensures Inv(s')
  {
    forall req | req in s'.sent ensures RequestOK(s'.fs, req) {
      if req in s.sent { StaysCovered(s.fs, i, f', req); }
    }
    assert RequestsOK(s');
    assert FacadesOK(s');
    assert TokensDiffer(s');
  }

  lemma BeginStep(s: Sys, f: Facade, w: P.Which, first: bool, second: bool)
    requires FacadeOK(s.p, s.holders, s.applied, f) && f.pc.Idle? && NeedsUpdate(f.Get(w), first, second)
    ensures var f' := BeginUpdate(f, w, first, second);
      FacadeOK(s.p, s.holders, s.applied, f') && Succeeds(f, f') && Covers(f', LaneRequest(f', w))
  {
  }

  lemma StartKeepsInv(s: Sys, i: nat, w: P.Which, first: bool, second: bool)
    requires Inv(s) && i in s.fs && s.fs[i].pc.Idle? && NeedsUpdate(s.fs[i].Get(w), first, second)
    ensures Inv(Next(s, Start(i, w, first, second)))
  {
    var f' := BeginUpdate(s.fs[i], w, first, second);
    BeginStep(s, s.fs[i], w, first, second);
    var s' := Put(s, i, f').(sent := s.sent + {LaneRequest(f', w)});
    assert Covers(s'.fs[i], LaneRequest(f', w));
    PutKeepsInv(s, i, f', s');
  }

  lemma ReconcileStep(s: Sys, f: Facade, w: P.Which)
    requires FacadeOK(s.p, s.holders, s.applied, f) && f.pc.Idle? && f.Get(w).pending.Some?
    ensures var f' := f.(pc := Inspecting(w, true)); FacadeOK(s.p, s.holders, s.applied, f') && Succeeds(f, f')
  {
  }

  lemma ReconcileKeepsInv(s: Sys, i: nat, w: P.Which)
    requires Inv(s) && i in s.fs && s.fs[i].pc.Idle? && s.fs[i].Get(w).pending.Some?
    ensures Inv(Next(s, Reconcile(i, w)))
  {
    var f' := s.fs[i].(pc := Inspecting(w, true));
    ReconcileStep(s, s.fs[i], w);
    PutKeepsInv(s, i, f', Put(s, i, f'));
  }

  lemma LoseStep(s: Sys, f: Facade)
    requires FacadeOK(s.p, s.holders, s.applied, f) && Waits(f)
    ensures FacadeOK(s.p, s.holders, s.applied, Lost(f)) && Succeeds(f, Lost(f))
  {
  }

  lemma LoseKeepsInv(s: Sys, i: nat)
    requires Inv(s) && i in s.fs && Waits(s.fs[i])
    ensures Inv(Put(s, i, Lost(s.fs[i])))
  {
    LoseStep(s, s.fs[i]);
    PutKeepsInv(s, i, Lost(s.fs[i]), Put(s, i, Lost(s.fs[i])));
  }

  lemma AnswerStep(s: Sys, f: Facade, ok: bool)
    requires |s.holders| == s.p.epoch && HolderOf(s.holders, s.p.epoch, s.p.token)
    requires FacadeOK(s.p, s.holders, s.applied, f) && Waits(f)
    requires ok && f.pc.Sending? && f.epoch != 0 ==> Matches(f, f.pc.w, s.p)
    ensures FacadeOK(s.p, s.holders, s.applied, Answered(f, ok, s.p)) && Succeeds(f, Answered(f, ok, s.p))
  {
    var f' := Answered(f, ok, s.p);
    forall w | Uses(f'.pc, w) ensures f'.Get(w).pending.Some? {
      assert Uses(f.pc, w);
    }
  }

  lemma AnswerKeepsInv(s: Sys, i: nat, ok: bool)
    requires Inv(s) && i in s.fs && Waits(s.fs[i])
    requires ok && s.fs[i].pc.Sending? && s.fs[i].epoch != 0 ==> Matches(s.fs[i], s.fs[i].pc.w, s.p)
    ensures Inv(Put(s, i, Answered(s.fs[i], ok, s.p)))
  {
    AnswerStep(s, s.fs[i], ok);
    PutKeepsInv(s, i, Answered(s.fs[i], ok, s.p), Put(s, i, Answered(s.fs[i], ok, s.p)));
  }

  /** A facade's own request on the socket is covered, and if it is accepted the owner then holds its payload. */
  lemma OwnRequest(s: Sys, i: nat)
    requires i in s.fs && Waits(s.fs[i]) && Outstanding(s.fs[i]).Some? && FacadeOK(s.p, s.holders, s.applied, s.fs[i])
    requires HolderOf(s.holders, s.p.epoch, s.p.token)
    ensures RequestOK(s.fs, Outstanding(s.fs[i]).value)
    ensures var f := s.fs[i];
      Accepts(s, Outstanding(f).value) && f.pc.Sending? && f.epoch != 0 ==> Matches(f, f.pc.w, Handle(s, Outstanding(f).value).p)
  {
    var f, req := s.fs[i], Outstanding(s.fs[i]).value;
    if req.LaneReq? {
      assert i in s.fs && Covers(s.fs[i], req);
      if f.epoch != 0 && Accepts(s, req) { LaneFits(s.p, s.open, f, req, s.applied); }
    }
  }

  lemma RequestKeepsInv(s: Sys, i: nat, req: Request)
    requires Inv(s) && i in s.fs && Waits(s.fs[i]) && Outstanding(s.fs[i]) == Some(req) && RequestOK(s.fs, req)
    requires Accepts(s, req) && s.fs[i].pc.Sending? && s.fs[i].epoch != 0 ==> Matches(s.fs[i], s.fs[i].pc.w, Handle(s, req).p)
    ensures Inv(Served(s, i))
  {
    HandleKeepsInv(s, req);
    assert Handle(s, req).fs == s.fs;
    AnswerKeepsInv(Handle(s, req), i, Accepts(s, req));
  }

  lemma ServeKeepsInv(s: Sys, i: nat)
    requires Inv(s) && i in s.fs && Waits(s.fs[i])
    ensures Inv(Served(s, i))
  {
    var out := Outstanding(s.fs[i]);
    if out.Some? {
      OwnRequest(s, i);
      RequestKeepsInv(s, i, out.value);
    } else {
      AnswerKeepsInv(s, i, false);
    }
  }

  lemma AttachedOK(s: Sys, f: Facade, r: P.Policy)
    requires FacadeOK(s.p, s.holders, s.applied, f) && AttachPhase(f.pc) && Receipt(f.pc) && r == f.pc.r && r.token == f.token
    ensures FacadeOK(s.p, s.holders, s.applied, Attached(f, r)) && Succeeds(f, Attached(f, r)) && r.epoch != 0
  {
  }

  /** A lane a receipt shows either holds the pending update, which was then applied, or is still where it was. */
  lemma LaneDecides(r: P.Lane, v: View, w: P.Which, epoch: nat, applied: multiset<Applied>)
    requires Agrees(r, v, w, epoch, applied) && v.pending.Some?
    ensures var p := v.pending.value;
      if Holds(r, p) then Applied(w, epoch, p.expected, p.first, p.second) in applied else r.sequence == p.expected
  {
  }

  /** The owner's lane is never behind a receipt, so it agrees with the confirmed view too. */
  lemma ConfirmedLane(l: P.Lane, r: P.Lane, v: View, w: P.Which, epoch: nat, applied: multiset<Applied>)
    requires Agrees(l, v, w, epoch, applied) && v.pending.Some? && Holds(r, v.pending.value) && r.sequence <= l.sequence
    ensures Agrees(l, Confirm(v, v.pending.value), w, epoch, applied)
  {
  }

  lemma ReceiptAgrees(s: Sys, f: Facade, w: P.Which)
    requires FacadeOK(s.p, s.holders, s.applied, f) && Receipt(f.pc) && Uses(f.pc, w)
    requires f.pc.r.epoch == f.epoch && f.pc.r.token == f.token
    ensures f.epoch != 0 && f.Get(w).pending.Some? && Agrees(f.pc.r.Get(w), f.Get(w), w, f.epoch, s.applied)
    ensures f.epoch == s.p.epoch ==>
              Agrees(s.p.Get(w), f.Get(w), w, f.epoch, s.applied) && f.pc.r.Get(w).sequence <= s.p.Get(w).sequence
  {
    assert BothAgree(f.pc.r, f, s.applied);
  }

  lemma ConfirmStep(s: Sys, f: Facade, w: P.Which, p: Pending)
    requires FacadeOK(s.p, s.holders, s.applied, f) && f.Get(w).pending == Some(p)
    requires f.epoch != 0 && f.epoch == s.p.epoch ==> Agrees(s.p.Get(w), Confirm(f.Get(w), p), w, f.epoch, s.applied)
    ensures var f' := f.Put(w, Confirm(f.Get(w), p)).(pc := Idle); FacadeOK(s.p, s.holders, s.applied, f') && Succeeds(f, f')
  {
  }

  /** Clearing a pending update is justified: the receipt that cleared it shows it applied. */
  lemma ConfirmedOK(s: Sys, f: Facade, w: P.Which, r: P.Policy)
    requires FacadeOK(s.p, s.holders, s.applied, f) && Receipt(f.pc) && r == f.pc.r && Uses(f.pc, w)
    requires r.epoch == f.epoch && r.token == f.token
    ensures f.epoch != 0 && f.Get(w).pending.Some?
    ensures var p := f.Get(w).pending.value;
      if Holds(r.Get(w), p) then
        var f' := f.Put(w, Confirm(f.Get(w), p)).(pc := Idle);
        && FacadeOK(s.p, s.holders, s.applied, f') && Succeeds(f, f')
        && Applied(w, f.epoch, p.expected, p.first, p.second) in s.applied
      else r.Get(w).sequence == p.expected
  {
    ReceiptAgrees(s, f, w);
    var v := f.Get(w);
    LaneDecides(r.Get(w), v, w, f.epoch, s.applied);
    if Holds(r.Get(w), v.pending.value) {
      if f.epoch == s.p.epoch { ConfirmedLane(s.p.Get(w), r.Get(w), v, w, f.epoch, s.applied); }
      ConfirmStep(s, f, w, v.pending.value);
    }
  }

  /** Either the pending update stays, or it is cleared and was applied. */
  ghost predicate ClearedOnlyIfApplied(f: Facade, f': Facade, w: P.Which, applied: multiset<Applied>)
    requires f.Get(w).pending.Some?
  {
    var p := f.Get(w).pending.value;
    if f'.Get(w).pending.None? then Applied(w, f.epoch, p.expected, p.first, p.second) in applied
    else f'.Get(w).pending == f.Get(w).pending && f'.epoch == f.epoch && f'.Get(w).sequence == f.Get(w).sequence
  }

  lemma ReplyStep(s: Sys, f: Facade, w: P.Which, ok: bool, r: P.Policy)
    requires FacadeOK(s.p, s.holders, s.applied, f) && f.pc == SendReply(w, ok, r) && f.Get(w).pending.Some?
    ensures var f' := OnReply(f, w, ok, r);
      FacadeOK(s.p, s.holders, s.applied, f') && Succeeds(f, f') && ClearedOnlyIfApplied(f, f', w, s.applied) && !f'.pc.Replaying?
  {
    if r.epoch == f.epoch && r.token == f.token { ConfirmedOK(s, f, w, r); }
  }

  lemma ReceiptStep(s: Sys, f: Facade, w: P.Which, replay: bool, r: P.Policy)
    requires FacadeOK(s.p, s.holders, s.applied, f) && f.pc == Look(w, replay, r) && f.Get(w).pending.Some?
    ensures !Superseded(f, w, r)
    ensures var f' := OnReceipt(f, w, replay, r);
      FacadeOK(s.p, s.holders, s.applied, f') && Succeeds(f, f') && ClearedOnlyIfApplied(f, f', w, s.applied)
  {
    if r.epoch == f.epoch && r.token == f.token { ConfirmedOK(s, f, w, r); }
  }

  lemma SettledRequest(s: Sys, f: Facade, w: P.Which, f': Facade)
    requires FacadeOK(s.p, s.holders, s.applied, f) && f.Get(w).pending.Some? && f'.Get(w).pending.Some?
    requires ClearedOnlyIfApplied(f, f', w, s.applied)
    ensures Covers(f', LaneRequest(f, w))
  {
  }

  lemma SettleKeepsInv(s: Sys, i: nat, w: P.Which, f': Facade)
    requires Inv(s) && i in s.fs && s.fs[i].Get(w).pending.Some?
    requires FacadeOK(s.p, s.holders, s.applied, f') && Succeeds(s.fs[i], f') && ClearedOnlyIfApplied(s.fs[i], f', w, s.applied)
    ensures Inv(Settle(s, i, w, f'))
  {
    var s' := Settle(s, i, w, f');
    if f'.Get(w).pending.Some? {
      SettledRequest(s, s.fs[i], w, f');
      assert i in s'.fs && Covers(s'.fs[i], LaneRequest(s.fs[i], w));
    }
    PutKeepsInv(s, i, f', s');
  }

  lemma ReplyKeepsInv(s: Sys, i: nat)
    requires Inv(s) && i in s.fs && s.fs[i].pc.SendReply?
    ensures Inv(ConsumeReply(s, i))
  {
    var f := s.fs[i];
    var SendReply(w, ok, r) := f.pc;
    assert Uses(f.pc, w);
    ReplyStep(s, f, w, ok, r);
    SettleKeepsInv(s, i, w, OnReply(f, w, ok, r));
  }

  lemma LookKeepsInv(s: Sys, i: nat)
    requires Inv(s) && i in s.fs && s.fs[i].pc.Look?
    ensures Inv(ConsumeReply(s, i))
  {
    var f := s.fs[i];
    var Look(w, replay, r) := f.pc;
    assert Uses(f.pc, w);
    ReceiptStep(s, f, w, replay, r);
    SettleKeepsInv(s, i, w, OnReceipt(f, w, replay, r));
  }

  /** The attachment steps of a facade. */
  function AttachStep(f: Facade): Facade
    requires f.pc.AttachHave? || f.pc.AttachReply? || f.pc.AttachLook?
  {
    match f.pc
    case AttachHave(expected) => f.(pc := Attaching(expected))
    case AttachReply(ok, r) => if ok && r.epoch != 0 && r.token == f.token then Attached(f, r) else f.(pc := Idle)
    case AttachLook(r) => if r.token == f.token then Attached(f, r) else f.(pc := Idle)
  }

  lemma AttachStepOK(s: Sys, f: Facade)
    requires FacadeOK(s.p, s.holders, s.applied, f) && (f.pc.AttachHave? || f.pc.AttachReply? || f.pc.AttachLook?)
    ensures FacadeOK(s.p, s.holders, s.applied, AttachStep(f)) && Succeeds(f, AttachStep(f))
  {
    if !f.pc.AttachHave? && f.pc.r.token == f.token { AttachedOK(s, f, f.pc.r); }
  }

  lemma ConsumesAttach(s: Sys, i: nat)
    requires i in s.fs && (s.fs[i].pc.AttachHave? || s.fs[i].pc.AttachReply? || s.fs[i].pc.AttachLook?)
    ensures var s' := ConsumeReply(s, i);
      && s' == Put(s, i, AttachStep(s.fs[i])).(sent := s'.sent)
      && (forall req :: req in s'.sent ==> req in s.sent || req.AttachReq?)
  {
  }

  lemma AttachKeepsInv(s: Sys, i: nat)
    requires Inv(s) && i in s.fs && (s.fs[i].pc.AttachHave? || s.fs[i].pc.AttachReply? || s.fs[i].pc.AttachLook?)
    ensures Inv(ConsumeReply(s, i))
  {
    AttachStepOK(s, s.fs[i]);
    ConsumesAttach(s, i);
    PutKeepsInv(s, i, AttachStep(s.fs[i]), ConsumeReply(s, i));
  }

  lemma ConsumeKeepsInv(s: Sys, i: nat)
    requires Inv(s) && i in s.fs
    ensures Inv(ConsumeReply(s, i))
  {
    var pc := s.fs[i].pc;
    if pc.SendReply? { ReplyKeepsInv(s, i); }
    else if pc.Look? { LookKeepsInv(s, i); }
    else if pc.AttachHave? || pc.AttachReply? || pc.AttachLook? { AttachKeepsInv(s, i); }
  }

  lemma NewcomerCovers(fs: map<nat, Facade>, i: nat, f: Facade, req: Request)
    requires i !in fs && RequestOK(fs, req)
    ensures RequestOK(fs[i := f], req)
  {
    if req.LaneReq? && req.epoch != 0 {
      var j :| j in fs && Covers(fs[j], req);
      assert j in fs[i := f] && Covers(fs[i := f][j], req);
    }
  }

  lemma BornKeepsInv(s: Sys, i: nat, token: Name)
    requires Inv(s)
    ensures Inv(Next(s, Born(i, token)))
  {
    var s' := Next(s, Born(i, token));
    if s' != s {
      forall req | req in s.sent ensures RequestOK(s'.fs, req) {
        NewcomerCovers(s.fs, i, NewFacade(token), req);
      }
      assert RequestsOK(s');
      assert FacadesOK(s');
      assert TokensDiffer(s');
    }
  }

  lemma OpenKeepsInv(s: Sys, open: bool)
    requires Inv(s)
    ensures Inv(s.(open := open))
  {
    var s' := s.(open := open);
    assert OwnerOK(s') && FacadesOK(s') && TokensDiffer(s') && RequestsOK(s') && ConfirmedApplied(s');
  }

  lemma OwnerKeepsInv(s: Sys, e: Event)
    requires Inv(s) && (e.Born? || e.SetOpen? || e.Deliver?)
    ensures Inv(Next(s, e))
  {
    match e {
      case Born(i, token) => BornKeepsInv(s, i, token);
      case SetOpen(open) => OpenKeepsInv(s, open);
      case Deliver(req) => if req in s.sent { HandleKeepsInv(s, req); }
    }
  }

  lemma IdleKeepsInv(s: Sys, e: Event)
    requires Inv(s) && (e.Start? || e.Reconcile?)
    ensures Inv(Next(s, e))
  {
    if e.i in s.fs && s.fs[e.i].pc.Idle? {
      if e.Start? {
        if NeedsUpdate(s.fs[e.i].Get(e.w), e.first, e.second) { StartKeepsInv(s, e.i, e.w, e.first, e.second); }
      } else {
        if s.fs[e.i].Get(e.w).pending.Some? { ReconcileKeepsInv(s, e.i, e.w); }
      }
    }
  }

  lemma ReplyEventKeepsInv(s: Sys, e: Event)
    requires Inv(s) && (e.Lose? || e.Consume?)
    ensures Inv(Next(s, e))
  {
    if e.i in s.fs {
      if e.Consume? {
        ConsumeKeepsInv(s, e.i);
      } else if Waits(s.fs[e.i]) {
        LoseKeepsInv(s, e.i);
      }
    }
  }

  lemma ServeEventKeepsInv(s: Sys, i: nat)
    requires Inv(s)
    ensures Inv(Next(s, Serve(i)))
  {
    if i in s.fs && Waits(s.fs[i]) { ServeKeepsInv(s, i); }
  }

  lemma NextKeepsInv(s: Sys, e: Event)
    requires Inv(s)
    ensures Inv(Next(s, e))
  {
    if e.Born? || e.SetOpen? || e.Deliver? {
      OwnerKeepsInv(s, e);
    } else if e.Start? || e.Reconcile? {
      IdleKeepsInv(s, e);
    } else if e.Serve? {
      ServeEventKeepsInv(s, e.i);
    } else {
      ReplyEventKeepsInv(s, e);
    }
  }

  lemma {:induction false} RunKeepsInv(s: Sys, es: seq<Event>)
    requires Inv(s)
    ensures Inv(Run(s, es))
    decreases |es|
  {
    if es != [] {
      NextKeepsInv(s, es[0]);
      RunKeepsInv(Next(s, es[0]), es[1..]);
    }
  }

  /**
   In every run with lost replies and requests delivered arbitrarily late, once
   or repeatedly: while a facade's attachment is current, each lane is either as
   the facade believes or exactly one step ahead holding its pending payload;
   no update is applied twice and no sequence slot takes two; every cleared
   update was applied; and neither the "superseded" report nor a mismatched
   reply ever occurs.
   */
  lemma PolicySafety(es: seq<Event>)
    ensures var s := Run(Init(), es);
      && !s.superseded && !s.mismatched
      && (forall x :: x in s.confirmed ==> x in s.applied)
      && (forall x :: s.applied[x] <= 1)
      && (forall x, y :: x in s.applied && y in s.applied && x.w == y.w && x.expected == y.expected ==> x == y)
      && (forall i :: i in s.fs && s.fs[i].epoch == s.p.epoch != 0 ==> s.p.token == s.fs[i].token && BothAgree(s.p, s.fs[i], s.applied))
      && (forall i, j :: i in s.fs && j in s.fs && s.fs[i].epoch == s.fs[j].epoch != 0 ==> i == j)
  {
    RunKeepsInv(Init(), es);
    var s := Run(Init(), es);
    forall i, j | i in s.fs && j in s.fs && s.fs[i].epoch == s.fs[j].epoch != 0 ensures i == j {
      SameHolder(s, i, j);
    }
  }

  lemma ConsumeKeepsHolders(s: Sys, i: nat)
    requires i in s.fs
    ensures ConsumeReply(s, i).holders == s.holders
  {
  }

  lemma HandleGrowsHolders(s: Sys, req: Request)
    ensures s.holders <= Handle(s, req).holders
  {
  }

  lemma HoldersStep(s: Sys, e: Event)
    ensures s.holders <= Next(s, e).holders
  {
    if e.Consume? {
      if e.i in s.fs { ConsumeKeepsHolders(s, e.i); }
    } else if e.Deliver? {
      HandleGrowsHolders(s, e.req);
    } else if e.Serve? {
      if e.i in s.fs && Waits(s.fs[e.i]) && Outstanding(s.fs[e.i]).Some? { HandleGrowsHolders(s, Outstanding(s.fs[e.i]).value); }
    }
  }

  /** Each epoch keeps its one holder through every continuation. */
  lemma {:induction false} EpochHasOneHolder(s: Sys, es: seq<Event>)
    ensures s.holders <= Run(s, es).holders
    decreases |es|
  {
    if es != [] {
      HoldersStep(s, es[0]);
      EpochHasOneHolder(Next(s, es[0]), es[1..]);
    }
  }
}
