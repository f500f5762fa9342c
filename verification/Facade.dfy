/**
 The serving engine's side of the policy lanes. A facade keeps at most one
 pending update per lane, replays only that payload, and inspects the owner
 after an ambiguous reply. Its socket may lose a reply, deliver a request
 arbitrarily late, or deliver it more than once.
 */
module Facade {
  import opened Common
  import P = Policy

  datatype Pending = Pending(expected: nat, first: bool, second: bool)

  /** What a facade believes about one lane. */
  datatype View = View(sequence: nat, known: bool, first: bool, second: bool, pending: Option<Pending>)

  datatype Pc =
    | Idle
    | AttachStart | AttachHave(expected: nat) | Attaching(expected: nat) | AttachReply(ok: bool, r: P.Policy)
    | AttachCheck | AttachLook(r: P.Policy)
    | Sending(w: P.Which) | SendReply(w: P.Which, ok: bool, r: P.Policy)
    | Inspecting(w: P.Which, replay: bool) | Look(w: P.Which, replay: bool, r: P.Policy)
    | Replaying(w: P.Which)

  datatype Facade = Facade(token: Name, epoch: nat, cost: View, offline: View, pc: Pc) {
    function Get(w: P.Which): View {
      if w.Cost? then cost else offline
    }

    function Put(w: P.Which, v: View): Facade {
      if w.Cost? then this.(cost := v) else this.(offline := v)
    }
  }

  datatype Request =
    | AttachReq(token: Name, expected: nat)
    | LaneReq(w: P.Which, epoch: nat, expected: nat, first: bool, second: bool)

  const Blank := View(0, false, false, false, None)

  function NewFacade(token: Name): Facade {
    Facade(token, 0, Blank, Blank, AttachStart)
  }

  // --- the facade's own sections ----------------------------------------------------

  function ViewOf(l: P.Lane): View {
    View(l.sequence, l.sequence != 0, l.first, l.second, None)
  }

  /** The attachment was confirmed by a reply or by finding the own token in a receipt. */
  function Attached(f: Facade, r: P.Policy): Facade {
    Facade(f.token, r.epoch, ViewOf(r.cost), ViewOf(r.offline), Idle)
  }

  /** An update that changes nothing known is not sent. */
  predicate NeedsUpdate(v: View, first: bool, second: bool) {
    v.pending.None? && !(v.known && v.first == first && v.second == second)
  }

  /** The payload is retained before the socket can lose its reply. */
  function BeginUpdate(f: Facade, w: P.Which, first: bool, second: bool): Facade {
    f.Put(w, f.Get(w).(pending := Some(Pending(f.Get(w).sequence, first, second)))).(pc := Sending(w))
  }

  function Confirm(v: View, p: Pending): View {
    View(p.expected + 1, true, p.first, p.second, None)
  }

  predicate Holds(l: P.Lane, p: Pending) {
    l.sequence == p.expected + 1 && l.first == p.first && l.second == p.second
  }

  /** The reply carries the facade's own attachment, the next sequence and the pending payload. */
  predicate Matches(f: Facade, w: P.Which, r: P.Policy) {
    f.Get(w).pending.Some? && r.epoch == f.epoch && r.token == f.token && Holds(r.Get(w), f.Get(w).pending.value)
  }

  /** The reply to the original send. */
  function OnReply(f: Facade, w: P.Which, ok: bool, r: P.Policy): Facade
    requires f.Get(w).pending.Some?
  {
    if ok && Matches(f, w, r) then f.Put(w, Confirm(f.Get(w), f.Get(w).pending.value)).(pc := Idle)
    else f.(pc := Idle)
  }

  /** A receipt read while an update is pending: replay it, leave it, or see that it was applied. */
  function OnReceipt(f: Facade, w: P.Which, replay: bool, r: P.Policy): Facade
    requires f.Get(w).pending.Some?
  {
    var p := f.Get(w).pending.value;
    if r.epoch != f.epoch || r.token != f.token then f.(pc := Idle)
    else if r.Get(w).sequence == p.expected then f.(pc := if replay then Replaying(w) else Idle)
    else if !Holds(r.Get(w), p) then f.(pc := Idle)
    else f.Put(w, Confirm(f.Get(w), p)).(pc := Idle)
  }

  /**
   The reconciliation in front of a new update: read a receipt, replay the same
   payload if the owner is still at the expected sequence, and read another. A
   receipt that cannot be read is `None`.
   */
  function Reconciled(f: Facade, w: P.Which, look: Option<P.Policy>, again: Option<P.Policy>): Facade {
    if f.Get(w).pending.None? || look.None? then f.(pc := Idle)
    else
      var f1 := OnReceipt(f, w, true, look.value);
      if !f1.pc.Replaying? then f1
      else if again.None? then f.(pc := Idle) else OnReceipt(f, w, false, again.value)
  }

  /** The branch of `OnReceipt` that reports a superseded sequence or payload. */
  predicate Superseded(f: Facade, w: P.Which, r: P.Policy)
    requires f.Get(w).pending.Some?
  {
    var p := f.Get(w).pending.value;
    r.epoch == f.epoch && r.token == f.token && r.Get(w).sequence != p.expected && !Holds(r.Get(w), p)
  }

  // --- the system of one owner and any number of facades --------------------------------

  datatype Applied = Applied(w: P.Which, epoch: nat, expected: nat, first: bool, second: bool)

  /**
   `sent` holds every request ever sent and never forgets one: each may be
   delivered at any later time. `holders`, `applied` (with how often),
   `confirmed`, `superseded` and `mismatched` record what happened.
   */
  datatype Sys = Sys(
    p: P.Policy, open: bool, fs: map<nat, Facade>, sent: set<Request>,
    holders: seq<Name>, applied: multiset<Applied>, confirmed: set<Applied>, superseded: bool, mismatched: bool)

  datatype Event =
    | Born(i: nat, token: Name)
    | SetOpen(open: bool)
    | Deliver(req: Request)
    | Start(i: nat, w: P.Which, first: bool, second: bool)
    | Reconcile(i: nat, w: P.Which)
    | Serve(i: nat)
    | Lose(i: nat)
    | Consume(i: nat)

  function Init(): Sys {
    Sys(P.Unattached, false, map[], {}, [], multiset{}, {}, false, false)
  }

  function LaneRequest(f: Facade, w: P.Which): Request
    requires f.Get(w).pending.Some?
  {
    var p := f.Get(w).pending.value;
    LaneReq(w, f.epoch, p.expected, p.first, p.second)
  }

  /** The owner handles one request. */
  function Handle(s: Sys, req: Request): Sys {
    match req
    case AttachReq(token, expected) =>
      if P.AdmitsAttach(s.p, s.open, token, expected) && token != s.p.token
      then s.(p := P.Attach(s.p, s.open, token, expected), holders := s.holders + [token]) else s
    case LaneReq(w, epoch, expected, first, second) =>
      var p' := P.Update(s.p, s.open, w, epoch, expected, first, second);
      if p' != s.p then s.(p := p', applied := s.applied + multiset{Applied(w, epoch, expected, first, second)}) else s
  }

  predicate Accepts(s: Sys, req: Request) {
    match req
    case AttachReq(token, expected) => P.AdmitsAttach(s.p, s.open, token, expected)
    case LaneReq(w, epoch, expected, _, _) => P.Admits(s.p, s.open, w, epoch, expected)
  }

  function Put(s: Sys, i: nat, f: Facade): Sys {
    s.(fs := s.fs[i := f])
  }

  predicate Waits(f: Facade) {
    match f.pc
    case AttachStart => true
    case Attaching(_) => true
    case AttachCheck => true
    case Sending(w) => f.Get(w).pending.Some?
    case Inspecting(_, _) => true
    case Replaying(w) => f.Get(w).pending.Some?
    case _ => false
  }

  /** The request a waiting facade has on the socket, if it is not a plain inspection. */
  function Outstanding(f: Facade): Option<Request>
    requires Waits(f)
  {
    match f.pc
    case Attaching(expected) => Some(AttachReq(f.token, expected))
    case Sending(w) => Some(LaneRequest(f, w))
    case Replaying(w) => Some(LaneRequest(f, w))
    case _ => None
  }

  /** The owner answers the call a facade waits for; `s` is the state after it handled the request. */
  function Answered(f: Facade, ok: bool, r: P.Policy): Facade {
    match f.pc
    case AttachStart => f.(pc := AttachHave(r.epoch))
    case Attaching(_) => f.(pc := AttachReply(ok, r))
    case AttachCheck => f.(pc := AttachLook(r))
    case Sending(w) => f.(pc := SendReply(w, ok, r))
    case Inspecting(w, replay) => f.(pc := Look(w, replay, r))
    case Replaying(w) => f.(pc := Inspecting(w, false))
    case _ => f
  }

  /** A lost reply: a direct send or a replay is followed by an inspection, never by another payload. */
  function Lost(f: Facade): Facade {
    match f.pc
    case Attaching(_) => f.(pc := AttachCheck)
    case Sending(w) => f.(pc := Inspecting(w, false))
    case Replaying(w) => f.(pc := Inspecting(w, false))
    case _ => f.(pc := Idle)
  }

  function ConsumeReply(s: Sys, i: nat): Sys
    requires i in s.fs
  {
    var f := s.fs[i];
    match f.pc
    case AttachHave(expected) =>
      Put(s, i, f.(pc := Attaching(expected))).(sent := s.sent + {AttachReq(f.token, expected)})
    case AttachReply(ok, r) =>
      Put(s, i, if ok && r.epoch != 0 && r.token == f.token then Attached(f, r) else f.(pc := Idle))
    case AttachLook(r) => Put(s, i, if r.token == f.token then Attached(f, r) else f.(pc := Idle))
    case SendReply(w, ok, r) =>
      if f.Get(w).pending.None? then s
      else Settle(s, i, w, OnReply(f, w, ok, r)).(mismatched := s.mismatched || (ok && f.epoch != 0 && !Matches(f, w, r)))
    case Look(w, replay, r) =>
      if f.Get(w).pending.None? then s
      else Settle(s, i, w, OnReceipt(f, w, replay, r)).(superseded := s.superseded || Superseded(f, w, r))
    case _ => s
  }

  /** Records a cleared pending update and a replayed request. */
  function Settle(s: Sys, i: nat, w: P.Which, f': Facade): Sys
    requires i in s.fs && s.fs[i].Get(w).pending.Some?
  {
    var f := s.fs[i];
    var p := f.Get(w).pending.value;
    var s' := Put(s, i, f');
    if f'.Get(w).pending.None?
    then s'.(confirmed := s.confirmed + {Applied(w, f.epoch, p.expected, p.first, p.second)})
    else if f'.pc.Replaying? then s'.(sent := s.sent + {LaneRequest(f, w)}) else s'
  }

  /** The owner answers the call facade `i` waits on: an attach or lane request, or an inspection. */
  function Served(s: Sys, i: nat): Sys
    requires i in s.fs && Waits(s.fs[i])
  {
    var out := Outstanding(s.fs[i]);
    if out.None? then Put(s, i, Answered(s.fs[i], false, s.p))
    else
      var s' := Handle(s, out.value);
      Put(s', i, Answered(s.fs[i], Accepts(s, out.value), s'.p))
  }

  function Next(s: Sys, e: Event): Sys {
    match e
    case Born(i, token) =>
      if i in s.fs || token == EMPTY || (exists j :: j in s.fs && s.fs[j].token == token) || token in s.holders then s
      else Put(s, i, NewFacade(token))
    case SetOpen(open) => s.(open := open)
    case Deliver(req) => if req in s.sent then Handle(s, req) else s
    case Start(i, w, first, second) =>
      if i in s.fs && s.fs[i].pc.Idle? && NeedsUpdate(s.fs[i].Get(w), first, second)
      then
        var f' := BeginUpdate(s.fs[i], w, first, second);
        Put(s, i, f').(sent := s.sent + {LaneRequest(f', w)})
      else s
    case Reconcile(i, w) =>
      if i in s.fs && s.fs[i].pc.Idle? && s.fs[i].Get(w).pending.Some?
      then Put(s, i, s.fs[i].(pc := Inspecting(w, true))) else s
    case Serve(i) => if i in s.fs && Waits(s.fs[i]) then Served(s, i) else s
    case Lose(i) => if i in s.fs && Waits(s.fs[i]) then Put(s, i, Lost(s.fs[i])) else s
    case Consume(i) => if i in s.fs then ConsumeReply(s, i) else s
  }

  function Run(s: Sys, es: seq<Event>): Sys
    decreases |es|
  {
    if es == [] then s else Run(Next(s, es[0]), es[1..])
  }
}
