/** The facade as the object it is: its attachment and lane fields, updated in place under its lock. */
module FacadeObject {
  import opened Common
  import P = Policy
  import F = Facade

  /** Why a reconciliation ended. */
  datatype Report = Confirmed | SupersededAttachment | Unconfirmed | Replay | SupersededUpdate

  class OwnerFacade {
    const token: Name
    var epoch: nat
    var cost: F.View
    var offline: F.View

    /** The facade's fields, at control point `pc`. */
    ghost function At(pc: F.Pc): F.Facade
      reads this
    {
      F.Facade(token, epoch, cost, offline, pc)
    }

    constructor (token: Name)
      ensures At(F.AttachStart) == F.NewFacade(token)
    {
      this.token, epoch := token, 0;
      cost, offline := F.Blank, F.Blank;
    }

    method Adopt(r: P.Policy)
      modifies this
      ensures At(F.Idle) == F.Attached(old(At(F.Idle)), r)
    {
      epoch := r.epoch;
      cost := F.View(r.cost.sequence, r.cost.sequence != 0, r.cost.first, r.cost.second, None);
      offline := F.View(r.offline.sequence, r.offline.sequence != 0, r.offline.first, r.offline.second, None);
    }

    method HandleReply(w: P.Which, ok: bool, r: P.Policy) returns (confirmed: bool)
      requires At(F.Idle).Get(w).pending.Some?
      modifies this`cost, this`offline
      ensures At(F.Idle) == F.OnReply(old(At(F.SendReply(w, ok, r))), w, ok, r)
      ensures confirmed <==> At(F.Idle).Get(w).pending.None?
    {
      var v := if w.Cost? then cost else offline;
      var p, l := v.pending.value, r.Get(w);
      if !ok || r.epoch != epoch || r.token != token || l.sequence != p.expected + 1 || l.first != p.first || l.second != p.second {
        return false;
      }
      v := F.View(l.sequence, true, p.first, p.second, None);
      if w.Cost? { cost := v; } else { offline := v; }
      return true;
    }

    method Reconcile(w: P.Which, replay: bool, r: P.Policy) returns (report: Report)
      requires At(F.Idle).Get(w).pending.Some?
      modifies this`cost, this`offline
      ensures At(if report.Replay? then F.Replaying(w) else F.Idle) == F.OnReceipt(old(At(F.Look(w, replay, r))), w, replay, r)
      ensures report.SupersededUpdate? <==> F.Superseded(old(At(F.Look(w, replay, r))), w, r)
      ensures report.Confirmed? <==> At(F.Idle).Get(w).pending.None?
    {
      var v := if w.Cost? then cost else offline;
      var p, l := v.pending.value, r.Get(w);
      if r.epoch != epoch || r.token != token { return SupersededAttachment; }
      if l.sequence == p.expected { return if replay then Replay else Unconfirmed; }
      if l.sequence != p.expected + 1 || l.first != p.first || l.second != p.second { return SupersededUpdate; }
      v := F.View(l.sequence, true, p.first, p.second, None);
      if w.Cost? { cost := v; } else { offline := v; }
      return Confirmed;
    }

    /** Settles an update that is still pending, if the owner can be seen to hold it. */
    method SettlePending(w: P.Which, look: Option<P.Policy>, again: Option<P.Policy>) returns (ok: bool)
      modifies this`cost, this`offline
      ensures At(F.Idle) == F.Reconciled(old(At(F.Idle)), w, look, again)
      ensures ok <==> At(F.Idle).Get(w).pending.None?
    {
      if (if w.Cost? then cost else offline).pending.None? { return true; }
      if look.None? { return false; }
      var report := Reconcile(w, true, look.value);
      if report.Replay? {
        if again.None? { return false; }
        report := Reconcile(w, false, again.value);
      }
      return report.Confirmed?;
    }

    /**
     Reconciles an update that is still pending, and only then retains the new
     payload and returns the request to send, or nothing when the lane already
     holds it.
     */
    method SetLane(w: P.Which, first: bool, second: bool, look: Option<P.Policy>, again: Option<P.Policy>)
      returns (req: Option<F.Request>, ok: bool)
      modifies this`cost, this`offline
      ensures var f := F.Reconciled(old(At(F.Idle)), w, look, again);
        && ok == f.Get(w).pending.None?
        && (req.Some? <==> ok && F.NeedsUpdate(f.Get(w), first, second))
        && (req.None? ==> At(F.Idle) == f)
        && (req.Some? ==> At(F.Sending(w)) == F.BeginUpdate(f, w, first, second) && req.value == F.LaneRequest(At(F.Sending(w)), w))
    {
      ok := SettlePending(w, look, again);
      if !ok { return None, false; }
      var v := if w.Cost? then cost else offline;
      if v.known && v.first == first && v.second == second { return None, true; }
      v := v.(pending := Some(F.Pending(v.sequence, first, second)));
      if w.Cost? { cost := v; } else { offline := v; }
      return Some(F.LaneReq(w, epoch, v.sequence, first, second)), true;
    }
  }
}
