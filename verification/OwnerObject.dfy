/** The volume owner as the object it is: mutable fields, one method per section under the owner lock. */
module OwnerObject {
  import opened Common
  import opened O = Owner
  import OwnerInvariant
  import Policy

  class VolumeOwner {
    const intent: Intent
    const bound: bool
    var claimDigest: Name
    var config: Name
    var logical: Name
    var manager: Option<nat>
    var link: Option<nat>
    var releaseLink: Option<nat>
    var releasePending: bool
    var mountActive: bool
    var probeActive: int
    var enrollActive: int
    var epoch: nat
    var token: Name
    var cost: Policy.Lane
    var offline: Policy.Lane
    var retired: bool
    var terminal: bool
    var stopRequested: bool
    var ops: map<Name, Operation>

    ghost function Abs(): Owner
      reads this
    {
      Owner(intent, bound, claimDigest, config, logical, manager, link, releaseLink, releasePending,
            mountActive, probeActive, enrollActive, Policy.Policy(epoch, token, cost, offline),
            retired, terminal, stopRequested, ops)
    }

    constructor (intent: Intent)
      ensures Abs() == Fresh(intent)
    {
      this.intent, bound, claimDigest := intent, true, intent.digest;
      config, logical, manager, link, releaseLink, releasePending := EMPTY, EMPTY, None, None, None, false;
      mountActive, probeActive, enrollActive, epoch, token := false, 0, 0, 0, EMPTY;
      cost, offline := Policy.Lane(0, false, false), Policy.Lane(0, false, false);
      retired, terminal, stopRequested, ops := false, false, false, map[];
    }

    /** Walks the table, in any order, for an operation that bars a new one of kind `m`. */
    method Barred(m: Kind) returns (why: Option<Refusal>)
      requires OwnerInvariant.TableInv(Abs())
      ensures why == if OneShot(m) && Selected(Abs(), m) then Some(AlreadySelected)
                     else if m.Stop? && StopIs(Abs(), true) then Some(AlreadyStopped)
                     else if m.Stop? && StopIs(Abs(), false) then Some(StopPending)
                     else None
    {
      var todo := ops.Keys;
      while todo != {}
        invariant todo <= ops.Keys
        invariant forall id :: id in ops && id !in todo ==>
          (OneShot(m) ==> ops[id].kind != m) && (m.Stop? ==> !OwnerInvariant.LiveStop(ops[id]))
        decreases todo
      {
        var id :| id in todo;
        todo := todo - {id};
        var prior := ops[id];
        if prior.kind == m {
          if OneShot(m) { return Some(AlreadySelected); }
          if m.Stop? {
            if prior.outcome.Pending? { return Some(StopPending); }
            if prior.outcome.ok { return Some(AlreadyStopped); }
          }
        }
      }
      return None;
    }

    /** The checks in front of a new ID. */
    method Screen(m: Kind, payload: Payload) returns (why: Option<Refusal>)
      requires OwnerInvariant.TableInv(Abs())
      ensures why == Refuses(Abs(), m, payload)
    {
      if terminal { return Some(Terminal); }
      if (m.Claim? || m.Mount?) && (stopRequested || retired) { return Some(AfterStop); }
      why := Barred(m);
      if why.Some? { return why; }
      if |ops| >= MAX_OPERATIONS { return Some(TableFull); }
      if m.Claim? && ((claimDigest != EMPTY && claimDigest != payload.digest) || (bound && intent.digest != payload.digest)) {
        return Some(DifferentClaim);
      }
    }

    method Begin(m: Kind, id: Name, payload: Payload) returns (reply: Reply, started: bool)
      requires OwnerInvariant.TableInv(Abs())
      modifies this
      ensures Begun(Abs(), reply, started) == O.Begin(old(Abs()), m, id, payload)
    {
      if !ValidID(id) { return Refused(InvalidID), false; }
      if id in ops {
        if ops[id].kind != m || ops[id].payload != payload { return Refused(Rebound), false; }
        return Answer(ops[id].outcome), false;
      }
      var why := Screen(m, payload);
      if why.Some? { return Refused(why.value), false; }
      if m.Claim? { claimDigest := payload.digest; }
      if m.Stop? { stopRequested := true; }
      ops := ops[id := Operation(m, payload, Pending)];
      return Waiting, true;
    }

    method Finish(id: Name, ok: bool, text: Name)
      requires id in ops
      modifies this`ops
      ensures Abs() == O.Finish(old(Abs()), id, ok, text)
    {
      ops := ops[id := ops[id].(outcome := Done(ok, text))];
    }

    method InstallClaim(digest: Name, redis: Name, fm: nat, node: Option<nat>) returns (stopped: bool)
      modifies this
      ensures Abs() == Install(old(Abs()), digest, redis, fm, node) && stopped == old(stopRequested)
    {
      config, logical := digest, redis;
      manager, link := Some(fm), node;
      if node.Some? { releaseLink := node; }
      stopped := stopRequested;
    }

    method EnterMount() returns (admitted: bool, fm: Option<nat>)
      modifies this`mountActive
      ensures admitted == MountAdmitted(old(Abs())) && Abs() == MountEntered(old(Abs())) && fm == old(manager)
    {
      fm := manager;
      if stopRequested || retired || mountActive { return false, fm; }
      mountActive := true;
      admitted := true;
    }

    method LeaveMount()
      modifies this`mountActive
      ensures Abs() == MountLeft(old(Abs()))
    {
      mountActive := false;
    }

    method EnterStop() returns (fm: Option<nat>)
      modifies this`stopRequested
      ensures Abs() == StopEntered(old(Abs())) && fm == old(manager)
    {
      stopRequested := true;
      fm := manager;
    }

    /** Whether every operation of another kind has settled. */
    method OthersSettled(except: Kind) returns (all: bool)
      ensures all <==> AllSettled(Abs(), except)
    {
      var todo := ops.Keys;
      while todo != {}
        invariant todo <= ops.Keys
        invariant forall id :: id in ops && id !in todo && ops[id].kind != except ==> ops[id].outcome.Done?
        decreases todo
      {
        var id :| id in todo;
        todo := todo - {id};
        if ops[id].kind != except && ops[id].outcome.Pending? { return false; }
      }
      return true;
    }

    method StopWithoutManager() returns (ok: bool)
      modifies this`retired
      ensures ok == StopsEmpty(old(Abs())) && Abs() == StopEmpty(old(Abs()))
    {
      if manager.Some? || config != EMPTY || link.Some? || releaseLink.Some? || releasePending ||
         mountActive || probeActive != 0 || enrollActive != 0 {
        return false;
      }
      ok := OthersSettled(Stop);
      if ok { retired := true; }
    }

    method SettleStop(fm: nat, complete: bool) returns (ok: bool, release: Option<nat>)
      modifies this
      ensures ok == StopsManaged(old(Abs()), fm, complete) && Abs() == StopManaged(old(Abs()), fm, complete)
      ensures release == if ok then old(releaseLink) else None
    {
      if !complete || mountActive || probeActive != 0 || enrollActive != 0 || manager != Some(fm) {
        return false, None;
      }
      release := releaseLink;
      releasePending := release.Some?;
      manager, link, releaseLink := None, None, None;
      retired := true;
      ok := true;
    }

    method ReleaseReturned()
      modifies this`releasePending
      ensures Abs() == LinkReleased(old(Abs()))
    {
      releasePending := false;
    }

    method RequestShutdown() returns (ok: bool)
      modifies this`terminal
      ensures ok == ShutsDown(old(Abs())) && Abs() == ShutDown(old(Abs()))
    {
      if manager.Some? || link.Some? || releaseLink.Some? || releasePending ||
         mountActive || probeActive != 0 || enrollActive != 0 {
        return false;
      }
      ok := OthersSettled(Shutdown);
      if ok { terminal := true; }
    }

    method EnterProbe() returns (node: Option<nat>)
      modifies this`probeActive
      ensures Abs() == ProbeEntered(old(Abs()))
      ensures node == if ProbeAdmitted(old(Abs())) then old(link) else None
    {
      if link.None? || logical == EMPTY || stopRequested || retired { return None; }
      probeActive := probeActive + 1;
      node := link;
    }

    method LeaveProbe()
      modifies this`probeActive
      ensures Abs() == ProbeLeft(old(Abs()))
    {
      probeActive := probeActive - 1;
    }

    method EnterEnroll(instance: Name, digest: Name, root: Name, token: Name, epoch: nat, allowed: bool) returns (ok: bool)
      modifies this`enrollActive
      ensures ok == EnrollAdmitted(old(Abs()), instance, digest, root, token, epoch, allowed)
      ensures Abs() == if ok then EnrollEntered(old(Abs())) else old(Abs())
    {
      if instance != intent.instance || digest != config || root != intent.root || config == EMPTY ||
         token != this.token || epoch != this.epoch || this.epoch == 0 || stopRequested || retired || terminal ||
         link.None? || logical == EMPTY || !allowed {
        return false;
      }
      enrollActive := enrollActive + 1;
      ok := true;
    }

    method LeaveEnroll()
      modifies this`enrollActive
      ensures Abs() == EnrollLeft(old(Abs()))
    {
      enrollActive := enrollActive - 1;
    }

    method Attach(instance: Name, digest: Name, root: Name, token: Name, expected: nat) returns (ok: bool)
      modifies this`epoch, this`token
      ensures ok == Policy.AdmitsAttach(old(Abs()).policy, PolicyOpen(old(Abs()), instance, digest, root), token, expected)
      ensures Abs() == Attached(old(Abs()), instance, digest, root, token, expected)
    {
      if instance == EMPTY || digest == EMPTY || token == EMPTY { return false; }
      if instance != intent.instance || digest != (if config == EMPTY then claimDigest else config) { return false; }
      if root != intent.root || config == EMPTY || stopRequested || retired { return false; }
      if token != this.token {
        if expected != epoch { return false; }
        epoch := epoch + 1;
        this.token := token;
      }
      ok := true;
    }

    method UpdatePolicy(instance: Name, digest: Name, root: Name, w: Policy.Which,
                        epoch: nat, expected: nat, first: bool, second: bool) returns (ok: bool)
      modifies this`cost, this`offline
      ensures ok == Policy.Admits(old(Abs()).policy, PolicyOpen(old(Abs()), instance, digest, root), w, epoch, expected)
      ensures Abs() == PolicyUpdated(old(Abs()), instance, digest, root, w, epoch, expected, first, second)
    {
      if instance == EMPTY || digest == EMPTY { return false; }
      if instance != intent.instance || digest != (if config == EMPTY then claimDigest else config) { return false; }
      var lane := if w.Cost? then cost else offline;
      if root != intent.root || config == EMPTY || stopRequested || retired || epoch != this.epoch || expected != lane.sequence {
        return false;
      }
      if lane.sequence == 0 || lane.first != first || lane.second != second {
        lane := Policy.Lane(lane.sequence + 1, first, second);
        if w.Cost? { cost := lane; } else { offline := lane; }
      }
      ok := true;
    }
  }
}
