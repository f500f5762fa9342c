/**
 The volume owner: every section of its methods that runs under the owner
 lock, as a function of the owner's fields. `OwnerObject` holds the same
 sections as methods over mutable fields, and `OwnerRun` interleaves them.
 */
module Owner {
  import opened Common
  import Policy

  const MAX_OPERATIONS: nat := 128

  datatype Kind = Claim | Mount | Stop | Shutdown | ProbeStartup

  /** What an operation ID is bound to besides its method. */
  datatype Payload =
    | ClaimPayload(digest: Name, redis: Name, pinned: int, linkClass: int)
    | MountPayload(digest: Name, inline: bool)
    | DigestPayload(digest: Name)

  datatype Outcome = Pending | Done(ok: bool, text: Name)

  datatype Operation = Operation(kind: Kind, payload: Payload, outcome: Outcome)

  /** The identity selected on disk before the owner process was born. */
  datatype Intent = Intent(build: Name, root: Name, instance: Name, digest: Name,
                           claimID: Name, mountID: Name, probeID: Name, shutdownID: Name)

  datatype Owner = Owner(
    intent: Intent, bound: bool,
    claimDigest: Name, config: Name, logical: Name,
    manager: Option<nat>, link: Option<nat>, releaseLink: Option<nat>, releasePending: bool,
    mountActive: bool, probeActive: int, enrollActive: int,
    policy: Policy.Policy,
    retired: bool, terminal: bool, stopRequested: bool,
    ops: map<Name, Operation>)

  datatype Refusal =
    | InvalidID | Rebound | Terminal | AfterStop | AlreadySelected | AlreadyStopped | StopPending
    | TableFull | DifferentClaim | WrongIdentity | UnknownOperation

  datatype Reply = Refused(why: Refusal) | Waiting | Settled(ok: bool, text: Name)

  datatype Begun = Begun(owner: Owner, reply: Reply, started: bool)

  function Fresh(intent: Intent): Owner {
    Owner(intent, true, intent.digest, EMPTY, EMPTY, None, None, None, false, false, 0, 0, Policy.Unattached,
          false, false, false, map[])
  }

  predicate OneShot(m: Kind) {
    m.Claim? || m.Mount? || m.ProbeStartup?
  }

  predicate Live(op: Operation) {
    op.outcome.Pending? || op.outcome.ok
  }

  predicate Selected(o: Owner, m: Kind) {
    exists id :: id in o.ops && o.ops[id].kind == m
  }

  predicate StopIs(o: Owner, outcome: bool) {
    exists id :: id in o.ops && o.ops[id].kind.Stop? &&
      if outcome then o.ops[id].outcome.Done? && o.ops[id].outcome.ok else o.ops[id].outcome.Pending?
  }

  function SelectedDigest(o: Owner): Name {
    if o.config == EMPTY then o.claimDigest else o.config
  }

  /** The instance and configuration check in front of every selected request. */
  predicate Inspects(o: Owner, instance: Name, digest: Name) {
    (instance == EMPTY || instance == o.intent.instance) && (digest == EMPTY || digest == SelectedDigest(o))
  }

  /**
   The dispatch checks of the five operation requests, before `Begin`. They run
   in a locked section of their own: a Stop may come in between, so the startup
   probe's look at the fences promises nothing by the time it begins.
   */
  predicate Authorized(o: Owner, m: Kind, instance: Name, id: Name, payload: Payload) {
    match m
    case Claim => payload.ClaimPayload? && instance == o.intent.instance && instance != EMPTY && (o.bound ==> id == o.intent.claimID)
    case Mount => payload.MountPayload? && instance != EMPTY && payload.digest != EMPTY &&
                  (o.bound ==> id == o.intent.mountID) && Inspects(o, instance, payload.digest)
    case Stop => payload.DigestPayload? && instance != EMPTY && payload.digest != EMPTY && Inspects(o, instance, payload.digest)
    case Shutdown => payload.DigestPayload? && instance != EMPTY && instance == o.intent.instance &&
                     payload.digest == SelectedDigest(o) && (o.bound ==> id == o.intent.shutdownID)
    case ProbeStartup => payload.DigestPayload? && instance != EMPTY && instance == o.intent.instance &&
                         payload.digest == o.config && o.config != EMPTY &&
                         (o.bound ==> id == o.intent.probeID)
  }

  function Answer(outcome: Outcome): Reply {
    if outcome.Pending? then Waiting else Settled(outcome.ok, outcome.text)
  }

  /** Why a first request under a new ID is turned away, if it is. */
  function Refuses(o: Owner, m: Kind, payload: Payload): Option<Refusal> {
    if o.terminal then Some(Terminal)
    else if (m.Claim? || m.Mount?) && (o.stopRequested || o.retired) then Some(AfterStop)
    else if OneShot(m) && Selected(o, m) then Some(AlreadySelected)
    else if m.Stop? && StopIs(o, true) then Some(AlreadyStopped)
    else if m.Stop? && StopIs(o, false) then Some(StopPending)
    else if |o.ops| >= MAX_OPERATIONS then Some(TableFull)
    else if m.Claim? && ((o.claimDigest != EMPTY && o.claimDigest != payload.digest) || (o.bound && o.intent.digest != payload.digest))
    then Some(DifferentClaim)
    else None
  }

  function Admit(o: Owner, m: Kind, id: Name, payload: Payload): Owner {
    o.(claimDigest := if m.Claim? then payload.digest else o.claimDigest,
       stopRequested := o.stopRequested || m.Stop?,
       ops := o.ops[id := Operation(m, payload, Pending)])
  }

  function Begin(o: Owner, m: Kind, id: Name, payload: Payload): Begun {
    if !ValidID(id) then Begun(o, Refused(InvalidID), false)
    else if id in o.ops then
      if o.ops[id].kind != m || o.ops[id].payload != payload then Begun(o, Refused(Rebound), false)
      else Begun(o, Answer(o.ops[id].outcome), false)
    else
      var why := Refuses(o, m, payload);
      if why.Some? then Begun(o, Refused(why.value), false) else Begun(Admit(o, m, id, payload), Waiting, true)
  }

  function Finish(o: Owner, id: Name, ok: bool, text: Name): Owner
    requires id in o.ops
  {
    o.(ops := o.ops[id := o.ops[id].(outcome := Done(ok, text))])
  }

  function Query(o: Owner, instance: Name, id: Name, digest: Name): Reply {
    if !Inspects(o, instance, digest) then Refused(WrongIdentity)
    else if id !in o.ops then Refused(UnknownOperation)
    else Answer(o.ops[id].outcome)
  }

  predicate ClaimProceeds(o: Owner, digest: Name) {
    o.bound && !o.retired && !o.stopRequested && digest == o.intent.digest && o.config == EMPTY
  }

  predicate ClaimRepeats(o: Owner, digest: Name, redis: Name) {
    o.bound && !o.retired && !o.stopRequested && digest == o.intent.digest && o.config != EMPTY &&
    o.config == digest && o.logical == redis
  }

  function Install(o: Owner, digest: Name, redis: Name, fm: nat, node: Option<nat>): Owner {
    o.(config := digest, logical := redis, manager := Some(fm), link := node,
       releaseLink := if node.Some? then node else o.releaseLink)
  }

  predicate MountAdmitted(o: Owner) {
    !o.stopRequested && !o.retired && !o.mountActive
  }

  function MountEntered(o: Owner): Owner {
    if MountAdmitted(o) then o.(mountActive := true) else o
  }

  function MountLeft(o: Owner): Owner {
    o.(mountActive := false)
  }

  predicate StillCurrent(o: Owner, fm: nat) {
    o.manager == Some(fm) && !o.stopRequested && !o.retired
  }

  function StopEntered(o: Owner): Owner {
    o.(stopRequested := true)
  }

  predicate AllSettled(o: Owner, except: Kind) {
    forall id :: id in o.ops && o.ops[id].kind != except ==> o.ops[id].outcome.Done?
  }

  /** Stop found no FUSE manager: it may retire only an owner that holds nothing at all. */
  predicate StopsEmpty(o: Owner) {
    o.manager.None? && o.config == EMPTY && o.link.None? && o.releaseLink.None? && !o.releasePending &&
    !o.mountActive && o.probeActive == 0 && o.enrollActive == 0 && AllSettled(o, Stop)
  }

  function StopEmpty(o: Owner): Owner {
    if StopsEmpty(o) then o.(retired := true) else o
  }

  /** The release decision, taken in one section with the work counters. */
  predicate StopsManaged(o: Owner, fm: nat, complete: bool) {
    complete && !o.mountActive && o.probeActive == 0 && o.enrollActive == 0 && o.manager == Some(fm)
  }

  function StopManaged(o: Owner, fm: nat, complete: bool): Owner {
    if StopsManaged(o, fm, complete)
    then o.(releasePending := o.releaseLink.Some?, manager := None, link := None, releaseLink := None, retired := true)
    else o
  }

  function LinkReleased(o: Owner): Owner {
    o.(releasePending := false)
  }

  predicate Quiet(o: Owner) {
    o.manager.None? && o.link.None? && o.releaseLink.None? && !o.releasePending &&
    !o.mountActive && o.probeActive == 0 && o.enrollActive == 0
  }

  predicate ShutsDown(o: Owner) {
    Quiet(o) && AllSettled(o, Shutdown)
  }

  function ShutDown(o: Owner): Owner {
    if ShutsDown(o) then o.(terminal := true) else o
  }

  predicate ProbeAdmitted(o: Owner) {
    o.link.Some? && o.logical != EMPTY && !o.stopRequested && !o.retired
  }

  function ProbeEntered(o: Owner): Owner {
    if ProbeAdmitted(o) then o.(probeActive := o.probeActive + 1) else o
  }

  function ProbeLeft(o: Owner): Owner {
    o.(probeActive := o.probeActive - 1)
  }

  /** A Manager request is admitted only under the exact current attachment. */
  predicate EnrollAdmitted(o: Owner, instance: Name, digest: Name, root: Name, token: Name, epoch: nat, allowed: bool) {
    instance == o.intent.instance && digest == o.config && root == o.intent.root && o.config != EMPTY &&
    token == o.policy.token && epoch == o.policy.epoch && o.policy.epoch != 0 &&
    !o.stopRequested && !o.retired && !o.terminal && o.link.Some? && o.logical != EMPTY && allowed
  }

  function EnrollEntered(o: Owner): Owner {
    o.(enrollActive := o.enrollActive + 1)
  }

  function EnrollLeft(o: Owner): Owner {
    o.(enrollActive := o.enrollActive - 1)
  }

  /** Attach, cost and offline requests share this identity and lifecycle guard. */
  predicate PolicyOpen(o: Owner, instance: Name, digest: Name, root: Name) {
    instance != EMPTY && digest != EMPTY && Inspects(o, instance, digest) && root == o.intent.root &&
    o.config != EMPTY && !o.stopRequested && !o.retired
  }

  function Attached(o: Owner, instance: Name, digest: Name, root: Name, token: Name, expected: nat): Owner {
    o.(policy := Policy.Attach(o.policy, PolicyOpen(o, instance, digest, root), token, expected))
  }

  function PolicyUpdated(o: Owner, instance: Name, digest: Name, root: Name, w: Policy.Which,
                         epoch: nat, expected: nat, first: bool, second: bool): Owner {
    o.(policy := Policy.Update(o.policy, PolicyOpen(o, instance, digest, root), w, epoch, expected, first, second))
  }
}
