/**
 The cache session and the bridge owner above it, section by section. The
 session's publication lock is held from a change of `qualified` until the
 bridge owner's callback has run, so the callback is a step of its own and
 everything else under that lock waits for it.
 */
module Session {
  import opened Common

  /** Why a qualification attempt failed, if it did. */
  datatype Error = NoError | WrongVolume | OtherError

  /** `binding` is EMPTY until a volume is known; `callback` is the qualification change not yet delivered. */
  datatype Session = Session(
    epoch: nat, online: bool, qualified: bool, refused: bool, closed: bool, resets: nat,
    binding: Name, callback: Option<bool>)

  /** The bridge owner's publication state and the automatic-offline flag it guards. */
  datatype Bridge = Bridge(epoch: nat, ready: bool, closed: bool, autoOffline: bool)

  function NewSession(stored: Option<Name>): Session {
    Session(0, false, false, false, false, 0, if stored.Some? then stored.value else EMPTY, None)
  }

  /** The constructor's callback has already engaged the flag. */
  const NewBridge := Bridge(1, false, false, true)

  /** The outage: a new epoch, not qualified, and the callback to come. */
  function Disrupted(s: Session): Session {
    s.(epoch := s.epoch + 1, qualified := false, callback := Some(false))
  }

  function SetOnline(s: Session, online: bool): Session {
    if s.closed || (s.online == online && online) then s else Disrupted(s).(online := online)
  }

  function TransportChanged(s: Session): Session {
    if s.closed then s else Disrupted(s).(resets := s.resets + 1)
  }

  function ResetDone(s: Session): Session
    requires s.resets > 0
  {
    s.(resets := s.resets - 1)
  }

  function RefuseIdentity(s: Session): Session {
    if s.closed then s else Disrupted(s).(refused := true)
  }

  function Stop(s: Session): Session {
    if s.closed then s else Disrupted(s).(closed := true)
  }

  /** The guard in front of and at the start of a qualification. */
  predicate MayQualify(s: Session) {
    !s.closed && s.online && s.resets == 0
  }

  predicate MayPublish(s: Session, epoch: nat, cancelled: bool) {
    MayQualify(s) && s.epoch == epoch && !cancelled
  }

  function Publish(s: Session, epoch: nat, live: Name, error: Error, cancelled: bool): Session {
    if !MayPublish(s, epoch, cancelled) then s
    else if !error.NoError? then s.(refused := s.refused || error.WrongVolume?, qualified := false, callback := Some(false))
    else s.(binding := live, refused := false, qualified := true, callback := Some(true))
  }

  predicate Qualified(s: Session) {
    !s.closed && s.online && s.qualified
  }

  /** The fence a remote write probe takes before and after its work. */
  predicate Admits(s: Session) {
    !s.closed && s.online && s.qualified && s.resets == 0
  }

  function QualificationChanged(b: Bridge, qualified: bool): Bridge {
    var q := qualified && !b.closed;
    b.(epoch := b.epoch + 1, ready := q, autoOffline := b.autoOffline || !q)
  }

  /** The outstanding callback runs, still under the session lock. */
  function Deliver(s: Session, b: Bridge): (Session, Bridge) {
    if s.callback.None? then (s, b) else (s.(callback := None), QualificationChanged(b, s.callback.value))
  }

  function ClosePublication(b: Bridge): Bridge {
    Bridge(b.epoch + 1, false, true, true)
  }

  predicate Recoverable(b: Bridge) {
    !b.closed && b.ready
  }

  function ClearIfCurrent(b: Bridge, epoch: nat): Bridge {
    if !b.closed && b.ready && b.epoch == epoch then b.(autoOffline := false) else b
  }

  /** The stored binding is written once and afterwards only compared. */
  function SaveError(store: Option<Name>, live: Name): Option<Error> {
    if store.None? then None else if store.value == live then Some(NoError) else Some(WrongVolume)
  }
}
