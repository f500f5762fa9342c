/** The session and the bridge owner as objects: one method per section under their locks. */
module SessionObject {
  import opened Common
  import opened S = Session

  class BridgeCacheOwner {
    var publicationEpoch: nat
    var ready: bool
    var publicationClosed: bool
    var autoOffline: bool

    ghost function Abs(): Bridge
      reads this
    {
      Bridge(publicationEpoch, ready, publicationClosed, autoOffline)
    }

    constructor ()
      ensures Abs() == NewBridge
    {
      publicationEpoch, ready, publicationClosed, autoOffline := 0, false, false, false;
      new;
      QualificationChanged(false);
    }

    method QualificationChanged(qualified: bool)
      modifies this
      ensures Abs() == S.QualificationChanged(old(Abs()), qualified)
    {
      var q := qualified;
      if publicationClosed {
        q := false;
      }
      publicationEpoch := publicationEpoch + 1;
      ready := q;
      if !q {
        autoOffline := true;
      }
    }

    method RecoveryCandidate() returns (epoch: nat, ok: bool)
      ensures epoch == publicationEpoch && ok == Recoverable(Abs())
    {
      return publicationEpoch, !publicationClosed && ready;
    }

    method ClearAutoOfflineIfCurrent(epoch: nat) returns (cleared: bool)
      modifies this
      ensures Abs() == ClearIfCurrent(old(Abs()), epoch)
      ensures cleared <==> old(Recoverable(Abs())) && old(publicationEpoch) == epoch
      ensures cleared ==> !autoOffline
    {
      if publicationClosed || !ready || publicationEpoch != epoch {
        return false;
      }
      autoOffline := false;
      return true;
    }

    method ClosePublication()
      modifies this
      ensures Abs() == S.ClosePublication(old(Abs()))
    {
      publicationClosed := true;
      publicationEpoch := publicationEpoch + 1;
      ready := false;
      autoOffline := true;
    }
  }

  class CacheSession {
    const owner: BridgeCacheOwner
    var epoch: nat
    var online: bool
    var qualified: bool
    var identityRefused: bool
    var closed: bool
    var transportResets: nat
    var binding: Name

    /** The session between two sections: no callback is outstanding. */
    ghost function Abs(): S.Session
      reads this
    {
      S.Session(epoch, online, qualified, identityRefused, closed, transportResets, binding, None)
    }

    /** The state of session and owner after a section that turned the session into `s`. */
    twostate predicate Became(s: S.Session)
      reads this, owner
    {
      (Abs(), owner.Abs()) == Deliver(s, old(owner.Abs()))
    }

    constructor (owner: BridgeCacheOwner, stored: Option<Name>)
      ensures this.owner == owner && Abs() == NewSession(stored)
    {
      this.owner := owner;
      epoch, online, qualified, identityRefused, closed, transportResets := 0, false, false, false, false, 0;
      binding := if stored.Some? then stored.value else EMPTY;
    }

    method SetOnline(up: bool)
      modifies this, owner
      ensures Became(S.SetOnline(old(Abs()), up))
    {
      if closed {
        return;
      }
      if online != up || !up {
        epoch := epoch + 1;
        online := up;
        qualified := false;
        owner.QualificationChanged(false);
      }
    }

    /** The two guards of a qualification, the second of which captures what the attempt relies on. */
    method CaptureQualification() returns (ok: bool, captured: nat, known: Name)
      ensures ok == MayQualify(Abs()) && captured == epoch && known == binding
    {
      return !(closed || !online || transportResets != 0), epoch, binding;
    }

    method PublishQualification(captured: nat, live: Name, error: Error, cancelled: bool) returns (published: bool)
      modifies this, owner
      ensures Became(Publish(old(Abs()), captured, live, error, cancelled))
      ensures published <==> MayPublish(old(Abs()), captured, cancelled)
    {
      if closed || !online || transportResets != 0 || epoch != captured || cancelled {
        return false;
      }
      if error != NoError {
        if error == WrongVolume {
          identityRefused := true;
        }
        qualified := false;
        owner.QualificationChanged(false);
        return true;
      }
      binding := live;
      identityRefused := false;
      qualified := true;
      owner.QualificationChanged(true);
      return true;
    }

    method EnterTransportChange() returns (entered: bool)
      modifies this, owner
      ensures Became(TransportChanged(old(Abs())))
      ensures entered == !old(closed)
    {
      if closed {
        return false;
      }
      transportResets := transportResets + 1;
      epoch := epoch + 1;
      qualified := false;
      owner.QualificationChanged(false);
      return true;
    }

    method LeaveTransportChange()
      requires transportResets > 0
      modifies this
      ensures Abs() == ResetDone(old(Abs()))
    {
      transportResets := transportResets - 1;
    }

    method Stop()
      modifies this, owner
      ensures Became(S.Stop(old(Abs())))
    {
      if closed {
        return;
      }
      closed := true;
      epoch := epoch + 1;
      qualified := false;
      owner.QualificationChanged(false);
    }

    method RefuseIdentity()
      modifies this, owner
      ensures Became(S.RefuseIdentity(old(Abs())))
    {
      if closed {
        return;
      }
      epoch := epoch + 1;
      qualified := false;
      identityRefused := true;
      owner.QualificationChanged(false);
    }

    method RemoteObservation() returns (observed: nat, ready: bool)
      ensures observed == epoch && ready == Admits(Abs())
    {
      return epoch, !closed && online && qualified && transportResets == 0;
    }
  }
}
