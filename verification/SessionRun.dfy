/** Every interleaving of qualifications, outages, transport resets, recoveries and shutdown. */
module SessionRun {
  import opened Common
  import opened S = Session

  /** A qualification attempt; from `HasSlot` on it holds the single qualification slot. */
  datatype Qualifier =
    | Waiting
    | HasSlot
    | Probing(epoch: nat, binding: Name)
    | Saving(epoch: nat, live: Name)
    | Writing(epoch: nat, live: Name)
    | Publishing(epoch: nat, live: Name, error: Error)

  /** A recovery that captured the bridge epoch, before and after its session and mount checks. */
  datatype Recovery = Captured(epoch: nat) | Checked(epoch: nat)

  datatype World = World(
    s: S.Session, b: Bridge, store: Option<Name>, slot: Option<nat>,
    qs: map<nat, Qualifier>, resetting: set<nat>, rs: map<nat, Recovery>)

  /** The outside results a qualification step waits for. */
  datatype Input = Input(live: Name, error: Error, cancelled: bool)

  datatype Event =
    | Online(online: bool)
    | Transport(t: nat)
    | TransportDone(t: nat)
    | Refuse
    | StopSession
    | Callback
    | QualifyStarts(q: nat)
    | QualifySteps(q: nat, i: Input)
    | ClosePublishing
    | ForceOffline
    | RecoveryStarts(r: nat)
    | RecoverySteps(r: nat, ok: bool)

  function Init(store: Option<Name>): World {
    World(NewSession(store), NewBridge, store, None, map[], {}, map[])
  }

  /** The session lock is free: no callback is outstanding. */
  predicate Free(w: World) {
    w.s.callback.None?
  }

  /** The attempt ends and frees the slot it held. */
  function Leave(w: World, q: nat): World {
    w.(qs := w.qs - {q}, slot := if w.slot == Some(q) then None else w.slot)
  }

  function Goto(w: World, q: nat, pc: Qualifier): World {
    w.(qs := w.qs[q := pc])
  }

  function QualifyStep(w: World, q: nat, i: Input): World
    requires q in w.qs
  {
    match w.qs[q]
    case Waiting =>
      if i.cancelled then Leave(w, q) else if w.slot.None? then Goto(w, q, HasSlot).(slot := Some(q)) else w
    case HasSlot =>
      if !Free(w) then w
      else if MayQualify(w.s) then Goto(w, q, Probing(w.s.epoch, w.s.binding)) else Leave(w, q)
    case Probing(epoch, binding) =>
      if i.error.NoError? && i.live != EMPTY && (binding == EMPTY || binding == i.live) then Goto(w, q, Saving(epoch, i.live))
      else Goto(w, q, Publishing(epoch, i.live, if i.error.NoError? then WrongVolume else i.error))
    case Saving(epoch, live) =>
      if !i.error.NoError? then Goto(w, q, Publishing(epoch, live, OtherError))
      else
        var known := SaveError(w.store, live);
        Goto(w, q, if known.Some? then Publishing(epoch, live, known.value) else Writing(epoch, live))
    case Writing(epoch, live) =>
      if !i.error.NoError? then Goto(w, q, Publishing(epoch, live, OtherError))
      else Goto(w, q, Publishing(epoch, live, NoError)).(store := Some(live))
    case Publishing(epoch, live, error) =>
      if !Free(w) then w else Leave(w, q).(s := Publish(w.s, epoch, live, error, i.cancelled))
  }

  function RecoveryStep(w: World, r: nat, ok: bool): World
    requires r in w.rs
  {
    match w.rs[r]
    case Captured(epoch) =>
      if !Free(w) then w
      else if ok && Qualified(w.s) then w.(rs := w.rs[r := Checked(epoch)]) else w.(rs := w.rs - {r})
    case Checked(epoch) => w.(b := ClearIfCurrent(w.b, epoch), rs := w.rs - {r})
  }

  function Next(w: World, e: Event): World {
    match e
    case Online(online) => if Free(w) then w.(s := SetOnline(w.s, online)) else w
    case Transport(t) =>
      if Free(w) && !w.s.closed && t !in w.resetting
      then w.(s := TransportChanged(w.s), resetting := w.resetting + {t}) else w
    case TransportDone(t) =>
      if Free(w) && t in w.resetting && w.s.resets > 0
      then w.(s := ResetDone(w.s), resetting := w.resetting - {t}) else w
    case Refuse => if Free(w) then w.(s := RefuseIdentity(w.s)) else w
    case StopSession => if Free(w) then w.(s := S.Stop(w.s)) else w
    case Callback =>
      var (s, b) := Deliver(w.s, w.b);
      w.(s := s, b := b)
    case QualifyStarts(q) => if Free(w) && q !in w.qs && MayQualify(w.s) then Goto(w, q, Waiting) else w
    case QualifySteps(q, i) => if q in w.qs then QualifyStep(w, q, i) else w
    case ClosePublishing => w.(b := ClosePublication(w.b))
    case ForceOffline => w.(b := w.b.(autoOffline := true))
    case RecoveryStarts(r) =>
      if r !in w.rs && Recoverable(w.b) then w.(rs := w.rs[r := Captured(w.b.epoch)]) else w
    case RecoverySteps(r, ok) => if r in w.rs then RecoveryStep(w, r, ok) else w
  }

  function Run(w: World, es: seq<Event>): World
    decreases |es|
  {
    if es == [] then w else Run(Next(w, es[0]), es[1..])
  }

  // --- the invariant ------------------------------------------------------------------

  ghost predicate QualifierOK(w: World, q: nat, pc: Qualifier) {
    && (!pc.Waiting? ==> w.slot == Some(q))
    && (pc.Saving? || pc.Writing? ==> pc.live != EMPTY)
    && (pc.Writing? ==> w.store.None?)
    && (pc.Publishing? && pc.error.NoError? ==> w.store == Some(pc.live) && pc.live != EMPTY)
  }

  /** A qualified session is online, open, not refused, not resetting, and bound to the stored volume. */
  ghost predicate SessionOK(s: S.Session, store: Option<Name>) {
    && (s.qualified ==> s.online && !s.closed && !s.refused && s.resets == 0 && s.binding != EMPTY)
    && (s.binding != EMPTY ==> store == Some(s.binding))
    && (store.Some? ==> store.value != EMPTY)
    && (s.callback.Some? ==> s.callback.value == s.qualified)
  }

  /** A clear flag means a ready owner, and readiness means qualification as soon as the session lock is free. */
  ghost predicate BridgeOK(s: S.Session, b: Bridge) {
    && (!b.autoOffline ==> b.ready)
    && (b.ready ==> !b.closed)
    && (b.ready && s.callback != Some(false) ==> s.qualified)
  }

  ghost predicate Inv(w: World) {
    && SessionOK(w.s, w.store) && BridgeOK(w.s, w.b)
    && w.s.resets == |w.resetting|
    && forall q :: q in w.qs ==> QualifierOK(w, q, w.qs[q])
  }

  lemma QualifyKeepsInv(w: World, q: nat, i: Input)
    requires Inv(w) && q in w.qs
    ensures Inv(QualifyStep(w, q, i))
  {
    assert QualifierOK(w, q, w.qs[q]);
    var w' := QualifyStep(w, q, i);
    forall x | x in w'.qs ensures QualifierOK(w', x, w'.qs[x]) {
      if x != q { assert QualifierOK(w, x, w.qs[x]); }
    }
  }

  predicate OfSession(e: Event) {
    e.Online? || e.Transport? || e.TransportDone? || e.Refuse? || e.StopSession?
  }

  predicate OfBridge(e: Event) {
    e.Callback? || e.ClosePublishing? || e.ForceOffline? || e.RecoveryStarts? || e.RecoverySteps?
  }

  lemma ResetStarts(w: World, t: nat)
    requires SessionOK(w.s, w.store) && BridgeOK(w.s, w.b) && w.s.resets == |w.resetting|
    ensures var w' := Next(w, Transport(t));
      SessionOK(w'.s, w.store) && BridgeOK(w'.s, w.b) && w' == w.(s := w'.s, resetting := w'.resetting) && w'.s.resets == |w'.resetting|
  {
  }

  lemma ResetEnds(w: World, t: nat)
    requires SessionOK(w.s, w.store) && BridgeOK(w.s, w.b) && w.s.resets == |w.resetting|
    ensures var w' := Next(w, TransportDone(t));
      SessionOK(w'.s, w.store) && BridgeOK(w'.s, w.b) && w' == w.(s := w'.s, resetting := w'.resetting) && w'.s.resets == |w'.resetting|
  {
  }

  lemma SessionKeepsState(w: World, e: Event)
    requires SessionOK(w.s, w.store) && BridgeOK(w.s, w.b) && w.s.resets == |w.resetting| && OfSession(e)
    ensures var w' := Next(w, e);
      && SessionOK(w'.s, w'.store) && BridgeOK(w'.s, w'.b) && w'.s.resets == |w'.resetting|
      && w'.store == w.store && w'.slot == w.slot && w'.qs == w.qs
  {
    if e.Transport? { ResetStarts(w, e.t); } else if e.TransportDone? { ResetEnds(w, e.t); }
  }

  lemma BridgeKeepsState(w: World, e: Event)
    requires SessionOK(w.s, w.store) && BridgeOK(w.s, w.b) && w.s.resets == |w.resetting| && OfBridge(e)
    ensures var w' := Next(w, e);
      && SessionOK(w'.s, w'.store) && BridgeOK(w'.s, w'.b) && w'.s.resets == |w'.resetting|
      && w'.store == w.store && w'.slot == w.slot && w'.qs == w.qs
  {
  }

  lemma NextKeepsInv(w: World, e: Event)
    requires Inv(w)
    ensures Inv(Next(w, e))
  {
    if e.QualifySteps? {
      if e.q in w.qs { QualifyKeepsInv(w, e.q, e.i); }
    } else if OfSession(e) {
      SessionKeepsState(w, e);
    } else if OfBridge(e) {
      BridgeKeepsState(w, e);
    }
  }

  lemma {:induction false} RunKeepsInv(w: World, es: seq<Event>)
    requires Inv(w)
    ensures Inv(Run(w, es))
    decreases |es|
  {
    if es != [] {
      NextKeepsInv(w, es[0]);
      RunKeepsInv(Next(w, es[0]), es[1..]);
    }
  }

  /**
   In every run: a qualified session is online, open, not refused, not in a
   transport reset, and bound to exactly the stored volume; a clear
   automatic-offline flag means that publication is open and the owner ready;
   and then the session is qualified unless it has just lost qualification
   and, still holding its lock, is about to tell the owner.
   */
  lemma SessionSafety(store: Option<Name>, es: seq<Event>)
    requires store.Some? ==> store.value != EMPTY
    ensures var w := Run(Init(store), es);
      && (w.s.qualified ==> w.s.online && !w.s.closed && !w.s.refused && w.s.resets == 0 && w.store == Some(w.s.binding))
      && (!w.b.autoOffline ==> w.b.ready && !w.b.closed && (w.s.qualified <==> w.s.callback != Some(false)))
  {
    RunKeepsInv(Init(store), es);
  }

  /** The reset count is the number of transport resets under way, and none is under way where work is admitted. */
  lemma NoWorkDuringReset(store: Option<Name>, es: seq<Event>)
    requires store.Some? ==> store.value != EMPTY
    ensures var w := Run(Init(store), es);
      w.s.resets == |w.resetting| && (MayQualify(w.s) || Admits(w.s) ==> w.resetting == {})
  {
    RunKeepsInv(Init(store), es);
  }

  /** The stored volume binding is written at most once. */
  lemma {:induction false} StoreIsWriteOnce(w: World, es: seq<Event>)
    requires Inv(w) && w.store.Some?
    ensures Run(w, es).store == w.store
    decreases |es|
  {
    if es != [] {
      NextKeepsInv(w, es[0]);
      if es[0].QualifySteps? && es[0].q in w.qs { assert QualifierOK(w, es[0].q, w.qs[es[0].q]); }
      StoreIsWriteOnce(Next(w, es[0]), es[1..]);
    }
  }

  // --- fencing by epochs -----------------------------------------------------------------

  /** A disconnect, reconnect, transport change, identity refusal or Stop that takes effect. */
  predicate Disrupts(w: World, e: Event) {
    && Free(w) && !w.s.closed
    && match e
       case Online(online) => !online || !w.s.online
       case Transport(t) => t !in w.resetting
       case Refuse => true
       case StopSession => true
       case _ => false
  }

  predicate Undisturbed(w: World, es: seq<Event>)
    decreases |es|
  {
    es == [] || (!Disrupts(w, es[0]) && Undisturbed(Next(w, es[0]), es[1..]))
  }

  /** A change of the owner's publication: a delivered qualification change or the final close. */
  predicate Republishes(w: World, e: Event) {
    e.ClosePublishing? || (e.Callback? && !Free(w))
  }

  predicate Unpublished(w: World, es: seq<Event>)
    decreases |es|
  {
    es == [] || (!Republishes(w, es[0]) && Unpublished(Next(w, es[0]), es[1..]))
  }

  lemma EpochStep(w: World, e: Event)
    ensures Next(w, e).s.epoch == w.s.epoch + if Disrupts(w, e) then 1 else 0
    ensures Next(w, e).b.epoch == w.b.epoch + if Republishes(w, e) then 1 else 0
  {
  }

  /** Epochs only grow, and an epoch is unchanged over a run exactly when nothing it fences happened. */
  lemma {:induction false} EpochsFence(w: World, es: seq<Event>)
    ensures w.s.epoch <= Run(w, es).s.epoch && w.b.epoch <= Run(w, es).b.epoch
    ensures Run(w, es).s.epoch == w.s.epoch <==> Undisturbed(w, es)
    ensures Run(w, es).b.epoch == w.b.epoch <==> Unpublished(w, es)
    decreases |es|
  {
    if es != [] {
      EpochStep(w, es[0]);
      EpochsFence(Next(w, es[0]), es[1..]);
    }
  }

  /**
   A qualification that captured its epoch at `w` and is about to publish
   after `es` changes the session only if no disconnect, transport change,
   identity refusal or Stop took effect in between; and if none did and it is
   neither cancelled nor stopped by a missing link, it does publish.
   */
  lemma PublicationIsFenced(w: World, es: seq<Event>, q: nat, i: Input)
    requires Free(Run(w, es)) && q in Run(w, es).qs
    requires Run(w, es).qs[q].Publishing? && Run(w, es).qs[q].epoch == w.s.epoch
    ensures Next(Run(w, es), QualifySteps(q, i)).s.callback.Some? <==>
            Undisturbed(w, es) && MayQualify(Run(w, es).s) && !i.cancelled
  {
    EpochsFence(w, es);
  }

  /** A recovery clears the flag only if no qualification change was published since its evidence was captured. */
  lemma RecoveryIsFenced(w: World, es: seq<Event>, r: nat, ok: bool)
    requires r in Run(w, es).rs && Run(w, es).rs[r] == Checked(w.b.epoch)
    requires Run(w, es).b.autoOffline
    ensures !Next(Run(w, es), RecoverySteps(r, ok)).b.autoOffline <==> Unpublished(w, es) && Recoverable(Run(w, es).b)
  {
    EpochsFence(w, es);
  }

  lemma ClosedStep(w: World, e: Event)
    requires w.b.closed
    ensures Next(w, e).b.closed
  {
  }

  /** After `closePublication` the flag stays engaged through every continuation. */
  lemma {:induction false} ClosedStaysOffline(w: World, es: seq<Event>)
    requires Inv(w) && w.b.closed
    ensures Run(w, es).b.closed && Run(w, es).b.autoOffline
    decreases |es|
  {
    if es != [] {
      NextKeepsInv(w, es[0]);
      ClosedStep(w, es[0]);
      ClosedStaysOffline(Next(w, es[0]), es[1..]);
    }
  }

  // --- what a pair of equal observations is worth -----------------------------------------

  /** A current attempt reports an error: the only step that drops qualification without a new epoch. */
  predicate PublishesFailure(w: World, e: Event) {
    && e.QualifySteps? && e.q in w.qs && w.qs[e.q].Publishing? && Free(w)
    && MayPublish(w.s, w.qs[e.q].epoch, e.i.cancelled) && !w.qs[e.q].error.NoError?
  }

  predicate NoFailurePublished(w: World, es: seq<Event>)
    decreases |es|
  {
    es == [] || (!PublishesFailure(w, es[0]) && NoFailurePublished(Next(w, es[0]), es[1..]))
  }

  predicate StaysQualified(w: World, es: seq<Event>)
    decreases |es|
  {
    w.s.qualified && (es == [] || StaysQualified(Next(w, es[0]), es[1..]))
  }

  lemma QualificationStep(w: World, e: Event)
    requires w.s.qualified && w.s.online && !Disrupts(w, e)
    ensures Next(w, e).s.qualified <==> !PublishesFailure(w, e)
  {
  }

  /**
   Two admitted observations with equal epochs bracket a window without any
   disruption, and the session stayed qualified throughout the window exactly
   when no attempt published a failure inside it.
   */
  lemma {:induction false} EqualObservations(w: World, es: seq<Event>)
    requires Inv(w) && Admits(w.s) && Run(w, es).s.epoch == w.s.epoch
    ensures Undisturbed(w, es)
    ensures StaysQualified(w, es) <==> NoFailurePublished(w, es)
    decreases |es|
  {
    EpochsFence(w, es);
    if es != [] {
      var w' := Next(w, es[0]);
      NextKeepsInv(w, es[0]);
      QualificationStep(w, es[0]);
      EpochStep(w, es[0]);
      if w'.s.qualified { EqualObservations(w', es[1..]); }
    }
  }

  lemma {:induction false} RunAppend(w: World, es: seq<Event>, fs: seq<Event>)
    ensures Run(w, es + fs) == Run(Run(w, es), fs)
    ensures StaysQualified(w, es + fs) ==> Run(w, es).s.qualified
    decreases |es|
  {
    if es == [] {
      assert es + fs == fs;
    } else {
      assert (es + fs)[1..] == es[1..] + fs;
      RunAppend(Next(w, es[0]), es[1..], fs);
    }
  }
}
