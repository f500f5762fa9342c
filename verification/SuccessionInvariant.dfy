/** The succession invariant and what it means for every history of crashes. */
module SuccessionInvariant {
  import opened Common
  import opened Owner
  import opened Succession
  import R = OwnerRun
  import OI = OwnerInvariant
  import OT = OwnerTheorems

  /** Nothing held, nothing running, nothing unsettled, and no new work possible. */
  ghost predicate Ended(s: R.Sys) {
    && s.o.terminal && Quiet(s.o) && s.reqs == map[] && s.work == map[]
    && forall id :: id in s.o.ops ==> s.o.ops[id].outcome.Done?
  }

  ghost predicate EngineOK(disk: Disk, lock: Option<Holder>, used: set<Name>, e: nat, E: EngineProc) {
    && (EngineHolds(E.pc) ==> lock == Some(Engine(e)))
    && (E.pc.Matched? || E.pc.Proven? ==> disk.file == Present(E.pc.prior))
    && (E.pc.Proven? ==> E.pc.prior in disk.retired)
    && (E.pc.Launching? ==> E.pc.next.instance in used)
  }

  ghost predicate OwnerOK(disk: Disk, lock: Option<Holder>, used: set<Name>, p: nat, o: OwnerProc) {
    && o.nonce in used && o.nonce != EMPTY
    && (o.intent == NoIntent || o.intent.instance == o.nonce)
    && (OwnerHolds(o.phase) || o.phase.Authorized? ==> o.intent != NoIntent)
    && (OwnerHolds(o.phase) ==> lock == Some(OwnerProcess(p)))
    && (o.phase.Checked? || Admitted(o.phase) ==> disk.file == Present(o.intent))
    && (Admitted(o.phase) && !o.published ==> o.intent !in disk.retired)
    && (o.published ==> o.intent in disk.retired && (o.phase.Publishing? || o.phase.Exited?))
    && (o.published || o.phase.Publishing? ==> Ended(o.sys) && o.intent != NoIntent)
    && (o.phase.Joined? ==> o.sys.reqs == map[])
  }

  predicate SameLaunch(a: EnginePc, b: EnginePc) {
    a.Launching? && b.Launching? && a.next.instance == b.next.instance
  }

  /** Identities are drawn once: no two processes, and no process and a launch to come, share one. */
  ghost predicate Distinct(w: World) {
    && (forall p, q :: p in w.owners && q in w.owners && w.owners[p].nonce == w.owners[q].nonce ==> p == q)
    && (forall e, p :: e in w.engines && p in w.owners && w.engines[e].pc.Launching? ==> w.engines[e].pc.next.instance != w.owners[p].nonce)
    && (forall e, f :: e in w.engines && f in w.engines && SameLaunch(w.engines[e].pc, w.engines[f].pc) ==> e == f)
  }

  /** Every retirement record was published by an owner of that intent. */
  ghost predicate RecordsOK(retired: set<Intent>, owners: map<nat, OwnerProc>) {
    forall i :: i in retired ==> exists p :: p in owners && owners[p].intent == i && owners[p].published
  }

  ghost predicate DiskOK(w: World) {
    && (w.disk.file.Present? ==> w.disk.file.intent.instance in w.used && w.disk.file.intent.instance != EMPTY)
    && EMPTY !in w.used && RecordsOK(w.disk.retired, w.owners)
  }

  ghost predicate EnginesOK(w: World) {
    forall e :: e in w.engines ==> EngineOK(w.disk, w.lock, w.used, e, w.engines[e])
  }

  ghost predicate OwnersOK(w: World) {
    forall p :: p in w.owners ==> OwnerOK(w.disk, w.lock, w.used, p, w.owners[p])
  }

  /** Facts about files, lock and identities. */
  ghost predicate Inv(w: World) {
    DiskOK(w) && Distinct(w) && EnginesOK(w) && OwnersOK(w)
  }

  /** Every owner process, dead or alive, satisfies the owner invariant. */
  ghost predicate SystemsOK(w: World) {
    forall p :: p in w.owners ==> OI.Inv(w.owners[p].sys) && w.owners[p].sys.o.intent == w.owners[p].intent
  }

  /** Records stay earned when one process is added, or moves on without taking back what it published. */
  lemma RecordsStay(retired: set<Intent>, owners: map<nat, OwnerProc>, p: nat, o: OwnerProc)
    requires RecordsOK(retired, owners)
    requires p in owners && owners[p].published ==> o.published && o.intent == owners[p].intent
    ensures RecordsOK(retired, owners[p := o])
  {
    var owners' := owners[p := o];
    forall i | i in retired ensures exists q :: q in owners' && owners'[q].intent == i && owners'[q].published {
      var q :| q in owners && owners[q].intent == i && owners[q].published;
      assert q in owners' && owners'[q].intent == i && owners'[q].published;
    }
  }

  // --- engine steps ------------------------------------------------------------------

  /** An engine moves to a control point that is not a launch, taking, keeping or dropping only its own lock. */
  lemma EngineMoves(w: World, e: nat, pc: EnginePc, lock: Option<Holder>)
    requires Inv(w) && e in w.engines && !pc.Launching?
    requires lock == w.lock || (w.lock.None? && lock == Some(Engine(e))) || (w.lock == Some(Engine(e)) && lock.None?)
    requires EngineOK(w.disk, lock, w.used, e, w.engines[e].(pc := pc))
    ensures Inv(Engine'(w, e, pc).(lock := lock))
  {
    var w' := Engine'(w, e, pc).(lock := lock);
    forall f | f in w'.engines ensures EngineOK(w'.disk, w'.lock, w'.used, f, w'.engines[f]) {
      if f != e { assert EngineOK(w.disk, w.lock, w.used, f, w.engines[f]); }
    }
    forall p | p in w'.owners ensures OwnerOK(w'.disk, w'.lock, w'.used, p, w'.owners[p]) {
      assert OwnerOK(w.disk, w.lock, w.used, p, w.owners[p]);
    }
  }

  lemma GivesUp(w: World, e: nat)
    requires Inv(w) && e in w.engines
    ensures Inv(GiveUp(w, e))
  {
    EngineMoves(w, e, Idle, if w.lock == Some(Engine(e)) then None else w.lock);
  }

  lemma TakesLock(w: World, e: nat, pc: EnginePc)
    requires Inv(w) && e in w.engines && EngineHolds(pc) && !pc.Matched? && !pc.Proven?
    ensures Inv(TakeLock(w, e, pc))
  {
    if w.lock.None? { EngineMoves(w, e, pc, Some(Engine(e))); } else { GivesUp(w, e); }
  }

  /** Writing the intent file is safe when it was absent or its retired owner's lock is in hand. */
  predicate MayWrite(w: World, e: nat) {
    w.disk.file.Absent? || w.lock == Some(Engine(e))
  }

  lemma Writes(w: World, e: nat, file: IntentFile, drawn: Name)
    requires Inv(w) && e in w.engines && w.engines[e].pc.Idle? && MayWrite(w, e) && drawn != EMPTY
    requires file.Torn? || (file.Present? && file.intent.instance == drawn)
    ensures Inv(w.(disk := w.disk.(file := file), used := w.used + {drawn}))
  {
    var w' := w.(disk := w.disk.(file := file), used := w.used + {drawn});
    forall f | f in w'.engines ensures EngineOK(w'.disk, w'.lock, w'.used, f, w'.engines[f]) {
      assert EngineOK(w.disk, w.lock, w.used, f, w.engines[f]);
    }
    forall p | p in w'.owners ensures OwnerOK(w'.disk, w'.lock, w'.used, p, w'.owners[p]) {
      assert OwnerOK(w.disk, w.lock, w.used, p, w.owners[p]);
    }
  }

  lemma Publishes(w: World, e: nat, next: Intent, ok: bool)
    requires Inv(w) && e in w.engines && MayWrite(w, e) && next.instance != EMPTY && next.instance !in w.used
    ensures Inv(Publish(w, e, next, ok))
  {
    EngineMoves(w, e, Idle, w.lock);
    var w1 := Engine'(w, e, Idle).(lock := w.lock);
    Writes(w1, e, Present(next), next.instance);
    var w2 := w1.(disk := w1.disk.(file := Present(next)), used := w1.used + {next.instance});
    GivesUp(w2, e);
    var w3 := GiveUp(w2, e);
    assert w3.engines == Engine'(w, e, Idle).engines;
    if ok {
      forall p | p in w3.owners ensures w3.owners[p].nonce != next.instance {
        assert OwnerOK(w.disk, w.lock, w.used, p, w.owners[p]);
      }
      forall f | f in w3.engines && w3.engines[f].pc.Launching? ensures w3.engines[f].pc.next.instance != next.instance {
        assert EngineOK(w.disk, w.lock, w.used, f, w.engines[f]);
      }
      Readies(w3, e, next);
    }
  }

  lemma Readies(w: World, e: nat, next: Intent)
    requires Inv(w) && e in w.engines && next.instance in w.used
    requires forall p :: p in w.owners ==> w.owners[p].nonce != next.instance
    requires forall f :: f in w.engines && w.engines[f].pc.Launching? ==> w.engines[f].pc.next.instance != next.instance
    ensures Inv(Engine'(w, e, Launching(next)))
  {
  }

  lemma Launches(w: World, e: nat, p: nat)
    requires Inv(w) && e in w.engines && w.engines[e].pc.Launching? && p !in w.owners
    ensures var E := w.engines[e];
      Inv(Engine'(w, e, Idle).(owners := w.owners[p := OwnerProc(E.build, E.pc.next.instance, NoIntent, Born, false, R.Init(NoIntent))]))
  {
    var E := w.engines[e];
    assert EngineOK(w.disk, w.lock, w.used, e, E);
    EngineMoves(w, e, Idle, w.lock);
    Joins(Engine'(w, e, Idle).(lock := w.lock), p, OwnerProc(E.build, E.pc.next.instance, NoIntent, Born, false, R.Init(NoIntent)));
  }

  /** A newborn process whose identity nobody else has. */
  lemma Joins(w: World, p: nat, o: OwnerProc)
    requires Inv(w) && p !in w.owners && OwnerOK(w.disk, w.lock, w.used, p, o)
    requires forall q :: q in w.owners ==> w.owners[q].nonce != o.nonce
    requires forall e :: e in w.engines && w.engines[e].pc.Launching? ==> w.engines[e].pc.next.instance != o.nonce
    ensures Inv(w.(owners := w.owners[p := o]))
  {
    var w' := w.(owners := w.owners[p := o]);
    RecordsStay(w.disk.retired, w.owners, p, o);
    assert DiskOK(w') && Distinct(w') && EnginesOK(w') && OwnersOK(w');
  }

  lemma EngineStepKeepsInv(w: World, e: nat, c: Choice)
    requires Inv(w) && e in w.engines
    ensures Inv(EngineStep(w, e, c))
  {
    var E := w.engines[e];
    assert EngineOK(w.disk, w.lock, w.used, e, E);
    match E.pc {
      case Idle =>
      case Selecting(digest) => EngineMoves(w, e, EngineStep(w, e, c).engines[e].pc, w.lock);
      case Chosen(digest, prior) => EngineMoves(w, e, EngineStep(w, e, c).engines[e].pc, w.lock);
      case Fencing(digest, first) => TakesLock(w, e, Fenced(digest, first));
      case HistoricFencing(digest) => TakesLock(w, e, HistoricFenced(digest));
      case Proven(digest, prior) => if FreshIntent(w, c.next, E.build, digest) { Publishes(w, e, c.next, c.ok); } else { GivesUp(w, e); }
      case Creating(digest) => CreatingKeepsInv(w, e, c);
      case Launching(next) => if c.ok && c.pid !in w.owners { Launches(w, e, c.pid); } else { GivesUp(w, e); }
      case Confirming => GivesUp(w, e);
      case _ => ReadingKeepsInv(w, e, c);
    }
  }

  lemma ReadingKeepsInv(w: World, e: nat, c: Choice)
    requires Inv(w) && e in w.engines
    requires var pc := w.engines[e].pc; pc.Fenced? || pc.HistoricFenced? || pc.Matched? || pc.Unfenced?
    ensures Inv(EngineStep(w, e, c))
  {
    assert EngineOK(w.disk, w.lock, w.used, e, w.engines[e]);
    var w' := EngineStep(w, e, c);
    if w'.engines[e].pc.Idle? { GivesUp(w, e); } else { EngineMoves(w, e, w'.engines[e].pc, w.lock); }
  }

  lemma CreatingKeepsInv(w: World, e: nat, c: Choice)
    requires Inv(w) && e in w.engines && w.engines[e].pc.Creating?
    ensures Inv(EngineStep(w, e, c))
  {
    var E := w.engines[e];
    GivesUp(w, e);
    if w.disk.file.Absent? && FreshIntent(w, c.next, E.build, E.pc.digest) {
      if c.evidence { Publishes(w, e, c.next, c.ok); } else { Writes(GiveUp(w, e), e, Torn, c.next.instance); }
    }
  }

  // --- owner steps -------------------------------------------------------------------

  /** An owner process moves, taking, keeping or dropping only its own lock. */
  lemma OwnerMoves(w: World, p: nat, o: OwnerProc, lock: Option<Holder>)
    requires Inv(w) && p in w.owners && o.nonce == w.owners[p].nonce
    requires w.owners[p].published ==> o.published && o.intent == w.owners[p].intent
    requires lock == w.lock || (w.lock.None? && lock == Some(OwnerProcess(p))) || (w.lock == Some(OwnerProcess(p)) && lock.None?)
    requires OwnerOK(w.disk, lock, w.used, p, o)
    ensures Inv(w.(owners := w.owners[p := o], lock := lock))
  {
    var w' := w.(owners := w.owners[p := o], lock := lock);
    forall e | e in w'.engines ensures EngineOK(w'.disk, w'.lock, w'.used, e, w'.engines[e]) {
      assert EngineOK(w.disk, w.lock, w.used, e, w.engines[e]);
    }
    forall q | q in w'.owners ensures OwnerOK(w'.disk, w'.lock, w'.used, q, w'.owners[q]) {
      assert OwnerOK(w.disk, w.lock, w.used, q, w.owners[q]);
    }
    RecordsStay(w.disk.retired, w.owners, p, o);
    SameNonce(w, p, o, lock);
    assert DiskOK(w') && Distinct(w') && EnginesOK(w') && OwnersOK(w');
  }

  lemma SameNonce(w: World, p: nat, o: OwnerProc, lock: Option<Holder>)
    requires Distinct(w) && p in w.owners && o.nonce == w.owners[p].nonce
    ensures Distinct(w.(owners := w.owners[p := o], lock := lock))
  {
    var w' := w.(owners := w.owners[p := o], lock := lock);
    assert forall q :: q in w'.owners ==> q in w.owners && w'.owners[q].nonce == w.owners[q].nonce;
  }

  lemma Exits(w: World, p: nat)
    requires Inv(w) && p in w.owners
    ensures Inv(Exit(w, p))
  {
    assert OwnerOK(w.disk, w.lock, w.used, p, w.owners[p]);
    OwnerMoves(w, p, w.owners[p].(phase := Exited), if w.lock == Some(OwnerProcess(p)) then None else w.lock);
  }

  /** The terminal owner with its control transport joined holds nothing and runs nothing. */
  lemma NothingLeft(s: R.Sys)
    requires OI.Inv(s) && s.o.terminal && !StillLive(s.o) && s.reqs == map[]
    ensures Ended(s)
  {
    assert s.work.Keys == {};
  }

  /** The retirement record: only the owner itself, ended and under its lock, writes it. */
  lemma Retires(w: World, p: nat)
    requires Inv(w) && p in w.owners && w.owners[p].phase.Publishing?
    ensures Inv(w.(disk := w.disk.(retired := w.disk.retired + {w.owners[p].intent}), owners := w.owners[p := w.owners[p].(published := true)]))
  {
    var o := w.owners[p];
    var w' := w.(disk := w.disk.(retired := w.disk.retired + {o.intent}), owners := w.owners[p := o.(published := true)]);
    assert OwnerOK(w.disk, w.lock, w.used, p, o);
    forall e | e in w'.engines ensures EngineOK(w'.disk, w'.lock, w'.used, e, w'.engines[e]) {
      assert EngineOK(w.disk, w.lock, w.used, e, w.engines[e]);
    }
    forall q | q in w'.owners ensures OwnerOK(w'.disk, w'.lock, w'.used, q, w'.owners[q]) {
      assert OwnerOK(w.disk, w.lock, w.used, q, w.owners[q]);
    }
    RecordsStay(w.disk.retired, w.owners, p, o.(published := true));
    assert p in w'.owners && w'.owners[p].intent == o.intent && w'.owners[p].published;
    SameNonce(w, p, o.(published := true), w.lock);
    assert DiskOK(w') && Distinct(w') && EnginesOK(w') && OwnersOK(w');
  }

  lemma PublishingKeepsInv(w: World, p: nat, c: Choice)
    requires Inv(w) && p in w.owners && w.owners[p].phase.Publishing?
    ensures Inv(OwnerStep(w, p, c))
  {
    var o := w.owners[p];
    Retires(w, p);
    Exits(w.(disk := w.disk.(retired := w.disk.retired + {o.intent}), owners := w.owners[p := o.(published := true)]), p);
  }

  /** A step that neither exits nor publishes changes only the process itself and the lock it takes. */
  lemma OwnerStepOK(w: World, p: nat, c: Choice)
    requires p in w.owners && OwnerOK(w.disk, w.lock, w.used, p, w.owners[p]) && JoinedEnds(w.owners[p])
    requires !w.owners[p].phase.Publishing? && !OwnerStep(w, p, c).owners[p].phase.Exited?
    ensures var w' := OwnerStep(w, p, c);
      var o' := w'.owners[p];
      && w' == w.(owners := w.owners[p := o'], lock := w'.lock) && OwnerOK(w.disk, w'.lock, w.used, p, o')
      && o'.nonce == w.owners[p].nonce && (w'.lock == w.lock || (w.lock.None? && w'.lock == Some(OwnerProcess(p))))
      && (w.owners[p].published ==> o'.published && o'.intent == w.owners[p].intent)
  {
  }

  lemma ExitIsExit(w: World, p: nat, c: Choice)
    requires p in w.owners && !w.owners[p].phase.Publishing? && OwnerStep(w, p, c).owners[p].phase.Exited?
    ensures OwnerStep(w, p, c) == w || OwnerStep(w, p, c) == Exit(w, p)
  {
  }

  lemma OwnerStepKeepsInv(w: World, p: nat, c: Choice)
    requires Inv(w) && p in w.owners && !w.owners[p].phase.Publishing? && JoinedEnds(w.owners[p])
    ensures Inv(OwnerStep(w, p, c))
  {
    var w' := OwnerStep(w, p, c);
    if w'.owners[p].phase.Exited? {
      ExitIsExit(w, p, c);
      Exits(w, p);
    } else {
      assert OwnerOK(w.disk, w.lock, w.used, p, w.owners[p]);
      OwnerStepOK(w, p, c);
      OwnerMoves(w, p, w'.owners[p], w'.lock);
    }
  }

  lemma WorkKeepsInv(w: World, p: nat, ev: R.Event)
    requires Inv(w) && p in w.owners && Takes(w.owners[p].phase, ev)
    ensures Inv(Next(w, OwnerWorks(p, ev)))
  {
    var o := w.owners[p];
    assert OwnerOK(w.disk, w.lock, w.used, p, o);
    OwnerMoves(w, p, o.(sys := R.Next(o.sys, ev)), w.lock);
  }

  /** What the owner invariant adds at the last step: a joined terminal owner with nothing live has ended. */
  ghost predicate JoinedEnds(o: OwnerProc) {
    o.phase.Joined? && o.sys.o.terminal && !StillLive(o.sys.o) ==> Ended(o.sys)
  }

  lemma JoinedHasEnded(o: OwnerProc)
    requires OI.Inv(o.sys) && (o.phase.Joined? ==> o.sys.reqs == map[])
    ensures JoinedEnds(o)
  {
    if o.phase.Joined? && o.sys.o.terminal && !StillLive(o.sys.o) { NothingLeft(o.sys); }
  }

  lemma OwnerStepsKeepsInv(w: World, p: nat, c: Choice)
    requires Inv(w) && p in w.owners && JoinedEnds(w.owners[p])
    ensures Inv(OwnerStep(w, p, c))
  {
    if w.owners[p].phase.Publishing? { PublishingKeepsInv(w, p, c); } else { OwnerStepKeepsInv(w, p, c); }
  }

  lemma EngineEventKeepsInv(w: World, ev: Event)
    requires Inv(w) && (ev.EngineSelects? || ev.EngineConfirms? || ev.EngineSteps? || ev.EngineDies?)
    ensures Inv(Next(w, ev))
  {
    if ev.e in w.engines {
      if ev.EngineSteps? {
        EngineStepKeepsInv(w, ev.e, ev.c);
      } else if ev.EngineDies? {
        GivesUp(w, ev.e);
      } else if w.engines[ev.e].pc.Idle? {
        if ev.EngineSelects? { EngineMoves(w, ev.e, Selecting(ev.digest), w.lock); } else { TakesLock(w, ev.e, Confirming); }
      }
    }
  }

  lemma OwnerEventKeepsInv(w: World, ev: Event)
    requires Inv(w) && (ev.OwnerSteps? || ev.OwnerWorks? || ev.OwnerDies?)
    requires ev.p in w.owners ==> JoinedEnds(w.owners[ev.p])
    ensures Inv(Next(w, ev))
  {
    if ev.p in w.owners {
      if ev.OwnerSteps? {
        OwnerStepsKeepsInv(w, ev.p, ev.c);
      } else if ev.OwnerDies? {
        Exits(w, ev.p);
      } else if Takes(w.owners[ev.p].phase, ev.ev) {
        WorkKeepsInv(w, ev.p, ev.ev);
      }
    }
  }

  lemma OwnerJoinedEnds(w: World, p: nat)
    requires OwnersOK(w) && SystemsOK(w) && p in w.owners
    ensures JoinedEnds(w.owners[p])
  {
    assert OwnerOK(w.disk, w.lock, w.used, p, w.owners[p]);
    JoinedHasEnded(w.owners[p]);
  }

  lemma NextKeepsInv(w: World, ev: Event)
    requires Inv(w) && SystemsOK(w)
    ensures Inv(Next(w, ev))
  {
    if ev.EngineStarts? {
      StartsKeepsInv(w, ev.e, ev.build);
    } else if ev.OwnerSteps? || ev.OwnerWorks? || ev.OwnerDies? {
      if ev.p in w.owners { OwnerJoinedEnds(w, ev.p); }
      OwnerEventKeepsInv(w, ev);
    } else {
      EngineEventKeepsInv(w, ev);
    }
  }

  lemma StartsKeepsInv(w: World, e: nat, build: Name)
    requires Inv(w)
    ensures Inv(Next(w, EngineStarts(e, build)))
  {
  }

  /** How one event may change the owner system of process `p`. */
  ghost predicate SystemChange(w: World, w': World, ev: Event, p: nat)
    requires p in w'.owners
  {
    var s', i' := w'.owners[p].sys, w'.owners[p].intent;
    || s' == R.Init(i')
    || (p in w.owners && s' == w.owners[p].sys && i' == w.owners[p].intent)
    || (p in w.owners && ev.OwnerWorks? && ev.p == p && s' == R.Next(w.owners[p].sys, ev.ev) && i' == w.owners[p].intent)
  }

  lemma EngineLeavesOwners(w: World, e: nat, c: Choice)
    requires e in w.engines && !w.engines[e].pc.Launching?
    ensures EngineStep(w, e, c).owners == w.owners
  {
  }

  lemma EngineStepSystems(w: World, e: nat, c: Choice, p: nat)
    requires e in w.engines && p in EngineStep(w, e, c).owners
    ensures SystemChange(w, EngineStep(w, e, c), EngineSteps(e, c), p)
  {
    if !w.engines[e].pc.Launching? { EngineLeavesOwners(w, e, c); }
  }

  lemma OwnerStepSystems(w: World, q: nat, c: Choice, p: nat)
    requires q in w.owners && p in OwnerStep(w, q, c).owners
    ensures SystemChange(w, OwnerStep(w, q, c), OwnerSteps(q, c), p)
  {
    if p != q { OtherOwnersStay(w, q, c, p); } else if !w.owners[q].phase.Born? { OwnSystemStays(w, q, c); }
  }

  lemma OtherOwnersStay(w: World, q: nat, c: Choice, p: nat)
    requires q in w.owners && p != q && p in OwnerStep(w, q, c).owners
    ensures p in w.owners && OwnerStep(w, q, c).owners[p] == w.owners[p]
  {
  }

  lemma OwnSystemStays(w: World, q: nat, c: Choice)
    requires q in w.owners && !w.owners[q].phase.Born?
    ensures var o' := OwnerStep(w, q, c).owners[q]; o'.sys == w.owners[q].sys && o'.intent == w.owners[q].intent
  {
  }

  lemma SystemsChange(w: World, ev: Event, p: nat)
    requires p in Next(w, ev).owners
    ensures SystemChange(w, Next(w, ev), ev, p)
  {
    if ev.EngineSteps? {
      if ev.e in w.engines { EngineStepSystems(w, ev.e, ev.c, p); }
    } else if ev.OwnerSteps? {
      if ev.p in w.owners { OwnerStepSystems(w, ev.p, ev.c, p); }
    }
  }

  lemma NextKeepsSystems(w: World, ev: Event)
    requires SystemsOK(w)
    ensures SystemsOK(Next(w, ev))
  {
    var w' := Next(w, ev);
    forall p | p in w'.owners
      ensures OI.Inv(w'.owners[p].sys) && w'.owners[p].sys.o.intent == w'.owners[p].intent
    {
      SystemsChange(w, ev, p);
      OI.InitInv(w'.owners[p].intent);
      if ev.OwnerWorks? && p in w.owners {
        OI.NextKeepsInv(w.owners[p].sys, ev.ev);
        OT.NextForward(w.owners[p].sys, ev.ev);
      }
    }
  }

  lemma {:induction false} RunKeepsInv(w: World, es: seq<Event>)
    requires Inv(w) && SystemsOK(w)
    ensures Inv(Run(w, es)) && SystemsOK(Run(w, es))
    decreases |es|
  {
    if es != [] {
      NextKeepsInv(w, es[0]);
      NextKeepsSystems(w, es[0]);
      RunKeepsInv(Next(w, es[0]), es[1..]);
    }
  }

  // --- what follows for every history ------------------------------------------------

  /**
   At most one owner process is admitted; it holds the lifetime lock and its
   intent is the intent on disk. Each identity is launched at most once. A
   retirement record exists only for an owner that ended with nothing held,
   running or unsettled, and no process serves under a retired intent.
   */
  ghost predicate Safe(w: World) {
    && (forall p :: p in w.owners && Admitted(w.owners[p].phase) ==> w.lock == Some(OwnerProcess(p)) && w.disk.file == Present(w.owners[p].intent))
    && (forall p, q :: p in w.owners && q in w.owners && Admitted(w.owners[p].phase) && Admitted(w.owners[q].phase) ==> p == q)
    && (forall p, q :: p in w.owners && q in w.owners && w.owners[p].nonce == w.owners[q].nonce ==> p == q)
    && (forall i :: i in w.disk.retired ==> exists p :: p in w.owners && w.owners[p].intent == i && w.owners[p].published && Ended(w.owners[p].sys))
    && (forall p :: p in w.owners && Admitted(w.owners[p].phase) && w.owners[p].intent in w.disk.retired ==> w.owners[p].phase.Publishing? && w.owners[p].published)
  }

  lemma RecordsAreEarned(w: World, i: Intent)
    requires DiskOK(w) && OwnersOK(w) && i in w.disk.retired
    ensures exists p :: p in w.owners && w.owners[p].intent == i && w.owners[p].published && Ended(w.owners[p].sys)
  {
    var p :| p in w.owners && w.owners[p].intent == i && w.owners[p].published;
    assert OwnerOK(w.disk, w.lock, w.used, p, w.owners[p]);
  }

  lemma InvIsSafe(w: World)
    requires Inv(w)
    ensures Safe(w)
  {
    forall i | i in w.disk.retired
      ensures exists p :: p in w.owners && w.owners[p].intent == i && w.owners[p].published && Ended(w.owners[p].sys)
    {
      RecordsAreEarned(w, i);
    }
    forall p | p in w.owners && Admitted(w.owners[p].phase)
      ensures w.lock == Some(OwnerProcess(p)) && w.disk.file == Present(w.owners[p].intent)
      ensures w.owners[p].intent in w.disk.retired ==> w.owners[p].phase.Publishing? && w.owners[p].published
    {
      assert OwnerOK(w.disk, w.lock, w.used, p, w.owners[p]);
    }
  }

  /** Safety across any number of engine and owner starts and crashes. */
  lemma SuccessionSafety(es: seq<Event>)
    ensures Safe(Run(Init(), es))
  {
    RunKeepsInv(Init(), es);
    InvIsSafe(Run(Init(), es));
  }

  /** The selected intent has no retirement record and nobody left who could write one. */
  ghost predicate Abandoned(w: World, i: Intent) {
    && w.disk.file == Present(i) && i !in w.disk.retired
    && (forall p :: p in w.owners && w.owners[p].nonce == i.instance ==> w.owners[p].phase.Exited?)
    && (forall e :: e in w.engines && w.engines[e].pc.Launching? ==> w.engines[e].pc.next.instance != i.instance)
  }

  /** An engine neither rewrites the file of an abandoned intent nor prepares another launch of it. */
  lemma EngineLeavesAbandoned(w: World, i: Intent, e: nat, c: Choice)
    requires Abandoned(w, i) && e in w.engines && EngineOK(w.disk, w.lock, w.used, e, w.engines[e])
    ensures Abandoned(EngineStep(w, e, c), i)
  {
    var w' := EngineStep(w, e, c);
    assert w'.disk == w.disk;
    forall f | f in w'.engines && w'.engines[f].pc.Launching? ensures w'.engines[f].pc.next.instance != i.instance {
      assert w'.engines[f] == w.engines[f];
    }
  }

  lemma OwnerLeavesAbandoned(w: World, i: Intent, p: nat, c: Choice)
    requires Inv(w) && Abandoned(w, i) && p in w.owners
    ensures Abandoned(OwnerStep(w, p, c), i)
  {
    assert OwnerOK(w.disk, w.lock, w.used, p, w.owners[p]);
    var w' := OwnerStep(w, p, c);
    assert w'.disk.file == w.disk.file && (w.owners[p].intent != i ==> i !in w'.disk.retired);
    assert w.owners[p].phase.Exited? ==> w' == w;
  }

  lemma NextLeavesAbandoned(w: World, i: Intent, ev: Event)
    requires Inv(w) && Abandoned(w, i)
    ensures Abandoned(Next(w, ev), i)
  {
    if ev.EngineSteps? {
      if ev.e in w.engines { EngineLeavesAbandoned(w, i, ev.e, ev.c); }
    } else if ev.OwnerSteps? {
      if ev.p in w.owners { OwnerLeavesAbandoned(w, i, ev.p, ev.c); }
    }
  }

  /** An intent whose owner died, or was never born, without a retirement record is never replaced. */
  lemma {:induction false} AbandonedIsHeldForever(w: World, i: Intent, es: seq<Event>)
    requires Inv(w) && SystemsOK(w) && Abandoned(w, i)
    ensures Run(w, es).disk.file == Present(i) && i !in Run(w, es).disk.retired
    ensures forall p :: p in Run(w, es).owners && Run(w, es).owners[p].intent == i ==> Run(w, es).owners[p].phase.Exited?
    decreases |es|
  {
    if es == [] {
      forall p | p in w.owners && w.owners[p].intent == i ensures w.owners[p].phase.Exited? {
        assert OwnerOK(w.disk, w.lock, w.used, p, w.owners[p]);
      }
    } else {
      NextKeepsInv(w, es[0]);
      NextKeepsSystems(w, es[0]);
      NextLeavesAbandoned(w, i, es[0]);
      AbandonedIsHeldForever(Next(w, es[0]), i, es[1..]);
    }
  }

  /** After its retirement record exists, no step of that owner can acquire a resource or run work again. */
  lemma RetiredOwnerIsFinal(w: World, p: nat, work: seq<R.Event>)
    requires Inv(w) && SystemsOK(w) && p in w.owners && w.owners[p].published
    ensures var s := R.Run(w.owners[p].sys, work);
      && s.o.terminal && Quiet(s.o) && AllSettled(s.o, Shutdown) && s.reqs == map[]
      && s.o.ops.Keys == w.owners[p].sys.o.ops.Keys && s.h.mountCalls == w.owners[p].sys.h.mountCalls
      && s.h.managers == w.owners[p].sys.h.managers && s.h.released == w.owners[p].sys.h.released
  {
    assert OwnerOK(w.disk, w.lock, w.used, p, w.owners[p]);
    OT.TerminalIsFinal(w.owners[p].sys, work);
  }
}
