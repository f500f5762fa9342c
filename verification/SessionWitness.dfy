/** Concrete runs that mark where the session's guarantees end. */
module SessionWitness {
  import opened Common
  import opened S = Session
  import opened SessionRun

  const VOLUME: Name := 7
  const FINE := Input(VOLUME, NoError, false)
  const FAILED := Input(VOLUME, OtherError, false)

  /** A running session: online, qualified and recovered, while attempt 1 waits for the slot. */
  const SERVING := World(
    S.Session(1, true, true, false, false, 0, VOLUME, None), Bridge(3, true, false, false),
    Some(VOLUME), None, map[1 := Waiting], {}, map[])

  lemma Extend(w: World, es: seq<Event>, v: World, e: Event, v': World) returns (es': seq<Event>)
    requires Run(w, es) == v && Next(v, e) == v'
    ensures es' == es + [e] && Run(w, es') == v'
  {
    es' := es + [e];
    RunAppend(w, es, [e]);
    assert Run(v, [e]) == Run(Next(v, e), []);
  }

  /** An attempt of a bound session goes through in five steps. */
  lemma Attempt(w: World, w0: World, es: seq<Event>, q: nat) returns (es': seq<Event>, w': World)
    requires Run(w, es) == w0 && q in w0.qs && w0.qs[q].Waiting? && w0.slot.None? && Free(w0) && MayQualify(w0.s)
    requires w0.store == Some(VOLUME) && w0.s.binding == VOLUME
    ensures Run(w, es') == w'
    ensures w' == w0.(qs := w0.qs - {q}, s := w0.s.(refused := false, qualified := true, callback := Some(true)))
  {
    var w1 := w0.(slot := Some(q), qs := w0.qs[q := HasSlot]);
    es' := Extend(w, es, w0, QualifySteps(q, FINE), w1);
    var w2 := w1.(qs := w0.qs[q := Probing(w0.s.epoch, VOLUME)]);
    assert w1.qs[q := Probing(w0.s.epoch, VOLUME)] == w2.qs;
    es' := Extend(w, es', w1, QualifySteps(q, FINE), w2);
    var w3 := w1.(qs := w0.qs[q := Saving(w0.s.epoch, VOLUME)]);
    assert w2.qs[q := Saving(w0.s.epoch, VOLUME)] == w3.qs;
    es' := Extend(w, es', w2, QualifySteps(q, FINE), w3);
    var w4 := w1.(qs := w0.qs[q := Publishing(w0.s.epoch, VOLUME, NoError)]);
    assert w3.qs[q := Publishing(w0.s.epoch, VOLUME, NoError)] == w4.qs;
    es' := Extend(w, es', w3, QualifySteps(q, FINE), w4);
    w' := w0.(qs := w0.qs - {q}, s := w0.s.(refused := false, qualified := true, callback := Some(true)));
    assert w4.qs - {q} == w'.qs;
    es' := Extend(w, es', w4, QualifySteps(q, FINE), w');
  }

  /** The owner learns of the success and its recovery worker clears the flag. */
  lemma Recover(w: World, w0: World, es: seq<Event>) returns (es': seq<Event>, w': World)
    requires Run(w, es) == w0 && w0.s.callback == Some(true) && Qualified(w0.s) && !w0.b.closed && w0.rs == map[]
    ensures Run(w, es') == w'
    ensures w' == w0.(s := w0.s.(callback := None), b := Bridge(w0.b.epoch + 1, true, false, false))
  {
    var w1 := w0.(s := w0.s.(callback := None), b := Bridge(w0.b.epoch + 1, true, false, w0.b.autoOffline));
    es' := Extend(w, es, w0, Callback, w1);
    var w2 := w1.(rs := map[0 := Captured(w1.b.epoch)]);
    es' := Extend(w, es', w1, RecoveryStarts(0), w2);
    var w3 := w1.(rs := map[0 := Checked(w1.b.epoch)]);
    assert w2.rs[0 := Checked(w1.b.epoch)] == w3.rs;
    es' := Extend(w, es', w2, RecoverySteps(0, true), w3);
    w' := w1.(b := w1.b.(autoOffline := false));
    assert w3.rs - {0} == map[];
    es' := Extend(w, es', w3, RecoverySteps(0, true), w');
  }

  /** A session starts on its stored volume and comes to serve. */
  lemma Serves() returns (es: seq<Event>)
    ensures Run(Init(Some(VOLUME)), es) == SERVING
  {
    var w := Init(Some(VOLUME));
    var w1 := w.(s := S.Session(1, true, false, false, false, 0, VOLUME, Some(false)));
    es := Extend(w, [], w, Online(true), w1);
    var w2 := w1.(s := w1.s.(callback := None), b := Bridge(2, false, false, true));
    es := Extend(w, es, w1, Callback, w2);
    var w3 := w2.(qs := map[0 := Waiting]);
    es := Extend(w, es, w2, QualifyStarts(0), w3);
    var w4 := w2.(qs := map[0 := Waiting, 1 := Waiting]);
    assert w3.qs[1 := Waiting] == w4.qs;
    es := Extend(w, es, w3, QualifyStarts(1), w4);
    var w5, w6;
    es, w5 := Attempt(w, w4, es, 0);
    es, w6 := Recover(w, w5, es);
    assert w4.qs - {0} == map[1 := Waiting];
  }

  /** While it serves, the waiting attempt runs and fails, and a third attempt repairs the damage. */
  lemma Relapses() returns (fs: seq<Event>, gs: seq<Event>)
    ensures !Run(SERVING, fs).s.qualified && !Run(SERVING, fs + gs).b.autoOffline
    ensures Admits(Run(SERVING, fs + gs).s) && Run(SERVING, fs + gs).s.epoch == SERVING.s.epoch
  {
    var w1 := SERVING.(slot := Some(1), qs := map[1 := HasSlot]);
    assert SERVING.qs[1 := HasSlot] == w1.qs;
    fs := Extend(SERVING, [], SERVING, QualifySteps(1, FINE), w1);
    var w2 := w1.(qs := map[1 := Probing(1, VOLUME)]);
    assert w1.qs[1 := Probing(1, VOLUME)] == w2.qs;
    fs := Extend(SERVING, fs, w1, QualifySteps(1, FINE), w2);
    var w3 := w1.(qs := map[1 := Publishing(1, VOLUME, OtherError)]);
    assert w2.qs[1 := Publishing(1, VOLUME, OtherError)] == w3.qs;
    fs := Extend(SERVING, fs, w2, QualifySteps(1, FAILED), w3);
    var w4 := SERVING.(qs := map[], s := SERVING.s.(qualified := false, callback := Some(false)));
    assert w3.qs - {1} == map[];
    fs := Extend(SERVING, fs, w3, QualifySteps(1, FINE), w4);
    gs := Repaired(w4);
    RunAppend(SERVING, fs, gs);
  }

  lemma Repaired(w: World) returns (es: seq<Event>)
    requires w == SERVING.(qs := map[], s := SERVING.s.(qualified := false, callback := Some(false)))
    ensures !Run(w, es).b.autoOffline && Admits(Run(w, es).s) && Run(w, es).s.epoch == w.s.epoch
  {
    var w1 := w.(s := w.s.(callback := None), b := Bridge(4, false, false, true));
    es := Extend(w, [], w, Callback, w1);
    var w2 := w1.(qs := map[0 := Waiting]);
    es := Extend(w, es, w1, QualifyStarts(0), w2);
    var w3, w4;
    es, w3 := Attempt(w, w2, es, 0);
    es, w4 := Recover(w, w3, es);
  }

  /**
   Equal admitted observations, even with the automatic-offline flag clear at
   both ends, do not show that the session stayed qualified in between.
   */
  lemma EqualObservationsHideAFailure() returns (es: seq<Event>, fs: seq<Event>)
    ensures var w, w' := Run(Init(Some(VOLUME)), es), Run(Run(Init(Some(VOLUME)), es), fs);
      && Admits(w.s) && Admits(w'.s) && w.s.epoch == w'.s.epoch && !w.b.autoOffline && !w'.b.autoOffline
      && !StaysQualified(w, fs)
  {
    es := Serves();
    var f, g := Relapses();
    fs := f + g;
    RunAppend(SERVING, f, g);
  }

  /** Between a loss of qualification and its callback the flag is still clear. */
  lemma FlagLagsBehindALoss() returns (es: seq<Event>)
    ensures var w := Run(Init(Some(VOLUME)), es); !w.b.autoOffline && w.b.ready && !w.s.qualified && !Free(w)
  {
    es := Serves();
    var w' := SERVING.(s := Disrupted(SERVING.s).(online := false));
    es := Extend(Init(Some(VOLUME)), es, SERVING, Online(false), w');
  }
}
