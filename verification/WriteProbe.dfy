/** Admission of the automatic NFS write probe: two looks at the session and its surroundings that must agree. */
module WriteProbe {
  import opened Common
  import opened S = Session
  import opened SessionRun

  /** Which cache owner, session and mount path are current; EMPTY stands for none. */
  datatype Source = Source(owner: Name, session: Name, ownersSession: Name, fusePath: Name)

  datatype Admission = Admission(source: Source, epoch: nat)

  /** What one capture sees, in order: three looks at verifier and offline flag, two at source and session, one at FUSE. */
  datatype Sight = Sight(
    verifier: seq<bool>, offline: seq<bool>, first: Source, second: Source,
    epoch1: nat, ready1: bool, epoch2: nat, ready2: bool, fuse: bool)

  predicate Complete(o: Sight) {
    |o.verifier| == 3 && |o.offline| == 3
  }

  function Capture(o: Sight): Option<Admission>
    requires Complete(o)
  {
    if !o.verifier[0] || o.offline[0] then None
    else if o.first.owner == EMPTY || o.first.session == EMPTY || o.first.fusePath == EMPTY
            || o.first.ownersSession != o.first.session then None
    else if !o.ready1 || !o.fuse || !o.verifier[1] || o.offline[1] then None
    else if o.second != o.first then None
    else if !o.ready2 || o.epoch2 != o.epoch1 || !o.verifier[2] || o.offline[2] then None
    else Some(Admission(o.first, o.epoch1))
  }

  predicate StillCurrent(o: Sight, original: Admission)
    requires Complete(o)
  {
    Capture(o) == Some(original)
  }

  /** The capture's two session observations were made at `w` and after `es`. */
  predicate Saw(o: Sight, w: World, es: seq<Event>) {
    && o.epoch1 == w.s.epoch && o.ready1 == Admits(w.s)
    && o.epoch2 == Run(w, es).s.epoch && o.ready2 == Admits(Run(w, es).s)
  }

  /**
   A probe that captured its admission over `es`, worked during `fs` and found
   the admission still current over `gs` had no disconnect, transport change,
   identity refusal or Stop anywhere in between, and the session was qualified
   at every moment of it exactly when no attempt published a failure.
   */
  lemma ProbeIsFenced(w: World, es: seq<Event>, fs: seq<Event>, gs: seq<Event>, before: Sight, after: Sight)
    requires Inv(w) && Complete(before) && Complete(after)
    requires Saw(before, w, es) && Saw(after, Run(Run(w, es), fs), gs)
    requires Capture(before).Some? && StillCurrent(after, Capture(before).value)
    ensures Undisturbed(w, es + fs + gs)
    ensures StaysQualified(w, es + fs + gs) <==> NoFailurePublished(w, es + fs + gs)
  {
    RunAppend(w, es, fs);
    RunAppend(w, es + fs, gs);
    EqualObservations(w, es + fs + gs);
  }
}
