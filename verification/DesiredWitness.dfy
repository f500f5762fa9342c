/** Concrete runs, each from an empty disk, that mark where the desired record's guarantees end. */
module DesiredWitness {
  import opened Common
  import O = Owner
  import opened D = Desired
  import opened DesiredRun

  const BUILD: Name := 1
  const OTHER: Name := 2
  const ROOT: Name := 3
  const HERE := Site(BUILD, ROOT)
  const CONFIG := Config(4, EMPTY)
  const OWNER := O.Intent(BUILD, ROOT, 5, 6, 7, 8, 9, EMPTY)
  const FINE := Write(Durable, true, true, Kept)

  function RecordAt(build: Name, revision: nat, desired: State, owner: Option<O.Intent>): Record {
    Record(1, build, ROOT, revision, desired, CONFIG, owner, NoNFS, None)
  }


  lemma {:induction false} RunAppend(s: World, a: seq<Event>, b: seq<Event>)
    ensures Run(s, a + b) == Run(Run(s, a), b)
    decreases |a|
  {
    if a == [] {
      assert a + b == b;
    } else {
      assert (a + b)[0] == a[0] && (a + b)[1..] == a[1..] + b;
      RunAppend(Next(s, a[0]), a[1..], b);
    }
  }

  const OWNED := [BeginStart(CONFIG, FINE), BindOwner(1, OWNER, FINE)]

  /** A Start with its owner, still to be confirmed. */
  lemma Owned()
    ensures Run(Init(HERE), OWNED) ==
      World(HERE, Disk(Some(RecordAt(BUILD, 1, Pending, Some(OWNER))), map[]), 1, Resting, Some(1), {}, [], {})
  {
    var s := Init(HERE);
    assert OWNED[1..] == [BindOwner(1, OWNER, FINE)] && OWNED[1..][1..] == [];
    assert Run(Next(s, OWNED[0]), OWNED[1..]) == Run(Next(Next(s, OWNED[0]), OWNED[1]), []);
  }

  /** A confirmation that is reported as failed, after which a recovery is admitted that was not possible before. */
  lemma UncertainConfirmation()
    ensures var s := Run(Init(HERE), OWNED);
      var c := Confirm(HERE, s.disk, 1, FINE.(landing := Uncertain));
      && !CanRecover(HERE, s.disk, 1) && !c.ok && CanRecover(HERE, c.disk, 1)
      && Run(Init(HERE), OWNED + [ConfirmStart(1, FINE.(landing := Uncertain))]).disk == c.disk
  {
    Owned();
    var s, e := Run(Init(HERE), OWNED), ConfirmStart(1, FINE.(landing := Uncertain));
    CanRecoverIff(HERE, s.disk, 1);
    CanRecoverIff(HERE, Confirm(HERE, s.disk, 1, FINE.(landing := Uncertain)).disk, 1);
    RunAppend(Init(HERE), OWNED, [e]);
    assert Run(s, [e]) == Run(Next(s, e), []);
  }

  /** The stopped record of a served volume, found by an engine of another build. */
  const UPGRADED := OWNED + [StopNow(false, FINE), Replaced(OTHER)]

  lemma Upgraded()
    ensures Run(Init(HERE), UPGRADED) ==
      World(Site(OTHER, ROOT), Disk(Some(RecordAt(BUILD, 2, Stopped, Some(OWNER))), map[]), 0, Resting, None, {}, [], {})
  {
    Owned();
    RunAppend(Init(HERE), OWNED, [StopNow(false, FINE), Replaced(OTHER)]);
    var s, es := Run(Init(HERE), OWNED), [StopNow(false, FINE), Replaced(OTHER)];
    assert es[1..] == [es[1]] && es[1..][1..] == [];
    assert Run(Next(s, es[0]), [es[1]]) == Run(Next(Next(s, es[0]), es[1]), []);
  }

  /** A Start whose archive was cut short: the record is held from then on. */
  lemma CutArchive()
    ensures var s := Run(Init(HERE), UPGRADED + [BeginStart(CONFIG, FINE.(archiving := Cut))]);
      Inv(s) && s.disk.file.Some? && Legacy(s.site, s.disk.file.value) && Conflict(s.disk) && !Supersedable(s.disk)
  {
    Upgraded();
    var e := BeginStart(CONFIG, FINE.(archiving := Cut));
    RunKeepsInv(Init(HERE), UPGRADED + [e]);
    RunAppend(Init(HERE), UPGRADED, [e]);
    assert Run(Run(Init(HERE), UPGRADED), [e]) == Run(Next(Run(Init(HERE), UPGRADED), e), []);
  }

  const ARCHIVED := UPGRADED + [BeginStart(CONFIG, FINE.(landing := Lost))]

  lemma Archived()
    ensures var r := RecordAt(BUILD, 2, Stopped, Some(OWNER));
      Run(Init(HERE), ARCHIVED) == World(Site(OTHER, ROOT), Disk(Some(r), map[5 := Some(r)]), 0, Resting, None, {}, [], {})
  {
    Upgraded();
    var s, e := Run(Init(HERE), UPGRADED), BeginStart(CONFIG, FINE.(landing := Lost));
    RunAppend(Init(HERE), UPGRADED, [e]);
    assert Run(s, [e]) == Run(Next(s, e), []);
  }

  /** A Start that was archived but did not land, and then a repeated stop: the record is held from then on. */
  lemma OlderArchive()
    ensures var s := Run(Init(HERE), ARCHIVED + [StopNow(false, FINE)]);
      Inv(s) && s.disk.file.Some? && Legacy(s.site, s.disk.file.value) && Conflict(s.disk) && !Supersedable(s.disk)
  {
    Archived();
    var s, e := Run(Init(HERE), ARCHIVED), StopNow(false, FINE);
    RunKeepsInv(Init(HERE), ARCHIVED + [e]);
    RunAppend(Init(HERE), ARCHIVED, [e]);
    assert Run(s, [e]) == Run(Next(s, e), []);
  }
}
