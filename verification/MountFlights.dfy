/**
 NFS mount attempts ("flights") against shutdown: a mount controller and the
 path of a new mount are published inside a flight, a mount found at boot is
 published under the lifecycle lock, which shutdown holds too, and shutdown
 retires the flights before it closes the resources they use.
 */
module MountFlights {
  import opened Common

  /** `idle` numbers the current idle channel; closing a channel releases everyone who waits on it. */
  datatype Flights = Flights(active: int, retired: bool, idle: nat, closed: set<nat>)

  const NewFlights := Flights(0, false, 0, {0})

  function Begun(f: Flights): Flights {
    if f.retired then f else f.(active := f.active + 1, idle := if f.active == 0 then f.idle + 1 else f.idle)
  }

  function Ended(f: Flights): Flights {
    f.(active := f.active - 1, closed := if f.active == 1 then f.closed + {f.idle} else f.closed)
  }

  function Closing(f: Flights): Flights {
    f.(retired := true)
  }

  class NfsMountFlights {
    var active: int
    var retired: bool
    var idle: nat
    var closed: set<nat>

    ghost function Abs(): Flights
      reads this
    {
      Flights(active, retired, idle, closed)
    }

    constructor ()
      ensures Abs() == NewFlights
    {
      active, retired, idle, closed := 0, false, 0, {0};
    }

    method Begin() returns (ok: bool)
      modifies this
      ensures Abs() == Begun(old(Abs())) && ok == !old(retired)
    {
      if retired {
        return false;
      }
      if active == 0 {
        idle := idle + 1;
      }
      active := active + 1;
      return true;
    }

    method End()
      modifies this
      ensures Abs() == Ended(old(Abs()))
    {
      active := active - 1;
      if active == 0 {
        closed := closed + {idle};
      }
    }

    /** The locked part of `retire`; the caller then waits for the returned channel. */
    method Retire() returns (channel: nat)
      modifies this
      ensures Abs() == Closing(old(Abs())) && channel == idle
    {
      retired := true;
      return idle;
    }
  }

  // --- flights, publications and shutdown together --------------------------------------

  /** A shutdown: first check, wait for the flights, second check, and then the closing of resources. */
  datatype Shutdown = CheckFirst | Retiring | Waiting(channel: nat) | CheckAgain | Quiet | GaveUp

  datatype World = World(f: Flights, path: Name, controller: Option<nat>, flying: set<nat>, stops: map<nat, Shutdown>)

  datatype Event =
    | Boots(path: Name)                       // a Start finds an earlier mount and publishes its path
    | FlightBegins(i: nat)
    | Publishes(i: nat, path: Name, controller: nat)
    | Records(i: nat, path: Name)
    | FlightEnds(i: nat)
    | ReleasesController(controller: nat)
    | ClearsPath(path: Name)
    | StopBegins(s: nat)
    | StopSteps(s: nat, timeout: bool)

  const Init := World(NewFlights, EMPTY, None, {}, map[])

  predicate Mounted(w: World) {
    w.path != EMPTY || w.controller.Some?
  }

  /** No shutdown holds the lifecycle lock or has closed the server. */
  predicate LifecycleFree(w: World) {
    forall s :: s in w.stops ==> w.stops[s].GaveUp?
  }

  function StopStep(w: World, s: nat, timeout: bool): World
    requires s in w.stops
  {
    match w.stops[s]
    case CheckFirst => w.(stops := w.stops[s := if Mounted(w) then GaveUp else Retiring])
    case Retiring => w.(f := Closing(w.f), stops := w.stops[s := Waiting(w.f.idle)])
    case Waiting(channel) =>
      if channel in w.f.closed then w.(stops := w.stops[s := CheckAgain])
      else if timeout then w.(stops := w.stops[s := GaveUp])
      else w
    case CheckAgain => w.(stops := w.stops[s := if Mounted(w) then GaveUp else Quiet])
    case Quiet => w
    case GaveUp => w
  }

  function Next(w: World, e: Event): World {
    match e
    case Boots(path) => if LifecycleFree(w) then w.(path := path) else w
    case FlightBegins(i) =>
      if i in w.flying || w.f.retired then w else w.(f := Begun(w.f), flying := w.flying + {i})
    case Publishes(i, path, controller) =>
      if i in w.flying && w.controller.None? then w.(controller := Some(controller), path := path) else w
    case Records(i, path) => if i in w.flying && path != EMPTY then w.(path := path) else w
    case FlightEnds(i) => if i in w.flying then w.(f := Ended(w.f), flying := w.flying - {i}) else w
    case ReleasesController(c) => if w.controller == Some(c) then w.(controller := None) else w
    case ClearsPath(path) => if w.path == path then w.(path := EMPTY) else w
    case StopBegins(s) => if s in w.stops then w else w.(stops := w.stops[s := CheckFirst])
    case StopSteps(s, timeout) => if s in w.stops then StopStep(w, s, timeout) else w
  }

  function Run(w: World, es: seq<Event>): World
    decreases |es|
  {
    if es == [] then w else Run(Next(w, es[0]), es[1..])
  }

  /** What a shutdown has established by its position. */
  ghost predicate StopOK(w: World, s: Shutdown) {
    && (s.Waiting? ==> w.f.retired && s.channel == w.f.idle)
    && (s.CheckAgain? || s.Quiet? ==> w.f.retired && w.f.active == 0)
    && (s.Quiet? ==> !Mounted(w))
  }

  /** The counter is the number of flights, and the idle channel is closed exactly while there is none. */
  ghost predicate FlightsOK(f: Flights, flying: set<nat>) {
    && f.active == |flying|
    && (f.idle in f.closed <==> f.active == 0)
    && (forall c :: c in f.closed ==> c <= f.idle)
  }

  ghost predicate Inv(w: World) {
    FlightsOK(w.f, w.flying) && forall s :: s in w.stops ==> StopOK(w, w.stops[s])
  }

  lemma BeginCounts(f: Flights, flying: set<nat>, i: nat)
    requires FlightsOK(f, flying) && i !in flying && !f.retired
    ensures FlightsOK(Begun(f), flying + {i})
  {
  }

  lemma EndCounts(f: Flights, flying: set<nat>, i: nat)
    requires FlightsOK(f, flying) && i in flying
    ensures FlightsOK(Ended(f), flying - {i})
  {
    assert |flying - {i}| == |flying| - 1;
  }

  lemma FlightsStep(w: World, e: Event)
    requires FlightsOK(w.f, w.flying)
    ensures FlightsOK(Next(w, e).f, Next(w, e).flying)
  {
    if e.FlightBegins? {
      if e.i !in w.flying && !w.f.retired { BeginCounts(w.f, w.flying, e.i); }
    } else if e.FlightEnds? {
      if e.i in w.flying { EndCounts(w.f, w.flying, e.i); }
    } else {
      assert Next(w, e).flying == w.flying && Next(w, e).f in {w.f, Closing(w.f)};
    }
  }

  /** What one shutdown has established survives everything others do. */
  lemma OthersKeepStop(w: World, e: Event, s: Shutdown)
    requires FlightsOK(w.f, w.flying) && StopOK(w, s) && (LifecycleFree(w) ==> s.GaveUp?)
    ensures StopOK(Next(w, e), s)
  {
    if w.f.active == 0 { assert w.flying == {}; }
  }

  lemma StopKeepsStop(w: World, s: nat, timeout: bool)
    requires FlightsOK(w.f, w.flying) && s in w.stops && StopOK(w, w.stops[s])
    ensures var w' := StopStep(w, s, timeout); StopOK(w', w'.stops[s])
  {
  }

  lemma NextKeepsInv(w: World, e: Event)
    requires Inv(w)
    ensures Inv(Next(w, e))
  {
    var w' := Next(w, e);
    FlightsStep(w, e);
    forall s | s in w'.stops ensures StopOK(w', w'.stops[s]) {
      if s in w.stops {
        if e.StopSteps? && e.s == s { StopKeepsStop(w, s, e.timeout); } else { OthersKeepStop(w, e, w.stops[s]); }
      }
    }
  }

  lemma {:induction false} RunKeepsInv(w: World, es: seq<Event>)
    requires Inv(w)
    ensures Inv(Run(w, es))
    decreases |es|
  {
    if es != [] {
      NextKeepsInv(w, es[0]);
      RunKeepsInv(Next(w, es[0]), es[1..]);
    }
  }

  /** In every run the current idle channel is closed exactly when no flight is active. */
  lemma IdleMeansNoFlight(es: seq<Event>)
    ensures var w := Run(Init, es); (w.f.idle in w.f.closed <==> w.flying == {}) && w.f.active == |w.flying|
  {
    RunKeepsInv(Init, es);
  }

  /** Past its wait, a shutdown has seen the last flight: none is active and none begins in any continuation. */
  lemma {:induction false} NoFlightAfterRetirement(w: World, es: seq<Event>)
    requires Inv(w) && w.f.retired && w.f.active == 0
    ensures var w' := Run(w, es); w'.flying == {} && w'.f.retired && w'.f.active == 0
    decreases |es|
  {
    assert w.flying == {};
    if es != [] {
      NextKeepsInv(w, es[0]);
      NoFlightAfterRetirement(Next(w, es[0]), es[1..]);
    }
  }

  /**
   A shutdown that passed its second check: no mount path and no controller is
   published, no flight is active, and none of that changes in any continuation.
   */
  lemma {:induction false} QuietStaysQuiet(w: World, es: seq<Event>, s: nat)
    requires Inv(w) && s in w.stops && w.stops[s].Quiet?
    ensures var w' := Run(w, es); !Mounted(w') && w'.flying == {} && w'.f.retired && s in w'.stops && w'.stops[s].Quiet?
    decreases |es|
  {
    assert StopOK(w, w.stops[s]);
    assert w.flying == {};
    if es != [] {
      NextKeepsInv(w, es[0]);
      QuietStaysQuiet(Next(w, es[0]), es[1..], s);
    }
  }
}
