/** When a refused object key triggers an enrollment poll. Times are in seconds. */
module RefusalGate {
  import opened Common

  const POLL_MIN: int := 60
  const POLL_MAX: int := 900
  const EXPIRY: int := 300

  /** The object-key status: which key is in use, how often it was refused, and when last. */
  datatype Status = Status(inUse: Name, refusals: nat, refusedAt: Option<int>)

  datatype Gate = Gate(inUse: Name, seen: nat, last: Option<int>, wait: int)

  const Clear := Gate(EMPTY, 0, None, 0)

  function Max(a: int, b: int): int { if a > b then a else b }

  function Min(a: int, b: int): int { if a < b then a else b }

  predicate Active(st: Status, now: int) {
    st.refusals != 0 && st.refusedAt.Some? && now - st.refusedAt.value < EXPIRY
  }

  function Renewed(g: Gate, st: Status): Gate {
    if st.inUse != g.inUse || st.refusals < g.seen then Gate(st.inUse, 0, g.last, 0) else g
  }

  /** The gate after a call, and whether the call polls. */
  function Asked(g0: Gate, st: Status, now: int): (Gate, bool) {
    var g := Renewed(g0, st);
    if !Active(st, now) then (g.(wait := 0, last := None), false)
    else if st.refusals <= g.seen then (g, false)
    else
      var wait := Max(g.wait, POLL_MIN);
      if g.last.Some? && now - g.last.value < wait then (g, false)
      else (Gate(g.inUse, st.refusals, Some(now), if g.last.Some? then Min(wait * 2, POLL_MAX) else g.wait), true)
  }

  function Noted(g0: Gate, st: Status): Gate {
    var g := Renewed(g0, st);
    g.(seen := if st.refusals > g.seen then st.refusals else g.seen)
  }

  class RefusalPollGate {
    var inUse: Name
    var seen: nat
    var last: Option<int>
    var wait: int

    ghost function Abs(): Gate
      reads this
    {
      Gate(inUse, seen, last, wait)
    }

    constructor ()
      ensures Abs() == Clear
    {
      inUse, seen, last, wait := EMPTY, 0, None, 0;
    }

    method ResetIfNewChild(st: Status)
      modifies this
      ensures Abs() == Renewed(old(Abs()), st)
    {
      if st.inUse != inUse || st.refusals < seen {
        inUse, seen, wait := st.inUse, 0, 0;
      }
    }

    method PollNow(st: Status, now: int) returns (poll: bool)
      modifies this
      ensures (Abs(), poll) == Asked(old(Abs()), st, now)
    {
      ResetIfNewChild(st);
      if !Active(st, now) {
        wait, last := 0, None;
        return false;
      }
      if st.refusals <= seen {
        return false;
      }
      var w := Max(wait, POLL_MIN);
      if last.Some? && now - last.value < w {
        return false;
      }
      if last.Some? {
        wait := w * 2;
        if wait > POLL_MAX {
          wait := POLL_MAX;
        }
      }
      seen, last := st.refusals, Some(now);
      return true;
    }

    method NotePolled(st: Status)
      modifies this
      ensures Abs() == Noted(old(Abs()), st)
    {
      ResetIfNewChild(st);
      if st.refusals > seen {
        seen := st.refusals;
      }
    }
  }

  // --- runs of refusals -----------------------------------------------------------------

  datatype Call = Ask(st: Status, now: int) | Note(st: Status)

  /** A poll that was made: for which count of refusals, and when. */
  datatype Poll = Poll(count: nat, at: int)

  function After(g: Gate, c: Call): Gate {
    if c.Ask? then Asked(g, c.st, c.now).0 else Noted(g, c.st)
  }

  function PollOf(g: Gate, c: Call): seq<Poll> {
    if c.Ask? && Asked(g, c.st, c.now).1 then [Poll(c.st.refusals, c.now)] else []
  }

  /** The polls a sequence of calls makes. */
  function Polls(g: Gate, calls: seq<Call>): seq<Poll>
    decreases |calls|
  {
    if calls == [] then [] else PollOf(g, calls[0]) + Polls(After(g, calls[0]), calls[1..])
  }

  /** No call sees a lapsed refusal. */
  predicate NoLapse(calls: seq<Call>) {
    forall i :: 0 <= i < |calls| && calls[i].Ask? ==> Active(calls[i].st, calls[i].now)
  }

  /** A status that starts the gate over: another key, or a count below what the gate has seen. */
  predicate Restarts(g: Gate, st: Status) {
    st.inUse != g.inUse || st.refusals < g.seen
  }

  /** One child: no call starts the gate over. */
  predicate OneChild(g: Gate, calls: seq<Call>)
    decreases |calls|
  {
    calls == [] || (!Restarts(g, calls[0].st) && OneChild(After(g, calls[0]), calls[1..]))
  }

  /** The wait that the `k`-th gap of a run has to last: a minute, doubling up to a quarter of an hour. */
  function Gap(k: nat): int {
    if k == 0 then POLL_MIN else Min(2 * Gap(k - 1), POLL_MAX)
  }

  function Pow2(k: nat): int {
    if k == 0 then 1 else 2 * Pow2(k - 1)
  }

  lemma {:induction false} GapIsCappedDoubling(k: nat)
    ensures Gap(k) == Min(60 * Pow2(k), 900) && Pow2(k) >= 1
  {
    if k > 0 { GapIsCappedDoubling(k - 1); }
  }

  /** Where a gate stands after `k` polls of a run. */
  predicate Standing(g: Gate, k: nat) {
    && (k == 0 ==> g.last.None? && g.wait == 0)
    && (k == 1 ==> g.last.Some? && g.wait == 0)
    && (k >= 2 ==> g.last.Some? && g.wait == Gap(k - 1))
  }

  lemma StandingStep(g: Gate, c: Call, k: nat)
    requires Standing(g, k) && !Restarts(g, c.st) && (c.Ask? ==> Active(c.st, c.now))
    ensures var p := PollOf(g, c);
      && (p == [] ==> Standing(After(g, c), k) && After(g, c).last == g.last)
      && (p != [] ==> Standing(After(g, c), k + 1) && After(g, c).last == Some(p[0].at))
      && (p != [] && k > 0 ==> p[0].at - g.last.value >= Gap(k - 1))
  {
    GapIsCappedDoubling(if k > 0 then k - 1 else 0);
    if k >= 2 { GapIsCappedDoubling(k - 2); }
  }

  /** The polls that follow `k` earlier ones come after the gaps that are due. */
  ghost predicate Spaced(last: Option<int>, k: nat, ps: seq<Poll>)
    decreases |ps|
  {
    ps == [] ||
    ((k > 0 ==> last.Some? && ps[0].at - last.value >= Gap(k - 1)) && Spaced(Some(ps[0].at), k + 1, ps[1..]))
  }

  lemma {:induction false} SpacedAt(last: Option<int>, k: nat, ps: seq<Poll>, i: nat)
    requires Spaced(last, k, ps) && 0 < i < |ps|
    ensures ps[i].at - ps[i - 1].at >= Gap(k + i - 1)
    decreases i
  {
    if i > 1 { SpacedAt(Some(ps[0].at), k + 1, ps[1..], i - 1); }
  }

  lemma {:induction false} RunIsSpaced(g: Gate, calls: seq<Call>, k: nat)
    requires Standing(g, k) && OneChild(g, calls) && NoLapse(calls)
    ensures Spaced(g.last, k, Polls(g, calls))
    decreases |calls|
  {
    if calls != [] {
      var p, g', rest := PollOf(g, calls[0]), After(g, calls[0]), Polls(After(g, calls[0]), calls[1..]);
      StandingStep(g, calls[0], k);
      RunIsSpaced(g', calls[1..], k + |p|);
      if p == [] {
        assert p + rest == rest;
      } else {
        assert (p + rest)[0] == p[0] && (p + rest)[1..] == rest;
      }
    }
  }

  /** Ever larger counts, all above `seen`. */
  ghost predicate Growing(seen: nat, ps: seq<Poll>)
    decreases |ps|
  {
    ps == [] || (ps[0].count > seen && Growing(ps[0].count, ps[1..]))
  }

  lemma {:induction false} GrowingAt(seen: nat, ps: seq<Poll>, i: nat, j: nat)
    requires Growing(seen, ps) && i < j < |ps|
    ensures seen < ps[i].count < ps[j].count
    decreases j
  {
    if i > 0 {
      GrowingAt(ps[0].count, ps[1..], i - 1, j - 1);
    } else if j > 1 {
      GrowingAt(ps[0].count, ps[1..], 0, j - 1);
    }
  }

  lemma CountStep(g: Gate, c: Call)
    requires !Restarts(g, c.st)
    ensures PollOf(g, c) == [] ==> After(g, c).seen >= g.seen
    ensures PollOf(g, c) != [] ==> After(g, c).seen == PollOf(g, c)[0].count > g.seen
  {
  }

  lemma {:induction false} ChildIsGrowing(g: Gate, calls: seq<Call>)
    requires OneChild(g, calls)
    ensures Growing(g.seen, Polls(g, calls))
    decreases |calls|
  {
    if calls != [] {
      var p, rest := PollOf(g, calls[0]), Polls(After(g, calls[0]), calls[1..]);
      CountStep(g, calls[0]);
      ChildIsGrowing(After(g, calls[0]), calls[1..]);
      if p == [] {
        assert p + rest == rest;
      } else {
        assert (p + rest)[0] == p[0] && (p + rest)[1..] == rest;
      }
    }
  }

  /** A cleared gate takes the key of the first call. */
  lemma ClearTakesKey(calls: seq<Call>)
    requires calls != []
    ensures Polls(Clear, calls) == Polls(Clear.(inUse := calls[0].st.inUse), calls)
  {
  }

  /** Within one run of refusals the k-th gap between polls lasts at least min(60 * 2^(k-1), 900) seconds. */
  lemma {:induction false} BackoffHolds(calls: seq<Call>, k: nat)
    requires calls != [] && OneChild(Clear.(inUse := calls[0].st.inUse), calls) && NoLapse(calls)
    requires 0 < k < |Polls(Clear, calls)|
    ensures Polls(Clear, calls)[k].at - Polls(Clear, calls)[k - 1].at >= Min(60 * Pow2(k - 1), 900)
  {
    var g := Clear.(inUse := calls[0].st.inUse);
    ClearTakesKey(calls);
    RunIsSpaced(g, calls, 0);
    SpacedAt(g.last, 0, Polls(g, calls), k);
    GapIsCappedDoubling(k - 1);
  }

  /** As long as no call starts the gate over, with lapses or without, no count of refusals is polled twice. */
  lemma {:induction false} NoCountTwice(calls: seq<Call>, i: nat, k: nat)
    requires calls != [] && OneChild(Clear.(inUse := calls[0].st.inUse), calls) && i < k < |Polls(Clear, calls)|
    ensures Polls(Clear, calls)[i].count < Polls(Clear, calls)[k].count
  {
    var g := Clear.(inUse := calls[0].st.inUse);
    ClearTakesKey(calls);
    ChildIsGrowing(g, calls);
    GrowingAt(g.seen, Polls(g, calls), i, k);
  }

  // --- the exact conditions -------------------------------------------------------------------

  function AfterAll(g: Gate, calls: seq<Call>): Gate
    decreases |calls|
  {
    if calls == [] then g else AfterAll(After(g, calls[0]), calls[1..])
  }

  /** Some call saw a refusal that had lapsed. */
  predicate Lapsed(calls: seq<Call>) {
    exists i :: 0 <= i < |calls| && calls[i].Ask? && !Active(calls[i].st, calls[i].now)
  }

  lemma QuietStep(g: Gate, c: Call)
    requires PollOf(g, c) == []
    ensures After(g, c).last == if c.Ask? && !Active(c.st, c.now) then None else g.last
    ensures After(g, c).wait == if (c.Ask? && !Active(c.st, c.now)) || Restarts(g, c.st) then 0 else g.wait
  {
  }

  /** Calls without a poll: a lapse clears the time of the last poll, and a lapse or a restart clears the wait. */
  lemma {:induction false} QuietCalls(g: Gate, calls: seq<Call>)
    requires Polls(g, calls) == []
    ensures AfterAll(g, calls).last == if Lapsed(calls) then None else g.last
    ensures AfterAll(g, calls).wait == if Lapsed(calls) || !OneChild(g, calls) then 0 else g.wait
    decreases |calls|
  {
    if calls != [] {
      QuietStep(g, calls[0]);
      QuietCalls(After(g, calls[0]), calls[1..]);
      LapsedCons(calls);
    }
  }

  lemma LapsedCons(calls: seq<Call>)
    requires calls != []
    ensures Lapsed(calls) <==> (calls[0].Ask? && !Active(calls[0].st, calls[0].now)) || Lapsed(calls[1..])
  {
    if Lapsed(calls[1..]) {
      var i :| 0 <= i < |calls[1..]| && calls[1..][i].Ask? && !Active(calls[1..][i].st, calls[1..][i].now);
      assert calls[i + 1] == calls[1..][i];
    }
    if Lapsed(calls) && !(calls[0].Ask? && !Active(calls[0].st, calls[0].now)) {
      var i :| 0 <= i < |calls| && calls[i].Ask? && !Active(calls[i].st, calls[i].now);
      assert calls[i] == calls[1..][i - 1];
    }
  }

  /**
   A new active refusal that comes before the wait is over is polled exactly
   when a lapse came in between, or when the gate was started over and a minute
   has passed.
   */
  lemma EarlyPollIff(g: Gate, calls: seq<Call>, st: Status, now: int)
    requires g.last.Some? && Polls(g, calls) == [] && Active(st, now) && st.refusals > Renewed(AfterAll(g, calls), st).seen
    requires now - g.last.value < Max(g.wait, POLL_MIN)
    ensures Asked(AfterAll(g, calls), st, now).1 <==>
            Lapsed(calls) ||
            ((!OneChild(g, calls) || Restarts(AfterAll(g, calls), st)) && now - g.last.value >= POLL_MIN)
  {
    QuietCalls(g, calls);
  }

  /** Within a minute of the last poll that means: exactly when a lapse came in between. */
  lemma PollWithinMinuteIffLapse(g: Gate, calls: seq<Call>, st: Status, now: int)
    requires g.last.Some? && Polls(g, calls) == [] && Active(st, now) && st.refusals > Renewed(AfterAll(g, calls), st).seen
    requires now - g.last.value < POLL_MIN
    ensures Asked(AfterAll(g, calls), st, now).1 <==> Lapsed(calls)
  {
    QuietCalls(g, calls);
  }

  /** The call leaves behind that count `n` or more needs no poll: a poll of it, or an enrollment step that carried it. */
  predicate Carries(g: Gate, c: Call, n: nat) {
    (c.Note? || PollOf(g, c) != []) && c.st.refusals >= n
  }

  /** No call carries `n` or more. */
  predicate Silent(g: Gate, calls: seq<Call>, n: nat)
    decreases |calls|
  {
    calls == [] || (!Carries(g, calls[0], n) && Silent(After(g, calls[0]), calls[1..], n))
  }

  /** Some call starts the gate over, and from that call on none carries `n` or more. */
  predicate Forgets(g: Gate, calls: seq<Call>, n: nat)
    decreases |calls|
  {
    calls != [] && ((Restarts(g, calls[0].st) && Silent(g, calls, n)) || Forgets(After(g, calls[0]), calls[1..], n))
  }

  lemma SeenStep(g: Gate, c: Call, n: nat)
    requires n > 0
    ensures After(g, c).seen < n <==> (Restarts(g, c.st) || g.seen < n) && !Carries(g, c, n)
  {
  }

  /** What the gate remembers after any calls: whether it has ever seen `n` or more since it was last started over. */
  lemma {:induction false} SeenAfter(g: Gate, calls: seq<Call>, n: nat)
    requires n > 0
    ensures AfterAll(g, calls).seen < n <==> Forgets(g, calls, n) || (g.seen < n && Silent(g, calls, n))
    decreases |calls|
  {
    if calls != [] {
      SeenStep(g, calls[0], n);
      SeenAfter(After(g, calls[0]), calls[1..], n);
    }
  }

  /** The wait after the last poll is over, as this status leaves it. */
  predicate Due(g: Gate, st: Status, now: int) {
    g.last.Some? ==> now - g.last.value >= Max(Renewed(g, st).wait, POLL_MIN)
  }

  /**
   A count the gate has seen is polled again after any calls exactly when it is
   active, the wait is over, and the gate starts over now or was started over
   before and has seen nothing of that size since.
   */
  lemma RepeatIffForgotten(g: Gate, calls: seq<Call>, st: Status, now: int)
    requires 0 < st.refusals <= g.seen
    ensures var h := AfterAll(g, calls);
      Asked(h, st, now).1 <==> Active(st, now) && Due(h, st, now) && (Restarts(h, st) || Forgets(g, calls, st.refusals))
  {
    SeenAfter(g, calls, st.refusals);
  }

  /** The gate that the `a`-th call of a run meets. */
  function GateAt(calls: seq<Call>, a: nat): Gate
    requires a <= |calls|
  {
    AfterAll(Clear, calls[..a])
  }

  predicate PollsAt(calls: seq<Call>, a: nat)
    requires a < |calls|
  {
    PollOf(GateAt(calls, a), calls[a]) != []
  }

  lemma {:induction false} AfterAppend(g: Gate, a: seq<Call>, b: seq<Call>)
    ensures AfterAll(g, a + b) == AfterAll(AfterAll(g, a), b)
    ensures Polls(g, a + b) == Polls(g, a) + Polls(AfterAll(g, a), b)
    decreases |a|
  {
    if a == [] {
      assert a + b == b;
    } else {
      assert (a + b)[0] == a[0] && (a + b)[1..] == a[1..] + b;
      AfterAppend(After(g, a[0]), a[1..], b);
    }
  }

  lemma GateStep(calls: seq<Call>, a: nat)
    requires a < |calls|
    ensures GateAt(calls, a + 1) == After(GateAt(calls, a), calls[a])
    ensures Polls(Clear, calls[..a + 1]) == Polls(Clear, calls[..a]) + PollOf(GateAt(calls, a), calls[a])
  {
    var c := calls[a];
    assert calls[..a + 1] == calls[..a] + [c] && [c][1..] == [];
    AfterAppend(Clear, calls[..a], [c]);
    assert Polls(GateAt(calls, a), [c]) == PollOf(GateAt(calls, a), c) + [];
  }

  lemma GateBetween(calls: seq<Call>, a: nat, b: nat)
    requires a <= b <= |calls|
    ensures GateAt(calls, b) == AfterAll(GateAt(calls, a), calls[a..b])
  {
    assert calls[..b] == calls[..a] + calls[a..b];
    AfterAppend(Clear, calls[..a], calls[a..b]);
  }

  /** Calls `a` and `b` ask about the same count, and between them the gate forgets it, or it starts over at `b`. */
  predicate Forgotten(calls: seq<Call>, a: nat, b: nat)
    requires a < b < |calls|
  {
    Restarts(GateAt(calls, b), calls[b].st) || Forgets(GateAt(calls, a + 1), calls[a + 1..b], calls[b].st.refusals)
  }

  /** The whole condition under which call `b` polls once more what call `a` polled. */
  predicate Repeats(calls: seq<Call>, a: nat, b: nat)
    requires a < b < |calls|
  {
    && PollsAt(calls, a) && calls[b].Ask? && calls[b].st.refusals == calls[a].st.refusals
    && Active(calls[b].st, calls[b].now) && Due(GateAt(calls, b), calls[b].st, calls[b].now) && Forgotten(calls, a, b)
  }

  lemma RepeatAt(calls: seq<Call>, a: nat, b: nat)
    requires a < b < |calls| && PollsAt(calls, a) && calls[b].st.refusals == calls[a].st.refusals
    ensures PollsAt(calls, b) <==> Repeats(calls, a, b)
  {
    GateStep(calls, a);
    GateBetween(calls, a + 1, b);
    if calls[b].Ask? { RepeatIffForgotten(GateAt(calls, a + 1), calls[a + 1..b], calls[b].st, calls[b].now); }
  }

  /** The call behind the `k`-th poll of a run. */
  lemma {:induction false} PollHasCall(calls: seq<Call>, n: nat, k: nat) returns (a: nat)
    requires n <= |calls| && k < |Polls(Clear, calls[..n])|
    ensures a < n && PollsAt(calls, a) && |Polls(Clear, calls[..a])| == k
    ensures calls[a].st.refusals == Polls(Clear, calls[..n])[k].count
    decreases n
  {
    GateStep(calls, n - 1);
    if k < |Polls(Clear, calls[..n - 1])| { a := PollHasCall(calls, n - 1, k); } else { a := n - 1; }
  }

  lemma {:induction false} PollsGrow(calls: seq<Call>, a: nat, n: nat)
    requires a <= n <= |calls|
    ensures Polls(Clear, calls[..a]) <= Polls(Clear, calls[..n])
    decreases n - a
  {
    if a < n {
      GateStep(calls, n - 1);
      PollsGrow(calls, a, n - 1);
    }
  }

  lemma CallHasPoll(calls: seq<Call>, a: nat)
    requires a < |calls| && PollsAt(calls, a)
    ensures var k := |Polls(Clear, calls[..a])|;
      k < |Polls(Clear, calls[..a + 1])| && k < |Polls(Clear, calls)| && Polls(Clear, calls)[k].count == calls[a].st.refusals
  {
    GateStep(calls, a);
    PollsGrow(calls, a + 1, |calls|);
    assert calls[..|calls|] == calls;
  }

  /** Some count is polled twice. */
  predicate PolledTwice(ps: seq<Poll>) {
    exists i, k :: 0 <= i < k < |ps| && ps[i].count == ps[k].count
  }

  ghost predicate Repeated(calls: seq<Call>) {
    exists a, b :: 0 <= a < b < |calls| && Repeats(calls, a, b)
  }

  lemma TwiceIsRepeated(calls: seq<Call>, i: nat, k: nat)
    requires i < k < |Polls(Clear, calls)| && Polls(Clear, calls)[i].count == Polls(Clear, calls)[k].count
    ensures Repeated(calls)
  {
    assert calls[..|calls|] == calls;
    var a := PollHasCall(calls, |calls|, i);
    var b := PollHasCall(calls, |calls|, k);
    if b <= a { PollsGrow(calls, b, a); }
    RepeatAt(calls, a, b);
  }

  lemma RepeatedIsTwice(calls: seq<Call>, a: nat, b: nat)
    requires a < b < |calls| && Repeats(calls, a, b)
    ensures PolledTwice(Polls(Clear, calls))
  {
    RepeatAt(calls, a, b);
    CallHasPoll(calls, a);
    CallHasPoll(calls, b);
    PollsGrow(calls, a + 1, b);
  }

  /**
   In any run some count of refusals is polled twice exactly when, between a
   poll and a later active call with the same count whose wait is over, the gate
   forgot that count.
   */
  lemma CountTwiceIff(calls: seq<Call>)
    ensures PolledTwice(Polls(Clear, calls)) <==> exists a, b :: 0 <= a < b < |calls| && Repeats(calls, a, b)
  {
    if PolledTwice(Polls(Clear, calls)) {
      var i, k :| 0 <= i < k < |Polls(Clear, calls)| && Polls(Clear, calls)[i].count == Polls(Clear, calls)[k].count;
      TwiceIsRepeated(calls, i, k);
    }
    if Repeated(calls) {
      var a, b :| 0 <= a < b < |calls| && Repeats(calls, a, b);
      RepeatedIsTwice(calls, a, b);
    }
  }

  predicate MinuteApart(ps: seq<Poll>) {
    forall k :: 0 < k < |ps| ==> ps[k].at - ps[k - 1].at >= POLL_MIN
  }

  lemma ApartCons(p: Poll, ps: seq<Poll>)
    requires MinuteApart(ps) && (ps != [] ==> ps[0].at - p.at >= POLL_MIN)
    ensures MinuteApart([p] + ps)
  {
    forall k | 0 < k < |[p] + ps| ensures ([p] + ps)[k].at - ([p] + ps)[k - 1].at >= POLL_MIN {
      if k > 1 { assert ps[k - 1].at - ps[k - 2].at >= POLL_MIN; }
    }
  }

  /** A poll is at least a minute after the last one, and becomes the last one; without a lapse the last one is kept. */
  lemma FloorStep(g: Gate, c: Call)
    requires c.Ask? ==> Active(c.st, c.now)
    ensures var p := PollOf(g, c);
      && |p| <= 1 && After(g, c).last == (if p == [] then g.last else Some(p[0].at))
      && (p != [] && g.last.Some? ==> p[0].at - g.last.value >= POLL_MIN)
  {
  }

  /** Without a lapse, polls stay a minute apart even across keys and restarted counts. */
  lemma {:induction false} FloorHolds(g: Gate, calls: seq<Call>)
    requires NoLapse(calls)
    ensures var ps := Polls(g, calls);
      MinuteApart(ps) && (ps != [] && g.last.Some? ==> ps[0].at - g.last.value >= POLL_MIN)
    decreases |calls|
  {
    if calls != [] {
      FloorStep(g, calls[0]);
      FloorHolds(After(g, calls[0]), calls[1..]);
      var p, rest := PollOf(g, calls[0]), Polls(After(g, calls[0]), calls[1..]);
      if p == [] {
        assert p + rest == rest;
      } else {
        assert p + rest == [p[0]] + rest;
        ApartCons(p[0], rest);
      }
    }
  }

  lemma PollsOf2(g: Gate, a: Call, b: Call)
    ensures Polls(g, [a, b]) == PollOf(g, a) + PollOf(After(g, a), b)
  {
    assert [a, b][1..] == [b] && [b][1..] == [];
    assert Polls(After(g, a), [b]) == PollOf(After(g, a), b) + [];
  }

  lemma PollsOf3(g: Gate, a: Call, b: Call, c: Call)
    ensures Polls(g, [a, b, c]) == PollOf(g, a) + (PollOf(After(g, a), b) + PollOf(After(After(g, a), b), c))
  {
    assert [a, b, c][1..] == [b, c];
    PollsOf2(After(g, a), b, c);
  }

  /** Why a run excludes a lapse: a lapse clears the time of the last poll, and the next poll may follow at once. */
  lemma LapseShortensTheGap()
    ensures Polls(Clear, [Ask(Status(7, 1, Some(-299)), 0), Ask(Status(7, 1, Some(-299)), 1), Ask(Status(7, 2, Some(2)), 2)]) ==
            [Poll(1, 0), Poll(2, 2)]
  {
    PollsOf3(Clear, Ask(Status(7, 1, Some(-299)), 0), Ask(Status(7, 1, Some(-299)), 1), Ask(Status(7, 2, Some(2)), 2));
  }

  /**
   Why the last call alone does not tell: a falling count makes the gate forget
   without a poll, and a later call that starts nothing over is polled for a
   count already polled.
   */
  lemma ForgottenCountRepeats()
    ensures Polls(Clear, [Ask(Status(7, 3, Some(0)), 0), Ask(Status(7, 1, Some(30)), 30), Ask(Status(7, 3, Some(60)), 60)]) ==
            [Poll(3, 0), Poll(3, 60)]
  {
    PollsOf3(Clear, Ask(Status(7, 3, Some(0)), 0), Ask(Status(7, 1, Some(30)), 30), Ask(Status(7, 3, Some(60)), 60));
  }

  /**
   Why a run excludes a falling count: a restarted child with the same key is
   polled for a count already polled, a minute after the last poll instead of
   four.
   */
  lemma FallingCountRepeats()
    ensures Polls(Clear, [Ask(Status(7, 1, Some(0)), 0), Ask(Status(7, 2, Some(60)), 60),
                          Ask(Status(7, 3, Some(180)), 180), Ask(Status(7, 1, Some(240)), 240)]) ==
            [Poll(1, 0), Poll(2, 60), Poll(3, 180), Poll(1, 240)]
  {
    var a, b := Ask(Status(7, 1, Some(0)), 0), Ask(Status(7, 2, Some(60)), 60);
    var c, d := Ask(Status(7, 3, Some(180)), 180), Ask(Status(7, 1, Some(240)), 240);
    assert [a, b, c, d][1..] == [b, c, d];
    PollsOf3(After(Clear, a), b, c, d);
    assert After(Clear, a) == Gate(7, 1, Some(0), 0);
    assert After(Gate(7, 1, Some(0), 0), b) == Gate(7, 2, Some(60), 120);
    assert After(Gate(7, 2, Some(60), 120), c) == Gate(7, 3, Some(180), 240);
  }
}
