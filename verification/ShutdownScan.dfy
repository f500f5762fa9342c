/**
 A replacement engine that must finish an interrupted shutdown reads the
 owner's receipt and looks for the Stop that was already under way.
 */
module ShutdownScan {
  import opened Common
  import opened Owner
  import opened OwnerRun
  import opened OwnerInvariant
  import OwnerTheorems

  /** A state the wire may carry; only the first three are known. */
  datatype State = IsPending | IsComplete | IsError | IsUnknown

  /** An operation as the receipt reports it. */
  datatype Entry = Entry(id: Name, kind: Kind, state: State)

  datatype Scan = Ambiguous | NoStop | Original(id: Name)

  function StateOf(outcome: Outcome): State {
    if outcome.Pending? then IsPending else if outcome.ok then IsComplete else IsError
  }

  /** The receipt reports every operation once, in an order of its own. */
  ghost predicate Reports(ops: map<Name, Operation>, r: seq<Entry>) {
    && (forall i, j :: 0 <= i < j < |r| ==> r[i].id != r[j].id)
    && (forall i :: 0 <= i < |r| ==> r[i].id in ops && r[i].kind == ops[r[i].id].kind && r[i].state == StateOf(ops[r[i].id].outcome))
    && (forall id :: id in ops ==> exists i :: 0 <= i < |r| && r[i].id == id)
  }

  method ReceiptOperations(o: Owner) returns (r: seq<Entry>)
    ensures Reports(o.ops, r) && |r| == |o.ops|
  {
    r := [];
    var todo := o.ops.Keys;
    while todo != {}
      invariant todo <= o.ops.Keys && |r| + |todo| == |o.ops|
      invariant forall i :: 0 <= i < |r| ==> r[i].id !in todo
      invariant forall i, j :: 0 <= i < j < |r| ==> r[i].id != r[j].id
      invariant forall i :: 0 <= i < |r| ==> r[i].id in o.ops && r[i].kind == o.ops[r[i].id].kind && r[i].state == StateOf(o.ops[r[i].id].outcome)
      invariant forall id :: id in o.ops && id !in todo ==> exists i :: 0 <= i < |r| && r[i].id == id
      decreases |todo|
    {
      ghost var before := r;
      var id :| id in todo;
      todo := todo - {id};
      r := r + [Entry(id, o.ops[id].kind, StateOf(o.ops[id].outcome))];
      forall x | x in o.ops && x !in todo ensures exists i :: 0 <= i < |r| && r[i].id == x {
        if x == id {
          assert r[|r| - 1].id == x;
        } else {
          var i :| 0 <= i < |before| && before[i].id == x;
          assert r[i].id == x;
        }
      }
    }
  }

  predicate Malformed(e: Entry) {
    e.kind.Stop? && (!ValidID(e.id) || e.state.IsUnknown?)
  }

  /** A Stop that is not a recorded failure. */
  predicate Candidate(e: Entry) {
    e.kind.Stop? && !e.state.IsError?
  }

  /** What the scan has to answer, whatever the receipt holds. */
  ghost predicate Answers(r: seq<Entry>, scan: Scan) {
    && (scan.Ambiguous? <==>
         || (exists i :: 0 <= i < |r| && Malformed(r[i]))
         || (exists i, j :: 0 <= i < |r| && 0 <= j < |r| && Candidate(r[i]) && Candidate(r[j]) && r[i].id != r[j].id))
    && (scan.NoStop? ==> forall i :: 0 <= i < |r| ==> !Candidate(r[i]))
    && (scan.Original? ==> ValidID(scan.id) && exists i :: 0 <= i < |r| && Candidate(r[i]) && r[i].id == scan.id)
  }

  /** `stopID` is EMPTY until a live Stop is met. */
  method FindOriginalStop(r: seq<Entry>) returns (scan: Scan)
    ensures Answers(r, scan)
  {
    var stopID := EMPTY;
    var k := 0;
    ghost var at := 0;
    while k < |r|
      invariant 0 <= k <= |r|
      invariant forall i :: 0 <= i < k ==> !Malformed(r[i])
      invariant forall i :: 0 <= i < k && Candidate(r[i]) ==> r[i].id == stopID
      invariant stopID != EMPTY ==> ValidID(stopID) && 0 <= at < k && Candidate(r[at]) && r[at].id == stopID
    {
      var op := r[k];
      if op.kind.Stop? {
        if !ValidID(op.id) || op.state.IsUnknown? {
          assert Malformed(r[k]);
          return Ambiguous;
        }
        if !op.state.IsError? {
          if stopID != EMPTY && stopID != op.id {
            assert Candidate(r[at]) && Candidate(r[k]) && r[at].id != r[k].id;
            return Ambiguous;
          }
          stopID, at := op.id, k;
        }
      }
      k := k + 1;
    }
    if stopID == EMPTY {
      return NoStop;
    }
    return Original(stopID);
  }

  /** The engine adopts the found ID unless it already remembers another. */
  method Resume(remembered: Name, scan: Scan) returns (ok: bool, stopID: Name)
    requires scan.Original? ==> scan.id != EMPTY
    ensures ok <==> !scan.Ambiguous? && !(scan.Original? && remembered != EMPTY && remembered != scan.id)
    ensures stopID == if ok && scan.Original? then scan.id else remembered
  {
    if scan.Ambiguous? {
      return false, remembered;
    }
    if scan.Original? {
      if remembered != EMPTY && remembered != scan.id {
        return false, remembered;
      }
      return true, scan.id;
    }
    return true, remembered;
  }

  // --- what the scan means for a real owner -------------------------------------------------

  ghost predicate ValidIDs(o: Owner) {
    forall id :: id in o.ops ==> ValidID(id)
  }

  lemma NextKeepsIDs(s: Sys, e: Event)
    requires ValidIDs(s.o)
    ensures ValidIDs(Next(s, e).o)
  {
    if e.Advance? && e.id in s.work && e.id in s.o.ops && WellTyped(s.o.ops[e.id], s.work[e.id]) && !s.work[e.id].Finished? {
      OwnerTheorems.MoveTouchesNot(s.o, s.h, s.o.ops[e.id], s.work[e.id], e.input);
    }
  }

  lemma {:induction false} RunKeepsIDs(s: Sys, es: seq<Event>)
    requires ValidIDs(s.o)
    ensures ValidIDs(Run(s, es).o)
    decreases |es|
  {
    if es != [] {
      NextKeepsIDs(s, es[0]);
      RunKeepsIDs(Next(s, es[0]), es[1..]);
    }
  }

  lemma ReachableTable(intent: Intent, es: seq<Event>)
    ensures TableInv(Run(Init(intent), es).o) && ValidIDs(Run(Init(intent), es).o)
  {
    InitInv(intent);
    RunKeepsInv(Init(intent), es);
    RunKeepsIDs(Init(intent), es);
  }

  ghost predicate HasLiveStop(o: Owner) {
    exists id :: id in o.ops && LiveStop(o.ops[id])
  }

  /**
   Over the receipt of any reachable owner the scan is never ambiguous, finds
   a Stop exactly when the table holds one that is not a recorded failure, and
   that one is then the only such Stop.
   */
  lemma RealReceiptIsUnambiguous(intent: Intent, es: seq<Event>, r: seq<Entry>, scan: Scan)
    requires Reports(Run(Init(intent), es).o.ops, r) && Answers(r, scan)
    ensures var o := Run(Init(intent), es).o;
      && !scan.Ambiguous?
      && (scan.Original? <==> HasLiveStop(o))
      && (scan.Original? ==> forall id :: id in o.ops ==> (LiveStop(o.ops[id]) <==> id == scan.id))
  {
    ReachableTable(intent, es);
    ScanOfTable(Run(Init(intent), es).o, r, scan);
  }

  lemma ScanOfTable(o: Owner, r: seq<Entry>, scan: Scan)
    requires TableInv(o) && ValidIDs(o) && Reports(o.ops, r) && Answers(r, scan)
    ensures !scan.Ambiguous?
    ensures scan.Original? <==> HasLiveStop(o)
    ensures scan.Original? ==> forall id :: id in o.ops ==> (LiveStop(o.ops[id]) <==> id == scan.id)
  {
    forall i | 0 <= i < |r| ensures !Malformed(r[i]) && (Candidate(r[i]) <==> LiveStop(o.ops[r[i].id])) {
    }
    forall id | id in o.ops && LiveStop(o.ops[id]) ensures scan.Original? {
      var i :| 0 <= i < |r| && r[i].id == id;
      assert Candidate(r[i]);
    }
  }

  lemma LiveStopBlocks(o: Owner, id: Name, other: Name, payload: Payload)
    requires id in o.ops && LiveStop(o.ops[id]) && ValidID(id)
    ensures Begin(o, Stop, id, o.ops[id].payload) == Begun(o, Answer(o.ops[id].outcome), false)
    ensures !Begin(o, Stop, other, payload).started
  {
    assert StopIs(o, true) || StopIs(o, false);
  }

  lemma OperationStays(s: Sys, es: seq<Event>, id: Name)
    requires Inv(s) && id in s.o.ops
    ensures id in Run(s, es).o.ops && OwnerTheorems.SameOperation(s.o.ops[id], Run(s, es).o.ops[id])
  {
    OwnerTheorems.RunForward(s, es);
  }

  /**
   The resumed ID is the only one that can make progress: sending it again
   reaches the operation already in the table, and as long as that Stop has
   not failed every other Stop ID is refused, however far the owner has run on.
   */
  lemma OnlyTheOriginalResumes(s: Sys, es: seq<Event>, id: Name, other: Name, payload: Payload)
    requires Inv(s) && id in s.o.ops && LiveStop(s.o.ops[id]) && ValidID(id)
    ensures var o := Run(s, es).o;
      && id in o.ops && Begin(o, Stop, id, s.o.ops[id].payload) == Begun(o, Answer(o.ops[id].outcome), false)
      && (Live(o.ops[id]) ==> !Begin(o, Stop, other, payload).started)
  {
    OperationStays(s, es, id);
    var o := Run(s, es).o;
    if Live(o.ops[id]) { LiveStopBlocks(o, id, other, payload); }
  }
}
