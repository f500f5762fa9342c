/**
 The client side of an owner operation: find the original ID first, submit at
 most once, and after an ambiguous reply only ever ask about that same ID.
 */
module OwnerClient {
  import opened Common
  import opened Owner
  import opened OwnerRun
  import opened OwnerInvariant
  import opened OwnerTheorems

  /** One socket exchange: what others did before it, and whether the request and its reply got through. */
  datatype Exchange = Exchange(before: seq<Event>, delivered: bool, replied: bool)

  datatype Verdict =
    | Completed          // the original operation reported success
    | Failed             // the original operation reported a definitive failure
    | Rejected           // the one submission was turned away
    | NotAdmitted        // submitted without an answer, and the owner does not know the ID
    | Unknown            // transport or identity failure: retain the owner
    | StillPending       // the caller's deadline passed first

  lemma {:induction false} RunAppend(s: Sys, a: seq<Event>, b: seq<Event>)
    ensures Run(s, a + b) == Run(Run(s, a), b)
    decreases |a|
  {
    if a == [] {
      assert a + b == b;
    } else {
      assert (a + b)[0] == a[0] && (a + b)[1..] == a[1..] + b;
      RunAppend(Next(s, a[0]), a[1..], b);
    }
  }

  /** What a query of the original ID says to the client. */
  function Reading(s: Sys, x: Exchange, instance: Name, id: Name): Option<Reply> {
    if x.delivered && x.replied then Some(Query(s.o, instance, id, s.o.intent.digest)) else None
  }

  /** What others did around a script of exchanges; a query itself changes nothing. */
  function Traffic(script: seq<Exchange>): seq<Event> {
    if script == [] then [] else Traffic(script[..|script| - 1]) + script[|script| - 1].before
  }

  /** The answer to the `k`-th query of a script. */
  function ReadingAt(start: Sys, script: seq<Exchange>, k: nat, instance: Name, id: Name): Option<Reply>
    requires k < |script|
  {
    Reading(Run(start, Traffic(script[..k + 1])), script[k], instance, id)
  }

  /** What an answer other than "pending" makes the client report. */
  function VerdictOf(answer: Option<Reply>): Verdict {
    match answer
    case None => Unknown
    case Some(Refused(UnknownOperation)) => NotAdmitted
    case Some(Refused(_)) => Unknown
    case Some(Settled(ok, _)) => if ok then Completed else Failed
    case Some(Waiting) => StillPending
  }

  ghost predicate Outcome?(s: Sys, id: Name, v: Verdict) {
    && (v.Completed? ==> id in s.o.ops && s.o.ops[id].outcome.Done? && s.o.ops[id].outcome.ok && Achieved(s.o, s.h, s.o.ops[id]))
    && (v.Failed? ==> id in s.o.ops && s.o.ops[id].outcome.Done? && !s.o.ops[id].outcome.ok)
  }

  /** Every query of the script up to the `k`-th was answered "pending". */
  ghost predicate PendingUpTo(start: Sys, script: seq<Exchange>, k: nat, instance: Name, id: Name)
    requires k <= |script|
  {
    forall j :: 0 <= j < k ==> ReadingAt(start, script, j, instance, id) == Some(Waiting)
  }

  /** The polls after `k` queries: all but the last said "pending", and the last decides. */
  ghost predicate Polled(start: Sys, script: seq<Exchange>, k: nat, instance: Name, id: Name, v: Verdict)
    requires k <= |script|
  {
    if v.StillPending? then k == |script| && PendingUpTo(start, script, k, instance, id)
    else k > 0 && PendingUpTo(start, script, k - 1, instance, id) && v == VerdictOf(ReadingAt(start, script, k - 1, instance, id))
  }

  /**
   Polls the original ID until an answer is not "pending" or the script ends.
   The client itself adds no event: all that happens is what others do.
   */
  method Poll(start: Sys, script: seq<Exchange>, instance: Name, id: Name)
    returns (s: Sys, v: Verdict, trace: seq<Event>, k: nat)
    requires Reachable(start)
    ensures k <= |script| && trace == Traffic(script[..k]) && Reached(start, trace, s)
    ensures Polled(start, script, k, instance, id, v)
    ensures Outcome?(s, id, v)
  {
    s, trace, k := start, [], 0;
    while k < |script|
      invariant k <= |script| && trace == Traffic(script[..k]) && Reached(start, trace, s)
      invariant PendingUpTo(start, script, k, instance, id)
    {
      var x := script[k];
      assert script[..k + 1][..k] == script[..k];
      Extend(start, trace, s, x.before);
      trace, s := trace + x.before, Run(s, x.before);
      k := k + 1;
      var answer := Reading(s, x, instance, id);
      assert answer == ReadingAt(start, script, k - 1, instance, id);
      if answer != Some(Waiting) {
        v := VerdictOf(answer);
        SettledReading(s, x, instance, id);
        return;
      }
    }
    v := StillPending;
  }

  /** A state some owner gets into. */
  ghost predicate Reachable(s: Sys) {
    exists intent, es :: s == Run(Init(intent), es)
  }

  lemma ReachableRun(s: Sys, es: seq<Event>)
    requires Reachable(s)
    ensures Reachable(Run(s, es))
  {
    var intent, past :| s == Run(Init(intent), past);
    RunAppend(Init(intent), past, es);
  }

  /** A result the owner has recorded is the physical truth. */
  lemma RecordedIsTrue(s: Sys, id: Name)
    requires Reachable(s) && id in s.o.ops && s.o.ops[id].outcome.Done? && s.o.ops[id].outcome.ok
    ensures Achieved(s.o, s.h, s.o.ops[id])
  {
    var intent, past :| s == Run(Init(intent), past);
    OwnerSafety(intent, past);
  }

  ghost predicate Reached(start: Sys, trace: seq<Event>, s: Sys) {
    Reachable(s) && s == Run(start, trace)
  }

  lemma Extend(start: Sys, trace: seq<Event>, s: Sys, more: seq<Event>)
    requires Reached(start, trace, s)
    ensures Reached(start, trace + more, Run(s, more))
  {
    RunAppend(start, trace, more);
    ReachableRun(s, more);
  }

  function SubmitReply(o: Owner, m: Kind, instance: Name, id: Name, payload: Payload): Reply {
    if Authorized(o, m, instance, id, payload) then Begin(o, m, id, payload).reply else Refused(WrongIdentity)
  }

  lemma SettledReply(s: Sys, m: Kind, instance: Name, id: Name, payload: Payload)
    requires Reachable(s) && SubmitReply(s.o, m, instance, id, payload).Settled?
    ensures Next(s, Submit(m, instance, id, payload)) == s && id in s.o.ops
    ensures Outcome?(s, id, if SubmitReply(s.o, m, instance, id, payload).ok then Completed else Failed)
  {
    assert id in s.o.ops;
    if s.o.ops[id].outcome.ok { RecordedIsTrue(s, id); }
  }

  /** A query that was answered with a result reports that result. */
  lemma SettledReading(s: Sys, x: Exchange, instance: Name, id: Name)
    requires Reachable(s)
    ensures Outcome?(s, id, VerdictOf(Reading(s, x, instance, id)))
  {
    if id in s.o.ops && s.o.ops[id].outcome.Done? && s.o.ops[id].outcome.ok { RecordedIsTrue(s, id); }
  }

  lemma Step(start: Sys, trace: seq<Event>, s: Sys, e: Event)
    requires Reached(start, trace, s)
    ensures Reached(start, trace + [e], Next(s, e))
  {
    Extend(start, trace, s, [e]);
    assert Run(s, [e]) == Run(Next(s, e), []);
  }

  /** The events of one submission: what others did before it, and the request if it got through. */
  function Sending(x: Exchange, m: Kind, instance: Name, id: Name, payload: Payload): seq<Event> {
    x.before + if x.delivered then [Submit(m, instance, id, payload)] else []
  }

  /** The answer the client receives to its one submission, if any. */
  function SendReply(start: Sys, x: Exchange, m: Kind, instance: Name, id: Name, payload: Payload): Option<Reply> {
    if x.delivered && x.replied then Some(SubmitReply(Run(start, x.before).o, m, instance, id, payload)) else None
  }

  /** The one submission; no reply is an ambiguous outcome, not a failure. */
  method Send(start: Sys, x: Exchange, m: Kind, instance: Name, id: Name, payload: Payload)
    returns (s: Sys, reply: Option<Reply>, trace: seq<Event>)
    requires Reachable(start)
    ensures trace == Sending(x, m, instance, id, payload) && Reached(start, trace, s)
    ensures reply == SendReply(start, x, m, instance, id, payload)
    ensures reply.Some? && reply.value.Settled? && reply.value.ok ==> Outcome?(s, id, Completed)
  {
    trace := x.before;
    s := Run(start, trace);
    ReachableRun(start, trace);
    reply := None;
    if x.delivered {
      var e := Submit(m, instance, id, payload);
      var answer := SubmitReply(s.o, m, instance, id, payload);
      Step(start, trace, s, e);
      if answer.Settled? { SettledReply(s, m, instance, id, payload); }
      trace, s := trace + [e], Next(s, e);
      if x.replied { reply := Some(answer); }
    } else {
      assert trace + [] == trace;
    }
  }

  /** The first query alone settles the call. */
  predicate Decided(answer: Option<Reply>) {
    answer.None? || answer.value.Settled? || (answer.value.Refused? && !answer.value.why.UnknownOperation?)
  }

  /** The reply to the submission alone settles the call. */
  predicate Answered(reply: Option<Reply>) {
    reply.Some? && !reply.value.Waiting?
  }

  function AnsweredVerdict(reply: Reply): Verdict {
    if reply.Settled? && reply.ok then Completed else Rejected
  }

  /**
   Find the original first, submit only what the owner does not know, and then
   only ask. The run consists of what others did and of `sent` submissions of
   this client, which is one exactly if the first query found the ID unknown;
   `k` is the number of later queries, and the verdict is the first answer that
   was decisive.
   */
  method SelectedOperation(start: Sys, first: Exchange, send: Exchange, script: seq<Exchange>,
                           m: Kind, instance: Name, id: Name, payload: Payload)
    returns (s: Sys, v: Verdict, trace: seq<Event>, sent: nat, k: nat)
    requires Reachable(start)
    ensures k <= |script| && Outcome?(s, id, v)
    ensures var s1 := Run(start, first.before);
      var answer := Reading(s1, first, instance, id);
      var own := if sent == 1 then Sending(send, m, instance, id, payload) else [];
      var s2 := Run(s1, own);
      && trace == first.before + own + Traffic(script[..k]) && Reached(start, trace, s)
      && sent == (if answer == Some(Refused(UnknownOperation)) then 1 else 0)
      && (Decided(answer) ==> v == VerdictOf(answer) && k == 0)
      && (!Decided(answer) ==>
            var reply := if sent == 1 then SendReply(s1, send, m, instance, id, payload) else None;
            if Answered(reply) then v == AnsweredVerdict(reply.value) && k == 0
            else Polled(s2, script, k, instance, id, v))
  {
    sent, k := 0, 0;
    ReachableRun(start, first.before);
    trace, s := first.before, Run(start, first.before);
    assert trace + [] + Traffic(script[..0]) == trace;
    var answer := Reading(s, first, instance, id);
    if Decided(answer) {
      SettledReading(s, first, instance, id);
      return s, VerdictOf(answer), trace, sent, k;
    }
    var more := [];
    ghost var s1 := s;
    if answer.value.Refused? {
      sent := 1;
      var next, reply;
      next, reply, more := Send(s, send, m, instance, id, payload);
      Extend(start, trace, s, more);
      s, trace := next, trace + more;
      assert trace + Traffic(script[..0]) == trace;
      if Answered(reply) { return s, AnsweredVerdict(reply.value), trace, sent, k; }
    } else {
      assert trace + more == trace;
    }
    var polled, queries;
    polled, v, queries, k := Poll(s, script, instance, id);
    Extend(start, trace, s, queries);
    s, trace := polled, trace + queries;
  }
}
