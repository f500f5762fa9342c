/** The owner's attachment epoch and its two compare-and-swap policy lanes. */
module Policy {
  import opened Common

  /** A sequenced pair of flags: network cost (expensive, constrained) or offline (user, auto). */
  datatype Lane = Lane(sequence: nat, first: bool, second: bool)

  datatype Which = Cost | Offline

  datatype Policy = Policy(epoch: nat, token: Name, cost: Lane, offline: Lane) {
    function Get(w: Which): Lane {
      if w.Cost? then cost else offline
    }

    function Put(w: Which, l: Lane): Policy {
      if w.Cost? then this.(cost := l) else this.(offline := l)
    }
  }

  const Unattached := Policy(0, EMPTY, Lane(0, false, false), Lane(0, false, false))

  /** The first update of a lane always counts; a later one only when it changes a flag. */
  function Publish(l: Lane, first: bool, second: bool): Lane {
    if l.sequence == 0 || l.first != first || l.second != second
    then Lane(l.sequence + 1, first, second)
    else l
  }

  /** A policy request is admitted only under the current epoch and the current sequence. */
  predicate Admits(p: Policy, open: bool, w: Which, epoch: nat, expected: nat) {
    open && epoch == p.epoch && expected == p.Get(w).sequence
  }

  function Update(p: Policy, open: bool, w: Which, epoch: nat, expected: nat, first: bool, second: bool): Policy {
    if Admits(p, open, w, epoch, expected) then p.Put(w, Publish(p.Get(w), first, second)) else p
  }

  /** The token already attached may repeat itself; any other needs the current epoch. */
  predicate AdmitsAttach(p: Policy, open: bool, token: Name, expected: nat) {
    open && token != EMPTY && (token == p.token || expected == p.epoch)
  }

  function Attach(p: Policy, open: bool, token: Name, expected: nat): Policy {
    if AdmitsAttach(p, open, token, expected) && token != p.token
    then p.(epoch := p.epoch + 1, token := token)
    else p
  }
}
