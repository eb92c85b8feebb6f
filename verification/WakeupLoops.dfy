/** The two wake-up loops over the list of waiters, and that the step machine runs them.

    `accepts` says what the predicates answer, by the position of the waiter in the list as
    the call finds it.  `path` is the run of the machine that the loop makes: one step for
    each predicate it evaluates.
 */
module WakeupLoops {
  import opened Common
  import opened WaitQueue

  // Consecutive steps, each evaluating one predicate.
  ghost predicate Path(path: seq<Line>, from: Line, to: Line) {
    && path != [] && path[0] == from && path[|path| - 1] == to
    && forall i | 0 <= i < |path| - 1 :: Evaluates(path[i], path[i + 1])
  }

  ghost predicate Evaluates(l: Line, l': Line) {
    Next(l, Hit, l') || Next(l, Miss, l')
  }

  lemma PathGrows(path: seq<Line>, from: Line, to: Line, next: Line)
    requires Path(path, from, to) && Evaluates(to, next)
    ensures Path(path + [next], from, next)
  {
    var longer := path + [next];
    forall i | 0 <= i < |longer| - 1 ensures Evaluates(longer[i], longer[i + 1]) {
      assert i < |path| - 1 ==> longer[i + 1] == path[i + 1];
    }
  }

  lemma HitStep(path: seq<Line>, from: Line, to: Line) returns (longer: seq<Line>, next: Line)
    requires Path(path, from, to) && HasTarget(to) && Target(to) in to.waiters
    ensures next == AfterHit(to) && Path(longer, from, next)
  {
    next := AfterHit(to);
    longer := path + [next];
    PathGrows(path, from, to, next);
  }

  lemma MissStep(path: seq<Line>, from: Line, to: Line) returns (longer: seq<Line>, next: Line)
    requires Path(path, from, to) && HasTarget(to) && !to.lock.Suspend?
    ensures next == to.(lock := if to.lock.WakeOne? then WakeOne(to.lock.next + 1) else WakeAll(to.lock.next + 1))
    ensures Path(longer, from, next)
  {
    next := to.(lock := if to.lock.WakeOne? then WakeOne(to.lock.next + 1) else WakeAll(to.lock.next + 1));
    longer := path + [next];
    assert Next(to, Miss, next);
    PathGrows(path, from, to, next);
  }

  // The waiters among the first n whose predicate answers `answer`, in order.
  function Answering(s: seq<Id>, accepts: seq<bool>, answer: bool, n: nat): (r: seq<Id>)
    requires n <= |s| <= |accepts|
    ensures |r| <= n
  {
    if n == 0 then []
    else Answering(s, accepts, answer, n - 1) + (if accepts[n - 1] == answer then [s[n - 1]] else [])
  }

  lemma OneTurn(s: seq<Id>, accepts: seq<bool>, n: nat)
    requires n < |s| <= |accepts|
    ensures var no := Answering(s, accepts, false, n);
      var list := no + s[n..];
      && list[|no|] == s[n]
      && Answering(s, accepts, false, n + 1) + s[n + 1..] == if accepts[n] then Without(list, |no|) else list
  {
  }

  class Queue {
    var waiters: seq<Id>

    // Wake the first waiter whose predicate says yes, if there is one.
    method WakeupOne(accepts: seq<bool>, ghost l: Line)
      returns (woken: Option<Id>, ghost path: seq<Line>, ghost end: Line)
      requires |waiters| <= |accepts|
      requires l.lock == WakeOne(0) && l.queue == waiters && forall w | w in waiters :: w in l.waiters
      modifies this
      ensures match woken
        case None => waiters == old(waiters) && forall i | 0 <= i < |waiters| :: !accepts[i]
        case Some(w) => exists i | 0 <= i < |old(waiters)| ::
          && accepts[i] && (forall j | 0 <= j < i :: !accepts[j])
          && w == old(waiters)[i] && waiters == Without(old(waiters), i)
      ensures Path(path, l, end) && end.queue == waiters
      ensures if woken.None? then end == l.(lock := WakeOne(|l.queue|))
              else end.lock.Free? && woken.value in end.waiters && end.waiters[woken.value].at.Waking?
    {
      path, end := [l], l;
      for i := 0 to |waiters|
        invariant waiters == old(waiters) && forall j | 0 <= j < i :: !accepts[j]
        invariant Path(path, l, end) && end == l.(lock := WakeOne(i))
      {
        if accepts[i] {
          var w := waiters[i];
          path, end := HitStep(path, l, end);
          assert accepts[i] && w == old(waiters)[i];
          waiters := Without(waiters, i);
          return Some(w), path, end;
        }
        path, end := MissStep(path, l, end);
      }
      woken := None;
    }

    // Take off every waiter whose predicate says yes and resume them in queue order; the
    // others stay in order.
    method WakeupAll(accepts: seq<bool>, ghost l: Line) returns (ready: seq<Id>, ghost path: seq<Line>, ghost end: Line)
      requires |waiters| <= |accepts|
      requires l.lock == WakeAll(0) && l.queue == waiters && forall w | w in waiters :: w in l.waiters
      modifies this
      ensures ready == Answering(old(waiters), accepts, true, |old(waiters)|)
      ensures waiters == Answering(old(waiters), accepts, false, |old(waiters)|)
      ensures Path(path, l, end) && end.lock == WakeAll(|waiters|) && end.queue == waiters
      ensures forall w | w in ready :: w in end.waiters && end.waiters[w].at.Ready?
    {
      ghost var all := waiters;
      ready := [];
      path, end := [l], l;
      var at := 0;
      for n := 0 to |waiters|
        invariant |all| <= |accepts|
        invariant ready == Answering(all, accepts, true, n)
        invariant at == |Answering(all, accepts, false, n)| && waiters == Answering(all, accepts, false, n) + all[n..]
        invariant Path(path, l, end) && end.lock == WakeAll(at) && end.queue == waiters
        invariant forall w | w in all :: w in end.waiters
        invariant forall w | w in ready :: w in end.waiters && end.waiters[w].at.Ready?
      {
        OneTurn(all, accepts, n);
        var w := waiters[at];
        if accepts[n] {
          waiters := Without(waiters, at);
          ready := ready + [w];
          path, end := HitStep(path, l, end);
        } else {
          at := at + 1;
          path, end := MissStep(path, l, end);
        }
      }
    }
  }

}
