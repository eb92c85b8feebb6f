/** The wait queue under mutexes, semaphores and channels.

    Each step is one critical section of the queue lock, one evaluation of a
    waiter's wake-up predicate (the shared resource may change between two
    evaluations of the same scan), or one call made outside the lock.  The
    predicate's outcome is left open here; each client says when it hits.
 */
module WaitQueue {
  import opened Common

  type Id = nat

  // Where a waiter is in its life.
  datatype Place =
    | Suspending   // its await_suspend holds the queue lock
    | Queued       // linked in the queue
    | Ready        // linked in the private ready list of a wakeupAll
    | Waking       // taken off; resume() not yet called
    | Stopping     // unlinked by a stop; setStopped() not yet called
    | Settled      // resumed or stopped

  // Progress of the waiter's stop callback.
  datatype StopCall = Unregistered | Registered | Checked | Returned

  datatype Waiter = Waiter(at: Place, waiting: bool, stop: StopCall, grants: nat, resumes: nat, stops: nat) {
    predicate Linked() { at.Queued? || at.Ready? }
  }

  // Who holds the queue lock, and how far it got.
  datatype Lock = Free | Suspend(w: Id, tried: bool) | WakeOne(next: nat) | WakeAll(next: nat)

  // owed and owedAll count wakeupOne and wakeupAll calls that have not taken the lock yet.
  datatype Line = Line(queue: seq<Id>, lock: Lock, owed: nat, owedAll: nat, waiters: map<Id, Waiter>)

  datatype Action =
    | Owe(n: nat) | OweAll
    | BeginSuspend(w: Id) | Enqueue
    | BeginWake | EndWake | BeginWakeAll | EndWakeAll
    | Hit | Miss                      // the lock holder evaluates a predicate
    | Drain(w: Id) | Resume(w: Id)
    | StopCheck(w: Id) | StopLock(w: Id) | SetStopped(w: Id)

  const EMPTY := Line([], Free, 0, 0, map[])

  function IndexOf(s: seq<Id>, w: Id): (i: nat)
    requires w in s
    ensures i < |s| && s[i] == w
  {
    if s[0] == w then 0 else 1 + IndexOf(s[1..], w)
  }

  // Unlinking leaves the other waiters in order.
  function Unlink(s: seq<Id>, w: Id): (r: seq<Id>)
    ensures |r| == if w in s then |s| - 1 else |s|
    ensures w in s ==> exists i :: 0 <= i < |s| && s[i] == w && r == Without(s, i)
  {
    if w in s then Without(s, IndexOf(s, w)) else s
  }

  ghost predicate Distinct<T(!new)>(s: seq<T>) {
    forall i, j | 0 <= i < j < |s| :: s[i] != s[j]
  }

  // The waiter whose predicate the lock holder evaluates next, if any.
  predicate HasTarget(l: Line) {
    match l.lock
    case Free => false
    case Suspend(_, tried) => !tried
    case WakeOne(i) => i < |l.queue|
    case WakeAll(i) => i < |l.queue|
  }

  function Target(l: Line): (r: Id)
    requires HasTarget(l)
  {
    match l.lock
    case Suspend(w, _) => w
    case WakeOne(i) => l.queue[i]
    case WakeAll(i) => l.queue[i]
  }

  ghost predicate Next(l: Line, a: Action, l': Line) {
    match a
    case Owe(n) => l' == l.(owed := l.owed + n)
    case OweAll => l' == l.(owedAll := l.owedAll + 1)
    case BeginSuspend(w) =>
      && l.lock.Free? && w !in l.waiters
      && l' == l.(lock := Suspend(w, false), waiters := l.waiters[w := Waiter(Suspending, true, Unregistered, 0, 0, 0)])
    case Enqueue =>
      && l.lock.Suspend? && l.lock.tried && l.lock.w in l.waiters
      && var w := l.lock.w;
         l' == l.(lock := Free, queue := l.queue + [w],
                  waiters := l.waiters[w := l.waiters[w].(at := Queued, stop := Registered)])
    case BeginWake =>
      l.lock.Free? && l.owed > 0 && l' == l.(lock := WakeOne(0), owed := l.owed - 1)
    case EndWake =>
      l.lock == WakeOne(|l.queue|) && l' == l.(lock := Free)
    case BeginWakeAll =>
      l.lock.Free? && l.owedAll > 0 && l' == l.(lock := WakeAll(0), owedAll := l.owedAll - 1)
    case EndWakeAll =>
      l.lock == WakeAll(|l.queue|) && l' == l.(lock := Free)
    case Hit => HasTarget(l) && Target(l) in l.waiters && l' == AfterHit(l)
    case Miss =>
      && HasTarget(l)
      && l' == l.(lock := match l.lock
                          case Suspend(w, _) => Suspend(w, true)
                          case WakeOne(i) => WakeOne(i + 1)
                          case WakeAll(i) => WakeAll(i + 1))
    case Drain(w) =>
      w in l.waiters && l.waiters[w].at.Ready? && l' == Put(l, w, l.waiters[w].(at := Waking))
    case Resume(w) =>
      && w in l.waiters && l.waiters[w].at.Waking?
      && l' == Put(l, w, l.waiters[w].(at := Settled, resumes := l.waiters[w].resumes + 1))
    case StopCheck(w) =>
      && w in l.waiters && l.waiters[w].stop.Registered?
      && l' == Put(l, w, l.waiters[w].(stop := if l.waiters[w].waiting then Checked else Returned))
    case StopLock(w) =>
      && l.lock.Free? && w in l.waiters && l.waiters[w].stop.Checked?
      && l' == AfterStopLock(l, w)
    case SetStopped(w) =>
      && w in l.waiters && l.waiters[w].at.Stopping?
      && l' == Put(l, w, l.waiters[w].(at := Settled, stops := l.waiters[w].stops + 1))
  }

  function Put(l: Line, w: Id, x: Waiter): (r: Line) {
    l.(waiters := l.waiters[w := x])
  }

  function AfterHit(l: Line): (r: Line)
    requires HasTarget(l) && Target(l) in l.waiters
  {
    var w := Target(l);
    var x := l.waiters[w];
    match l.lock
    case Suspend(_, _) =>   // await_suspend returns false and the caller just goes on
      Put(l, w, x.(at := Settled, grants := x.grants + 1, resumes := x.resumes + 1)).(lock := Free)
    case WakeOne(i) =>
      Put(l, w, x.(at := Waking, waiting := false, grants := x.grants + 1)).(lock := Free, queue := Without(l.queue, i))
    case WakeAll(i) =>
      Put(l, w, x.(at := Ready, waiting := false, grants := x.grants + 1)).(queue := Without(l.queue, i))
  }

  function AfterStopLock(l: Line, w: Id): (r: Line)
    requires w in l.waiters
  {
    var x := l.waiters[w];
    if !x.Linked() then Put(l, w, x.(stop := Returned))
    else
      Put(l, w, x.(at := Stopping, waiting := false, stop := Returned)).(queue := Unlink(l.queue, w))
  }

  // ---- Wake-up against cancellation -------------------------------------------------

  // At most one of resume and setStopped, exactly one once settled; while queued the
  // waiter is untouched and a stop that was delivered is still on its way.
  ghost predicate Coherent(x: Waiter) {
    match x.at
    case Suspending => x.waiting && x.stop == Unregistered && x.grants == x.resumes == x.stops == 0
    case Queued => x.waiting && (x.stop == Registered || x.stop == Checked) && x.grants == x.resumes == x.stops == 0
    case Ready => !x.waiting && x.grants == 1 && x.resumes == x.stops == 0
    case Waking => !x.waiting && x.grants == 1 && x.resumes == x.stops == 0
    case Stopping => !x.waiting && x.resumes == x.stops == 0 && x.grants <= 1
    case Settled => x.resumes + x.stops == 1 && x.resumes <= x.grants <= 1
  }

  // What the predicate consumed is never lost: a stopped waiter consumed nothing.
  ghost predicate GrantKept(x: Waiter) {
    (x.at.Stopping? || x.stops > 0) ==> x.grants == 0
  }

  ghost predicate Wf(l: Line) {
    && Distinct(l.queue)
    && (forall w :: w in l.queue <==> w in l.waiters && l.waiters[w].at == Queued)
    && (forall w | w in l.waiters :: Coherent(l.waiters[w]))
    && (forall w | w in l.waiters && l.waiters[w].at == Suspending :: l.lock.Suspend? && l.lock.w == w)
    && match l.lock
       case Free => true
       case Suspend(w, _) => w in l.waiters && l.waiters[w].at == Suspending
       case WakeOne(i) => i <= |l.queue|
       case WakeAll(i) => i <= |l.queue|
  }

  ghost predicate GrantsKept(l: Line) {
    forall w | w in l.waiters :: GrantKept(l.waiters[w])
  }

  lemma WithoutOne(s: seq<Id>, i: nat)
    requires Distinct(s) && i < |s|
    ensures Distinct(Without(s, i)) && |Without(s, i)| == |s| - 1
    ensures forall w :: w in Without(s, i) <==> w in s && w != s[i]
  {
    var r := Without(s, i);
    forall w ensures w in r <==> w in s && w != s[i] {
      if w in s && w != s[i] {
        var j :| 0 <= j < |s| && s[j] == w;
        assert r[if j < i then j else j - 1] == w;
      }
    }
  }

  // Updating one waiter that stays off (or on) the queue.
  lemma PutKeepsWf(l: Line, w: Id, x: Waiter)
    requires Wf(l) && w in l.waiters && Coherent(x)
    requires x.at == Queued <==> l.waiters[w].at == Queued
    requires x.at != Suspending && l.waiters[w].at != Suspending
    ensures Wf(Put(l, w, x))
  {
  }

  // Taking the i-th waiter off the queue.
  lemma TakeKeepsWf(l: Line, i: nat, x: Waiter)
    requires Wf(l) && i < |l.queue| && !l.lock.Suspend? && Coherent(x) && x.at !in {Queued, Suspending}
    ensures Wf(Put(l, l.queue[i], x).(queue := Without(l.queue, i), lock := Free))
    ensures l.lock == WakeAll(i) ==> Wf(Put(l, l.queue[i], x).(queue := Without(l.queue, i)))
  {
    WithoutOne(l.queue, i);
    assert l.queue[i] in l.queue;
  }

  lemma StopLockKeepsWf(l: Line, w: Id, l': Line)
    requires Wf(l) && Next(l, StopLock(w), l')
    ensures Wf(l')
  {
    var x := l.waiters[w];
    if w in l.queue {
      var i :| 0 <= i < |l.queue| && l.queue[i] == w && Unlink(l.queue, w) == Without(l.queue, i);
      TakeKeepsWf(l, i, x.(at := Stopping, waiting := false, stop := Returned));
    } else if x.Linked() {
      PutKeepsWf(l, w, x.(at := Stopping, waiting := false, stop := Returned));
    } else {
      PutKeepsWf(l, w, x.(stop := Returned));
    }
  }

  lemma HitKeepsWf(l: Line, l': Line)
    requires Wf(l) && Next(l, Hit, l')
    ensures Wf(l')
  {
    var w := Target(l);
    match l.lock
    case Suspend(_, _) =>
    case WakeOne(i) => assert w in l.queue; TakeKeepsWf(l, i, l'.waiters[w]);
    case WakeAll(i) => assert w in l.queue; TakeKeepsWf(l, i, l'.waiters[w]);
  }

  lemma SuspendingKeepsWf(l: Line, a: Action, l': Line)
    requires Wf(l) && Next(l, a, l') && (a.BeginSuspend? || a.Enqueue?)
    ensures Wf(l')
  {
    if a.Enqueue? {
      assert forall w :: w in l'.queue <==> w in l.queue || w == l.lock.w;
    }
  }

  lemma NextKeepsWf(l: Line, a: Action, l': Line)
    requires Wf(l) && Next(l, a, l')
    ensures Wf(l')
  {
    match a
    case Hit => HitKeepsWf(l, l');
    case StopLock(w) => StopLockKeepsWf(l, w, l');
    case BeginSuspend(_) => SuspendingKeepsWf(l, a, l');
    case Enqueue => SuspendingKeepsWf(l, a, l');
    case Drain(w) => PutKeepsWf(l, w, l'.waiters[w]);
    case Resume(w) => PutKeepsWf(l, w, l'.waiters[w]);
    case StopCheck(w) => PutKeepsWf(l, w, l'.waiters[w]);
    case SetStopped(w) => PutKeepsWf(l, w, l'.waiters[w]);
    case _ =>
  }

  // ---- Waiters that hold what their predicate took ------------------------------------

  ghost predicate AllGranted(l: Line, g: set<Id>) {
    forall w | w in g :: w in l.waiters && l.waiters[w].grants == 1
  }

  // Only a hit changes what a waiter was granted.
  lemma GrantsUnchanged(l: Line, a: Action, l': Line, w: Id)
    requires Next(l, a, l') && w in l.waiters && (a == Hit ==> w != Target(l))
    ensures w in l'.waiters && l'.waiters[w].grants == l.waiters[w].grants
  {
  }

  lemma TargetUngranted(l: Line)
    requires Wf(l) && HasTarget(l)
    ensures Target(l) in l.waiters && l.waiters[Target(l)].grants == 0
  {
    assert l.lock.Suspend? || Target(l) in l.queue;
    assert Coherent(l.waiters[Target(l)]);
  }

  lemma AllGrantedKept(l: Line, a: Action, l': Line, g: set<Id>, g': set<Id>)
    requires Wf(l) && Next(l, a, l') && AllGranted(l, g)
    requires g' <= g + if a == Hit then {Target(l)} else {}
    ensures AllGranted(l', g')
    ensures a == Hit ==> Target(l) !in g
  {
    if a == Hit {
      TargetUngranted(l);
    }
    forall w | w in g' && (a == Hit ==> w != Target(l))
      ensures w in l'.waiters && l'.waiters[w].grants == 1
    {
      GrantsUnchanged(l, a, l', w);
    }
  }

  // A stop that takes the lock while its waiter sits in a wakeupAll's ready list.
  ghost predicate StopsReady(l: Line, a: Action) {
    a.StopLock? && a.w in l.waiters && l.waiters[a.w].at == Ready
  }

  // Exactly when a step keeps what was granted.
  lemma GrantsKeptExactly(l: Line, a: Action, l': Line)
    requires Wf(l) && GrantsKept(l) && Next(l, a, l')
    ensures GrantsKept(l') <==> !StopsReady(l, a)
  {
    if StopsReady(l, a) {
      assert !GrantKept(l'.waiters[a.w]);
    } else if a.Hit? {
      assert forall w | w in l'.waiters && w != Target(l) :: GrantKept(l.waiters[w]);
    }
  }

  ghost predicate Step(l: Line, l': Line) {
    exists a :: Next(l, a, l')
  }

  ghost predicate CalmStep(l: Line, l': Line) {
    exists a :: Next(l, a, l') && !StopsReady(l, a)
  }

  ghost predicate Run(r: seq<Line>) {
    && |r| > 0 && r[0] == EMPTY
    && forall i | 0 <= i < |r| - 1 :: Step(r[i], r[i + 1])
  }

  ghost predicate CalmRun(r: seq<Line>) {
    && |r| > 0 && r[0] == EMPTY
    && forall i | 0 <= i < |r| - 1 :: CalmStep(r[i], r[i + 1])
  }

  // Over every interleaving each waiter is resumed or stopped at most once.
  lemma {:induction false} ServedAtMostOnce(r: seq<Line>, k: nat)
    requires Run(r) && k < |r|
    ensures Wf(r[k])
    ensures forall w | w in r[k].waiters :: r[k].waiters[w].resumes + r[k].waiters[w].stops <= 1
  {
    if k > 0 {
      ServedAtMostOnce(r, k - 1);
      assert Step(r[k - 1], r[k - 1 + 1]);
      var a :| Next(r[k - 1], a, r[k]);
      NextKeepsWf(r[k - 1], a, r[k]);
    }
    assert forall w | w in r[k].waiters :: Coherent(r[k].waiters[w]);
  }

  // A waiter that is off the queue and not served yet can be served now, whatever the
  // others do, and it is served once.
  lemma OffQueueIsServed(l: Line, w: Id) returns (a: Action, l': Line)
    requires Wf(l) && w in l.waiters && l.waiters[w].at !in {Suspending, Queued, Settled}
    ensures Next(l, a, l')
    ensures l.waiters[w].at == Ready ==> l'.waiters[w].at == Waking
    ensures l.waiters[w].at != Ready ==> l'.waiters[w].at == Settled && l'.waiters[w].resumes + l'.waiters[w].stops == 1
  {
    var x := l.waiters[w];
    a := if x.at == Ready then Drain(w) else if x.at == Waking then Resume(w) else SetStopped(w);
    l' := Put(l, w, if x.at == Ready then x.(at := Waking)
                    else if x.at == Waking then x.(at := Settled, resumes := x.resumes + 1)
                    else x.(at := Settled, stops := x.stops + 1));
    assert Coherent(x);
    NextKeepsWf(l, a, l');
  }

  // With no stop racing a wakeupAll's ready list, a waiter whose predicate consumed
  // something is never stopped, and once settled it was resumed.
  lemma {:induction false} GrantedIsResumed(r: seq<Line>, k: nat)
    requires CalmRun(r) && k < |r|
    ensures Wf(r[k]) && GrantsKept(r[k])
    ensures forall w | w in r[k].waiters && r[k].waiters[w].grants > 0 ::
              r[k].waiters[w].stops == 0 && (r[k].waiters[w].at == Settled ==> r[k].waiters[w].resumes == 1)
  {
    if k > 0 {
      GrantedIsResumed(r, k - 1);
      assert CalmStep(r[k - 1], r[k - 1 + 1]);
      var a :| Next(r[k - 1], a, r[k]) && !StopsReady(r[k - 1], a);
      NextKeepsWf(r[k - 1], a, r[k]);
      GrantsKeptExactly(r[k - 1], a, r[k]);
    }
    assert forall w | w in r[k].waiters :: Coherent(r[k].waiters[w]) && GrantKept(r[k].waiters[w]);
  }

  // Nothing undoes it: a granted waiter that is being stopped, or has been, stays one.
  lemma ViolationPersists(l: Line, a: Action, l': Line)
    requires Wf(l) && Next(l, a, l') && !GrantsKept(l)
    ensures !GrantsKept(l')
  {
    var w :| w in l.waiters && !GrantKept(l.waiters[w]);
    assert Coherent(l.waiters[w]);
    if a == Hit {
      TargetUngranted(l);
    }
    GrantsUnchanged(l, a, l', w);
    assert !GrantKept(l'.waiters[w]);
  }

  lemma GrantsKeptByStep(l: Line, l': Line)
    requires Wf(l) && Step(l, l')
    ensures GrantsKept(l') <==> GrantsKept(l) && CalmStep(l, l')
  {
    var a :| Next(l, a, l') && (CalmStep(l, l') ==> !StopsReady(l, a));
    if GrantsKept(l) {
      GrantsKeptExactly(l, a, l');
    } else {
      ViolationPersists(l, a, l');
    }
  }

  // Over whole runs: what was granted is kept if and only if no step was such a stop.
  lemma {:induction false} GrantsKeptOverRuns(r: seq<Line>, k: nat)
    requires Run(r) && k < |r|
    ensures GrantsKept(r[k]) <==> forall i | 0 <= i < k :: CalmStep(r[i], r[i + 1])
  {
    if k > 0 {
      GrantsKeptOverRuns(r, k - 1);
      ServedAtMostOnce(r, k - 1);
      assert Step(r[k - 1], r[k - 1 + 1]);
      GrantsKeptByStep(r[k - 1], r[k]);
      CalmOneMore(r, k - 1);
    }
  }

  lemma CalmOneMore(r: seq<Line>, k: nat)
    requires k + 1 < |r|
    ensures (forall i | 0 <= i < k + 1 :: CalmStep(r[i], r[i + 1])) <==>
      (forall i | 0 <= i < k :: CalmStep(r[i], r[i + 1])) && CalmStep(r[k], r[k + 1])
  {
  }

  const NEWCOMER := Waiter(Suspending, true, Unregistered, 0, 0, 0)
  const STOPPING_WAITER := NEWCOMER.(at := Queued, stop := Checked)
  const GRANTED := STOPPING_WAITER.(at := Ready, waiting := false, grants := 1)

  // The run behind `StopsReady`: the stop callback has seen the waiter waiting, wakeupAll
  // grants it, and the stop unlinks it from the ready list before it is drained.
  lemma WakeAllCanStopAGranted() returns (r: seq<Line>)
    ensures Run(r) && 0 in r[|r| - 1].waiters
    ensures var x := r[|r| - 1].waiters[0]; x.grants == 1 && x.stops == 1 && x.resumes == 0
  {
    r := StopOnItsWay();
    r := Extend(r, OweAll, Line([0], Free, 0, 1, map[0 := STOPPING_WAITER]));
    r := Extend(r, BeginWakeAll, Line([0], WakeAll(0), 0, 0, map[0 := STOPPING_WAITER]));
    r := Extend(r, Hit, Line([], WakeAll(0), 0, 0, map[0 := GRANTED]));
    r := Extend(r, EndWakeAll, Line([], Free, 0, 0, map[0 := GRANTED]));
    var stopping := GRANTED.(at := Stopping, stop := Returned);
    r := Extend(r, StopLock(0), Line([], Free, 0, 0, map[0 := stopping]));
    r := Extend(r, SetStopped(0), Line([], Free, 0, 0, map[0 := stopping.(at := Settled, stops := 1)]));
  }

  lemma StopOnItsWay() returns (r: seq<Line>)
    ensures Run(r) && r[|r| - 1] == Line([0], Free, 0, 0, map[0 := STOPPING_WAITER])
  {
    r := [EMPTY];
    r := Extend(r, BeginSuspend(0), Line([], Suspend(0, false), 0, 0, map[0 := NEWCOMER]));
    r := Extend(r, Miss, Line([], Suspend(0, true), 0, 0, map[0 := NEWCOMER]));
    r := Extend(r, Enqueue, Line([0], Free, 0, 0, map[0 := NEWCOMER.(at := Queued, stop := Registered)]));
    r := Extend(r, StopCheck(0), Line([0], Free, 0, 0, map[0 := STOPPING_WAITER]));
  }

  lemma Extend(r: seq<Line>, a: Action, l: Line) returns (s: seq<Line>)
    requires Run(r) && Next(r[|r| - 1], a, l)
    ensures Run(s) && s[|s| - 1] == l
  {
    s := r + [l];
    forall i | 0 <= i < |s| - 1 ensures Step(s[i], s[i + 1]) {
      assert i < |r| - 1 ==> s[i + 1] == r[i + 1];
      assert i == |r| - 1 ==> Next(s[i], a, s[i + 1]);
    }
  }

  // ---- No lost wake-up ---------------------------------------------------------------

  ghost predicate Waits(l: Line) {
    l.queue != [] || (l.lock.Suspend? && l.lock.tried)
  }

  // A scan that has evaluated nothing yet is still a whole wake-up.
  function Slack(l: Line): (r: nat) {
    if l.lock == WakeOne(0) then 1 else 0
  }

  // While somebody waits, every available unit is matched by an outstanding wake-up;
  // `extra` counts wake-ups owed by coroutines that have not come round to calling wakeupOne.
  ghost predicate NoLostWakeup(avail: nat, extra: nat, l: Line) {
    Waits(l) ==> avail <= l.owed + extra + Slack(l)
  }

  // What a client of the queue has to keep: a hit consumes a unit (or leaves none), a miss
  // finds none, and units are only added together with wake-ups.
  ghost predicate Accounted(avail: nat, extra: nat, l: Line, a: Action, avail': nat, extra': nat, l': Line) {
    match a
    case Hit => (avail' < avail || avail' == 0) && extra <= extra'
    case Miss => avail' == 0
    case BeginWake => avail' + extra <= avail + extra'
    case _ => avail' + l.owed + extra <= avail + l'.owed + extra'
  }

  lemma NoLostWakeupKept(avail: nat, extra: nat, l: Line, a: Action, avail': nat, extra': nat, l': Line)
    requires NoLostWakeup(avail, extra, l) && Next(l, a, l')
    requires Accounted(avail, extra, l, a, avail', extra', l')
    ensures NoLostWakeup(avail', extra', l')
  {
    if a.StopLock? && l.queue == [] {
      assert Unlink(l.queue, a.w) == [];
    }
  }

  // Once `closed`, every predicate hits; wakeupAll is only ever called for closing.
  ghost predicate CloseCovered(closed: bool, l: Line) {
    && (l.owedAll > 0 || l.lock.WakeAll? ==> closed)
    && (l.lock.WakeAll? ==> l.lock.next == 0)
    && (closed && Waits(l) ==> l.owedAll > 0 || l.lock.WakeAll?)
  }

  lemma CloseCoveredKept(closed: bool, l: Line, a: Action, closed': bool, l': Line)
    requires CloseCovered(closed, l) && Next(l, a, l')
    requires closed ==> closed'
    requires a == OweAll ==> closed'
    requires closed' && !closed && Waits(l) ==> a == OweAll
    requires a == Miss ==> !closed'
    ensures CloseCovered(closed', l')
  {
    if a.StopLock? && l.queue == [] {
      assert Unlink(l.queue, a.w) == [];
    }
  }

  // ---- Wake-ups make progress ----------------------------------------------------------

  // A call that takes the lock is used up for one scan of the whole queue, from the front.
  lemma BeginWakeUsesOneCall(l: Line, l': Line)
    requires Next(l, BeginWake, l')
    ensures l.owed == l'.owed + 1 && l'.lock == WakeOne(0) && Slack(l') == 1 && Slack(l) == 0
    ensures l'.queue == l.queue && l'.waiters == l.waiters && l'.owedAll == l.owedAll
    ensures l.queue != [] ==> HasTarget(l') && Target(l') == l.queue[0]
  {
  }

  // The queue keeps its order: newcomers go to the end, one waiter at a time leaves.
  lemma QueueKeepsOrder(l: Line, a: Action, l': Line)
    requires Wf(l) && Next(l, a, l')
    ensures a == Enqueue ==> l'.queue == l.queue + [l.lock.w]
    ensures a != Enqueue && l'.queue != l.queue ==>
      exists i | 0 <= i < |l.queue| :: l'.queue == Without(l.queue, i) && (a == Hit || a == StopLock(l.queue[i]))
  {
    if a == Hit && !l.lock.Suspend? {
      assert l'.queue == Without(l.queue, l.lock.next);
    }
  }

  // The lock holder's next step, when its predicate would answer `yes`.
  function HolderStep(l: Line, yes: bool): (a: Action)
    requires !l.lock.Free?
  {
    if HasTarget(l) then if yes then Hit else Miss
    else match l.lock
      case Suspend(_, _) => Enqueue
      case WakeOne(_) => EndWake
      case _ => EndWakeAll
  }

  // How many steps the lock holder has left at most.
  function HolderFuel(l: Line): (n: nat)
    requires Wf(l)
  {
    match l.lock
    case Free => 0
    case Suspend(_, tried) => if tried then 1 else 2
    case WakeOne(i) => |l.queue| - i + 1
    case WakeAll(i) => |l.queue| - i + 1
  }

  // Whatever its predicates answer, the lock holder can always go on, and comes nearer to
  // its end with every step.
  lemma HolderCanGoOn(l: Line, yes: bool) returns (l': Line)
    requires Wf(l) && !l.lock.Free?
    ensures Next(l, HolderStep(l, yes), l') && Wf(l') && HolderFuel(l') < HolderFuel(l)
    ensures !StopsReady(l, HolderStep(l, yes)) && l'.owed == l.owed && l'.owedAll == l.owedAll
  {
    var a := HolderStep(l, yes);
    if HasTarget(l) {
      assert l.lock.Suspend? || Target(l) in l.queue;
      l' := if yes then AfterHit(l)
        else l.(lock := match l.lock
                        case Suspend(w, _) => Suspend(w, true)
                        case WakeOne(i) => WakeOne(i + 1)
                        case WakeAll(i) => WakeAll(i + 1));
    } else {
      match l.lock
      case Suspend(w, _) =>
        l' := l.(lock := Free, queue := l.queue + [w],
                 waiters := l.waiters[w := l.waiters[w].(at := Queued, stop := Registered)]);
      case _ => l' := l.(lock := Free);
    }
    NextKeepsWf(l, a, l');
  }

  // So every critical section ends, after at most two steps more than there are waiters.
  lemma {:induction false} LockIsReleased(l: Line, answers: seq<bool>) returns (r: seq<Line>)
    requires Wf(l) && |answers| >= HolderFuel(l)
    ensures |r| > 0 && r[0] == l && r[|r| - 1].lock.Free? && Wf(r[|r| - 1]) && |r| <= HolderFuel(l) + 1
    ensures forall i | 0 <= i < |r| - 1 :: HolderTakes(r[i], r[i + 1])
    decreases HolderFuel(l)
  {
    if l.lock.Free? {
      r := [l];
    } else {
      var l' := HolderCanGoOn(l, answers[0]);
      var rest := LockIsReleased(l', answers[1..]);
      r := [l] + rest;
      assert HolderTakes(l, l');
    }
  }

  // A step of the lock holder.
  ghost predicate HolderTakes(l: Line, l': Line) {
    !l.lock.Free? && exists yes :: Next(l, HolderStep(l, yes), l')
  }

  // A call that is owed serves the first waiter if its predicate accepts: three steps take it
  // to its resume, and use up just that call.
  lemma FirstWaiterServed(l: Line) returns (begun: Line, woken: Line, served: Line)
    requires Wf(l) && l.lock.Free? && l.owed > 0 && l.queue != []
    ensures var w := l.queue[0];
      && Next(l, BeginWake, begun) && HasTarget(begun) && Target(begun) == w
      && Next(begun, Hit, woken) && Next(woken, Resume(w), served)
      && w in served.waiters && served.waiters[w].at.Settled?
      && served.waiters[w].resumes == 1 && served.waiters[w].stops == 0
      && served.lock.Free? && served.owed == l.owed - 1 && served.queue == l.queue[1..]
  {
    var w := l.queue[0];
    assert Coherent(l.waiters[w]);
    begun := l.(lock := WakeOne(0), owed := l.owed - 1);
    woken := AfterHit(begun);
    served := Put(woken, w, woken.waiters[w].(at := Settled, resumes := woken.waiters[w].resumes + 1));
    assert Without(l.queue, 0) == l.queue[1..];
  }

  // A stop that finds its waiter still queued takes it out and stops it, by three steps of its
  // own while nobody holds the lock.
  lemma StopReachesWaiter(l: Line, w: Id) returns (checked: Line, unlinked: Line, stopped: Line)
    requires Wf(l) && l.lock.Free? && w in l.queue && l.waiters[w].stop.Registered?
    ensures Next(l, StopCheck(w), checked) && Next(checked, StopLock(w), unlinked)
    ensures Next(unlinked, SetStopped(w), stopped)
    ensures w in stopped.waiters && stopped.waiters[w].at.Settled?
    ensures stopped.waiters[w].stops == 1 && stopped.waiters[w].resumes == 0 && stopped.waiters[w].grants == 0
    ensures stopped.queue == Unlink(l.queue, w) && stopped.owed == l.owed && stopped.lock.Free?
  {
    assert Coherent(l.waiters[w]);
    checked := Put(l, w, l.waiters[w].(stop := Checked));
    unlinked := AfterStopLock(checked, w);
    stopped := Put(unlinked, w, unlinked.waiters[w].(at := Settled, stops := unlinked.waiters[w].stops + 1));
  }

  // A stop that comes after its waiter was taken off changes nothing but its own progress.
  lemma LateStopDoesNothing(l: Line, a: Action, l': Line, w: Id)
    requires Wf(l) && Next(l, a, l') && a in {StopCheck(w), StopLock(w)} && l.waiters[w].at in {Waking, Settled}
    ensures l' == l.(waiters := l'.waiters) && l'.waiters == l.waiters[w := l.waiters[w].(stop := l'.waiters[w].stop)]
    ensures a == StopCheck(w) && l.waiters[w].at.Waking? ==> l'.waiters[w].stop == Returned
    ensures a == StopLock(w) ==> l'.waiters[w].stop == Returned
  {
    assert Coherent(l.waiters[w]);
  }

  // Whoever wants to wait gets hold of a free lock, evaluates its predicate first, and queues
  // only if that says no.
  lemma SuspendingAsksFirst(l: Line, w: Id, yes: bool) returns (begun: Line, asked: Line)
    requires Wf(l) && l.lock.Free? && w !in l.waiters
    ensures Next(l, BeginSuspend(w), begun) && HasTarget(begun) && Target(begun) == w
    ensures Next(begun, if yes then Hit else Miss, asked)
    ensures yes ==> asked.lock.Free? && asked.queue == l.queue
    ensures yes ==> w in asked.waiters && asked.waiters[w].at.Settled? && asked.waiters[w].resumes == 1
    ensures !yes ==> exists queued :: Next(asked, Enqueue, queued) && queued.queue == l.queue + [w] && queued.lock.Free?
  {
    begun := l.(lock := Suspend(w, false), waiters := l.waiters[w := Waiter(Suspending, true, Unregistered, 0, 0, 0)]);
    asked := if yes then AfterHit(begun) else begun.(lock := Suspend(w, true));
    if !yes {
      var x := asked.waiters[w].(at := Queued, stop := Registered);
      var queued := asked.(lock := Free, queue := asked.queue + [w], waiters := asked.waiters[w := x]);
      assert Next(asked, Enqueue, queued);
    }
  }
}
