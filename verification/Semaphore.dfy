/** The coroutine semaphore over the wait queue: every permit is somewhere, and no
    release is wasted while somebody waits.
 */
module Semaphore {
  import opened WaitQueue

  // ---- tryAcquire's compare-exchange loop ------------------------------------------

  datatype Attempt = Acquired | Empty | StillTrying

  // observed[i] is the counter at the loop's i-th atomic operation: the load for i == 0,
  // a compare-exchange afterwards; spurious[i] tells that a matching exchange failed anyway.
  // The outcome is decided at a single instant, so the whole loop is one atomic step.
  method TryAcquire(observed: seq<int>, spurious: seq<bool>) returns (r: Attempt, at: nat)
    requires 0 < |observed| == |spurious|
    ensures r == Acquired ==> 0 < at < |observed| && observed[at] == observed[at - 1] > 0 && !spurious[at]
    ensures r == Empty ==> at < |observed| && observed[at] <= 0
    ensures r == StillTrying ==> at == |observed|
    ensures forall i | 0 <= i < at :: observed[i] > 0
    ensures forall i | 0 < i < at :: spurious[i] || observed[i] != observed[i - 1]
  {
    var current := observed[0];
    at := 0;
    while current > 0
      invariant at < |observed| && current == observed[at]
      invariant forall i | 0 <= i < at :: observed[i] > 0
      invariant forall i | 0 < i <= at :: spurious[i] || observed[i] != observed[i - 1]
      decreases |observed| - at
    {
      at := at + 1;
      if at == |observed| {
        return StillTrying, at;
      }
      if observed[at] == current && !spurious[at] {
        return Acquired, at;   // the exchange stored current - 1
      }
      current := observed[at];
    }
    r := Empty;
  }

  // ---- The semaphore as a step machine ------------------------------------------------

  // `live` counts permits held by users (leaked ones included), `handed` the waiters whose
  // predicate took a permit and whose await_resume has not picked it up, `minted` the
  // initial count plus everything added.
  datatype State = State(count: int, line: Line, live: nat, handed: set<Id>, minted: nat)

  datatype SemAction = Acquire | Release | Add(n: nat) | Collect(w: Id) | Queue(a: Action)

  ghost predicate Init(s: State) {
    s.count >= 0 && s == State(s.count, EMPTY, 0, {}, s.count)
  }

  ghost predicate SemNext(s: State, a: SemAction, s': State) {
    match a
    case Acquire => s.count > 0 && s' == s.(count := s.count - 1, live := s.live + 1)
    case Release =>
      && s.live > 0 && Next(s.line, Owe(1), s'.line)
      && s' == s.(count := s.count + 1, live := s.live - 1, line := s'.line)
    case Add(n) =>
      && Next(s.line, Owe(n), s'.line)
      && s' == s.(count := s.count + n, minted := s.minted + n, line := s'.line)
    case Collect(w) =>
      && w in s.handed && w in s.line.waiters && s.line.waiters[w].resumes == 1
      && s' == s.(live := s.live + 1, handed := s.handed - {w})
    case Queue(q) =>
      && !q.Owe? && !q.OweAll? && Next(s.line, q, s'.line)
      && match q
         case Hit =>
           s.count > 0 && s' == s.(count := s.count - 1, handed := s.handed + {Target(s.line)}, line := s'.line)
         case Miss => s.count <= 0 && s' == s.(line := s'.line)
         case _ => s' == s.(line := s'.line)
  }

  ghost predicate NoWakeAll(l: Line) {
    l.owedAll == 0 && !l.lock.WakeAll? && forall w | w in l.waiters :: l.waiters[w].at != Ready
  }

  ghost predicate Inv(s: State) {
    && Wf(s.line) && GrantsKept(s.line) && NoWakeAll(s.line)
    && s.count >= 0
    && s.count + s.live + |s.handed| == s.minted
    && AllGranted(s.line, s.handed)
    && NoLostWakeup(s.count, 0, s.line)
  }

  lemma NoWakeAllKept(l: Line, a: Action, l': Line)
    requires NoWakeAll(l) && Next(l, a, l') && a != OweAll
    ensures NoWakeAll(l')
  {
  }

  lemma QueueInvKept(s: State, q: Action, s': State)
    requires Inv(s) && SemNext(s, Queue(q), s')
    ensures Inv(s')
  {
    NextKeepsWf(s.line, q, s'.line);
    GrantsKeptExactly(s.line, q, s'.line);
    NoWakeAllKept(s.line, q, s'.line);
    AllGrantedKept(s.line, q, s'.line, s.handed, s'.handed);
    assert Accounted(s.count, 0, s.line, q, s'.count, 0, s'.line);
    NoLostWakeupKept(s.count, 0, s.line, q, s'.count, 0, s'.line);
  }

  lemma InvKept(s: State, a: SemAction, s': State)
    requires Inv(s) && SemNext(s, a, s')
    ensures Inv(s')
  {
    match a
    case Queue(q) => QueueInvKept(s, q, s');
    case Collect(w) => assert |s.handed - {w}| == |s.handed| - 1;
    case _ =>
  }

  ghost predicate Step(s: State, s': State) {
    exists a :: SemNext(s, a, s')
  }

  ghost predicate Run(r: seq<State>) {
    && |r| > 0 && Init(r[0])
    && forall i | 0 <= i < |r| - 1 :: Step(r[i], r[i + 1])
  }

  lemma InitInv(s: State)
    requires Init(s)
    ensures Inv(s)
  {
  }

  lemma {:induction false} RunInv(r: seq<State>, k: nat)
    requires Run(r) && k < |r|
    ensures Inv(r[k])
  {
    if k == 0 {
      InitInv(r[0]);
    } else {
      RunInv(r, k - 1);
      assert Step(r[k - 1], r[k - 1 + 1]);
      var a :| SemNext(r[k - 1], a, r[k]);
      InvKept(r[k - 1], a, r[k]);
    }
  }

  // Permits are conserved and the counter never goes negative.
  lemma PermitsConserved(r: seq<State>, k: nat)
    requires Run(r) && k < |r|
    ensures r[k].count >= 0 && r[k].count + r[k].live + |r[k].handed| == r[k].minted
    ensures forall w | w in r[k].handed :: w in r[k].line.waiters && r[k].line.waiters[w].stops == 0
  {
    RunInv(r, k);
    assert forall w | w in r[k].handed :: GrantKept(r[k].line.waiters[w]) && Coherent(r[k].line.waiters[w]);
  }

  // While somebody is queued, every free permit has a wake-up under way; once all wake-ups
  // have run, a queued waiter means that every permit is taken.
  lemma WakeupsNotLost(r: seq<State>, k: nat)
    requires Run(r) && k < |r| && r[k].line.queue != []
    ensures r[k].count <= r[k].line.owed + Slack(r[k].line)
    ensures r[k].line.owed == 0 && r[k].line.lock == Free ==>
              r[k].count == 0 && r[k].live + |r[k].handed| == r[k].minted
  {
    RunInv(r, k);
  }

  // What each operation moves, and that no other step of the semaphore moves a permit.
  lemma PermitsMoved(s: State, a: SemAction, s': State)
    requires Inv(s) && SemNext(s, a, s')
    ensures s'.count - s.count == match a
      case Acquire => -1
      case Release => 1
      case Add(n) => n
      case Collect(_) => 0
      case Queue(q) => if q == Hit then -1 else 0
    ensures s'.live - s.live == match a
      case Acquire => 1
      case Release => -1
      case Collect(_) => 1
      case _ => 0
    ensures s'.handed == match a
      case Collect(w) => s.handed - {w}
      case Queue(q) => if q == Hit then s.handed + {Target(s.line)} else s.handed
      case _ => s.handed
    ensures a == Queue(Hit) ==> Target(s.line) !in s.handed
    ensures match a
      case Release => s'.line == s.line.(owed := s.line.owed + 1)
      case Add(n) => s'.line == s.line.(owed := s.line.owed + n)
      case Queue(q) => Next(s.line, q, s'.line)
      case _ => s'.line == s.line
  {
    if a == Queue(Hit) {
      TargetUngranted(s.line);
    }
  }

  // tryAcquire succeeds whenever there is a permit, and a holder can always release.
  lemma Enabledness(s: State)
    requires Inv(s)
    ensures s.count > 0 <==> exists s' :: SemNext(s, Acquire, s')
    ensures s.live > 0 <==> exists s' :: SemNext(s, Release, s')
  {
    if s.count > 0 {
      assert SemNext(s, Acquire, s.(count := s.count - 1, live := s.live + 1));
    }
    if s.live > 0 {
      var l := s.line.(owed := s.line.owed + 1);
      assert SemNext(s, Release, s.(count := s.count + 1, live := s.live - 1, line := l));
    }
  }

  // In any reachable state with a free permit, somebody queued and nobody holding the lock,
  // three steps hand the permit to the first waiter and resume it, using up one wake-up; a
  // fourth one makes it a holder like any other.
  lemma PermitReachesWaiter(r: seq<State>, k: nat) returns (path: seq<State>)
    requires Run(r) && k < |r|
    requires r[k].line.queue != [] && r[k].line.lock.Free? && r[k].count > 0
    ensures |path| == 5 && path[0] == r[k] && forall i | 0 <= i < 4 :: Step(path[i], path[i + 1])
    ensures path[4] == path[3].(live := r[k].live + 1, handed := r[k].handed)
    ensures var w, last := r[k].line.queue[0], path[3];
      && w in last.line.waiters && last.line.waiters[w].at.Settled? && last.line.waiters[w].resumes == 1
      && last.handed == r[k].handed + {w} && last.count == r[k].count - 1
      && last.line.owed == r[k].line.owed - 1 && last.line.queue == r[k].line.queue[1..]
  {
    RunInv(r, k);
    NobodyQueuedHolds(r[k]);
    path := HandOver(r[k]);
  }

  lemma NobodyQueuedHolds(s: State)
    requires Inv(s)
    ensures forall w | w in s.line.queue :: w !in s.handed
  {
    forall w | w in s.line.queue ensures w !in s.handed {
      assert Coherent(s.line.waiters[w]);
    }
  }

  lemma HandOver(s: State) returns (path: seq<State>)
    requires Wf(s.line) && s.line.queue != [] && s.line.lock.Free? && s.line.owed > 0
    requires s.count > 0 && s.line.queue[0] !in s.handed
    ensures |path| == 5 && path[0] == s && forall i | 0 <= i < 4 :: Step(path[i], path[i + 1])
    ensures path[4] == path[3].(live := s.live + 1, handed := s.handed)
    ensures var w, last := s.line.queue[0], path[3];
      && w in last.line.waiters && last.line.waiters[w].at.Settled? && last.line.waiters[w].resumes == 1
      && last.handed == s.handed + {w} && last.count == s.count - 1
      && last.line.owed == s.line.owed - 1 && last.line.queue == s.line.queue[1..]
  {
    var w := s.line.queue[0];
    var begun, woken, served := FirstWaiterServed(s.line);
    var a := s.(line := begun);
    var b := s.(count := s.count - 1, handed := s.handed + {w}, line := woken);
    var c := b.(line := served);
    var d := c.(live := c.live + 1, handed := c.handed - {w});
    assert SemNext(s, Queue(BeginWake), a) && SemNext(a, Queue(Hit), b);
    assert SemNext(b, Queue(Resume(w)), c) && SemNext(c, Collect(w), d);
    path := [s, a, b, c, d];
  }
}
