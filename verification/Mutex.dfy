/** The coroutine mutex: its flag-and-queue protocol is a semaphore with one permit. */
module Mutex {
  import opened WaitQueue
  import Sem = Semaphore

  // `live` guards own the lock, `leaked` owners gave their guard up with leak()/release(),
  // `handed` waiters locked it in their predicate and have not built their guard yet.
  datatype State = State(locked: bool, line: Line, live: nat, leaked: nat, handed: set<Id>)

  datatype MutexAction = TryLock | Unlock | Leak | UnlockRaw | Collect(w: Id) | Queue(a: Action)

  const INITIAL := State(false, EMPTY, 0, 0, {})

  ghost predicate MutexNext(s: State, a: MutexAction, s': State) {
    match a
    case TryLock => !s.locked && s' == s.(locked := true, live := s.live + 1)
    case Unlock =>      // a guard's unlock: exchange(false), then wakeupOne
      s.live > 0 && Next(s.line, Owe(1), s'.line) && s' == s.(locked := false, live := s.live - 1, line := s'.line)
    case Leak => s.live > 0 && s' == s.(live := s.live - 1, leaked := s.leaked + 1)
    case UnlockRaw =>   // manual unlock by whoever leaked the guard
      && s.leaked > 0 && Next(s.line, Owe(1), s'.line)
      && s' == s.(locked := false, leaked := s.leaked - 1, line := s'.line)
    case Collect(w) =>
      && w in s.handed && w in s.line.waiters && s.line.waiters[w].resumes == 1
      && s' == s.(live := s.live + 1, handed := s.handed - {w})
    case Queue(q) =>
      && !q.Owe? && !q.OweAll? && Next(s.line, q, s'.line)
      && match q
         case Hit => !s.locked && s' == s.(locked := true, handed := s.handed + {Target(s.line)}, line := s'.line)
         case Miss => s.locked && s' == s.(line := s'.line)
         case _ => s' == s.(line := s'.line)
  }

  function Owners(s: State): (r: nat) {
    s.live + s.leaked + |s.handed|
  }

  function AsSemaphore(s: State): (r: Sem.State) {
    Sem.State(if s.locked then 0 else 1, s.line, s.live + s.leaked, s.handed, 1)
  }

  // Each mutex step is a semaphore step, except leaking a guard, which moves nothing.
  lemma Refines(s: State, a: MutexAction, s': State)
    requires Sem.Inv(AsSemaphore(s)) && MutexNext(s, a, s')
    ensures a == Leak || Sem.Step(AsSemaphore(s), AsSemaphore(s'))
    ensures a == Leak ==> AsSemaphore(s') == AsSemaphore(s)
  {
    var b := match a
      case TryLock => Sem.Acquire
      case Unlock => Sem.Release
      case Leak => Sem.Acquire
      case UnlockRaw => Sem.Release
      case Collect(w) => Sem.Collect(w)
      case Queue(q) => Sem.Queue(q);
    assert a == Leak || Sem.SemNext(AsSemaphore(s), b, AsSemaphore(s'));
  }

  ghost predicate Step(s: State, s': State) {
    exists a :: MutexNext(s, a, s')
  }

  ghost predicate Run(r: seq<State>) {
    && |r| > 0 && r[0] == INITIAL
    && forall i | 0 <= i < |r| - 1 :: Step(r[i], r[i + 1])
  }

  lemma InvKept(s: State, a: MutexAction, s': State)
    requires Sem.Inv(AsSemaphore(s)) && MutexNext(s, a, s')
    ensures Sem.Inv(AsSemaphore(s'))
  {
    Refines(s, a, s');
    if a != Leak {
      var b :| Sem.SemNext(AsSemaphore(s), b, AsSemaphore(s'));
      Sem.InvKept(AsSemaphore(s), b, AsSemaphore(s'));
    }
  }

  lemma {:induction false} RunInv(r: seq<State>, k: nat)
    requires Run(r) && k < |r|
    ensures Sem.Inv(AsSemaphore(r[k]))
  {
    if k == 0 {
      Sem.InitInv(Sem.State(1, EMPTY, 0, {}, 1));
      assert AsSemaphore(r[k]) == Sem.State(1, EMPTY, 0, {}, 1);
    } else {
      RunInv(r, k - 1);
      assert Step(r[k - 1], r[k - 1 + 1]);
      var a :| MutexNext(r[k - 1], a, r[k]);
      InvKept(r[k - 1], a, r[k]);
    }
  }

  // At most one owner, and the flag says exactly whether there is one; so the assertions in
  // unlockRaw, MutexGuard's constructor and await_resume hold whenever an owner runs them.
  lemma OneOwner(r: seq<State>, k: nat)
    requires Run(r) && k < |r|
    ensures Owners(r[k]) == if r[k].locked then 1 else 0
    ensures forall w | w in r[k].handed :: r[k].locked && w in r[k].line.waiters && r[k].line.waiters[w].stops == 0
  {
    RunInv(r, k);
    assert forall w | w in r[k].handed :: GrantKept(r[k].line.waiters[w]) && Coherent(r[k].line.waiters[w]);
    if w :| w in r[k].handed {
      assert |r[k].handed - {w}| == |r[k].handed| - 1;
    }
  }

  // Even with barging tryLock and cancelled waiters, a free mutex with waiters has a
  // wake-up under way; when none is, somebody owns the mutex.
  lemma UnlockReachesWaiters(r: seq<State>, k: nat)
    requires Run(r) && k < |r| && r[k].line.queue != []
    ensures !r[k].locked ==> r[k].line.owed + Slack(r[k].line) >= 1
    ensures r[k].line.owed == 0 && r[k].line.lock == Free ==> Owners(r[k]) == 1
  {
    RunInv(r, k);
    OneOwner(r, k);
  }

  // Trying to lock succeeds exactly on a free mutex, and makes the caller its one owner.
  lemma TryLockTakesIt(r: seq<State>, k: nat)
    requires Run(r) && k < |r|
    ensures !r[k].locked <==> exists s' :: MutexNext(r[k], TryLock, s')
    ensures forall s' | MutexNext(r[k], TryLock, s') ::
      s'.locked && s'.live == 1 && s'.leaked == 0 && s'.handed == {} && s'.line == r[k].line
  {
    OneOwner(r, k);
    if !r[k].locked {
      assert MutexNext(r[k], TryLock, r[k].(locked := true, live := r[k].live + 1));
    }
  }

  // An owner can unlock, by its guard or by hand, which leaves the mutex free with one
  // wake-up more to come.
  lemma UnlockFreesIt(r: seq<State>, k: nat)
    requires Run(r) && k < |r|
    ensures r[k].live > 0 <==> exists s' :: MutexNext(r[k], Unlock, s')
    ensures r[k].leaked > 0 <==> exists s' :: MutexNext(r[k], UnlockRaw, s')
    ensures forall s' | MutexNext(r[k], Unlock, s') || MutexNext(r[k], UnlockRaw, s') ::
      !s'.locked && Owners(s') == 0 && s'.line == r[k].line.(owed := r[k].line.owed + 1)
  {
    OneOwner(r, k);
    var s, l := r[k], r[k].line.(owed := r[k].line.owed + 1);
    if s.live > 0 {
      assert MutexNext(s, Unlock, s.(locked := false, live := s.live - 1, line := l));
    }
    if s.leaked > 0 {
      assert MutexNext(s, UnlockRaw, s.(locked := false, leaked := s.leaked - 1, line := l));
    }
  }

  // In any reachable state with the mutex free, somebody queued and nobody holding the queue's
  // lock, three steps make the first waiter the owner and resume it; a fourth one gives it its
  // guard.
  lemma LockReachesWaiter(r: seq<State>, k: nat) returns (path: seq<State>)
    requires Run(r) && k < |r|
    requires r[k].line.queue != [] && r[k].line.lock.Free? && !r[k].locked
    ensures |path| == 5 && path[0] == r[k] && forall i | 0 <= i < 4 :: Step(path[i], path[i + 1])
    ensures path[4] == path[3].(live := 1, handed := {})
    ensures var w, last := r[k].line.queue[0], path[3];
      && w in last.line.waiters && last.line.waiters[w].at.Settled? && last.line.waiters[w].resumes == 1
      && last.locked && last.handed == {w} && last.line.owed == r[k].line.owed - 1
  {
    RunInv(r, k);
    OneOwner(r, k);
    UnlockReachesWaiters(r, k);
    var s := r[k];
    var begun, woken, served := FirstWaiterServed(s.line);
    var a := s.(line := begun);
    var b := s.(locked := true, handed := s.handed + {s.line.queue[0]}, line := woken);
    var c := b.(line := served);
    assert MutexNext(s, Queue(BeginWake), a);
    assert MutexNext(a, Queue(Hit), b);
    assert MutexNext(b, Queue(Resume(s.line.queue[0])), c);
    var d := c.(live := c.live + 1, handed := c.handed - {s.line.queue[0]});
    assert MutexNext(c, Collect(s.line.queue[0]), d);
    path := [s, a, b, c, d];
  }

  // Leaking a guard keeps the mutex locked, and hands its owner over to a manual unlock.
  lemma LeakKeepsItLocked(r: seq<State>, k: nat, s': State)
    requires Run(r) && k < |r| && MutexNext(r[k], Leak, s')
    ensures r[k].live == 1 && s'.live == 0 && s'.leaked == 1 && s'.locked && s'.handed == {} && s'.line == r[k].line
    ensures exists s'' :: MutexNext(s', UnlockRaw, s'')
  {
    OneOwner(r, k);
    assert MutexNext(s', UnlockRaw, s'.(locked := false, leaked := 0, line := s'.line.(owed := s'.line.owed + 1)));
  }
}
