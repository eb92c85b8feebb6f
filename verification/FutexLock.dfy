/** The three-state futex lock, one atomic operation per step, any number of threads.

    The word and every thread's program counter make up the state.  A weak
    compare-exchange may fail spuriously; a blocked `wait` may return early and
    compares the word again before it goes on.
 */
module FutexLock {
  type Tid = nat

  datatype Word = Unlocked | Locked | LockedWithWaiters

  datatype Pc =
    | Idle                     // outside the lock
    | Acquire                  // about to try Unlocked -> Locked
    | Loop(expected: Word)     // top of the retry loop
    | Check(expected: Word)    // about to test `expected` and perhaps wait
    | Asleep                   // blocked in wait(LockedWithWaiters)
    | Owner                    // lock() has returned
    | Notify                   // unlock() still owes its notify_all

  datatype State = State(word: Word, pc: map<Tid, Pc>) {
    function Goto(t: Tid, p: Pc): (r: State) {
      State(word, pc[t := p])
    }

    ghost predicate At(t: Tid, p: Pc) {
      t in pc && pc[t] == p
    }
  }

  ghost predicate Init(s: State) {
    s.word == Unlocked && forall t | t in s.pc :: s.pc[t] == Idle
  }

  // notify_all: every sleeper goes back to comparing the word.
  function NotifyAll(s: State, t: Tid): (r: State)
    requires t in s.pc
    ensures r.word == s.word && r.pc.Keys == s.pc.Keys && r.pc[t] == Idle
    ensures forall u | u in s.pc && u != t ::
              r.pc[u] == if s.pc[u] == Asleep then Check(LockedWithWaiters) else s.pc[u]
  {
    State(s.word, map u | u in s.pc ::
      if u == t then Idle else if s.pc[u] == Asleep then Check(LockedWithWaiters) else s.pc[u])
  }

  // One atomic operation of thread t.
  ghost predicate ThreadStep(s: State, t: Tid, s': State) {
    t in s.pc &&
    match s.pc[t]
    case Idle => s' == s.Goto(t, Acquire)
    case Acquire =>
      || (s.word == Unlocked && s' == State(Locked, s.pc[t := Owner]))
      || s' == s.Goto(t, Loop(s.word))              // failed, perhaps spuriously
    case Loop(expected) =>
      if expected == Locked then
        || (s.word == Locked && s' == State(LockedWithWaiters, s.pc[t := Check(LockedWithWaiters)]))
        || s' == s.Goto(t, Check(s.word))
      else
        s' == s.Goto(t, Check(expected))
    case Check(expected) =>
      if expected == LockedWithWaiters && s.word == LockedWithWaiters then s' == s.Goto(t, Asleep)
      else s' == s.Goto(t, Acquire)
    case Asleep => s' == s.Goto(t, Check(LockedWithWaiters))   // early return of wait
    case Owner => s' == State(Unlocked, s.pc[t := if s.word == LockedWithWaiters then Notify else Idle])
    case Notify => s' == NotifyAll(s, t)
  }

  ghost predicate Step(s: State, s': State) {
    exists t :: ThreadStep(s, t, s')
  }

  ghost predicate Run(r: seq<State>) {
    && |r| > 0
    && forall i | 0 <= i < |r| - 1 :: Step(r[i], r[i + 1])
  }

  ghost predicate Mutex(s: State) {
    forall t, u | s.At(t, Owner) && s.At(u, Owner) :: t == u
  }

  ghost predicate WordTellsOwnership(s: State) {
    s.word == Unlocked <==> !exists t :: s.At(t, Owner)
  }

  // Whoever sleeps will be notified: by the owner's unlock, or by an unlock that is under way.
  ghost predicate SleepersCovered(s: State) {
    forall t | s.At(t, Asleep) :: s.word == LockedWithWaiters || exists u :: s.At(u, Notify)
  }

  ghost predicate Inv(s: State) {
    Mutex(s) && WordTellsOwnership(s) && SleepersCovered(s)
  }

  lemma StepKeepsOwnership(s: State, t: Tid, s': State)
    requires Inv(s) && ThreadStep(s, t, s')
    ensures Mutex(s') && WordTellsOwnership(s')
  {
    if s.pc[t] == Owner {
      forall u ensures !s'.At(u, Owner) { assert s.At(u, Owner) ==> u == t by { assert s.At(t, Owner); } }
    } else if s'.At(t, Owner) {
      forall u | s'.At(u, Owner) ensures u == t { assert u != t ==> s.At(u, Owner); }
    } else {
      forall u ensures s.At(u, Owner) <==> s'.At(u, Owner) { }
    }
  }

  lemma StepKeepsSleepersCovered(s: State, t: Tid, s': State)
    requires Inv(s) && ThreadStep(s, t, s')
    ensures SleepersCovered(s')
  {
    forall v | s'.At(v, Asleep)
      ensures s'.word == LockedWithWaiters || exists u :: s'.At(u, Notify)
    {
      if s.pc[t] == Owner && s.word == LockedWithWaiters {
        assert s'.At(t, Notify);
      } else if s.At(v, Asleep) && s.word != LockedWithWaiters {
        var u :| s.At(u, Notify);
        assert s'.At(u, Notify);
      } else if s.pc[t] == Owner {
        assert s.At(v, Asleep);
      }
    }
  }

  // The three promises hold in every state of every run.
  lemma {:induction false} Safety(r: seq<State>, k: nat)
    requires Run(r) && Init(r[0]) && k < |r|
    ensures Inv(r[k])
  {
    if k == 0 {
      assert forall t :: !r[0].At(t, Owner) && !r[0].At(t, Asleep);
    } else {
      Safety(r, k - 1);
      assert Step(r[k - 1], r[k - 1 + 1]);
      var t :| ThreadStep(r[k - 1], t, r[k]);
      StepKeepsOwnership(r[k - 1], t, r[k]);
      StepKeepsSleepersCovered(r[k - 1], t, r[k]);
    }
  }

  // unlock()'s assertion: the word an owner exchanges is never Unlocked.
  lemma UnlockFindsLocked(r: seq<State>, k: nat, t: Tid)
    requires Run(r) && Init(r[0]) && k < |r| && r[k].At(t, Owner)
    ensures r[k].word != Unlocked
  {
    Safety(r, k);
  }

  // Nobody is abandoned: from any reachable state a sleeper can be carried to
  // ownership by letting the others finish what they already owe.
  lemma SleeperCanStillAcquire(s: State, t: Tid) returns (r: seq<State>)
    requires Inv(s) && s.At(t, Asleep)
    ensures Run(r) && r[0] == s && |r| <= 6 && r[|r| - 1].At(t, Owner)
    ensures forall i | 0 < i < |r| && r[i].At(t, Owner) :: i == |r| - 1
  {
    // let the owner, if there is one, unlock
    r := [s];
    var a := s;
    if s.word != Unlocked {
      var o :| s.At(o, Owner);
      a := State(Unlocked, s.pc[o := if s.word == LockedWithWaiters then Notify else Idle]);
      assert ThreadStep(s, o, a);
      assert s.word == LockedWithWaiters ==> a.At(o, Notify);
      if s.word != LockedWithWaiters {
        var n :| s.At(n, Notify);
        assert a.At(n, Notify);
      }
      r := r + [a];
    }
    // let a notifier notify, then t compare, retry and win
    var u :| a.At(u, Notify);
    assert a.At(u, Notify);
    assert u in a.pc && a.pc[u] == Notify;
    var b := NotifyAll(a, u);
    assert ThreadStep(a, u, b);
    var c := b.Goto(t, Acquire);
    assert ThreadStep(b, t, c);
    var d := State(Locked, c.pc[t := Owner]);
    assert ThreadStep(c, t, d);
    r := r + [b, c, d];
  }

  // A run can only get stuck with nobody asleep.
  lemma NoDeadlock(s: State)
    requires Inv(s) && forall t | t in s.pc :: s.pc[t] == Idle || s.pc[t] == Asleep
    ensures forall t | t in s.pc :: s.pc[t] == Idle
  {
    assert forall u :: !s.At(u, Owner) && !s.At(u, Notify);
    assert s.word == Unlocked;
    assert forall u :: !s.At(u, Asleep);
    assert forall t | t in s.pc :: s.pc[t] == Asleep ==> s.At(t, Asleep);
  }

  // Against a held lock a thread that tries can mark the word and fall asleep, within three
  // steps of its own, and it sleeps only on a marked word.
  lemma ContenderFallsAsleep(s: State, t: Tid) returns (r: seq<State>)
    requires s.word != Unlocked && s.At(t, Acquire)
    ensures Run(r) && r[0] == s && |r| == 4 && r[3].At(t, Asleep) && r[3].word == LockedWithWaiters
    ensures forall u | u != t && u in s.pc :: u in r[3].pc && r[3].pc[u] == s.pc[u]
  {
    var a := s.Goto(t, Loop(s.word));
    var b := State(LockedWithWaiters, a.pc[t := Check(LockedWithWaiters)]);
    var c := b.Goto(t, Asleep);
    assert ThreadStep(s, t, a) && ThreadStep(a, t, b) && ThreadStep(b, t, c);
    r := [s, a, b, c];
  }

  // A failed attempt leaves a thread that knows the word as it was then.
  lemma FailedAttempt(s: State, t: Tid, s': State)
    requires s.At(t, Acquire) && ThreadStep(s, t, s')
    ensures s'.At(t, Owner) ==> s.word == Unlocked && s'.word == Locked
    ensures !s'.At(t, Owner) ==> s'.word == s.word && s'.At(t, Loop(s.word))
  {
  }

  lemma SleepsOnMarkedWordOnly(s: State, t: Tid, s': State)
    requires ThreadStep(s, t, s') && s'.At(t, Asleep)
    ensures s.word == s'.word == LockedWithWaiters
  {
  }

  // Nobody in the way, two steps take the lock; an owner gives it up in one, and owes the
  // notification exactly if somebody marked the word.
  lemma FreeLockIsTaken(s: State, t: Tid) returns (r: seq<State>)
    requires s.word == Unlocked && s.At(t, Idle)
    ensures Run(r) && r[0] == s && |r| == 3 && r[2].At(t, Owner) && r[2].word == Locked
  {
    var a := s.Goto(t, Acquire);
    var b := State(Locked, a.pc[t := Owner]);
    assert ThreadStep(s, t, a) && ThreadStep(a, t, b);
    r := [s, a, b];
  }

  lemma OwnerGivesUp(s: State, t: Tid, s': State)
    requires s.At(t, Owner) && ThreadStep(s, t, s')
    ensures s'.word == Unlocked
    ensures s'.At(t, Notify) <==> s.word == LockedWithWaiters
    ensures s'.At(t, Idle) <==> s.word != LockedWithWaiters
  {
  }

  // A notification leaves nobody asleep.
  lemma NotifyWakesEverybody(s: State, t: Tid, s': State)
    requires s.At(t, Notify) && ThreadStep(s, t, s')
    ensures forall u :: !s'.At(u, Asleep)
    ensures s'.At(t, Idle) && s'.word == s.word
  {
  }
}
