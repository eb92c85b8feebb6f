/** A scope that waits for all its tasks.

    While `Stop` walks the list of running tasks, a task that completes stays in the list and
    is unlinked by a clean-up that the event loop runs later.
 */
module TaskScopes {
  import opened Common

  // `done`: completed, but still listed until its clean-up runs.
  datatype Entry = Entry(task: nat, done: bool)

  // The coroutine that waits for the scope.
  datatype Waiter = NoWaiter | Waits | Scheduled | Stopped

  function Live(s: seq<Entry>): (n: nat)
    ensures n <= |s|
  {
    if s == [] then 0 else Live(s[..|s| - 1]) + (if s[|s| - 1].done then 0 else 1)
  }

  function Listed(s: seq<Entry>): (r: seq<nat>)
    ensures |r| == |s| && forall i | 0 <= i < |s| :: r[i] == s[i].task
  {
    seq(|s|, i requires 0 <= i < |s| => s[i].task)
  }

  // The list when its k-th task has completed: unlinked, or marked while a stop walks it.
  function Completed(s: seq<Entry>, k: nat, stopping: bool): (r: seq<Entry>)
    requires k < |s|
  {
    if stopping then s[k := Entry(s[k].task, true)] else Without(s, k)
  }

  lemma {:induction false} LiveConcat(a: seq<Entry>, b: seq<Entry>)
    ensures Live(a + b) == Live(a) + Live(b)
  {
    if b == [] {
      assert a + b == a;
    } else {
      assert (a + b)[..|a + b| - 1] == a + b[..|b| - 1];
      LiveConcat(a, b[..|b| - 1]);
    }
  }

  // None runs exactly when all that are listed have completed.
  lemma {:induction false} LiveZero(s: seq<Entry>)
    ensures Live(s) == 0 <==> forall i | 0 <= i < |s| :: s[i].done
  {
    if s != [] {
      LiveZero(s[..|s| - 1]);
      assert forall i | 0 <= i < |s| - 1 :: s[..|s| - 1][i] == s[i];
    }
  }

  // One entry of the list completes, in place or by leaving it; a finished one just leaves.
  lemma LiveAt(s: seq<Entry>, k: nat)
    requires k < |s|
    ensures !s[k].done ==> Live(s[k := s[k].(done := true)]) == Live(s) - 1 == Live(Without(s, k))
    ensures s[k].done ==> Live(Without(s, k)) == Live(s)
  {
    var one, other := [s[k]], [s[k].(done := true)];
    assert s == s[..k] + one + s[k + 1..];
    assert s[k := s[k].(done := true)] == s[..k] + other + s[k + 1..];
    LiveConcat(s[..k] + one, s[k + 1..]);
    LiveConcat(s[..k] + other, s[k + 1..]);
    LiveConcat(s[..k], s[k + 1..]);
    LiveConcat(s[..k], one);
    LiveConcat(s[..k], other);
    assert one[..0] == [] && other[..0] == [];
  }

  class TaskScope {
    var running: seq<Entry>
    var numRunning: nat
    var stopRequested: bool
    var stopping: bool
    var waiter: Waiter
    var waiterStop: bool        // whether the waiting coroutine has been asked to stop
    ghost var asked: seq<nat>   // the stop requests sent to tasks, in order

    // The counter counts the tasks that run, and somebody waits only while one does.
    ghost predicate Valid()
      reads this
    {
      numRunning == Live(running) && (waiter.Waits? ==> numRunning > 0)
    }

    constructor ()
      ensures Valid() && running == [] && !stopRequested && !stopping && waiter.NoWaiter? && asked == []
    {
      running, numRunning, stopRequested, stopping := [], 0, false, false;
      waiter, waiterStop, asked := NoWaiter, false, [];
    }

    // What the waiter becomes when `left` tasks still run.
    ghost function Woken(w: Waiter, stop: bool, left: nat): (r: Waiter) {
      if w.Waits? && left == 0 then (if stop then Stopped else Scheduled) else w
    }

    // Insert a task, unless it is complete already; a stopped scope asks it to stop, which may
    // complete it at once.
    method Insert(task: nat, completed: bool)
      requires Valid()
      modifies this
      ensures Valid() && stopRequested == old(stopRequested)
      ensures completed ==> running == old(running) && asked == old(asked) && waiter == old(waiter)
      ensures !completed && !stopRequested ==> running == old(running) + [Entry(task, false)] && asked == old(asked)
      ensures !completed && !stopRequested ==> numRunning == old(numRunning) + 1 && waiter == old(waiter)
      // asked to stop, it is listed and counted, or has completed within the call
      ensures !completed && stopRequested ==> asked == old(asked) + [task]
      ensures !completed && stopRequested ==>
        || (&& running == old(running) + [Entry(task, false)]
            && numRunning == old(numRunning) + 1 && waiter == old(waiter))
        || (&& running == old(running) + (if stopping then [Entry(task, true)] else [])
            && numRunning == old(numRunning) && waiter == Woken(old(waiter), waiterStop, numRunning))
    {
      if completed {
        return;
      }
      assert (running + [Entry(task, false)])[..|running|] == running;
      running := running + [Entry(task, false)];
      numRunning := numRunning + 1;
      if stopRequested {
        AskToStop(|running| - 1);
      }
    }

    // The k-th task is asked to stop, and may complete within the call.
    method AskToStop(k: nat)
      requires Valid() && k < |running|
      modifies this`running, this`numRunning, this`waiter, this`asked
      ensures Valid() && asked == old(asked) + [old(running)[k].task]
      ensures
        || (numRunning == old(numRunning) && running == old(running) && waiter == old(waiter))
        || (numRunning == old(numRunning) - 1 && waiter == Woken(old(waiter), waiterStop, numRunning)
            && !old(running)[k].done && running == Completed(old(running), k, stopping))
      ensures stopping ==> Listed(running) == Listed(old(running))
    {
      asked := asked + [running[k].task];
      var atOnce := *;
      if atOnce && !running[k].done {
        OnTaskCompleted(k);
      }
    }

    // The last task to complete wakes the waiter, once, as stopped if that was asked to stop.
    method OnTaskCompleted(k: nat)
      requires Valid() && k < |running| && !running[k].done
      modifies this`running, this`numRunning, this`waiter
      ensures Valid() && numRunning == old(numRunning) - 1
      ensures running == Completed(old(running), k, stopping)
      ensures waiter == Woken(old(waiter), waiterStop, numRunning)
      ensures old(waiter).Waits? && numRunning == 0 ==> waiter == if waiterStop then Stopped else Scheduled
      ensures !old(waiter).Waits? || numRunning > 0 ==> waiter == old(waiter)
    {
      LiveAt(running, k);
      numRunning := numRunning - 1;
      if stopping {
        running := running[k := running[k].(done := true)];
      } else {
        running := Without(running, k);
      }
      if numRunning != 0 || !waiter.Waits? {
        return;
      }
      waiter := if waiterStop then Stopped else Scheduled;
    }

    // The deferred clean-up of a completed task.
    method CleanUp(k: nat)
      requires Valid() && k < |running| && running[k].done && !stopping
      modifies this`running
      ensures Valid() && running == Without(old(running), k)
    {
      LiveAt(running, k);
      running := Without(running, k);
    }

    // Every listed task is asked once, in order, although tasks may complete during the walk.
    method Stop()
      requires Valid() && !stopping
      modifies this
      ensures Valid() && stopRequested && !stopping && Listed(running) == Listed(old(running))
      ensures asked == old(asked) + (if old(stopRequested) then [] else Listed(running))
      ensures waiter == old(waiter) || waiter == Woken(old(waiter), waiterStop, numRunning)
    {
      if stopRequested {
        return;
      }
      stopRequested := true;
      stopping := true;
      ghost var listed := Listed(running);
      var i := 0;
      while i < |running|
        invariant Valid() && stopping && stopRequested && waiterStop == old(waiterStop)
        invariant i <= |running| && Listed(running) == listed
        invariant asked == old(asked) + listed[..i]
        invariant waiter == old(waiter) || (numRunning == 0 && waiter == Woken(old(waiter), waiterStop, 0))
        decreases |running| - i
      {
        assert listed[..i + 1] == listed[..i] + [running[i].task];
        AskToStop(i);
        assert |running| == |listed|;
        i := i + 1;
      }
      assert listed[..i] == listed;
      stopping := false;
    }

    // Wait for the tasks: at once if none runs.
    method AwaitAll() returns (ready: bool)
      requires Valid() && !waiter.Waits?
      modifies this`waiter
      ensures Valid() && (ready <==> Live(running) == 0) && waiter == if ready then old(waiter) else Waits
    {
      if numRunning == 0 {
        return true;
      }
      waiter := Waits;
      return false;
    }
  }
}
