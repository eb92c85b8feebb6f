/** A group of tasks whose completions are taken one at a time by an awaiter.

    Tasks are numbers; a completion carries the task's value, or None when the task was
    stopped.  Everything runs in the event loop of the group, but asking a task to stop may
    complete it at once, in the middle of the call.
 */
module TaskGroups {
  import opened Common

  type Value = int

  datatype Completion = Completion(task: nat, value: Option<Value>)

  // What has become of the coroutine that waits in `next`.
  datatype Caller = Waiting | Scheduled | Stopped

  // The pending `next` of a group: none, registered for a completion (draining the group
  // once it was asked to stop), given one, or reported stopped.
  datatype Wait = NoWait | Registered(stopping: bool) | Got | Cancelled

  datatype Outcome = Finished | Abandoned | Suspended

  // How often a task occurs in a list, and among completions.
  function Times(s: seq<nat>, t: nat): (r: nat) {
    if s == [] then 0 else Times(s[..|s| - 1], t) + (if s[|s| - 1] == t then 1 else 0)
  }

  function TimesDone(cs: seq<Completion>, t: nat): (r: nat) {
    if cs == [] then 0 else TimesDone(cs[..|cs| - 1], t) + (if cs[|cs| - 1].task == t then 1 else 0)
  }

  // The values of the tasks that were not stopped.
  function Values(cs: seq<Completion>): (r: seq<Value>) {
    if cs == [] then []
    else Values(cs[..|cs| - 1]) + (if cs[|cs| - 1].value.Some? then [cs[|cs| - 1].value.value] else [])
  }

  // `at` are the positions of the completions that carry a value, in order, and `values` are
  // these values.
  ghost predicate Picks(cs: seq<Completion>, values: seq<Value>, at: seq<nat>) {
    && |at| == |values|
    && (forall j | 0 <= j < |at| :: at[j] < |cs| && cs[at[j]].value == Some(values[j]))
    && (forall i, j | 0 <= i < j < |at| :: at[i] < at[j])
    && (forall i | 0 <= i < |cs| && cs[i].value.Some? :: Among(at, i))
  }

  ghost predicate Among(at: seq<nat>, i: int) {
    exists j :: 0 <= j < |at| && at[j] == i
  }

  lemma {:induction false} ValuesInOrder(cs: seq<Completion>) returns (at: seq<nat>)
    ensures Picks(cs, Values(cs), at)
  {
    at := [];
    if cs != [] {
      var before, last := cs[..|cs| - 1], cs[|cs| - 1];
      assert cs == before + [last];
      at := ValuesInOrder(before);
      if last.value.Some? {
        PicksOneMore(before, Values(before), at, last);
        at := at + [|before|];
      } else {
        PicksNoMore(before, Values(before), at, last);
      }
    }
  }

  lemma PicksOneMore(cs: seq<Completion>, values: seq<Value>, at: seq<nat>, c: Completion)
    requires Picks(cs, values, at) && c.value.Some?
    ensures Picks(cs + [c], values + [c.value.value], at + [|cs|])
  {
    var more := at + [|cs|];
    forall i | 0 <= i < |cs + [c]| && (cs + [c])[i].value.Some? ensures Among(more, i) {
      if i < |cs| {
        assert Among(at, i);
        var j :| 0 <= j < |at| && at[j] == i;
        assert more[j] == i;
      } else {
        assert more[|at|] == i;
      }
    }
  }

  lemma PicksNoMore(cs: seq<Completion>, values: seq<Value>, at: seq<nat>, c: Completion)
    requires Picks(cs, values, at) && c.value.None?
    ensures Picks(cs + [c], values, at)
  {
  }

  // What a completion does to the pending `next` when it leaves `running` tasks behind, and
  // to the completions taken so far.
  function Notified(w: Wait, running: seq<nat>): (r: Wait) {
    match w
    case Registered(stopping) => if !stopping then Got else if running == [] then Cancelled else w
    case _ => w
  }

  function TakenBy(w: Wait, taken: seq<Completion>, c: Completion): (r: seq<Completion>) {
    if w == Registered(true) then taken + [c] else taken
  }

  // Every inserted task is in exactly one of running and finished, once.
  ghost predicate Once(inserted: set<nat>, running: seq<nat>, finished: seq<Completion>) {
    forall t {:trigger Times(running, t)} {:trigger TimesDone(finished, t)} ::
      Times(running, t) + TimesDone(finished, t) == if t in inserted then 1 else 0
  }

  lemma OnceStarted(inserted: set<nat>, running: seq<nat>, finished: seq<Completion>, task: nat)
    requires Once(inserted, running, finished) && task !in inserted
    ensures Once(inserted + {task}, running + [task], finished)
  {
    assert (running + [task])[..|running|] == running;
  }

  lemma OnceFinished(inserted: set<nat>, running: seq<nat>, finished: seq<Completion>, c: Completion)
    requires Once(inserted, running, finished) && c.task !in inserted
    ensures Once(inserted + {c.task}, running, finished + [c])
  {
    assert (finished + [c])[..|finished|] == finished;
  }

  lemma OnceCompleted(inserted: set<nat>, running: seq<nat>, finished: seq<Completion>, c: Completion)
    requires Once(inserted, running, finished) && c.task in running
    ensures Once(inserted, Minus(running, c.task), finished + [c])
    ensures |Minus(running, c.task)| == |running| - 1
  {
    assert (finished + [c])[..|finished|] == finished;
    TimesPositive(running, c.task);
    forall t {
      MinusTimes(running, c.task, t);
    }
    MinusLength(running, c.task);
  }

  // A list without one of its tasks.
  function Minus(s: seq<nat>, t: nat): (r: seq<nat>) {
    if s == [] then [] else Minus(s[..|s| - 1], t) + (if s[|s| - 1] == t then [] else [s[|s| - 1]])
  }

  lemma {:induction false} TimesPositive(s: seq<nat>, t: nat)
    ensures t in s <==> Times(s, t) > 0
  {
    if s != [] {
      TimesPositive(s[..|s| - 1], t);
      assert s == s[..|s| - 1] + [s[|s| - 1]];
    }
  }

  lemma {:induction false} MinusTimes(s: seq<nat>, t: nat, u: nat)
    ensures Times(Minus(s, t), u) == if u == t then 0 else Times(s, u)
  {
    if s != [] {
      MinusTimes(s[..|s| - 1], t, u);
      var m := Minus(s[..|s| - 1], t);
      assert (m + [s[|s| - 1]])[..|m|] == m;
      assert m + [] == m;
    }
  }

  lemma {:induction false} MinusMembers(s: seq<nat>, t: nat)
    ensures forall u | u in Minus(s, t) :: u in s
  {
    if s != [] {
      MinusMembers(s[..|s| - 1], t);
    }
  }

  lemma {:induction false} MinusLength(s: seq<nat>, t: nat)
    ensures |Minus(s, t)| == |s| - Times(s, t)
  {
    if s != [] {
      MinusLength(s[..|s| - 1], t);
    }
  }

  class Awaiter {
    var stopRequested: bool
    var got: bool
    var caller: Caller

    constructor ()
      ensures !stopRequested && !got && caller.Waiting?
    {
      stopRequested, got, caller := false, false, Waiting;
    }
  }

  // `inserted`, `finished` (completions in completion order), `taken` and `asked` (the tasks
  // that were sent a stop) are histories; `waiter` is the awaiter of the pending `next`.
  class TaskGroup {
    var running: seq<nat>
    var completed: seq<Completion>
    var stopRequested: bool
    var numRunning: nat
    var numCompleted: nat
    var awaiter: Awaiter?
    var inserted: set<nat>
    ghost var finished: seq<Completion>
    ghost var taken: seq<Completion>
    ghost var asked: set<nat>
    ghost var waiter: Awaiter?

    ghost function Wait(): (r: Wait)
      reads this`waiter, waiter
    {
      if waiter == null then NoWait
      else if waiter.caller.Scheduled? then Got
      else if waiter.caller.Stopped? then Cancelled
      else Registered(waiter.stopRequested)
    }

    // Completions are taken in completion order, and the counters are right.
    ghost predicate Lists()
      reads this`running, this`numRunning, this`completed, this`numCompleted, this`finished, this`taken
    {
      numRunning == |running| && numCompleted == |completed| && finished == taken + completed
    }

    // The awaiter's flags agree with what its caller is told.
    ghost predicate Flags()
      reads this`awaiter, this`waiter, waiter
    {
      && awaiter == (if Wait().Registered? then waiter else null)
      && (waiter != null ==> (waiter.got <==> waiter.caller.Scheduled?))
      && (waiter != null && waiter.stopRequested ==> !waiter.got)
    }

    // A registered awaiter means that no completion is queued, a resumed one that one is.
    ghost predicate Settled()
      reads this`running, this`numRunning, this`completed, this`numCompleted, this`finished, this`taken,
        this`awaiter, this`waiter, waiter
    {
      && Lists() && Flags()
      && (Wait().Registered? ==> completed == [])
      && (Wait().Got? ==> completed != [])
    }

    ghost predicate Valid()
      reads this`inserted, this`running, this`numRunning, this`completed, this`numCompleted, this`finished, this`taken,
        this`awaiter, this`waiter, waiter
    {
      Once(inserted, running, finished) && Settled()
    }

    // Whoever runs in a stopped group has been asked to stop.
    ghost predicate AllAsked()
      reads this`stopRequested, this`running, this`asked
    {
      stopRequested ==> forall t | t in running :: t in asked
    }

    constructor ()
      ensures Valid() && AllAsked() && running == [] && completed == [] && taken == [] && Wait() == NoWait
    {
      running, completed, stopRequested, numRunning, numCompleted, awaiter := [], [], false, 0, 0, null;
      inserted, finished, taken, asked, waiter := {}, [], [], {}, null;
    }

    method Size() returns (n: nat)
      requires Valid()
      ensures n == |running| + |completed|
    {
      n := numRunning + numCompleted;
    }

    // Insert a task; `done` tells whether it is complete by now, after the stop that a stopped
    // group sends it.
    method Insert(task: nat, done: Option<Option<Value>>)
      requires Valid() && AllAsked() && task !in inserted
      modifies this, waiter
      ensures Valid() && AllAsked() && waiter == old(waiter) && stopRequested == old(stopRequested)
      ensures inserted == old(inserted) + {task}
      ensures done.None? ==>
        running == old(running) + [task] && finished == old(finished) && taken == old(taken) && Wait() == old(Wait())
      ensures done.Some? ==> running == old(running) && CompletedBy(Completion(task, done.value))
    {
      if done.Some? {
        InsertCompleted(task, done.value);
      } else {
        InsertRunning(task);
      }
      if stopRequested {
        asked := asked + {task};
      }
    }

    method InsertCompleted(task: nat, value: Option<Value>)
      requires Valid() && task !in inserted
      modifies this`inserted, this`completed, this`numCompleted, this`finished, this`taken, this`awaiter, waiter
      ensures Valid() && inserted == old(inserted) + {task}
      ensures CompletedBy(Completion(task, value))
    {
      var c := Completion(task, value);
      OnceFinished(inserted, running, finished, c);
      inserted := inserted + {task};
      Complete(c);
    }

    // A completion has come in behind the others, and the pending next has been notified.
    twostate predicate CompletedBy(c: Completion)
      reads this`waiter, this`finished, this`taken, this`running, waiter
    {
      && finished == old(finished) + [c] && taken == TakenBy(old(Wait()), old(taken), c)
      && Wait() == Notified(old(Wait()), running)
    }

    method InsertRunning(task: nat)
      requires Valid() && task !in inserted
      modifies this`inserted, this`running, this`numRunning
      ensures Valid() && inserted == old(inserted) + {task} && running == old(running) + [task]
    {
      OnceStarted(inserted, running, finished, task);
      inserted := inserted + {task};
      numRunning := numRunning + 1;
      running := running + [task];
    }

    // A running task completes.
    method OnTaskCompleted(task: nat, value: Option<Value>)
      requires Valid() && task in running
      modifies this, waiter
      ensures Valid() && waiter == old(waiter) && stopRequested == old(stopRequested) && asked == old(asked)
      ensures inserted == old(inserted) && running == Minus(old(running), task)
      // a waiting next is given it, or drops it and is reported stopped when that was the last
      ensures old(Wait()) == Registered(false) ==> Wait() == Got && completed == [Completion(task, value)]
      ensures old(Wait()) == Registered(true) ==>
        completed == [] && Wait() == (if running == [] then Cancelled else Registered(true))
      ensures !old(Wait()).Registered? ==>
        Wait() == old(Wait()) && completed == old(completed) + [Completion(task, value)]
      ensures var c := Completion(task, value);
        && finished == old(finished) + [c]
        && taken == TakenBy(old(Wait()), old(taken), c) && Wait() == Notified(old(Wait()), running)
    {
      OnceCompleted(inserted, running, finished, Completion(task, value));
      running := Minus(running, task);
      numRunning := numRunning - 1;
      Complete(Completion(task, value));
    }

    // Queue a completion and notify the awaiter.
    method Complete(c: Completion)
      requires Lists() && Flags()
      requires Wait().Registered? ==> completed == []
      requires Wait().Got? ==> completed != []
      modifies this`completed, this`numCompleted, this`finished, this`taken, this`awaiter, waiter
      ensures Settled() && finished == old(finished) + [c]
      ensures !old(Wait()).Registered? ==> completed == old(completed) + [c]
      ensures taken == TakenBy(old(Wait()), old(taken), c) && Wait() == Notified(old(Wait()), running)
    {
      completed := completed + [c];
      numCompleted := numCompleted + 1;
      finished := finished + [c];
      NotifyCompletion();
    }

    method NotifyCompletion()
      requires Lists() && Flags() && completed != []
      requires Wait().Registered? ==> |completed| == 1
      modifies this`completed, this`numCompleted, this`taken, this`awaiter, waiter
      ensures Settled() && (!old(Wait()).Registered? ==> completed == old(completed))
      ensures taken == TakenBy(old(Wait()), old(taken), old(completed[0])) && Wait() == Notified(old(Wait()), running)
    {
      var a := awaiter;
      awaiter := null;
      if a != null {
        OnCompletion(a);
      }
    }

    // The awaiter's side of a completion: take it up, or drop it while draining the group.
    method OnCompletion(a: Awaiter)
      requires Lists() && |completed| == 1 && awaiter == null && a == waiter && a.caller.Waiting? && !a.got
      modifies this`completed, this`numCompleted, this`taken, this`awaiter, a
      ensures Settled()
      ensures taken == TakenBy(old(Wait()), old(taken), old(completed[0])) && Wait() == Notified(old(Wait()), running)
    {
      if a.stopRequested {
        var _ := NextCompletion();
        if numRunning == 0 {
          a.caller := Stopped;
          return;
        }
        awaiter := a;
        return;
      }
      a.got := true;
      a.caller := Scheduled;
    }

    method NextCompletion() returns (c: Completion)
      requires Lists() && completed != []
      modifies this`completed, this`numCompleted, this`taken
      ensures Lists() && c == old(completed[0]) && completed == old(completed[1..]) && taken == old(taken) + [c]
    {
      c := completed[0];
      completed := completed[1..];
      numCompleted := numCompleted - 1;
      taken := taken + [c];
    }

    // What a step of the others does to a pending `next`: completions only come in behind, and
    // none is taken unless the `next` has been asked to stop.
    twostate predicate Onward()
      reads this, waiter
    {
      && waiter == old(waiter) && (old(stopRequested) ==> stopRequested)
      && old(finished) <= finished && old(taken) <= taken
      && (taken == old(taken) || Wait() == Registered(true) || Wait() == Cancelled)
      && (old(Wait()).Registered? || Wait() == old(Wait()))
      && (old(Wait()).Registered? ==> Wait() != NoWait)
      && (old(Wait()) == Registered(true) ==> Wait() == Registered(true) || Wait() == Cancelled)
    }

    // Ask every running task to stop.  Any of them may complete during the call, so the loop
    // runs over a copy of the list.
    method Stop()
      requires Valid() && AllAsked()
      modifies this, waiter
      ensures Valid() && AllAsked() && stopRequested && Onward() && inserted == old(inserted)
      ensures !old(stopRequested) ==> forall t | t in old(running) :: t in asked
      ensures Wait() == Cancelled && old(Wait()) != Cancelled ==> running == [] && completed == []
    {
      if stopRequested {
        return;
      }
      stopRequested := true;
      var copy := running;
      for i := 0 to |copy|
        invariant Valid() && stopRequested && Onward() && inserted == old(inserted)
        invariant forall t | t in running :: t in copy
        invariant forall j | 0 <= j < i :: copy[j] in asked
        invariant Wait() == Cancelled && old(Wait()) != Cancelled ==> running == [] && completed == []
      {
        StopTask(copy[i]);
      }
    }

    method StopTask(task: nat)
      requires Valid()
      modifies this, waiter
      ensures Valid() && Onward() && inserted == old(inserted) && asked == old(asked) + {task}
      ensures forall t | t in running :: t in old(running)
      ensures old(running) == [] ==> running == [] && completed == old(completed)
      ensures stopRequested == old(stopRequested)
      ensures Wait() == Cancelled && old(Wait()) != Cancelled ==> running == [] && completed == []
    {
      asked := asked + {task};
      var atOnce, value: Option<Value> := *, *;
      if atOnce && task in running {
        MinusMembers(running, task);
        OnTaskCompleted(task, value);
      }
    }

    // The coroutine that waits in `next` is asked to stop: too late if it has been given a
    // completion, otherwise it stops the group and drains it.
    method OnStopRequested(a: Awaiter)
      requires Valid() && AllAsked() && waiter == a && !a.caller.Stopped?
      modifies this, a
      ensures Valid() && AllAsked() && Onward() && inserted == old(inserted)
      ensures old(Wait()).Registered? ==> stopRequested && (Wait() == Registered(true) || Wait() == Cancelled)
      ensures Wait() == Cancelled ==> running == [] && completed == []
    {
      if a.got {
        return;
      }
      a.stopRequested := true;
      Stop();
    }

    // Start to wait for a completion.
    method AwaitSuspend() returns (a: Awaiter)
      requires Valid() && completed == [] && waiter == null
      modifies this`awaiter, this`waiter
      ensures Valid() && fresh(a) && waiter == a && Wait() == Registered(false)
    {
      a := new Awaiter();
      waiter := a;
      awaiter := a;
    }

    // Any number of steps of anybody else: tasks are inserted and complete, the group or the
    // waiting coroutine is asked to stop.
    method Others()
      requires Valid() && AllAsked()
      modifies this, waiter
      ensures Valid() && AllAsked() && Onward()
    {
      var n :| 0 <= n;
      for i := 0 to n
        invariant Valid() && AllAsked() && Onward()
      {
        OneOther();
      }
    }

    method OneOther()
      requires Valid() && AllAsked()
      modifies this, waiter
      ensures Valid() && AllAsked() && Onward()
    {
      var choice, task: nat, done, value: Option<Value> := *, *, *, *;
      if choice == 0 && task !in inserted {
        Insert(task, done);
      } else if choice == 1 && task in running {
        MinusMembers(running, task);
        OnTaskCompleted(task, value);
      } else if choice == 2 {
        Stop();
      } else if choice == 3 && awaiter != null {
        OnStopRequested(awaiter);
      }
    }

    // Take the next completion, waiting for it if there is none.  Whoever is resumed finds one.
    method Next() returns (o: Outcome, c: Completion)
      requires Valid() && AllAsked() && waiter == null
      modifies this
      ensures Valid() && AllAsked() && old(finished) <= finished && (old(stopRequested) ==> stopRequested)
      ensures o.Finished? ==> waiter == null && taken == old(taken) + [c]
    {
      c := Completion(0, None);
      if completed == [] {
        var a := AwaitSuspend();
        Others();
        if !a.caller.Scheduled? {
          return if a.caller.Stopped? then Abandoned else Suspended, c;
        }
        waiter := null;
      }
      c := NextCompletion();
      o := Finished;
    }

    // Take everything until the group is empty.  When it gets there, the values are those of
    // all the tasks completed since the call or still queued then, without the stopped ones,
    // in completion order.
    method WaitAll() returns (o: Outcome, values: seq<Value>, ghost at: seq<nat>)
      requires Valid() && AllAsked() && waiter == null
      modifies this
      ensures Valid() && old(taken) <= finished
      ensures o.Finished? ==> running == [] && completed == []
      ensures o.Finished? ==> finished == taken && values == Values(finished[|old(taken)|..])
      ensures o.Finished? ==> Picks(finished[|old(taken)|..], values, at)
    {
      values, at := [], [];
      ghost var got := [];
      var turns :| 0 <= turns;
      for i := 0 to turns
        invariant Valid() && AllAsked() && waiter == null
        invariant taken == old(taken) + got && values == Values(got)
      {
        var size := Size();
        if size == 0 {
          assert finished[|old(taken)|..] == got;
          at := ValuesInOrder(got);
          return Finished, values, at;
        }
        var c;
        o, c := Next();
        if !o.Finished? {
          return;
        }
        assert (got + [c])[..|got|] == got;
        got := got + [c];
        if c.value.Some? {
          values := values + [c.value.value];
        }
      }
      o := Suspended;
    }

    // Stop everything and take all completions.
    method Shutdown() returns (o: Outcome)
      requires Valid() && AllAsked() && waiter == null
      modifies this
      ensures Valid() && old(finished) <= finished
      ensures o.Finished? ==> stopRequested && running == [] && finished == taken
    {
      Stop();
      var turns :| 0 <= turns;
      for i := 0 to turns
        invariant Valid() && AllAsked() && waiter == null && stopRequested && old(finished) <= finished
      {
        var size := Size();
        if size == 0 {
          return Finished;
        }
        var next, _ := Next();
        if !next.Finished? {
          return next;
        }
      }
      o := Suspended;
    }
  }
}
