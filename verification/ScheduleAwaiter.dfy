/** Running a task on another executor: a four-state word decides who resumes the caller.

    The task's executor and the caller's executor each run their posted callbacks one at a
    time; a stop request, its delivery and the task's completion interleave freely.
 */
module ScheduleAwaiter {
  datatype Word = Running | StopPending | StopHandled | Completed

  // Posted callbacks that refer to the awaiter.
  datatype Callback = StopInvoke | InvokeLater | Invoke

  // onStopRequested: not called, won its exchange but has not posted yet, returned.
  datatype StopRequest = NotAsked | Posting | Asked

  datatype State = State(
    word: Word, request: StopRequest, executor: seq<Callback>, caller: seq<Callback>,
    completions: nat, forwarded: nat, invokes: nat)

  datatype Action = RequestStop | PostStop | CompleteTask | RunExecutor | RunCaller

  const INITIAL := State(Running, NotAsked, [], [], 0, 0, 0)

  predicate Enabled(s: State, a: Action) {
    match a
    case RequestStop => s.request == NotAsked && s.invokes == 0   // registered until the caller goes on
    case PostStop => s.request == Posting
    case CompleteTask => s.completions == 0
    case RunExecutor => s.executor != []
    case RunCaller => s.caller != []
  }

  function Next(s: State, a: Action): (r: State)
    requires Enabled(s, a)
  {
    match a
    case RequestStop =>
      if s.word == Running then s.(word := StopPending, request := Posting) else s.(request := Asked)
    case PostStop => s.(request := Asked, executor := s.executor + [StopInvoke])
    case CompleteTask =>
      var t := s.(word := Completed, completions := s.completions + 1);
      if s.word == StopPending then t else t.(executor := s.executor + [InvokeLater])
    case RunExecutor =>
      var t := s.(executor := s.executor[1..]);
      (match s.executor[0]
       case StopInvoke =>
         if s.word == StopPending then t.(word := StopHandled, forwarded := s.forwarded + 1)
         else if s.word == Completed then t.(executor := t.executor + [Invoke])
         else t
       case InvokeLater => t.(caller := s.caller + [Invoke])
       case Invoke => t.(invokes := s.invokes + 1))
    case RunCaller => s.(caller := s.caller[1..], invokes := s.invokes + 1)
  }

  ghost predicate Does(s: State, a: Action, t: State) {
    Enabled(s, a) && t == Next(s, a)
  }

  ghost predicate Step(s: State, t: State) {
    exists a :: Does(s, a, t)
  }

  ghost predicate Run(r: seq<State>) {
    && |r| > 0 && r[0] == INITIAL
    && forall i | 0 <= i < |r| - 1 :: Step(r[i], r[i + 1])
  }

  // The one callback through which the caller will be resumed, or the post that leads to it.
  ghost predicate Pending(s: State) {
    || (s.executor == [InvokeLater] && s.caller == [] && s.request != Posting)
    || (s.executor == [] && s.caller == [Invoke] && s.request != Posting)
    || (s.executor == [] && s.caller == [] && s.request == Posting)
    || (s.executor == [StopInvoke] && s.caller == [] && s.request == Asked)
    || (s.executor == [Invoke] && s.caller == [] && s.request == Asked)
  }

  ghost predicate Quiet(s: State) {
    s.executor == [] && s.caller == [] && s.request != Posting
  }

  ghost predicate Inv(s: State) {
    match s.word
    case Running => Quiet(s) && s.request == NotAsked && s.completions == s.invokes == s.forwarded == 0
    case StopPending =>
      && s.caller == [] && s.completions == s.invokes == s.forwarded == 0
      && ((s.request == Posting && s.executor == []) || (s.request == Asked && s.executor == [StopInvoke]))
    case StopHandled => Quiet(s) && s.request == Asked && s.completions == s.invokes == 0 && s.forwarded == 1
    case Completed =>
      && s.completions == 1 && s.forwarded <= 1
      && if s.invokes == 0 then Pending(s) else s.invokes == 1 && Quiet(s)
  }

  lemma InvKept(s: State, a: Action)
    requires Inv(s) && Enabled(s, a)
    ensures Inv(Next(s, a))
  {
    if s.executor != [] {
      assert s.executor[1..] == [];
    }
    if s.caller != [] {
      assert s.caller[1..] == [];
    }
  }

  // Work left: every step uses some up.
  function Weight(q: seq<Callback>): (r: nat) {
    if q == [] then 0
    else (match q[0] case StopInvoke => 3 case InvokeLater => 2 case Invoke => 1) + Weight(q[1..])
  }

  function Fuel(s: State): (r: nat) {
    (match s.request case NotAsked => 5 case Posting => 4 case Asked => 0)
    + (if s.completions == 0 then 3 else 0) + Weight(s.executor) + |s.caller|
  }

  lemma {:induction false} WeightAppend(q: seq<Callback>, c: Callback)
    ensures Weight(q + [c]) == Weight(q) + Weight([c])
  {
    if q == [] {
      assert q + [c] == [c];
    } else {
      assert (q + [c])[1..] == q[1..] + [c];
      WeightAppend(q[1..], c);
    }
  }

  lemma StepUsesFuel(s: State, a: Action)
    requires Inv(s) && Enabled(s, a)
    ensures Fuel(Next(s, a)) < Fuel(s)
  {
    WeightAppend(s.executor, StopInvoke);
    WeightAppend(s.executor, InvokeLater);
    if s.executor != [] {
      WeightAppend(s.executor[1..], Invoke);
    }
  }

  lemma {:induction false} RunInv(r: seq<State>, k: nat)
    requires Run(r) && k < |r|
    ensures Inv(r[k]) && Fuel(r[k]) + k <= Fuel(INITIAL)
  {
    if k > 0 {
      RunInv(r, k - 1);
      assert Step(r[k - 1], r[k - 1 + 1]);
      var a :| Does(r[k - 1], a, r[k]);
      InvKept(r[k - 1], a);
      StepUsesFuel(r[k - 1], a);
    }
  }

  // invoke runs at most once, only once the task has completed, and leaves no callback
  // that refers to the awaiter; a stop reaches the task at most once.
  lemma InvokeAtMostOnce(r: seq<State>, k: nat)
    requires Run(r) && k < |r|
    ensures r[k].invokes <= 1 && r[k].forwarded <= 1
    ensures r[k].invokes == 1 ==> r[k].word == Completed && Quiet(r[k])
    ensures forall c | c in r[k].caller + r[k].executor && c == Invoke :: r[k].word == Completed && r[k].invokes == 0
  {
    RunInv(r, k);
  }

  // The run cannot go on.
  ghost predicate Ended(s: State) {
    forall a :: !Enabled(s, a)
  }

  // Every run ends after a bounded number of steps, and where it ends invoke has run.
  lemma InvokeExactlyOnce(r: seq<State>)
    requires Run(r)
    ensures |r| <= 9
    ensures Ended(r[|r| - 1]) ==> r[|r| - 1].invokes == 1
  {
    var last := r[|r| - 1];
    RunInv(r, |r| - 1);
    assert Fuel(INITIAL) == 8;
    if Ended(last) {
      assert !Enabled(last, CompleteTask) && !Enabled(last, PostStop);
      assert !Enabled(last, RunExecutor) && !Enabled(last, RunCaller);
    }
  }

  // Unless the task completed while a stop was on its way, invoke runs on the caller's
  // executor: it is posted there, and never to the task's.
  lemma InvokeStaysWithCaller(s: State, a: Action)
    requires Inv(s) && Enabled(s, a)
    ensures Invoke in Next(s, a).executor && Invoke !in s.executor ==>
      a == RunExecutor && s.executor[0] == StopInvoke && s.word == Completed
    ensures a == CompleteTask && s.word != StopPending ==>
      Next(s, a).executor == s.executor + [InvokeLater] && StopInvoke !in Next(s, a).executor
    ensures a == RunExecutor && s.executor[0] == InvokeLater ==>
      && Next(s, a).caller == s.caller + [Invoke] && Next(s, a).executor == s.executor[1..]
      && Next(s, a).invokes == s.invokes
    ensures a == RunCaller ==> s.caller[0] == Invoke && Next(s, a).invokes == s.invokes + 1
  {
  }

  // A completion that found the task Running or its stop handled: from then on the caller is
  // resumed through its own executor.
  ghost predicate ThroughCaller(s: State) {
    && s.word == Completed && s.request != Posting
    && (s.executor == [] || s.executor == [InvokeLater])
    && (s.caller == [] || s.caller == [Invoke])
  }

  lemma ThroughCallerKept(s: State, a: Action, t: State)
    requires Inv(s) && Does(s, a, t) && ThroughCaller(s)
    ensures ThroughCaller(t) && (t.invokes == s.invokes || InvokedByCaller(s, t))
  {
    if s.executor != [] {
      assert s.executor[1..] == [];
    }
    if s.caller != [] {
      assert s.caller[1..] == [];
    }
  }

  // The caller's executor has run invoke.
  ghost predicate InvokedByCaller(s: State, t: State) {
    t.invokes == s.invokes + 1 && s.caller == [Invoke] && t.caller == []
  }

  lemma CompletionLeadsToCaller(s: State, a: Action, t: State)
    requires Inv(s) && Does(s, a, t)
    requires (s.word == Running || s.word == StopHandled) && t.word == Completed
    ensures ThroughCaller(t) && t.invokes == s.invokes == 0
  {
  }

  lemma CallerStep(s: State, t: State)
    requires Inv(s) && Step(s, t)
    ensures ThroughCaller(s) ==> CallerKept(s, t)
    ensures CompletesPlainly(s, t) ==> ThroughCaller(t) && t.invokes == s.invokes == 0
  {
    var a :| Does(s, a, t);
    if ThroughCaller(s) {
      ThroughCallerKept(s, a, t);
    }
    if CompletesPlainly(s, t) {
      CompletionLeadsToCaller(s, a, t);
    }
  }

  // The task completes with no stop on its way.
  ghost predicate CompletesPlainly(s: State, t: State) {
    (s.word == Running || s.word == StopHandled) && t.word == Completed
  }

  lemma CallerStepInRun(r: seq<State>, n: nat)
    requires Run(r) && 0 < n < |r|
    ensures ThroughCaller(r[n - 1]) ==> CallerKept(r[n - 1], r[n])
    ensures CompletesPlainly(r[n - 1], r[n]) ==> ThroughCaller(r[n])
  {
    RunInv(r, n - 1);
    assert Step(r[n - 1], r[n - 1 + 1]);
    CallerStep(r[n - 1], r[n]);
  }

  // Only the caller's executor runs invoke, if anybody does.
  ghost predicate CallerKept(s: State, t: State) {
    ThroughCaller(t) && (t.invokes == s.invokes || InvokedByCaller(s, t))
  }

  // From such a completion on, whenever invoke runs it is the caller's executor that runs it.
  lemma {:induction false} InvokeOnCaller(r: seq<State>, k: nat, n: nat)
    requires Run(r) && k < n < |r| && CompletesPlainly(r[k], r[k + 1])
    ensures ThroughCaller(r[n]) && (n > k + 1 ==> CallerKept(r[n - 1], r[n]))
  {
    CallerStepInRun(r, n);
    if n > k + 1 {
      InvokeOnCaller(r, k, n - 1);
    }
  }

  // A stop that is delivered before the task completes is forwarded to it.
  lemma StopIsForwarded(s: State)
    requires Inv(s) && s.word == StopPending && s.request == Asked
    ensures Enabled(s, RunExecutor) && Next(s, RunExecutor).word == StopHandled
    ensures Next(s, RunExecutor).forwarded == s.forwarded + 1
  {
  }
}
