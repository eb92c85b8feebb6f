/** Posting callbacks to the event loop from other threads, with a coalesced wake-up.

    `pending` and `wakePending` are guarded by one lock, `callbacks` belongs to the loop
    thread, and the eventfd is a counter that the loop waits for.  The eventfd write
    happens outside the lock.
 */
module EventLoop {
  type Poster = nat

  const LOOP: Poster := 0      // the loop's own thread

  datatype Callback = Callback(poster: Poster, serial: nat)

  // `owing` are the posters that still have to write the eventfd; `posted` and `executed`
  // are histories.
  datatype State = State(
    pending: seq<Callback>, callbacks: seq<Callback>, wakePending: bool, eventfd: nat, owing: set<Poster>,
    posted: seq<Callback>, executed: seq<Callback>)

  datatype Action = PostLocal(c: Callback) | PostRemote(c: Callback) | Write(p: Poster) | RunOne | PollCallbacks

  const INITIAL := State([], [], false, 0, {}, [], [])

  predicate Enabled(s: State, a: Action) {
    match a
    case PostLocal(c) => c.poster == LOOP && c !in s.posted
    case PostRemote(c) => c.poster != LOOP && c !in s.posted && c.poster !in s.owing   // one call at a time
    case Write(p) => p in s.owing
    case RunOne => s.callbacks != []
    case PollCallbacks => s.eventfd > 0     // epoll reports the eventfd only when it is readable
  }

  function Next(s: State, a: Action): (r: State)
    requires Enabled(s, a)
  {
    match a
    case PostLocal(c) => s.(callbacks := s.callbacks + [c], posted := s.posted + [c])
    case PostRemote(c) =>
      s.(pending := s.pending + [c], posted := s.posted + [c], wakePending := true,
         owing := if s.wakePending then s.owing else s.owing + {c.poster})
    case Write(p) => s.(eventfd := s.eventfd + 1, owing := s.owing - {p})
    case RunOne => s.(callbacks := s.callbacks[1..], executed := s.executed + [s.callbacks[0]])
    case PollCallbacks =>
      s.(callbacks := s.callbacks + s.pending, pending := [], wakePending := false, eventfd := 0)
  }

  ghost predicate Run(r: seq<State>) {
    && |r| > 0 && r[0] == INITIAL
    && forall i | 0 <= i < |r| - 1 :: exists a :: Enabled(r[i], a) && r[i + 1] == Next(r[i], a)
  }

  // The callbacks of one poster, in order.
  function Of(q: seq<Callback>, p: Poster): (r: seq<Callback>) {
    if q == [] then [] else (if q[0].poster == p then [q[0]] else []) + Of(q[1..], p)
  }

  lemma {:induction false} OfConcat(a: seq<Callback>, b: seq<Callback>, p: Poster)
    ensures Of(a + b, p) == Of(a, p) + Of(b, p)
  {
    if a == [] {
      assert a + b == b;
    } else {
      var ab := a + b;
      assert ab[0] == a[0] && ab[1..] == a[1..] + b;
      OfConcat(a[1..], b, p);
      var first := if a[0].poster == p then [a[0]] else [];
      assert first + (Of(a[1..], p) + Of(b, p)) == (first + Of(a[1..], p)) + Of(b, p);
    }
  }

  lemma {:induction false} OfNone(q: seq<Callback>, p: Poster)
    requires forall c | c in q :: c.poster != p
    ensures Of(q, p) == []
  {
    if q != [] {
      OfNone(q[1..], p);
    }
  }

  // Everything posted so far, in the order it has run or is going to run.
  function Line(s: State): (r: seq<Callback>) {
    s.executed + s.callbacks + s.pending
  }

  // A wake-up is pending exactly when the eventfd is readable or one poster owes its write,
  // never both and never twice; and what is pending has a wake-up.
  ghost predicate WakeOk(s: State) {
    && s.eventfd + |s.owing| == (if s.wakePending then 1 else 0)
    && (s.pending != [] ==> s.wakePending)
    && (forall c | c in s.pending :: c.poster != LOOP)
  }

  // Each callback is posted once, none is lost, and each poster's callbacks keep their order.
  ghost predicate Ordered(line: seq<Callback>, posted: seq<Callback>) {
    && multiset(line) == multiset(posted)
    && (forall i, j | 0 <= i < j < |posted| :: posted[i] != posted[j])
    && forall p :: Of(line, p) == Of(posted, p)
  }

  ghost predicate OrderOk(s: State) {
    Ordered(Line(s), s.posted)
  }

  lemma WakeKept(s: State, a: Action)
    requires WakeOk(s) && Enabled(s, a)
    ensures WakeOk(Next(s, a))
  {
    if a.Write? {
      assert |s.owing - {a.p}| == |s.owing| - 1;
    }
  }

  // A local post overtakes what other threads have pending, which is none of its own.
  lemma PostKeepsOneOrder(before: seq<Callback>, pending: seq<Callback>, posted: seq<Callback>, c: Callback, p: Poster)
    requires Of(before + pending, p) == Of(posted, p)
    requires forall d | d in pending :: d.poster != c.poster
    ensures Of((before + [c]) + pending, p) == Of(posted + [c], p)
  {
    OfConcat(before + [c], pending, p);
    OfConcat(before, [c], p);
    OfConcat(before, pending, p);
    OfConcat(posted, [c], p);
    if p == c.poster {
      OfNone(pending, p);
      assert Of(before, p) + [] == Of(before, p);
    } else {
      assert Of([c], p) == [];
    }
  }

  lemma PostKeepsOrder(before: seq<Callback>, pending: seq<Callback>, posted: seq<Callback>, c: Callback)
    requires Ordered(before + pending, posted) && c !in posted
    requires forall d | d in pending :: d.poster != c.poster
    ensures Ordered((before + [c]) + pending, posted + [c])
  {
    forall p ensures Of((before + [c]) + pending, p) == Of(posted + [c], p) {
      PostKeepsOneOrder(before, pending, posted, c, p);
    }
    assert multiset((before + [c]) + pending) == multiset(before + pending) + multiset{c};
  }

  lemma LineUnchanged(s: State, a: Action)
    requires Enabled(s, a) && !a.PostLocal? && !a.PostRemote?
    ensures Line(Next(s, a)) == Line(s)
  {
    if a == RunOne {
      assert s.callbacks == [s.callbacks[0]] + s.callbacks[1..];
    }
  }

  lemma OrderKept(s: State, a: Action)
    requires WakeOk(s) && OrderOk(s) && Enabled(s, a)
    ensures OrderOk(Next(s, a))
  {
    match a
    case PostLocal(c) =>
      PostKeepsOrder(s.executed + s.callbacks, s.pending, s.posted, c);
      assert s.executed + (s.callbacks + [c]) == (s.executed + s.callbacks) + [c];
    case PostRemote(c) =>
      assert Line(s) + [] == Line(s);
      PostKeepsOrder(Line(s), [], s.posted, c);
      assert Line(Next(s, a)) == (Line(s) + [c]) + [];
    case _ => LineUnchanged(s, a);
  }

  lemma {:induction false} RunInv(r: seq<State>, k: nat)
    requires Run(r) && k < |r|
    ensures WakeOk(r[k]) && OrderOk(r[k])
  {
    if k > 0 {
      RunInv(r, k - 1);
      var a :| Enabled(r[k - 1], a) && r[k - 1 + 1] == Next(r[k - 1], a);
      WakeKept(r[k - 1], a);
      OrderKept(r[k - 1], a);
    }
  }

  // No callback is stranded: as long as one is pending, the loop can be made to take it over
  // by at most the one write that is still owed.
  lemma PendingIsReached(r: seq<State>, k: nat) returns (t: State)
    requires Run(r) && k < |r| && r[k].pending != []
    ensures |r[k].owing| <= 1
    ensures r[k].owing == {} ==> Enabled(r[k], PollCallbacks) && t == Next(r[k], PollCallbacks)
    ensures forall p | p in r[k].owing ::
              Enabled(r[k], Write(p)) && Enabled(Next(r[k], Write(p)), PollCallbacks)
              && t == Next(Next(r[k], Write(p)), PollCallbacks)
    ensures t.pending == [] && t.callbacks == r[k].callbacks + r[k].pending && t.executed == r[k].executed
  {
    RunInv(r, k);
    var s := r[k];
    if s.owing == {} {
      t := Next(s, PollCallbacks);
    } else {
      var p :| p in s.owing;
      assert |s.owing - {p}| == |s.owing| - 1;
      assert s.owing == {p};
      t := Next(Next(s, Write(p)), PollCallbacks);
    }
  }

  // Each callback runs at most once, only after it was posted, and the callbacks of one
  // poster run in the order in which it posted them.
  lemma OnceAndInOrder(r: seq<State>, k: nat, p: Poster)
    requires Run(r) && k < |r|
    ensures multiset(r[k].executed) <= multiset(r[k].posted)
    ensures forall c | c in r[k].executed :: multiset(r[k].executed)[c] == 1
    ensures Of(r[k].executed, p) <= Of(r[k].posted, p)
    ensures r[k].callbacks == r[k].pending == [] ==> Of(r[k].executed, p) == Of(r[k].posted, p)
  {
    RunInv(r, k);
    var s := r[k];
    OfConcat(s.executed, s.callbacks + s.pending, p);
    assert Line(s) == s.executed + (s.callbacks + s.pending);
    forall c | c in s.executed ensures multiset(s.executed)[c] == 1 {
      DistinctOnce(s.posted, c);
    }
  }

  lemma {:induction false} DistinctOnce(q: seq<Callback>, c: Callback)
    requires forall i, j | 0 <= i < j < |q| :: q[i] != q[j]
    ensures multiset(q)[c] <= 1
  {
    if q != [] {
      assert q == q[..|q| - 1] + [q[|q| - 1]];
      DistinctOnce(q[..|q| - 1], c);
      assert c == q[|q| - 1] ==> c !in q[..|q| - 1];
    }
  }

  // What the steps do to the callbacks: a post records its own, from the loop at the end of the
  // loop's queue and from elsewhere at the end of the pending one; the loop runs the first of
  // its queue; polling takes over everything pending; a write moves nothing.
  lemma CallbacksMoved(s: State, a: Action)
    requires Enabled(s, a)
    ensures Next(s, a).posted == match a
      case PostLocal(c) => s.posted + [c]
      case PostRemote(c) => s.posted + [c]
      case _ => s.posted
    ensures match a
      case RunOne => s.callbacks == [Next(s, a).executed[|s.executed|]] + Next(s, a).callbacks
        && |Next(s, a).executed| == |s.executed| + 1 && s.executed <= Next(s, a).executed
      case PostLocal(c) => Next(s, a).executed == s.executed && Next(s, a).callbacks == s.callbacks + [c]
      case PollCallbacks => Next(s, a).executed == s.executed && Next(s, a).callbacks == s.callbacks + s.pending
      case _ => Next(s, a).executed == s.executed && Next(s, a).callbacks == s.callbacks
    ensures match a
      case PostRemote(c) => Next(s, a).pending == s.pending + [c]
      case PollCallbacks => Next(s, a).pending == []
      case _ => Next(s, a).pending == s.pending
  {
  }

  // Only the first remote post since a poll has to write the eventfd, and only that one does.
  lemma WritesCoalesced(r: seq<State>, k: nat, a: Action)
    requires Run(r) && k < |r| && Enabled(r[k], a)
    ensures a.PostRemote? ==>
      Next(r[k], a).owing == if r[k].eventfd == 0 && r[k].owing == {} then {a.c.poster} else r[k].owing
    ensures a.Write? ==> r[k].owing == {a.p} && r[k].eventfd == 0
    ensures a.Write? ==> Next(r[k], a).eventfd == 1 && Next(r[k], a).owing == {}
    ensures a == PollCallbacks ==> r[k].owing == {} && Next(r[k], a).eventfd == 0 && !Next(r[k], a).wakePending
  {
    RunInv(r, k);
    if a.Write? {
      assert |r[k].owing - {a.p}| == |r[k].owing| - 1;
    }
  }

  ghost predicate Path(p: seq<State>) {
    p != [] && forall i | 0 <= i < |p| - 1 :: Follows(p[i], p[i + 1])
  }

  ghost predicate Follows(s: State, t: State) {
    exists a :: Enabled(s, a) && t == Next(s, a)
  }

  lemma PathFrom(s: State, a: Action, rest: seq<State>) returns (p: seq<State>)
    requires Enabled(s, a) && Path(rest) && rest[0] == Next(s, a)
    ensures Path(p) && p[0] == s && |p| == |rest| + 1 && p[|p| - 1] == rest[|rest| - 1]
  {
    p := [s] + rest;
    forall i | 0 <= i < |p| - 1 ensures Follows(p[i], p[i + 1]) {
      assert p[i + 1] == rest[i];
      if i > 0 {
        assert Follows(rest[i - 1], rest[i - 1 + 1]);
      }
    }
  }

  // The loop runs its queue to the end.
  lemma {:induction false} QueueIsRun(s: State) returns (p: seq<State>)
    ensures Path(p) && p[0] == s && |p| == |s.callbacks| + 1
    ensures p[|p| - 1] == s.(callbacks := [], executed := s.executed + s.callbacks)
    decreases |s.callbacks|
  {
    if s.callbacks == [] {
      p := [s];
    } else {
      var rest := QueueIsRun(Next(s, RunOne));
      p := PathFrom(s, RunOne, rest);
      assert s.executed + [s.callbacks[0]] + s.callbacks[1..] == s.executed + s.callbacks;
    }
  }

  // From any reachable state the loop can come to the end of everything posted so far: at most
  // the one write that is owed, one poll, and one step for each callback.
  lemma EveryCallbackRuns(r: seq<State>, k: nat) returns (p: seq<State>)
    requires Run(r) && k < |r|
    ensures Path(p) && p[0] == r[k] && |p| <= |r[k].callbacks| + |r[k].pending| + 3
    ensures p[|p| - 1].executed == Line(r[k]) && p[|p| - 1].callbacks == p[|p| - 1].pending == []
  {
    if r[k].pending == [] {
      p := QueueIsRun(r[k]);
      LineIs(r[k]);
    } else {
      var t := PendingIsReached(r, k);
      p := QueueIsRun(t);
      LineIs(r[k]);
      if r[k].owing == {} {
        p := PathFrom(r[k], PollCallbacks, p);
      } else {
        var w :| w in r[k].owing;
        WriteMovesNothing(r[k], w);
        p := PathFrom(Next(r[k], Write(w)), PollCallbacks, p);
        p := PathFrom(r[k], Write(w), p);
      }
    }
  }

  lemma LineIs(s: State)
    ensures Line(s) == s.executed + (s.callbacks + s.pending)
    ensures s.pending == [] ==> Line(s) == s.executed + s.callbacks
  {
  }

  lemma WriteMovesNothing(s: State, p: Poster)
    requires p in s.owing
    ensures Next(s, Write(p)) == s.(eventfd := s.eventfd + 1, owing := s.owing - {p})
  {
  }

  // A callback that has not been posted yet can be posted at any time: by the loop itself, and
  // by any other thread that is not in the middle of a post.
  lemma PostsArePossible(s: State, c: Callback)
    ensures c !in s.posted && c.poster == LOOP ==> Enabled(s, PostLocal(c))
    ensures c !in s.posted && c.poster != LOOP && c.poster !in s.owing ==> Enabled(s, PostRemote(c))
    ensures s.callbacks != [] ==> Enabled(s, RunOne)
  {
  }
}
