/** The timer service: a multimap of deadlines, the awaiters parked in it, and the cached
    next deadline that is reported to the platform's timer.
 */
module Timer {
  import opened Common

  datatype Entry = Entry(deadline: int, id: nat, awaiter: TimerAwaiter)

  // Entry i stands before entry j: earlier, or inserted earlier for the same deadline.
  ghost predicate Before(s: seq<Entry>, i: int, j: int)
    requires 0 <= i < j < |s|
  {
    s[i].id != s[j].id && (s[i].deadline < s[j].deadline || (s[i].deadline == s[j].deadline && s[i].id < s[j].id))
  }

  // Deadlines ascend and no entry occurs twice.
  ghost predicate Sorted(s: seq<Entry>) {
    forall i, j | 0 <= i < j < |s| :: Before(s, i, j)
  }

  function NextDeadline(s: seq<Entry>): (r: Option<int>) {
    if s == [] then None else Some(s[0].deadline)
  }

  // The number of leading entries whose deadline is not after `now`.
  function DueFrom(s: seq<Entry>, now: int, from: nat): (k: nat)
    requires from <= |s|
    ensures from <= k <= |s|
    ensures forall i | from <= i < k :: s[i].deadline <= now
    ensures k < |s| ==> s[k].deadline > now
    decreases |s| - from
  {
    if from == |s| || s[from].deadline > now then from else DueFrom(s, now, from + 1)
  }

  function Due(s: seq<Entry>, now: int): (k: nat)
    ensures k <= |s|
  {
    DueFrom(s, now, 0)
  }

  // The map's keys: sorted, with ids below `bound`.
  ghost predicate Keys(s: seq<Entry>, bound: nat) {
    Sorted(s) && forall e | e in s :: e.id < bound
  }

  function InsertAt(s: seq<Entry>, k: nat, e: Entry): (r: seq<Entry>)
    requires k <= |s|
  {
    s[..k] + [e] + s[k..]
  }

  lemma InsertMembers(s: seq<Entry>, k: nat, e: Entry)
    requires k <= |s|
    ensures forall f :: f in InsertAt(s, k, e) <==> f in s || f == e
  {
    assert s == s[..k] + s[k..];
  }

  // A new entry goes behind those with the same deadline.
  lemma InsertKeepsKeys(s: seq<Entry>, e: Entry)
    requires Keys(s, e.id)
    ensures Keys(InsertAt(s, Due(s, e.deadline), e), e.id + 1)
  {
    var k := Due(s, e.deadline);
    var r := InsertAt(s, k, e);
    InsertMembers(s, k, e);
    forall i, j | 0 <= i < j < |r| ensures Before(r, i, j) {
      var i0 := if i <= k then i else i - 1;
      var j0 := if j <= k then j else j - 1;
      if i != k && j != k {
        assert Before(s, i0, j0);
      } else if j == k {
        DueIsExact(s, e.deadline, i);
        assert s[i] in s;
      } else {
        DueIsExact(s, e.deadline, j0);
        assert s[j0] in s;
      }
    }
  }

  lemma RemoveKeepsKeys(s: seq<Entry>, k: nat, bound: nat)
    requires Keys(s, bound) && k < |s|
    ensures Keys(Without(s, k), bound)
    ensures forall f :: f in Without(s, k) <==> f in s && f != s[k]
  {
    var r := Without(s, k);
    assert s == s[..k] + [s[k]] + s[k + 1..];
    forall i, j | 0 <= i < j < |r| ensures Before(r, i, j) {
      assert Before(s, if i < k then i else i + 1, if j < k then j else j + 1);
    }
    forall f | f in r ensures f != s[k] {
      var i :| 0 <= i < |r| && r[i] == f;
      assert if i < k then Before(s, i, k) else Before(s, k, i + 1);
    }
  }

  lemma TailKeepsKeys(s: seq<Entry>, bound: nat)
    requires Keys(s, bound) && s != []
    ensures Keys(s[1..], bound)
    ensures forall f :: f in s <==> f == s[0] || f in s[1..]
    ensures s[0] !in s[1..]
  {
    RemoveKeepsKeys(s, 0, bound);
    assert Without(s, 0) == s[1..];
    assert s == [s[0]] + s[1..];
  }

  // The multimap's insertion point.
  method UpperBound(s: seq<Entry>, timepoint: int) returns (k: nat)
    requires Sorted(s)
    ensures k == Due(s, timepoint)
  {
    k := |s|;
    while k > 0 && s[k - 1].deadline > timepoint
      invariant Due(s, timepoint) <= k <= |s|
    {
      k := k - 1;
      DueIsExact(s, timepoint, k);
    }
    if k > 0 {
      DueIsExact(s, timepoint, k - 1);
    }
  }

  function Awaiters(s: seq<Entry>): (r: seq<TimerAwaiter>)
    ensures |r| == |s| && forall i | 0 <= i < |s| :: r[i] == s[i].awaiter
  {
    seq(|s|, i requires 0 <= i < |s| => s[i].awaiter)
  }

  // In a sorted map they are all the entries that are due.
  lemma DueIsExact(s: seq<Entry>, now: int, i: nat)
    requires Sorted(s) && i < |s|
    ensures s[i].deadline <= now <==> i < Due(s, now)
  {
    var k := Due(s, now);
    if k < i {
      assert Before(s, k, i);
    }
  }

  // One turn of the erase loop.
  lemma NextDue(s: seq<Entry>, now: int, n: nat)
    requires Sorted(s) && n < |s|
    ensures s[n..][0] == s[n] && s[n..][1..] == s[n + 1..] && s[n] in s[n..]
    ensures n <= Due(s, now) && s[n].deadline <= now ==> n < Due(s, now)
    ensures Awaiters(s[..n + 1]) == Awaiters(s[..n]) + [s[n].awaiter]
  {
    DueIsExact(s, now, n);
  }

  lemma AllDueFired(s: seq<Entry>, now: int, n: nat)
    requires Sorted(s) && n <= Due(s, now) && (s[n..] == [] || s[n..][0].deadline > now)
    ensures n == Due(s, now)
  {
    if n < |s| {
      DueIsExact(s, now, n);
    }
  }

  // The cached deadline is the earliest one.
  lemma NextDeadlineIsEarliest(s: seq<Entry>)
    requires Sorted(s)
    ensures IsEarliest(s, NextDeadline(s))
  {
    forall i | 0 <= i < |s| ensures s[0].deadline <= s[i].deadline {
      assert i == 0 || Before(s, 0, i);
    }
  }

  // The least deadline of all entries, or nothing if there are none.
  ghost predicate IsEarliest(s: seq<Entry>, next: Option<int>) {
    match next
    case None => s == []
    case Some(d) =>
      && (exists i :: 0 <= i < |s| && s[i].deadline == d)
      && forall i | 0 <= i < |s| :: d <= s[i].deadline
  }

  class TimerAwaiter {
    var timerId: Option<Entry>  // the map iterator
    var schedules: nat          // times the caller was put back to the executor
    var stops: nat              // times the caller was set stopped

    constructor ()
      ensures timerId == None && schedules == 0 && stops == 0
    {
      timerId, schedules, stops := None, 0, 0;
    }

    ghost function Fields(): (f: (Option<Entry>, nat, nat))
      reads this
    {
      (timerId, schedules, stops)
    }

    ghost predicate Served()
      reads this
    {
      timerId == None && schedules + stops == 1
    }
  }

  class TimerService {
    var timers: seq<Entry>
    var prevTimepoint: Option<int>
    var hasCallback: bool
    var reports: seq<Option<int>>          // what the callback was called with
    var executor: seq<TimerAwaiter>        // callers in the order they were scheduled
    var nextId: nat
    ghost var clients: set<TimerAwaiter>   // every awaiter that was ever suspended here

    // Map entries and awaiters that hold a timer id correspond one to one, and every client
    // without one was fired or cancelled exactly once.
    ghost predicate Valid()
      reads this, clients
    {
      && Keys(timers, nextId)
      && (forall e | e in timers :: e.awaiter in clients && e.awaiter.timerId == Some(e))
      && (forall a | a in clients && a.timerId.Some? :: a.timerId.value in timers && a.timerId.value.awaiter == a)
      && (forall a | a in clients :: if a.timerId == None then a.Served() else a.schedules == a.stops == 0)
    }

    // With a callback installed, the cached deadline is the least of all, and the last one reported.
    ghost predicate Cached()
      reads this
    {
      hasCallback ==> IsEarliest(timers, prevTimepoint) && Reported()
    }

    ghost predicate Reported()
      reads this`prevTimepoint, this`reports
    {
      prevTimepoint == if reports == [] then None else reports[|reports| - 1]
    }

    constructor (callback: bool)
      ensures Valid() && Cached() && timers == [] && clients == {} && hasCallback == callback
    {
      timers, prevTimepoint, hasCallback, reports, executor, nextId := [], None, callback, [], [], 0;
      clients := {};
    }

    method TimerChanged()
      modifies this`prevTimepoint, this`reports
      ensures !hasCallback ==> prevTimepoint == old(prevTimepoint) && reports == old(reports)
      ensures hasCallback && Sorted(timers) ==> IsEarliest(timers, prevTimepoint)
      ensures Sorted(timers) && (hasCallback ==> old(Reported())) ==> Cached()
      ensures hasCallback ==>
                reports == old(reports) + if old(prevTimepoint) != prevTimepoint then [prevTimepoint] else []
    {
      if !hasCallback {
        return;
      }
      var timepoint := NextDeadline(timers);
      if Sorted(timers) {
        NextDeadlineIsEarliest(timers);
      }
      if prevTimepoint != timepoint {
        prevTimepoint := timepoint;
        reports := reports + [timepoint];
      }
    }

    // TimerAwaiter::await_suspend
    method SubmitTimer(timepoint: int, awaiter: TimerAwaiter)
      requires Valid() && Cached()
      requires awaiter !in clients && awaiter.timerId == None && awaiter.schedules == awaiter.stops == 0
      modifies this, awaiter
      ensures Valid() && Cached() && hasCallback == old(hasCallback)
      ensures clients == old(clients) + {awaiter} && executor == old(executor)
      ensures awaiter.timerId == Some(Entry(timepoint, old(nextId), awaiter))
      ensures timers == InsertAt(old(timers), Due(old(timers), timepoint), Entry(timepoint, old(nextId), awaiter))
    {
      Emplace(timepoint, awaiter);
      TimerChanged();
    }

    // The map part of submitTimer, and the awaiter's own fields.
    method Emplace(timepoint: int, awaiter: TimerAwaiter)
      requires Valid()
      requires awaiter !in clients && awaiter.timerId == None && awaiter.schedules == awaiter.stops == 0
      modifies this`timers, this`nextId, this`clients, awaiter
      ensures Valid() && clients == old(clients) + {awaiter}
      ensures awaiter.timerId == Some(Entry(timepoint, old(nextId), awaiter))
      ensures timers == InsertAt(old(timers), Due(old(timers), timepoint), Entry(timepoint, old(nextId), awaiter))
    {
      var entry := Entry(timepoint, nextId, awaiter);
      var k := UpperBound(timers, timepoint);
      InsertKeepsKeys(timers, entry);
      InsertMembers(timers, k, entry);
      assert forall e | e in timers :: e.awaiter != awaiter;
      awaiter.timerId := Some(entry);
      timers := InsertAt(timers, k, entry);
      nextId := nextId + 1;
      clients := clients + {awaiter};
    }

    // TimerAwaiter::onStopRequested: a timer that has fired already is left alone.
    method OnStopRequested(awaiter: TimerAwaiter)
      requires Valid() && Cached() && awaiter in clients
      modifies this, awaiter
      ensures Valid() && Cached() && clients == old(clients) && executor == old(executor)
      ensures hasCallback == old(hasCallback)
      ensures awaiter.timerId == None && awaiter.schedules == old(awaiter.schedules)
      ensures old(awaiter.timerId) == None ==> awaiter.stops == old(awaiter.stops) && timers == old(timers)
      ensures old(awaiter.timerId) != None ==> awaiter.stops == 1 && awaiter.schedules == 0
      ensures old(awaiter.timerId) != None ==>
                exists k :: 0 <= k < |old(timers)| && old(timers)[k].awaiter == awaiter
                            && timers == Without(old(timers), k)
    {
      if awaiter.timerId == None {
        return;
      }
      CancelTimer(awaiter);
      TimerChanged();
    }

    // The map part of cancelTimer, and the awaiter's own fields.
    method CancelTimer(awaiter: TimerAwaiter)
      requires Valid() && awaiter in clients && awaiter.timerId != None
      modifies this`timers, awaiter
      ensures Valid() && awaiter.timerId == None && awaiter.schedules == 0 && awaiter.stops == 1
      ensures exists k :: 0 <= k < |old(timers)| && old(timers)[k].awaiter == awaiter
                          && timers == Without(old(timers), k)
    {
      var k := 0;
      while timers[k] != awaiter.timerId.value
        invariant k < |timers| && awaiter.timerId.value in timers[k..]
        decreases |timers| - k
      {
        assert timers[k..] == [timers[k]] + timers[k + 1..];
        k := k + 1;
      }
      RemoveKeepsKeys(timers, k, nextId);
      timers := Without(timers, k);
      awaiter.timerId := None;
      awaiter.stops := awaiter.stops + 1;
    }

    // Fires exactly what is due, in deadline order, each timer once.
    method UpdateTimers(now: int)
      requires Valid() && Cached()
      modifies this, clients
      ensures Valid() && Cached() && clients == old(clients) && hasCallback == old(hasCallback)
      ensures timers == old(timers)[Due(old(timers), now)..]
      ensures executor == old(executor) + Awaiters(old(timers)[..Due(old(timers), now)])
      ensures forall a | a in clients ::
                var fired := Awaiters(old(timers)[..Due(old(timers), now)]);
                a.Fields() == if a in fired then (None, 1, 0) else old(a.Fields())
    {
      if timers == [] {
        assert Awaiters(timers[..Due(timers, now)]) == [] && timers[Due(timers, now)..] == [];
        return;
      }
      var changed, fired := FireDue(now);
      assert fired == Awaiters(old(timers)[..Due(old(timers), now)]);
      if changed {
        TimerChanged();
      }
    }

    // The erase loop of updateTimers.
    method FireDue(now: int) returns (changed: bool, ghost fired: seq<TimerAwaiter>)
      requires Valid()
      modifies this`timers, this`executor, clients
      ensures Valid() && (changed <==> fired != [])
      ensures |fired| == Due(old(timers), now) && timers == old(timers)[|fired|..]
      ensures fired == Awaiters(old(timers)[..|fired|])
      ensures executor == old(executor) + fired
      ensures forall a | a in fired :: a.Fields() == (None, 1, 0)
      ensures forall a | a in clients && a !in fired :: a.Fields() == old(a.Fields())
    {
      changed := false;
      ghost var was, executed := timers, executor;
      ghost var before := map a | a in clients :: a.Fields();
      fired := [];
      while timers != [] && timers[0].deadline <= now
        invariant Valid() && Ledger(fired, before)
        invariant Sorted(was) && FiredUpTo(was, executed, fired, now)
        invariant changed <==> fired != []
        decreases |timers|
      {
        fired := FireNext(was, executed, fired, before, now);
        changed := true;
      }
      AllDueFired(was, now, |fired|);
    }

    // Who has been fired by now, and that nobody else has changed.
    ghost predicate Ledger(fired: seq<TimerAwaiter>, before: map<TimerAwaiter, (Option<Entry>, nat, nat)>)
      reads this, clients
    {
      && (forall a | a in fired :: a in clients)
      && (forall a | a in clients :: a in before && a.Fields() == if a in fired then (None, 1, 0) else before[a])
    }

    // The first entries of `was` have been fired in order and the others are still there.
    ghost predicate FiredUpTo(was: seq<Entry>, executed: seq<TimerAwaiter>, fired: seq<TimerAwaiter>, now: int)
      reads this`timers, this`executor
    {
      && |fired| <= Due(was, now) && timers == was[|fired|..]
      && fired == Awaiters(was[..|fired|]) && executor == executed + fired
    }

    // One turn of the erase loop.
    method FireNext(ghost was: seq<Entry>, ghost executed: seq<TimerAwaiter>, ghost fired: seq<TimerAwaiter>,
                    ghost before: map<TimerAwaiter, (Option<Entry>, nat, nat)>, now: int)
      returns (ghost more: seq<TimerAwaiter>)
      requires Valid() && Ledger(fired, before) && timers != [] && timers[0].deadline <= now
      requires Sorted(was) && FiredUpTo(was, executed, fired, now)
      modifies this`timers, this`executor, timers[0].awaiter
      ensures Valid() && Ledger(more, before) && |more| == |fired| + 1 && timers == old(timers)[1..]
      ensures FiredUpTo(was, executed, more, now)
    {
      NextDue(was, now, |fired|);
      more := fired + [timers[0].awaiter];
      FireFirst(fired, before);
    }

    // TimerAwaiter::onTimeout of the first entry, which is then erased.
    method FireFirst(ghost fired: seq<TimerAwaiter>, ghost before: map<TimerAwaiter, (Option<Entry>, nat, nat)>)
      requires Valid() && Ledger(fired, before) && timers != []
      modifies this`timers, this`executor, timers[0].awaiter
      ensures Valid() && timers == old(timers)[1..] && executor == old(executor) + [old(timers)[0].awaiter]
      ensures Ledger(fired + [old(timers)[0].awaiter], before)
    {
      var awaiter := timers[0].awaiter;
      TailKeepsKeys(timers, nextId);
      assert timers[0] in timers;
      assert forall e | e in timers[1..] :: e.awaiter != awaiter;
      awaiter.timerId := None;
      awaiter.schedules := awaiter.schedules + 1;
      executor := executor + [awaiter];
      timers := timers[1..];
    }
  }
}
