/** One-shot interest re-arming of a polled descriptor.

    `armed` is the mask the kernel watches; delivering an event disarms it, and
    epoll_ctl(MOD) arms it again or fails (`ctlOk` is its outcome).  A mask is the set of
    its bits.
 */
module EpollDescriptor {
  import opened Common

  datatype Bit = EPOLLIN | EPOLLPRI | EPOLLOUT | EPOLLRDHUP | EPOLLERR | EPOLLHUP

  type Events = set<Bit>

  datatype Outcome = Ready(revents: Events) | SystemError

  datatype Awaiter = Awaiter(id: nat, events: Events)

  datatype Notice = Notice(id: nat, outcome: Outcome)

  // Whether an event with this mask wakes the awaiter.
  predicate Wakes(revents: Events, a: Awaiter) {
    a.events * revents != {} || EPOLLERR in revents || EPOLLHUP in revents
  }

  function Kept(s: seq<Awaiter>, revents: Events): (r: seq<Awaiter>) {
    if s == [] then [] else (if Wakes(revents, s[0]) then [] else [s[0]]) + Kept(s[1..], revents)
  }

  function Woken(s: seq<Awaiter>, revents: Events): (r: seq<Notice>) {
    if s == [] then []
    else (if Wakes(revents, s[0]) then [Notice(s[0].id, Ready(revents))] else []) + Woken(s[1..], revents)
  }

  function Failed(s: seq<Awaiter>): (r: seq<Notice>)
    ensures |r| == |s| && forall i | 0 <= i < |s| :: r[i] == Notice(s[i].id, SystemError)
  {
    if s == [] then [] else [Notice(s[0].id, SystemError)] + Failed(s[1..])
  }

  function Union(s: seq<Awaiter>): (r: Events) {
    if s == [] then {} else s[0].events + Union(s[1..])
  }

  lemma {:induction false} UnionCovers(s: seq<Awaiter>, a: Awaiter)
    requires a in s
    ensures a.events <= Union(s)
  {
    if a != s[0] {
      UnionCovers(s[1..], a);
    }
  }

  lemma {:induction false} UnionAppend(s: seq<Awaiter>, a: Awaiter)
    ensures Union(s + [a]) == Union(s) + a.events
  {
    if s == [] {
      assert s + [a] == [a];
    } else {
      assert (s + [a])[1..] == s[1..] + [a];
      UnionAppend(s[1..], a);
    }
  }

  lemma {:induction false} FilterAppend(s: seq<Awaiter>, a: Awaiter, revents: Events)
    ensures Kept(s + [a], revents) == Kept(s, revents) + (if Wakes(revents, a) then [] else [a])
    ensures Woken(s + [a], revents) ==
            Woken(s, revents) + (if Wakes(revents, a) then [Notice(a.id, Ready(revents))] else [])
  {
    if s == [] {
      assert s + [a] == [a];
    } else {
      assert (s + [a])[1..] == s[1..] + [a];
      FilterAppend(s[1..], a, revents);
    }
  }

  // How often an awaiter is parked, has been given a notice, or has been stopped.
  function Parked(s: seq<Awaiter>, id: nat): (n: nat) {
    if s == [] then 0 else (if s[0].id == id then 1 else 0) + Parked(s[1..], id)
  }

  function Told(s: seq<Notice>, id: nat): (n: nat) {
    if s == [] then 0 else (if s[0].id == id then 1 else 0) + Told(s[1..], id)
  }

  function Stopped(s: seq<nat>, id: nat): (n: nat) {
    if s == [] then 0 else (if s[0] == id then 1 else 0) + Stopped(s[1..], id)
  }

  // Each polled awaiter is in exactly one of the three, once, and nobody else is in any.
  ghost predicate Ledger(polled: set<nat>, awaiters: seq<Awaiter>, notices: seq<Notice>, stopped: seq<nat>) {
    forall id: nat :: Entries(awaiters, notices, stopped, id) == if id in polled then 1 else 0
  }

  function Entries(awaiters: seq<Awaiter>, notices: seq<Notice>, stopped: seq<nat>, id: nat): (n: nat) {
    Parked(awaiters, id) + Told(notices, id) + Stopped(stopped, id)
  }

  lemma {:induction false} ParkedConcat(a: seq<Awaiter>, b: seq<Awaiter>, id: nat)
    ensures Parked(a + b, id) == Parked(a, id) + Parked(b, id)
  {
    if a == [] {
      assert a + b == b;
    } else {
      assert (a + b)[1..] == a[1..] + b;
      ParkedConcat(a[1..], b, id);
    }
  }

  lemma {:induction false} ToldConcat(a: seq<Notice>, b: seq<Notice>, id: nat)
    ensures Told(a + b, id) == Told(a, id) + Told(b, id)
  {
    if a == [] {
      assert a + b == b;
    } else {
      assert (a + b)[1..] == a[1..] + b;
      ToldConcat(a[1..], b, id);
    }
  }

  lemma {:induction false} StoppedConcat(a: seq<nat>, b: seq<nat>, id: nat)
    ensures Stopped(a + b, id) == Stopped(a, id) + Stopped(b, id)
  {
    if a == [] {
      assert a + b == b;
    } else {
      assert (a + b)[1..] == a[1..] + b;
      StoppedConcat(a[1..], b, id);
    }
  }

  // Waking turns a parked awaiter into a notice, and so does failing.
  lemma {:induction false} WakingMoves(s: seq<Awaiter>, revents: Events, id: nat)
    ensures Parked(Kept(s, revents), id) + Told(Woken(s, revents), id) == Parked(s, id)
  {
    if s != [] {
      WakingMoves(s[1..], revents, id);
      ParkedConcat(if Wakes(revents, s[0]) then [] else [s[0]], Kept(s[1..], revents), id);
      ToldConcat(if Wakes(revents, s[0]) then [Notice(s[0].id, Ready(revents))] else [], Woken(s[1..], revents), id);
    }
  }

  lemma {:induction false} FailingMoves(s: seq<Awaiter>, id: nat)
    ensures Told(Failed(s), id) == Parked(s, id)
  {
    if s != [] {
      FailingMoves(s[1..], id);
    }
  }

  // The ledger behind a poll, an event, and a stop.
  lemma LedgerPolled(polled: set<nat>, awaiters: seq<Awaiter>, notices: seq<Notice>, stopped: seq<nat>, a: Awaiter)
    requires Ledger(polled, awaiters, notices, stopped) && a.id !in polled
    ensures Ledger(polled + {a.id}, awaiters + [a], notices, stopped)
    ensures Ledger(polled + {a.id}, awaiters, notices + [Notice(a.id, SystemError)], stopped)
  {
    forall id: nat
      ensures Entries(awaiters + [a], notices, stopped, id) ==
        Entries(awaiters, notices, stopped, id) + if id == a.id then 1 else 0
      ensures Entries(awaiters, notices + [Notice(a.id, SystemError)], stopped, id) ==
        Entries(awaiters, notices, stopped, id) + if id == a.id then 1 else 0
    {
      ParkedConcat(awaiters, [a], id);
      ToldConcat(notices, [Notice(a.id, SystemError)], id);
    }
  }

  lemma LedgerProcessed(
    polled: set<nat>, awaiters: seq<Awaiter>, notices: seq<Notice>, stopped: seq<nat>, revents: Events)
    requires Ledger(polled, awaiters, notices, stopped)
    ensures var kept, told := Kept(awaiters, revents), notices + Woken(awaiters, revents);
      Ledger(polled, kept, told, stopped) && Ledger(polled, [], told + Failed(kept), stopped)
  {
    var kept, told := Kept(awaiters, revents), notices + Woken(awaiters, revents);
    forall id: nat
      ensures Entries(kept, told, stopped, id) == Entries(awaiters, notices, stopped, id)
      ensures Entries([], told + Failed(kept), stopped, id) == Entries(awaiters, notices, stopped, id)
    {
      WakingMoves(awaiters, revents, id);
      ToldConcat(notices, Woken(awaiters, revents), id);
      FailingMoves(kept, id);
      ToldConcat(told, Failed(kept), id);
    }
  }

  lemma LedgerStopped(polled: set<nat>, awaiters: seq<Awaiter>, notices: seq<Notice>, stopped: seq<nat>, i: nat)
    requires Ledger(polled, awaiters, notices, stopped) && i < |awaiters|
    ensures Ledger(polled, Without(awaiters, i), notices, stopped + [awaiters[i].id])
  {
    assert awaiters == awaiters[..i] + ([awaiters[i]] + awaiters[i + 1..]);
    forall id: nat
      ensures Entries(Without(awaiters, i), notices, stopped + [awaiters[i].id], id) ==
        Entries(awaiters, notices, stopped, id)
    {
      ParkedConcat(awaiters[..i], [awaiters[i]] + awaiters[i + 1..], id);
      ParkedConcat(awaiters[..i], awaiters[i + 1..], id);
      ParkedConcat([awaiters[i]], awaiters[i + 1..], id);
      StoppedConcat(stopped, [awaiters[i].id], id);
    }
  }

  class Descriptor {
    var events: Events            // recorded combined interest
    var armed: Events             // what the kernel watches
    var awaiters: seq<Awaiter>
    var notices: seq<Notice>      // what has been delivered to awaiters, in order
    var stopped: seq<nat>         // awaiters that were cancelled
    ghost var polled: set<nat>    // every awaiter that ever polled here

    // Every parked awaiter is covered by the recorded mask, and a non-empty recorded mask is
    // exactly what the kernel watches.
    ghost predicate Valid()
      reads this
    {
      && (forall a | a in awaiters :: a.events <= events)
      && (events != {} ==> armed == events)
    }

    // Every awaiter that polled is parked, has been notified or has been stopped, once.
    ghost predicate Accounted()
      reads this
    {
      Ledger(polled, awaiters, notices, stopped)
    }

    constructor ()
      ensures Valid() && Accounted() && polled == {} && awaiters == [] && notices == [] && stopped == []
    {
      events, armed, awaiters, notices, stopped := {}, {}, [], [], [];
      polled := {};
    }

    // await_ready followed by await_suspend
    method Poll(a: Awaiter, ctlOk: bool) returns (parked: bool)
      requires Valid()
      modifies this
      ensures old(Accounted()) && a.id !in old(polled) ==> Accounted()
      ensures Valid() && polled == old(polled) + {a.id} && stopped == old(stopped)
      ensures parked <==> a.events <= old(events) || ctlOk
      ensures awaiters == if parked then old(awaiters) + [a] else old(awaiters)
      ensures notices == if parked then old(notices) else old(notices) + [Notice(a.id, SystemError)]
      ensures parked && a.events != {} ==> a.events <= armed
      ensures events == if parked then old(events) + a.events else old(events)
    {
      if Accounted() && a.id !in polled {
        LedgerPolled(polled, awaiters, notices, stopped, a);
      }
      polled := polled + {a.id};
      if events * a.events != a.events {
        if !ctlOk {
          notices := notices + [Notice(a.id, SystemError)];
          return false;
        }
        armed := a.events + events;
        events := events + a.events;
      }
      awaiters := awaiters + [a];
      return true;
    }

    // The awaiter loop of processEvent: wake or keep each awaiter, collecting what the
    // kept ones wait for.
    method Dispatch(revents: Events) returns (newEvents: Events)
      modifies this`awaiters, this`notices
      ensures awaiters == Kept(old(awaiters), revents) && newEvents == Union(awaiters)
      ensures notices == old(notices) + Woken(old(awaiters), revents)
      // an error or a hang-up wakes everybody; otherwise who waits for nothing that happened stays
      ensures forall a :: a in awaiters <==>
        a in old(awaiters) && a.events * revents == {} && EPOLLERR !in revents && EPOLLHUP !in revents
      ensures forall bit :: bit in newEvents <==> exists i :: 0 <= i < |awaiters| && bit in awaiters[i].events
    {
      newEvents := {};
      var i, n := 0, 0;     // n counts the awaiters looked at
      while i < |awaiters|
        invariant n <= |old(awaiters)| && i <= |awaiters|
        invariant awaiters[..i] == Kept(old(awaiters)[..n], revents)
        invariant awaiters[i..] == old(awaiters)[n..]
        invariant notices == old(notices) + Woken(old(awaiters)[..n], revents)
        invariant newEvents == Union(awaiters[..i])
        decreases |awaiters| - i
      {
        var a := awaiters[i];
        assert a == awaiters[i..][0] == old(awaiters)[n];
        assert old(awaiters)[..n + 1] == old(awaiters)[..n] + [a];
        FilterAppend(old(awaiters)[..n], a, revents);
        if Wakes(revents, a) {
          notices := notices + [Notice(a.id, Ready(revents))];
          ghost var before := awaiters;
          awaiters := awaiters[..i] + awaiters[i + 1..];
          assert awaiters[i..] == before[i..][1..] && awaiters[..i] == before[..i];
        } else {
          assert awaiters[..i + 1] == awaiters[..i] + [a];
          UnionAppend(awaiters[..i], a);
          newEvents := newEvents + a.events;
          assert awaiters[i + 1..] == awaiters[i..][1..];
          i := i + 1;
        }
        n := n + 1;
      }
      assert n == |old(awaiters)| by { assert |awaiters[i..]| == 0; }
      assert old(awaiters)[..n] == old(awaiters) && awaiters[..i] == awaiters;
      WokenIffInterested(old(awaiters), revents);
      forall bit ensures bit in newEvents <==> exists i :: 0 <= i < |awaiters| && bit in awaiters[i].events {
        UnionIsExact(awaiters, bit);
      }
    }

    // The event is delivered, which disarms the descriptor, and dispatched; then what is still
    // wanted is armed again.
    method ProcessEvent(revents: Events, ctlOk: bool)
      modifies this
      ensures Valid() && stopped == old(stopped) && polled == old(polled)
      ensures old(Accounted()) ==> Accounted()
      ensures var kept := Kept(old(awaiters), revents);
              if Union(kept) == {} || ctlOk then
                && awaiters == kept && events == Union(kept)
                && notices == old(notices) + Woken(old(awaiters), revents)
              else
                && awaiters == [] && events == {}
                && notices == old(notices) + Woken(old(awaiters), revents) + Failed(kept)
      // with nothing recorded nobody is left, unless somebody waits for nothing
      ensures events == {} ==> forall a | a in awaiters :: a.events == {}
    {
      if Accounted() {
        LedgerProcessed(polled, awaiters, notices, stopped, revents);
      }
      armed := {};
      events := Dispatch(revents);
      forall a | a in awaiters ensures a.events <= events {
        UnionCovers(awaiters, a);
      }
      if events == {} {
        return;
      }
      if ctlOk {
        armed := events;
        return;
      }
      events := {};
      NotifyError();
    }

    // Re-arming failed: everybody left is told so.
    method NotifyError()
      modifies this`awaiters, this`notices
      ensures awaiters == [] && notices == old(notices) + Failed(old(awaiters))
    {
      while awaiters != []
        invariant notices + Failed(awaiters) == old(notices) + Failed(old(awaiters))
        decreases |awaiters|
      {
        notices := notices + [Notice(awaiters[0].id, SystemError)];
        awaiters := awaiters[1..];
      }
    }

    // A stop request: the awaiter leaves if it is still linked; the mask stays as it is.
    method OnStopRequested(a: Awaiter)
      requires Valid()
      modifies this`awaiters, this`stopped
      ensures Valid() && (old(Accounted()) ==> Accounted())
      ensures a !in old(awaiters) ==> awaiters == old(awaiters) && stopped == old(stopped)
      ensures a in old(awaiters) ==>
                && stopped == old(stopped) + [a.id]
                && exists i :: 0 <= i < |old(awaiters)| && old(awaiters)[i] == a
                               && awaiters == Without(old(awaiters), i)
    {
      var i := 0;
      while i < |awaiters| && awaiters[i] != a
        invariant i <= |awaiters| && a !in awaiters[..i]
      {
        i := i + 1;
      }
      if i == |awaiters| {
        return;
      }
      if Accounted() {
        LedgerStopped(polled, awaiters, notices, stopped, i);
      }
      stopped := stopped + [a.id];
      awaiters := Without(awaiters, i);
    }
  }

  // The mask of several awaiters is made of what they wait for and nothing else.
  lemma {:induction false} UnionIsExact(s: seq<Awaiter>, bit: Bit)
    ensures bit in Union(s) <==> exists i :: 0 <= i < |s| && bit in s[i].events
  {
    if s != [] {
      UnionIsExact(s[1..], bit);
      if i :| 0 <= i < |s[1..]| && bit in s[1..][i].events {
        assert bit in s[i + 1].events;
      }
      if i :| 0 <= i < |s| && bit in s[i].events {
        assert i > 0 ==> bit in s[1..][i - 1].events;
      }
    }
  }

  // Without an error or a hang-up, an awaiter is woken if it waits for something that happened,
  // and stays in its place if it does not; with one, everybody is woken.
  lemma {:induction false} WokenIffInterested(s: seq<Awaiter>, revents: Events)
    ensures EPOLLERR in revents || EPOLLHUP in revents ==>
      Kept(s, revents) == [] && |Woken(s, revents)| == |s|
      && forall i | 0 <= i < |s| :: Woken(s, revents)[i] == Notice(s[i].id, Ready(revents))
    ensures EPOLLERR !in revents && EPOLLHUP !in revents ==>
      && Kept(s, revents) == Apart(s, revents) && Woken(s, revents) == Notices(Touched(s, revents), revents)
  {
    if s != [] {
      WokenIffInterested(s[1..], revents);
    }
  }

  // The awaiters that wait for nothing that happened, and the others, both in order.
  function Apart(s: seq<Awaiter>, revents: Events): (r: seq<Awaiter>)
    ensures forall a :: a in r <==> a in s && a.events * revents == {}
  {
    if s == [] then []
    else if s[0].events * revents == {} then [s[0]] + Apart(s[1..], revents)
    else Apart(s[1..], revents)
  }

  function Touched(s: seq<Awaiter>, revents: Events): (r: seq<Awaiter>)
    ensures forall a :: a in r <==> a in s && a.events * revents != {}
  {
    if s == [] then []
    else if s[0].events * revents != {} then [s[0]] + Touched(s[1..], revents)
    else Touched(s[1..], revents)
  }

  function Notices(s: seq<Awaiter>, revents: Events): (r: seq<Notice>)
    ensures |r| == |s| && forall i | 0 <= i < |s| :: r[i] == Notice(s[i].id, Ready(revents))
  {
    if s == [] then [] else [Notice(s[0].id, Ready(revents))] + Notices(s[1..], revents)
  }

  // Dispatch looks at every awaiter once; whoever stays waits for nothing that happened, and
  // an event that somebody waits for wakes somebody.
  lemma {:induction false} DispatchIsExact(s: seq<Awaiter>, revents: Events)
    ensures |Kept(s, revents)| + |Woken(s, revents)| == |s|
    ensures forall a | a in Kept(s, revents) :: a in s && a.events * revents == {}
    ensures EPOLLERR in revents || EPOLLHUP in revents ==> Kept(s, revents) == []
    ensures revents * Union(s) != {} ==> Woken(s, revents) != []
  {
    if s != [] {
      DispatchIsExact(s[1..], revents);
    }
  }
}
