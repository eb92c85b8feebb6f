/** The bounded channels: many producers, and many consumers or a single one.

    The critical sections of the channel lock are functions on `Core`; the methods of
    `Shared` run them on mutable fields, and `Shared.Perform` shows that these are
    the machine's events.  The step machine interleaves them with the
    critical sections of the two wait queues.
 */
module Channel {
  import opened Common
  import opened WaitQueue

  datatype SendError = Full | Closed
  datatype SendResult<+T> = Sent | Failed(item: T, reason: SendError)
  datatype RecvResult<+T> = Received(item: T) | Empty | Disconnected

  datatype Core<T> = Core(capacity: nat, queue: seq<T>, reserved: nat, senderClosed: bool, receiverClosed: bool) {
    predicate HasSpace() { |queue| + reserved < capacity }

    function Free(): (r: nat) { if HasSpace() then capacity - |queue| - reserved else 0 }
  }

  // The predicates' results: the wait is over (`done`), and what it obtained.
  function TrySendInternal<T>(c: Core<T>, item: T): (r: (bool, bool, Core<T>)) {
    if c.receiverClosed then (true, false, c)
    else if !c.HasSpace() then (false, false, c)
    else (true, true, c.(queue := c.queue + [item]))
  }

  function TryReserveInternal<T>(c: Core<T>): (r: (bool, bool, Core<T>)) {
    if c.receiverClosed then (true, false, c)
    else if !c.HasSpace() then (false, false, c)
    else (true, true, c.(reserved := c.reserved + 1))
  }

  function TryRecvInternal<T>(c: Core<T>): (r: (bool, Option<T>, Core<T>)) {
    if c.queue != [] then (true, Some(c.queue[0]), c.(queue := c.queue[1..]))
    else (c.senderClosed, None, c)
  }

  function TrySend<T>(c: Core<T>, item: T): (r: (SendResult<T>, Core<T>)) {
    if c.receiverClosed then (Failed(item, Closed), c)
    else if !c.HasSpace() then (Failed(item, Full), c)
    else (Sent, c.(queue := c.queue + [item]))
  }

  function PermitSend<T>(c: Core<T>, item: T): (r: Core<T>)
    requires c.reserved > 0
  {
    c.(queue := c.queue + [item], reserved := c.reserved - 1)
  }

  // The permit deleter: the freed slot, and whether it decides to wake a sender.
  function PermitDrop<T>(c: Core<T>): (r: (bool, Core<T>))
    requires c.reserved > 0
  {
    var d := c.(reserved := c.reserved - 1);
    (d.HasSpace(), d)
  }

  // The object both sides share.  Each method is one critical section of its lock; `notify`
  // says whether it goes on to wake somebody on the other side.  The ghost fields are
  // histories, and the number of slots that permits and woken reservers hold.
  class Shared<T> {
    const capacity: nat
    var queue: seq<T>
    var reserved: nat
    var senderClosed: bool
    var receiverClosed: bool
    ghost var permits: nat
    ghost var accepted: seq<T>
    ghost var delivered: seq<T>

    // The queue and everything promised fit, and what was accepted is delivered in order.
    ghost predicate Valid()
      reads this
    {
      |queue| + reserved <= capacity && reserved == permits && accepted == delivered + queue
    }

    ghost function State(): (c: Core<T>)
      reads this
    {
      Core(capacity, queue, reserved, senderClosed, receiverClosed)
    }

    constructor (c: nat)
      ensures Valid() && State() == Core(c, [], 0, false, false) && accepted == [] && permits == 0
    {
      capacity, queue, reserved, senderClosed, receiverClosed := c, [], 0, false, false;
      permits, accepted, delivered := 0, [], [];
    }

    // A sender's predicate.  The item is accepted or handed back in `left`; the sender waits
    // on only in front of a full channel that is open.
    method SendPredicate(item: T) returns (done: bool, left: Option<T>)
      requires Valid()
      modifies this
      ensures Valid() && permits == old(permits) && delivered == old(delivered)
      ensures TrySendInternal(old(State()), item) == (done, left.None?, State())
      ensures left == None || (left == Some(item) && State() == old(State()))
      ensures accepted == old(accepted) + (if left.None? then [item] else [])
      ensures !done ==> !receiverClosed && State().Free() == 0
      ensures done && left.Some? ==> receiverClosed
    {
      if receiverClosed {
        return true, Some(item);
      }
      if |queue| + reserved >= capacity {
        return false, Some(item);
      }
      Accept(item);
      return true, None;
    }

    // Queue an item that fits.
    method Accept(item: T)
      requires accepted == delivered + queue
      modifies this`queue, this`accepted
      ensures queue == old(queue) + [item] && accepted == old(accepted) + [item] == delivered + queue
    {
      queue := queue + [item];
      accepted := accepted + [item];
    }

    // Deliver the oldest item.
    method Deliver() returns (item: T)
      requires accepted == delivered + queue && queue != []
      modifies this`queue, this`delivered
      ensures [item] + queue == old(queue) && delivered == old(delivered) + [item]
      ensures accepted == delivered + queue
    {
      item := queue[0];
      queue := queue[1..];
      delivered := delivered + [item];
    }

    // A reserver's predicate: a slot it gets is one free slot less for the others.
    method ReservePredicate() returns (done: bool, got: bool)
      requires Valid()
      modifies this
      ensures Valid() && accepted == old(accepted) && delivered == old(delivered)
      ensures TryReserveInternal(old(State())) == (done, got, State())
      ensures got ==> permits == old(permits) + 1 && State().Free() == old(State().Free()) - 1
      ensures !got ==> permits == old(permits) && State() == old(State())
      ensures !done ==> !receiverClosed && State().Free() == 0
      ensures done && !got ==> receiverClosed
    {
      if receiverClosed {
        return true, false;
      }
      if |queue| + reserved >= capacity {
        return false, false;
      }
      reserved := reserved + 1;
      permits := permits + 1;
      return true, true;
    }

    // A receiver's predicate: the oldest undelivered item, or the end once everything
    // accepted has been delivered.
    method RecvPredicate() returns (done: bool, value: Option<T>)
      requires Valid()
      modifies this
      ensures Valid() && permits == old(permits) && accepted == old(accepted)
      ensures TryRecvInternal(old(State())) == (done, value, State())
      ensures delivered == old(delivered) + (if value.Some? then [value.value] else [])
      ensures value.None? ==> delivered == accepted && done == senderClosed
      ensures value.Some? ==> done
    {
      if queue != [] {
        var item := Deliver();
        return true, Some(item);
      }
      return senderClosed, None;
    }

    method SendNow(item: T) returns (r: SendResult<T>, notify: bool)
      requires Valid()
      modifies this
      ensures Valid() && permits == old(permits) && delivered == old(delivered)
      ensures TrySend(old(State()), item) == (r, State()) && notify == r.Sent?
      ensures r.Sent? ==> accepted == old(accepted) + [item]
      ensures r.Failed? ==> r.item == item && State() == old(State()) && accepted == old(accepted)
      ensures r.Failed? <==> receiverClosed || old(State().Free()) == 0
      ensures receiverClosed ==> r == Failed(item, Closed)
      ensures !receiverClosed && r.Failed? ==> r.reason == Full
    {
      if receiverClosed {
        return Failed(item, Closed), false;
      }
      if |queue| + reserved >= capacity {
        return Failed(item, Full), false;
      }
      Accept(item);
      return Sent, true;
    }

    method RecvNow() returns (r: RecvResult<T>, notify: bool)
      requires Valid()
      modifies this
      ensures Valid() && permits == old(permits) && accepted == old(accepted)
      ensures TryRecvInternal(old(State())).2 == State() && notify == r.Received?
      ensures delivered == old(delivered) + (if r.Received? then [r.item] else [])
      ensures r.Received? ==> [r.item] + queue == old(queue)
      ensures !r.Received? ==> delivered == accepted && r == if senderClosed then Disconnected else Empty
    {
      if queue == [] && senderClosed {
        return Disconnected, false;
      }
      if queue == [] {
        return Empty, false;
      }
      var item := Deliver();
      return Received(item), true;
    }

    // A permit's item fits although nothing is checked, and costs the others no slot.
    method SendWithPermit(item: T)
      requires Valid() && permits > 0
      modifies this
      ensures Valid() && permits == old(permits) - 1 && delivered == old(delivered)
      ensures accepted == old(accepted) + [item] && State().Free() == old(State().Free())
      ensures State() == PermitSend(old(State()), item)
    {
      Accept(item);
      reserved := reserved - 1;
      permits := permits - 1;
    }

    // A permit given up frees one slot, so there always is somebody to tell.
    method ReleasePermit() returns (notify: bool)
      requires Valid() && permits > 0
      modifies this
      ensures Valid() && notify && permits == old(permits) - 1
      ensures accepted == old(accepted) && delivered == old(delivered)
      ensures State().Free() == old(State().Free()) + 1 && State() == PermitDrop(old(State())).1
    {
      reserved := reserved - 1;
      permits := permits - 1;
      notify := |queue| + reserved < capacity;
    }

    // Once the senders are gone no receiver waits on, and what was accepted can still be had.
    method OnSenderClose() returns (notify: bool)
      requires Valid()
      modifies this
      ensures Valid() && permits == old(permits) && accepted == old(accepted) && delivered == old(delivered)
      ensures TryRecvInternal(State()).0 && (TryRecvInternal(State()).1.None? <==> delivered == accepted)
      ensures State() == old(State()).(senderClosed := true) && notify == !receiverClosed
    {
      senderClosed := true;
      notify := !receiverClosed;
    }

    // Once the receivers are gone no sender or reserver waits on, and none obtains anything.
    method OnReceiverClose() returns (notify: bool)
      requires Valid()
      modifies this
      ensures Valid() && permits == old(permits) && accepted == old(accepted) && delivered == old(delivered)
      ensures forall item :: TrySendInternal(State(), item) == (true, false, State())
      ensures TryReserveInternal(State()) == (true, false, State())
      ensures State() == old(State()).(receiverClosed := true) && notify == !senderClosed
    {
      receiverClosed := true;
      notify := !senderClosed;
    }

    // The object as the step machine below sees it.
    ghost predicate Follows(b: Book<T>)
      reads this
    {
      State() == b.core && accepted == b.accepted && delivered == b.delivered
    }

    // Every event of the machine that touches the channel is a call of one of the methods:
    // `job` is what the sender that tries is there for, `hit` what its predicate answers,
    // `value` the item received, and `notify` whether the event entails a wake-up.
    method Perform(e: Event<T>, job: Job<T>, ghost b: Book<T>) returns (hit: bool, notify: bool, value: Option<T>)
      requires Valid() && Follows(b) && Possible(b, e)
      requires e.SenderTries? ==> job == b.jobs[e.w]
      modifies this
      ensures Valid() && Follows(After(b, e)) && hit == Hits(b, e)
      ensures e.TryRecvOk? ==> value == Some(b.core.queue[0])
      ensures e.ReceiverTries? ==> After(b, e).box == if value.Some? then b.box[e.w := value.value] else b.box
      ensures e.TryRecvOk? || e.DropPermit? ==> (notify <==> SendersOwed(b, e) == 1)
      ensures e.TrySendOk? || e.UsePermit? ==> (notify <==> ReceiversOwed(b, e) == 1)
      ensures e.CloseSender? ==> notify == !b.core.receiverClosed
      ensures e.CloseReceiver? ==> notify == !b.core.senderClosed
    {
      hit, notify, value := false, false, None;
      match e {
        case TrySendOk(item) =>
          var _, n := SendNow(item);
          notify := n;
        case TryReserveOk =>
          var _, _ := ReservePredicate();
        case TryRecvOk =>
          var got, n := RecvNow();
          notify := n;
          value := if got.Received? then Some(got.item) else None;
        case UsePermit(item) =>
          SendWithPermit(item);
          notify := true;
        case DropPermit =>
          notify := ReleasePermit();
        case SenderTries(w) =>
          match job {
            case SendJob(item, _) =>
              var done, _ := SendPredicate(item);
              hit := done;
            case ReserveJob(_) =>
              var done, _ := ReservePredicate();
              hit := done;
          }
        case ReceiverTries(w) =>
          hit, value := RecvPredicate();
        case CloseSender =>
          notify := OnSenderClose();
        case CloseReceiver =>
          notify := OnReceiverClose();
        case _ =>
      }
    }
  }

  // ---- The bookkeeping of one step -------------------------------------------------------

  // What a sender-side awaiter is for, and whether its predicate obtained it.
  datatype Job<T> = SendJob(item: T, done: bool) | ReserveJob(done: bool)

  // `sent` and `slots` are the send and reserve awaiters, `taken` the receive awaiters, that
  // obtained something and have not run await_resume yet; `permits` counts live permits;
  // `accepted` and `delivered` are the items that ever entered and left the queue, and `puts`
  // and `takes` tell the same with the awaiters that put or took them; `box` holds the values
  // that receive awaiters return.
  datatype Book<T> = Book(
    core: Core<T>, jobs: map<Id, Job<T>>, sent: set<Id>, slots: set<Id>,
    box: map<Id, T>, taken: set<Id>, permits: nat, accepted: seq<T>, delivered: seq<T>,
    puts: seq<Move<T>>, takes: seq<Move<T>>)

  // An item that moved, and the awaiter that moved it; None stands for a call that does not
  // wait, or for a permit.
  datatype Move<T> = Move(who: Option<Id>, item: T)

  datatype Event<T> =
    | TrySendOk(item: T) | TryReserveOk | TryRecvOk
    | UsePermit(item: T) | DropPermit
    | NewSender(w: Id, job: Job<T>) | SenderTries(w: Id) | SenderDone(w: Id)
    | NewReceiver(w: Id) | ReceiverTries(w: Id) | ReceiverDone(w: Id)
    | CloseSender | CloseReceiver
    | Elsewhere      // nothing but a step inside one wait queue

  predicate Possible<T>(b: Book<T>, e: Event<T>) {
    match e
    case TrySendOk(item) => TrySend(b.core, item).0.Sent?
    case TryReserveOk => TryReserveInternal(b.core).1
    case TryRecvOk => b.core.queue != []
    case UsePermit(_) => b.permits > 0 && b.core.reserved > 0
    case DropPermit => b.permits > 0 && b.core.reserved > 0
    case NewSender(_, job) => !b.core.senderClosed && !job.done
    case SenderTries(w) => w in b.jobs
    case NewReceiver(_) => !b.core.receiverClosed
    case ReceiverDone(w) => w in b.taken
    case CloseSender => !b.core.senderClosed
    case CloseReceiver => !b.core.receiverClosed
    case _ => true
  }

  // Whether the predicate evaluated by the event says that the wait is over.
  predicate Hits<T>(b: Book<T>, e: Event<T>)
    requires Possible(b, e)
  {
    match e
    case SenderTries(w) =>
      (match b.jobs[w]
       case SendJob(item, _) => TrySendInternal(b.core, item).0
       case ReserveJob(_) => TryReserveInternal(b.core).0)
    case ReceiverTries(_) => TryRecvInternal(b.core).0
    case _ => false
  }

  function After<T>(b: Book<T>, e: Event<T>): (r: Book<T>)
    requires Possible(b, e)
  {
    match e
    case TrySendOk(item) =>
      b.(core := TrySend(b.core, item).1, accepted := b.accepted + [item], puts := b.puts + [Move(None, item)])
    case TryReserveOk => b.(core := TryReserveInternal(b.core).2, permits := b.permits + 1)
    case TryRecvOk =>
      var item := b.core.queue[0];
      b.(core := TryRecvInternal(b.core).2, delivered := b.delivered + [item], takes := b.takes + [Move(None, item)])
    case UsePermit(item) =>
      b.(core := PermitSend(b.core, item), permits := b.permits - 1,
         accepted := b.accepted + [item], puts := b.puts + [Move(None, item)])
    case DropPermit => b.(core := PermitDrop(b.core).1, permits := b.permits - 1)
    case NewSender(w, job) => b.(jobs := b.jobs[w := job])
    case SenderTries(w) =>
      (match b.jobs[w]
       case SendJob(item, _) =>
         var (_, ok, core) := TrySendInternal(b.core, item);
         if ok then b.(core := core, jobs := b.jobs[w := SendJob(item, true)], sent := b.sent + {w},
                       accepted := b.accepted + [item], puts := b.puts + [Move(Some(w), item)])
         else b
       case ReserveJob(_) =>
         var (_, ok, core) := TryReserveInternal(b.core);
         if ok then b.(core := core, jobs := b.jobs[w := ReserveJob(true)], slots := b.slots + {w}) else b)
    case SenderDone(w) =>      // await_resume on the sender side
      if w in b.slots then b.(slots := b.slots - {w}, permits := b.permits + 1) else b.(sent := b.sent - {w})
    case ReceiverTries(w) =>
      var (_, value, core) := TryRecvInternal(b.core);
      if value.Some? then b.(core := core, box := b.box[w := value.value], taken := b.taken + {w},
                             delivered := b.delivered + [value.value],
                             takes := b.takes + [Move(Some(w), value.value)])
      else b
    case ReceiverDone(w) => b.(taken := b.taken - {w})
    case CloseSender => b.(core := b.core.(senderClosed := true))
    case CloseReceiver => b.(core := b.core.(receiverClosed := true))
    case _ => b
  }

  // How many wakeupOne calls on each queue the event entails.
  function SendersOwed<T>(b: Book<T>, e: Event<T>): (r: nat)
    requires Possible(b, e)
  {
    match e
    case TryRecvOk => 1
    case ReceiverDone(_) => 1
    case DropPermit => if PermitDrop(b.core).0 then 1 else 0
    case _ => 0
  }

  function ReceiversOwed<T>(b: Book<T>, e: Event<T>): (r: nat) {
    match e
    case TrySendOk(_) => 1
    case UsePermit(_) => 1
    case SenderDone(w) => if w in b.sent then 1 else 0
    case _ => 0
  }

  // ---- Contents --------------------------------------------------------------------------

  // The queue never outgrows its capacity, and reserved slots are exactly those owned by
  // permits or by woken reserve awaiters.
  ghost predicate CountsOk<T>(b: Book<T>) {
    && |b.core.queue| + b.core.reserved <= b.core.capacity
    && b.core.reserved == b.permits + |b.slots|
    && b.sent !! b.slots
  }

  // Items leave in the order in which they were accepted, and none is lost or doubled.
  ghost predicate FifoOk<T>(b: Book<T>) {
    b.accepted == b.delivered + b.core.queue
  }

  // A predicate only obtains something for an awaiter that holds nothing yet.
  ghost predicate FreshTry<T>(b: Book<T>, e: Event<T>) {
    && (e.SenderTries? ==> e.w !in b.sent + b.slots)
    && (e.ReceiverTries? ==> e.w !in b.taken)
  }

  lemma CountsKept<T>(b: Book<T>, e: Event<T>)
    requires CountsOk(b) && Possible(b, e) && FreshTry(b, e)
    ensures CountsOk(After(b, e))
    ensures e == DropPermit ==> PermitDrop(b.core).0     // the deleter's test never fails
  {
    match e
    case SenderTries(w) => CountsAfterTry(b, w);
    case SenderDone(w) => CountsAfterDone(b, w);
    case _ => CountsAfterOthers(b, e);
  }

  lemma CountsAfterTry<T>(b: Book<T>, w: Id)
    requires CountsOk(b) && Possible(b, SenderTries(w)) && FreshTry(b, SenderTries(w))
    ensures CountsOk(After(b, SenderTries(w)))
  {
    assert |b.slots + {w}| == |b.slots| + 1;
  }

  lemma CountsAfterDone<T>(b: Book<T>, w: Id)
    requires CountsOk(b) && Possible(b, SenderDone(w))
    ensures CountsOk(After(b, SenderDone(w)))
  {
    assert w in b.slots ==> |b.slots - {w}| == |b.slots| - 1;
  }

  lemma CountsAfterOthers<T>(b: Book<T>, e: Event<T>)
    requires CountsOk(b) && Possible(b, e) && !e.SenderTries? && !e.SenderDone?
    ensures CountsOk(After(b, e))
    ensures e == DropPermit ==> PermitDrop(b.core).0
  {
    assert After(b, e).slots == b.slots && After(b, e).sent == b.sent;
  }

  lemma FifoKept<T>(b: Book<T>, e: Event<T>)
    requires FifoOk(b) && Possible(b, e)
    ensures FifoOk(After(b, e))
  {
    assert b.core.queue != [] ==> b.core.queue == [b.core.queue[0]] + b.core.queue[1..];
  }

  // Sending with a permit needs no space check.
  lemma UsePermitAlwaysFits<T>(b: Book<T>, item: T)
    requires CountsOk(b) && b.permits > 0
    ensures Possible(b, UsePermit(item)) && |After(b, UsePermit(item)).core.queue| <= b.core.capacity
    ensures After(b, UsePermit(item)).core.Free() == b.core.Free()
  {
  }

  // Free slots on one side and queued items on the other only appear together with a wake-up
  // that is owed now (`SendersOwed`, `ReceiversOwed`) or by an awaiter that will come round.
  lemma SlotBalance<T>(b: Book<T>, e: Event<T>)
    requires CountsOk(b) && Possible(b, e) && FreshTry(b, e)
    ensures After(b, e).core.Free() + |b.taken| <= b.core.Free() + SendersOwed(b, e) + |After(b, e).taken|
    ensures e.SenderTries? && !b.core.receiverClosed ==>
              if Hits(b, e) then After(b, e).core.Free() < b.core.Free() else b.core.Free() == 0 && After(b, e) == b
    ensures e.SenderTries? ==> After(b, e).taken == b.taken
  {
    match e
    case ReceiverDone(w) => assert |b.taken - {w}| == |b.taken| - 1;
    case _ =>
  }

  lemma ItemBalance<T>(b: Book<T>, e: Event<T>)
    requires CountsOk(b) && Possible(b, e) && FreshTry(b, e)
    ensures |After(b, e).core.queue| + |b.sent| <= |b.core.queue| + ReceiversOwed(b, e) + |After(b, e).sent|
    ensures e.ReceiverTries? ==>
              if Hits(b, e) then |After(b, e).core.queue| < |b.core.queue| || After(b, e).core.queue == []
              else b.core.queue == [] && After(b, e) == b
    ensures e.ReceiverTries? ==> After(b, e).sent == b.sent
  {
    match e
    case SenderTries(w) => ItemBalanceTry(b, w);
    case SenderDone(w) => ItemBalanceDone(b, w);
    case _ => ItemBalanceOthers(b, e);
  }

  lemma ItemBalanceTry<T>(b: Book<T>, w: Id)
    requires CountsOk(b) && Possible(b, SenderTries(w)) && w !in b.sent
    ensures var c := After(b, SenderTries(w)); |c.core.queue| + |b.sent| <= |b.core.queue| + |c.sent|
  {
    assert |b.sent + {w}| == |b.sent| + 1;
  }

  lemma ItemBalanceDone<T>(b: Book<T>, w: Id)
    requires CountsOk(b) && Possible(b, SenderDone(w))
    ensures var c := After(b, SenderDone(w));
      |c.core.queue| + |b.sent| <= |b.core.queue| + ReceiversOwed(b, SenderDone(w)) + |c.sent|
  {
    assert w in b.sent ==> |b.sent - {w}| == |b.sent| - 1 && w !in b.slots;
  }

  lemma ItemBalanceOthers<T>(b: Book<T>, e: Event<T>)
    requires CountsOk(b) && Possible(b, e) && !e.SenderTries? && !e.SenderDone?
    ensures After(b, e).sent == b.sent && |After(b, e).core.queue| <= |b.core.queue| + ReceiversOwed(b, e)
    ensures e.ReceiverTries? ==>
              if Hits(b, e) then |After(b, e).core.queue| < |b.core.queue| || After(b, e).core.queue == []
              else b.core.queue == [] && After(b, e) == b
  {
  }

  // ---- Who put and who took each item --------------------------------------------------------

  function Items<T>(moves: seq<Move<T>>): (r: seq<T>)
    ensures |r| == |moves| && forall i | 0 <= i < |r| :: r[i] == moves[i].item
  {
    seq(|moves|, i requires 0 <= i < |moves| => moves[i].item)
  }

  // The moves of awaiters are exactly what these hold: each moved one item, the one it holds.
  ghost predicate Recorded<T>(moves: seq<Move<T>>, held: map<Id, T>) {
    && (forall i | 0 <= i < |moves| && moves[i].who.Some? ::
          moves[i].who.value in held && held[moves[i].who.value] == moves[i].item)
    && (forall w | w in held :: Moved(moves, w, held[w]))
    && (forall i, j | 0 <= i < j < |moves| && moves[i].who.Some? :: moves[i].who != moves[j].who)
  }

  ghost predicate Moved<T>(moves: seq<Move<T>>, w: Id, item: T) {
    Move(Some(w), item) in moves
  }

  // The send awaiters that are done, with the items they were given.
  function SentItems<T>(jobs: map<Id, Job<T>>): (r: map<Id, T>) {
    map w | w in jobs && jobs[w].SendJob? && jobs[w].done :: jobs[w].item
  }

  // The histories in both forms agree, and tell what each awaiter put or got.
  ghost predicate MovesOk<T>(b: Book<T>) {
    && Items(b.puts) == b.accepted && Recorded(b.puts, SentItems(b.jobs))
    && Items(b.takes) == b.delivered && Recorded(b.takes, b.box)
  }

  lemma RecordedGrows<T>(moves: seq<Move<T>>, held: map<Id, T>, w: Id, item: T)
    requires Recorded(moves, held) && w !in held
    ensures Recorded(moves + [Move(Some(w), item)], held[w := item])
  {
    var more := moves + [Move(Some(w), item)];
    assert more[|moves|] == Move(Some(w), item);
    forall v | v in held ensures Moved(more, v, held[v]) {
      assert Moved(moves, v, held[v]);
    }
  }

  lemma RecordedOther<T>(moves: seq<Move<T>>, held: map<Id, T>, item: T)
    requires Recorded(moves, held)
    ensures Recorded(moves + [Move(None, item)], held)
  {
    forall v | v in held ensures Moved(moves + [Move(None, item)], v, held[v]) {
      assert Moved(moves, v, held[v]);
    }
  }

  // A receiver that gets something gets the oldest item, as does a call that does not wait;
  // nothing else touches what an awaiter holds.
  lemma TakesTheOldest<T>(b: Book<T>, e: Event<T>)
    requires Possible(b, e)
    ensures match e
      case ReceiverTries(w) =>
        if b.core.queue == [] then After(b, e) == b
        else After(b, e).box == b.box[w := b.core.queue[0]] && After(b, e).core.queue == b.core.queue[1..]
      case _ => After(b, e).box == b.box
    ensures After(b, e).takes == match e
      case ReceiverTries(w) => if b.core.queue == [] then b.takes else b.takes + [Move(Some(w), b.core.queue[0])]
      case TryRecvOk => b.takes + [Move(None, b.core.queue[0])]
      case _ => b.takes
  {
  }

  // A sender that is accepted puts the item it was created with, and no sender's item changes.
  lemma PutsItsOwn<T>(b: Book<T>, e: Event<T>)
    requires Possible(b, e) && (e.NewSender? ==> e.w !in b.jobs) && (e.SenderTries? ==> !b.jobs[e.w].done)
    ensures forall w | w in b.jobs && b.jobs[w].SendJob? ::
      w in After(b, e).jobs && After(b, e).jobs[w].SendJob? && After(b, e).jobs[w].item == b.jobs[w].item
    ensures e.NewSender? ==> After(b, e).jobs == b.jobs[e.w := e.job]
    ensures SentItems(After(b, e).jobs) ==
      if After(b, e).accepted != b.accepted && e.SenderTries? then SentItems(b.jobs)[e.w := b.jobs[e.w].item]
      else SentItems(b.jobs)
    ensures After(b, e).puts == match e
      case TrySendOk(item) => b.puts + [Move(None, item)]
      case UsePermit(item) => b.puts + [Move(None, item)]
      case SenderTries(w) =>
        if After(b, e).accepted != b.accepted then b.puts + [Move(Some(w), b.jobs[w].item)] else b.puts
      case _ => b.puts
    ensures e.SenderTries? && After(b, e).accepted != b.accepted ==>
      b.jobs[e.w].SendJob? && After(b, e).accepted == b.accepted + [b.jobs[e.w].item]
  {
  }

  lemma MovesKept<T>(b: Book<T>, e: Event<T>)
    requires MovesOk(b) && Possible(b, e)
    requires e.NewSender? ==> e.w !in b.jobs
    requires e.SenderTries? ==> !b.jobs[e.w].done
    requires e.ReceiverTries? ==> e.w !in b.box
    ensures MovesOk(After(b, e))
  {
    PutsKept(b, e);
    TakesKept(b, e);
  }

  lemma PutsKept<T>(b: Book<T>, e: Event<T>)
    requires MovesOk(b) && Possible(b, e)
    requires e.NewSender? ==> e.w !in b.jobs
    requires e.SenderTries? ==> !b.jobs[e.w].done
    ensures Items(After(b, e).puts) == After(b, e).accepted
    ensures Recorded(After(b, e).puts, SentItems(After(b, e).jobs))
  {
    PutsItsOwn(b, e);
    match e
    case TrySendOk(item) => RecordedOther(b.puts, SentItems(b.jobs), item);
    case UsePermit(item) => RecordedOther(b.puts, SentItems(b.jobs), item);
    case SenderTries(w) =>
      if After(b, e).accepted != b.accepted {
        RecordedGrows(b.puts, SentItems(b.jobs), w, b.jobs[w].item);
      }
    case _ =>
  }

  lemma TakesKept<T>(b: Book<T>, e: Event<T>)
    requires MovesOk(b) && Possible(b, e) && (e.ReceiverTries? ==> e.w !in b.box)
    ensures Items(After(b, e).takes) == After(b, e).delivered && Recorded(After(b, e).takes, After(b, e).box)
  {
    TakesTheOldest(b, e);
    match e
    case TryRecvOk => RecordedOther(b.takes, b.box, b.core.queue[0]);
    case ReceiverTries(w) => if b.core.queue != [] { RecordedGrows(b.takes, b.box, w, b.core.queue[0]); }
    case _ =>
  }

  // ---- Outcomes ----------------------------------------------------------------------------

  // A wait that is over obtained what it asked for or found the other side closed; a wait
  // that was cancelled obtained nothing.
  ghost predicate OutcomesOk<T>(s: State<T>) {
    SendersOk(s.book, s.senders) && ReceiversOk(s.book, s.receivers)
  }

  ghost predicate SendersOk<T>(b: Book<T>, l: Line) {
    && (forall w | w in l.waiters ::
          var x := l.waiters[w];
          && w in b.jobs
          && (b.jobs[w].done ==> x.grants == 1)
          && (x.grants == 1 ==> b.jobs[w].done || b.core.receiverClosed))
    && (forall w | w in b.jobs :: w in l.waiters)
  }

  ghost predicate ReceiversOk<T>(b: Book<T>, l: Line) {
    && (forall w | w in l.waiters ::
          var x := l.waiters[w];
          && (w in b.box ==> x.grants == 1)
          && (x.grants == 1 ==> w in b.box || b.core.senderClosed))
    && (forall w | w in b.box :: w in l.waiters)
  }

  // ---- The step machine ----------------------------------------------------------------

  datatype State<T> = State(single: bool, book: Book<T>, senders: Line, receivers: Line)

  ghost predicate Init<T>(s: State<T>) {
    var c := s.book.core.capacity;
    && c > 0
    && s.book == Book(Core(c, [], 0, false, false), map[], {}, {}, map[], {}, 0, [], [], [], [])
    && s.senders == s.receivers == EMPTY
  }

  // No awaiter of this side is waiting or about to.
  predicate Idle(l: Line) {
    l.queue == [] && !l.lock.Suspend?
  }

  // Steps of a wait queue that concern no channel state.
  predicate Inner(a: Action) {
    !a.Owe? && !a.OweAll? && !a.BeginSuspend? && !a.Hit? && !a.Miss?
  }

  // The queue steps x (senders) and y (receivers) that go with an event; Owe(0) is none.
  ghost predicate Pairs<T>(s: State<T>, e: Event<T>, x: Action, y: Action)
    requires Possible(s.book, e)
  {
    match e
    case NewSender(w, _) => x == BeginSuspend(w) && y == Owe(0)
    case SenderTries(w) =>
      HasTarget(s.senders) && w == Target(s.senders) && x == (if Hits(s.book, e) then Hit else Miss) && y == Owe(0)
    case SenderDone(w) =>
      && w in s.senders.waiters && s.senders.waiters[w].resumes == 1
      && x == Owe(0) && y == Owe(ReceiversOwed(s.book, e))
    case NewReceiver(w) => x == Owe(0) && y == BeginSuspend(w) && (s.single ==> Idle(s.receivers))
    case ReceiverTries(w) =>
      HasTarget(s.receivers) && w == Target(s.receivers) && x == Owe(0) && y == (if Hits(s.book, e) then Hit else Miss)
    case ReceiverDone(w) =>
      && w in s.receivers.waiters && s.receivers.waiters[w].resumes == 1
      && x == Owe(SendersOwed(s.book, e)) && y == Owe(0)
    case CloseSender =>
      && Idle(s.senders) && x == Owe(0)
      && y == if s.book.core.receiverClosed then Owe(0) else if s.single then Owe(1) else OweAll
    case CloseReceiver =>
      && Idle(s.receivers) && y == Owe(0)
      && x == if s.book.core.senderClosed then Owe(0) else OweAll
    case Elsewhere => (Inner(x) && y == Owe(0)) || (x == Owe(0) && Inner(y))
    case _ => x == Owe(SendersOwed(s.book, e)) && y == Owe(ReceiversOwed(s.book, e))
  }

  ghost predicate LinesNext<T>(s: State<T>, x: Action, y: Action, s': State<T>) {
    && Next(s.senders, x, s'.senders) && !StopsReady(s.senders, x)
    && Next(s.receivers, y, s'.receivers) && !StopsReady(s.receivers, y)
  }

  ghost predicate ChanNext<T>(s: State<T>, e: Event<T>, x: Action, y: Action, s': State<T>) {
    && Possible(s.book, e) && Pairs(s, e, x, y)
    && s'.book == After(s.book, e) && s'.single == s.single
    && LinesNext(s, x, y, s')
  }

  // ---- Invariants of the machine --------------------------------------------------------

  ghost predicate LinesOk<T>(s: State<T>) {
    Wf(s.senders) && GrantsKept(s.senders) && Wf(s.receivers) && GrantsKept(s.receivers)
  }

  ghost predicate HoldersOk<T>(s: State<T>) {
    AllGranted(s.senders, s.book.sent + s.book.slots) && AllGranted(s.receivers, s.book.taken)
  }

  ghost predicate WakeupsOk<T>(s: State<T>) {
    && (!s.book.core.receiverClosed ==> NoLostWakeup(s.book.core.Free(), |s.book.taken|, s.senders))
    && NoLostWakeup(|s.book.core.queue|, |s.book.sent|, s.receivers)
  }

  // With a single receiver at most one receive waits.
  ghost predicate AtMostOne(l: Line) {
    |l.queue| + (if l.lock.Suspend? then 1 else 0) <= 1
  }

  // Closing one side reaches everybody who waits on the other.
  ghost predicate ClosingOk<T>(s: State<T>) {
    && CloseCovered(s.book.core.receiverClosed, s.senders)
    && (s.book.core.senderClosed ==> Idle(s.senders))
    && (s.book.core.receiverClosed ==> Idle(s.receivers))
    && ReceiversCovered(s)
  }

  ghost predicate ReceiversCovered<T>(s: State<T>) {
    if s.single then
      && AtMostOne(s.receivers)
      && (s.book.core.senderClosed && Waits(s.receivers) ==> s.receivers.owed + Slack(s.receivers) >= 1)
    else CloseCovered(s.book.core.senderClosed, s.receivers)
  }

  lemma LinesKept<T>(s: State<T>, x: Action, y: Action, s': State<T>)
    requires LinesOk(s) && LinesNext(s, x, y, s')
    ensures LinesOk(s')
  {
    NextKeepsWf(s.senders, x, s'.senders);
    NextKeepsWf(s.receivers, y, s'.receivers);
    GrantsKeptExactly(s.senders, x, s'.senders);
    GrantsKeptExactly(s.receivers, y, s'.receivers);
  }

  lemma HoldersGrow<T>(b: Book<T>, e: Event<T>)
    requires Possible(b, e)
    ensures After(b, e).sent + After(b, e).slots <=
            b.sent + b.slots + if e.SenderTries? && Hits(b, e) then {e.w} else {}
    ensures After(b, e).taken <= b.taken + if e.ReceiverTries? && Hits(b, e) then {e.w} else {}
  {
  }

  // A queue's lock holder hits exactly in the events of its own awaiters.
  lemma HitsArePredicates<T>(s: State<T>, e: Event<T>, x: Action, y: Action)
    requires Possible(s.book, e) && Pairs(s, e, x, y)
    ensures x == Hit <==> e.SenderTries? && Hits(s.book, e)
    ensures y == Hit <==> e.ReceiverTries? && Hits(s.book, e)
    ensures x == Miss <==> e.SenderTries? && !Hits(s.book, e)
    ensures y == Miss <==> e.ReceiverTries? && !Hits(s.book, e)
    ensures e.SenderTries? ==> HasTarget(s.senders) && Target(s.senders) == e.w
    ensures e.ReceiverTries? ==> HasTarget(s.receivers) && Target(s.receivers) == e.w
  {
  }

  lemma HoldersKept<T>(s: State<T>, e: Event<T>, x: Action, y: Action, s': State<T>)
    requires LinesOk(s) && HoldersOk(s) && ChanNext(s, e, x, y, s')
    ensures HoldersOk(s') && FreshTry(s.book, e)
  {
    HitsArePredicates(s, e, x, y);
    HoldersGrow(s.book, e);
    if e.SenderTries? { TargetUngranted(s.senders); }
    if e.ReceiverTries? { TargetUngranted(s.receivers); }
    AllGrantedKept(s.senders, x, s'.senders, s.book.sent + s.book.slots, s'.book.sent + s'.book.slots);
    AllGrantedKept(s.receivers, y, s'.receivers, s.book.taken, s'.book.taken);
  }

  // Every wake-up the event entails is really owed by the step.
  lemma OwedByStep<T>(s: State<T>, e: Event<T>, x: Action, y: Action)
    requires Possible(s.book, e) && Pairs(s, e, x, y)
    ensures if x.Owe? then x.n == SendersOwed(s.book, e) else SendersOwed(s.book, e) == 0
    ensures if y.Owe? then y.n >= ReceiversOwed(s.book, e) else ReceiversOwed(s.book, e) == 0
  {
  }

  lemma SenderWakeupsKept<T>(b: Book<T>, e: Event<T>, l: Line, x: Action, l': Line)
    requires Possible(b, e) && CountsOk(b) && FreshTry(b, e) && Next(l, x, l')
    requires !b.core.receiverClosed && NoLostWakeup(b.core.Free(), |b.taken|, l)
    requires x == Hit <==> e.SenderTries? && Hits(b, e)
    requires x == Miss <==> e.SenderTries? && !Hits(b, e)
    requires if x.Owe? then x.n == SendersOwed(b, e) else SendersOwed(b, e) == 0
    ensures NoLostWakeup(After(b, e).core.Free(), |After(b, e).taken|, l')
  {
    SlotBalance(b, e);
    NoLostWakeupKept(b.core.Free(), |b.taken|, l, x, After(b, e).core.Free(), |After(b, e).taken|, l');
  }

  lemma ReceiverWakeupsKept<T>(b: Book<T>, e: Event<T>, l: Line, y: Action, l': Line)
    requires Possible(b, e) && CountsOk(b) && FreshTry(b, e) && Next(l, y, l')
    requires NoLostWakeup(|b.core.queue|, |b.sent|, l)
    requires y == Hit <==> e.ReceiverTries? && Hits(b, e)
    requires y == Miss <==> e.ReceiverTries? && !Hits(b, e)
    requires if y.Owe? then y.n >= ReceiversOwed(b, e) else ReceiversOwed(b, e) == 0
    ensures NoLostWakeup(|After(b, e).core.queue|, |After(b, e).sent|, l')
  {
    ItemBalance(b, e);
    NoLostWakeupKept(|b.core.queue|, |b.sent|, l, y, |After(b, e).core.queue|, |After(b, e).sent|, l');
  }

  lemma WakeupsKept<T>(s: State<T>, e: Event<T>, x: Action, y: Action, s': State<T>)
    requires CountsOk(s.book) && FreshTry(s.book, e) && WakeupsOk(s) && ChanNext(s, e, x, y, s')
    ensures WakeupsOk(s')
  {
    HitsArePredicates(s, e, x, y);
    OwedByStep(s, e, x, y);
    ClosedFlags(s.book, e);
    if !s'.book.core.receiverClosed {
      SenderWakeupsKept(s.book, e, s.senders, x, s'.senders);
    }
    ReceiverWakeupsKept(s.book, e, s.receivers, y, s'.receivers);
  }

  lemma ClosedFlags<T>(b: Book<T>, e: Event<T>)
    requires Possible(b, e)
    ensures After(b, e).core.senderClosed == (b.core.senderClosed || e == CloseSender)
    ensures After(b, e).core.receiverClosed == (b.core.receiverClosed || e == CloseReceiver)
    ensures After(b, e).core.capacity == b.core.capacity
    ensures e.SenderTries? && b.core.receiverClosed ==> Hits(b, e)
    ensures e.ReceiverTries? && b.core.senderClosed ==> Hits(b, e)
  {
  }

  lemma IdleKept(l: Line, a: Action, l': Line)
    requires Idle(l) && Next(l, a, l') && !a.BeginSuspend?
    ensures Idle(l')
  {
    if a.StopLock? { assert Unlink(l.queue, a.w) == []; }
  }

  lemma AtMostOneKept(l: Line, a: Action, l': Line)
    requires Wf(l) && AtMostOne(l) && Next(l, a, l') && (a.BeginSuspend? ==> Idle(l))
    ensures AtMostOne(l')
  {
    ShorterUnlessEnqueued(l, a, l');
  }

  // Only the suspending waiter makes the queue longer.
  lemma ShorterUnlessEnqueued(l: Line, a: Action, l': Line)
    requires Next(l, a, l')
    ensures a != Enqueue ==> |l'.queue| <= |l.queue|
    ensures a == Enqueue ==> |l'.queue| == |l.queue| + 1 && l.lock.Suspend? && l'.lock.Free?
    ensures l'.lock.Suspend? ==> l.lock.Suspend? || a.BeginSuspend?
  {
  }

  // Once the senders are gone, the single receiver that waits has a wake-up under way.
  lemma SingleCoveredKept(closed: bool, l: Line, a: Action, closed': bool, l': Line)
    requires Wf(l) && AtMostOne(l) && Next(l, a, l') && (a.BeginSuspend? ==> Idle(l))
    requires closed && Waits(l) ==> l.owed + Slack(l) >= 1
    requires closed' && !closed && Waits(l) ==> a == Owe(1)
    requires a == Miss ==> !closed'
    ensures closed' && Waits(l') ==> l'.owed + Slack(l') >= 1
  {
    if a.StopLock? && l.queue == [] { assert Unlink(l.queue, a.w) == []; }
  }

  lemma ClosingKept<T>(s: State<T>, e: Event<T>, x: Action, y: Action, s': State<T>)
    requires LinesOk(s) && ClosingOk(s) && ChanNext(s, e, x, y, s')
    ensures ClosingOk(s')
  {
    var c, c' := s.book.core, s'.book.core;
    HitsArePredicates(s, e, x, y);
    ClosedFlags(s.book, e);
    PairsForClosing(s, e, x, y);
    CloseCoveredKept(c.receiverClosed, s.senders, x, c'.receiverClosed, s'.senders);
    if c'.senderClosed { IdleKept(s.senders, x, s'.senders); }
    if c'.receiverClosed { IdleKept(s.receivers, y, s'.receivers); }
    ReceiversCoveredKept(s, e, x, y, s');
  }

  lemma ReceiversCoveredKept<T>(s: State<T>, e: Event<T>, x: Action, y: Action, s': State<T>)
    requires LinesOk(s) && ReceiversCovered(s) && ChanNext(s, e, x, y, s')
    requires s.book.core.receiverClosed ==> Idle(s.receivers)
    ensures ReceiversCovered(s')
  {
    var c, c' := s.book.core, s'.book.core;
    HitsArePredicates(s, e, x, y);
    ClosedFlags(s.book, e);
    PairsForClosing(s, e, x, y);
    if s.single {
      AtMostOneKept(s.receivers, y, s'.receivers);
      SingleCoveredKept(c.senderClosed, s.receivers, y, c'.senderClosed, s'.receivers);
    } else {
      CloseCoveredKept(c.senderClosed, s.receivers, y, c'.senderClosed, s'.receivers);
    }
  }

  lemma PairsForClosing<T>(s: State<T>, e: Event<T>, x: Action, y: Action)
    requires Possible(s.book, e) && Pairs(s, e, x, y)
    ensures x.BeginSuspend? ==> !s.book.core.senderClosed && e.NewSender?
    ensures y.BeginSuspend? ==> !s.book.core.receiverClosed && e.NewReceiver? && (s.single ==> Idle(s.receivers))
    ensures x == OweAll ==> e == CloseReceiver
    ensures y == OweAll ==> e == CloseSender && !s.single
    ensures e == CloseReceiver ==> Idle(s.receivers) && (s.book.core.senderClosed || x == OweAll)
    ensures e == CloseSender ==>
              Idle(s.senders) && (s.book.core.receiverClosed || y == if s.single then Owe(1) else OweAll)
  {
  }

  // ---- Outcomes are kept -----------------------------------------------------------------

  lemma JobsAfter<T>(b: Book<T>, e: Event<T>)
    requires Possible(b, e)
    ensures forall w | w in b.jobs && !(e.NewSender? && e.w == w) ::
              w in After(b, e).jobs &&
              After(b, e).jobs[w].done ==
              (b.jobs[w].done || (e == SenderTries(w) && Hits(b, e) && !b.core.receiverClosed))
    ensures forall w | w in After(b, e).jobs && w !in b.jobs :: e.NewSender? && e.w == w
    ensures e.NewSender? ==> e.w in After(b, e).jobs && !After(b, e).jobs[e.w].done
    ensures forall w :: w in After(b, e).box <==>
              w in b.box || (e == ReceiverTries(w) && Hits(b, e) && b.core.queue != [])
    ensures e.ReceiverTries? && Hits(b, e) ==> b.core.queue != [] || b.core.senderClosed
  {
  }

  // How a queue step changes one waiter's grants.
  lemma GrantsAfter(l: Line, a: Action, l': Line)
    requires Wf(l) && Next(l, a, l')
    ensures forall w | w in l.waiters ::
              w in l'.waiters && l'.waiters[w].grants == if a == Hit && w == Target(l) then 1 else l.waiters[w].grants
    ensures forall w | w in l'.waiters && w !in l.waiters :: a == BeginSuspend(w) && l'.waiters[w].grants == 0
  {
    if HasTarget(l) {
      TargetUngranted(l);
    }
    forall w | w in l.waiters && (a == Hit ==> w != Target(l))
      ensures w in l'.waiters && l'.waiters[w].grants == l.waiters[w].grants
    {
      GrantsUnchanged(l, a, l', w);
    }
  }

  lemma OutcomesKept<T>(s: State<T>, e: Event<T>, x: Action, y: Action, s': State<T>)
    requires LinesOk(s) && OutcomesOk(s) && ChanNext(s, e, x, y, s')
    ensures OutcomesOk(s')
  {
    SendersOkKept(s, e, x, y, s');
    ReceiversOkKept(s, e, x, y, s');
  }

  lemma SendersOkKept<T>(s: State<T>, e: Event<T>, x: Action, y: Action, s': State<T>)
    requires LinesOk(s) && SendersOk(s.book, s.senders) && ChanNext(s, e, x, y, s')
    ensures SendersOk(s'.book, s'.senders)
  {
    HitsArePredicates(s, e, x, y);
    ClosedFlags(s.book, e);
    PairsForClosing(s, e, x, y);
    JobsAfter(s.book, e);
    GrantsAfter(s.senders, x, s'.senders);
  }

  lemma ReceiversOkKept<T>(s: State<T>, e: Event<T>, x: Action, y: Action, s': State<T>)
    requires LinesOk(s) && ReceiversOk(s.book, s.receivers) && ChanNext(s, e, x, y, s')
    ensures ReceiversOk(s'.book, s'.receivers)
  {
    HitsArePredicates(s, e, x, y);
    ClosedFlags(s.book, e);
    PairsForClosing(s, e, x, y);
    JobsAfter(s.book, e);
    GrantsAfter(s.receivers, y, s'.receivers);
  }

  // ---- Every run -----------------------------------------------------------------------------

  ghost predicate Inv<T>(s: State<T>) {
    && LinesOk(s) && HoldersOk(s) && CountsOk(s.book) && FifoOk(s.book)
    && WakeupsOk(s) && ClosingOk(s) && OutcomesOk(s) && MovesOk(s.book)
  }

  ghost predicate Step<T(!new)>(s: State<T>, s': State<T>) {
    exists e, x, y :: ChanNext(s, e, x, y, s')
  }

  ghost predicate Run<T(!new)>(r: seq<State<T>>) {
    && |r| > 0 && Init(r[0])
    && forall i | 0 <= i < |r| - 1 :: Step(r[i], r[i + 1])
  }

  lemma InitInv<T>(s: State<T>)
    requires Init(s)
    ensures Inv(s)
  {
  }

  lemma InvKept<T>(s: State<T>, e: Event<T>, x: Action, y: Action, s': State<T>)
    requires Inv(s) && ChanNext(s, e, x, y, s')
    ensures Inv(s')
  {
    LinesKept(s, x, y, s');
    HoldersKept(s, e, x, y, s');
    CountsKept(s.book, e);
    FifoKept(s.book, e);
    WakeupsKept(s, e, x, y, s');
    ClosingKept(s, e, x, y, s');
    OutcomesKept(s, e, x, y, s');
    NobodyTriesTwice(s, e, x, y, s');
    MovesKept(s.book, e);
  }

  // Only an awaiter that has obtained nothing yet evaluates its predicate.
  lemma NobodyTriesTwice<T>(s: State<T>, e: Event<T>, x: Action, y: Action, s': State<T>)
    requires LinesOk(s) && OutcomesOk(s) && ChanNext(s, e, x, y, s')
    ensures e.NewSender? ==> e.w !in s.book.jobs
    ensures e.SenderTries? ==> !s.book.jobs[e.w].done
    ensures e.ReceiverTries? ==> e.w !in s.book.box
  {
    HitsArePredicates(s, e, x, y);
    if e.SenderTries? { TargetUngranted(s.senders); }
    if e.ReceiverTries? { TargetUngranted(s.receivers); }
  }

  lemma {:induction false} RunInv<T(!new)>(r: seq<State<T>>, k: nat)
    requires Run(r) && k < |r|
    ensures Inv(r[k])
  {
    if k == 0 {
      InitInv(r[0]);
    } else {
      RunInv(r, k - 1);
      assert Step(r[k - 1], r[k - 1 + 1]);
      var e, x, y :| ChanNext(r[k - 1], e, x, y, r[k]);
      InvKept(r[k - 1], e, x, y, r[k]);
    }
  }

  // Nothing accepted is lost, doubled or overtaken, and the capacity holds with every
  // outstanding permit counted in.
  lemma ChannelContents<T(!new)>(r: seq<State<T>>, k: nat)
    requires Run(r) && k < |r|
    ensures r[k].book.accepted == r[k].book.delivered + r[k].book.core.queue
    ensures |r[k].book.core.queue| + r[k].book.permits + |r[k].book.slots| <= r[k].book.core.capacity
  {
    RunInv(r, k);
  }

  // Every item accepted from a send awaiter is the one it was created with, each awaiter's
  // once; every item delivered to a receive awaiter is the one it returns, each awaiter's once;
  // both stand in the one order in which the items pass through the queue.
  lemma WhoGotWhat<T(!new)>(r: seq<State<T>>, k: nat)
    requires Run(r) && k < |r|
    ensures var b := r[k].book;
      && Items(b.puts) == b.accepted && Items(b.takes) == b.delivered && b.accepted == b.delivered + b.core.queue
      && Recorded(b.puts, SentItems(b.jobs)) && Recorded(b.takes, b.box)
  {
    RunInv(r, k);
  }

  // While a sender waits on an open channel, each free slot has a sender wake-up under way;
  // while a receiver waits, each queued item has a receiver wake-up under way.
  lemma ChannelWakeups<T(!new)>(r: seq<State<T>>, k: nat)
    requires Run(r) && k < |r|
    ensures r[k].senders.queue != [] && !r[k].book.core.receiverClosed ==>
              r[k].book.core.Free() <= r[k].senders.owed + Slack(r[k].senders) + |r[k].book.taken|
    ensures r[k].receivers.queue != [] ==>
              |r[k].book.core.queue| <= r[k].receivers.owed + Slack(r[k].receivers) + |r[k].book.sent|
  {
    RunInv(r, k);
  }

  // When all wake-ups have been delivered, a waiting sender means a full channel, a waiting
  // receiver an empty one, and nobody waits for a side that is closed.
  lemma ChannelAtRest<T(!new)>(r: seq<State<T>>, k: nat)
    requires Run(r) && k < |r|
    requires r[k].senders.lock == Free && r[k].receivers.lock == Free
    requires r[k].senders.owed == r[k].senders.owedAll == r[k].receivers.owed == r[k].receivers.owedAll == 0
    requires r[k].book.taken == {} && r[k].book.sent == {}
    ensures r[k].senders.queue != [] ==> r[k].book.core.Free() == 0 && !r[k].book.core.receiverClosed
    ensures r[k].receivers.queue != [] ==> r[k].book.core.queue == [] && !r[k].book.core.senderClosed
    ensures r[k].senders.queue == [] || r[k].receivers.queue == [] || r[k].book.core.reserved == r[k].book.core.capacity
  {
    RunInv(r, k);
  }

  // A resumed awaiter obtained what it waited for unless the other side is closed; one that
  // was stopped left the channel as if it had never asked.
  lemma AwaiterOutcomes<T(!new)>(r: seq<State<T>>, k: nat, w: Id)
    requires Run(r) && k < |r|
    ensures w in r[k].senders.waiters ==> w in r[k].book.jobs
    ensures w in r[k].senders.waiters && r[k].senders.waiters[w].resumes == 1 ==>
              r[k].book.jobs[w].done || r[k].book.core.receiverClosed
    ensures w in r[k].senders.waiters && r[k].senders.waiters[w].stops == 1 ==> !r[k].book.jobs[w].done
    ensures w in r[k].receivers.waiters && r[k].receivers.waiters[w].resumes == 1 ==>
              w in r[k].book.box || r[k].book.core.senderClosed
    ensures w in r[k].receivers.waiters && r[k].receivers.waiters[w].stops == 1 ==> w !in r[k].book.box
  {
    RunInv(r, k);
    if w in r[k].senders.waiters {
      assert Coherent(r[k].senders.waiters[w]) && GrantKept(r[k].senders.waiters[w]);
    }
    if w in r[k].receivers.waiters {
      assert Coherent(r[k].receivers.waiters[w]) && GrantKept(r[k].receivers.waiters[w]);
    }
  }

  // ---- Wake-ups make progress ------------------------------------------------------------

  ghost predicate Path<T(!new)>(p: seq<State<T>>) {
    p != [] && forall i | 0 <= i < |p| - 1 :: Step(p[i], p[i + 1])
  }

  // A step inside one wait queue.
  lemma SenderLineStep<T(!new)>(s: State<T>, a: Action, l': Line)
    requires Inner(a) && Next(s.senders, a, l') && !StopsReady(s.senders, a)
    ensures Step(s, s.(senders := l'))
  {
    assert ChanNext(s, Elsewhere, a, Owe(0), s.(senders := l'));
  }

  lemma ReceiverLineStep<T(!new)>(s: State<T>, a: Action, l': Line)
    requires Inner(a) && Next(s.receivers, a, l') && !StopsReady(s.receivers, a)
    ensures Step(s, s.(receivers := l'))
  {
    assert ChanNext(s, Elsewhere, Owe(0), a, s.(receivers := l'));
  }

  // A predicate that says yes.
  lemma SenderHitStep<T(!new)>(s: State<T>, w: Id, l': Line)
    requires HasTarget(s.senders) && Target(s.senders) == w && Next(s.senders, Hit, l') && w in s.book.jobs
    requires !s.book.core.receiverClosed && s.book.core.HasSpace()
    ensures Possible(s.book, SenderTries(w)) && Step(s, s.(senders := l', book := After(s.book, SenderTries(w))))
    ensures w in After(s.book, SenderTries(w)).jobs && After(s.book, SenderTries(w)).jobs[w].done
  {
    assert ChanNext(s, SenderTries(w), Hit, Owe(0), s.(senders := l', book := After(s.book, SenderTries(w))));
  }

  lemma ReceiverHitStep<T(!new)>(s: State<T>, w: Id, l': Line)
    requires HasTarget(s.receivers) && Target(s.receivers) == w && Next(s.receivers, Hit, l')
    requires s.book.core.queue != []
    ensures Step(s, s.(receivers := l', book := After(s.book, ReceiverTries(w))))
    ensures After(s.book, ReceiverTries(w)).box == s.book.box[w := s.book.core.queue[0]]
  {
    assert ChanNext(s, ReceiverTries(w), Owe(0), Hit, s.(receivers := l', book := After(s.book, ReceiverTries(w))));
  }

  // A free slot reaches the first waiting sender: three steps give it what it waits for and
  // resume it, using up one wake-up.
  lemma SlotReachesSender<T(!new)>(r: seq<State<T>>, k: nat) returns (path: seq<State<T>>)
    requires Run(r) && k < |r|
    requires r[k].senders.queue != [] && r[k].senders.lock.Free? && r[k].senders.owed > 0
    requires !r[k].book.core.receiverClosed && r[k].book.core.HasSpace()
    ensures |path| == 4 && path[0] == r[k] && Path(path)
    ensures var w, last := r[k].senders.queue[0], path[3];
      && w in last.senders.waiters && last.senders.waiters[w].resumes == 1
      && w in last.book.jobs && last.book.jobs[w].done
      && last.senders.owed == r[k].senders.owed - 1 && last.senders.queue == r[k].senders.queue[1..]
  {
    RunInv(r, k);
    assert r[k].senders.queue[0] in r[k].senders.waiters;
    path := SlotServed(r[k]);
  }

  lemma SlotServed<T(!new)>(s: State<T>) returns (path: seq<State<T>>)
    requires Wf(s.senders) && s.senders.queue != [] && s.senders.lock.Free? && s.senders.owed > 0
    requires s.senders.queue[0] in s.book.jobs && !s.book.core.receiverClosed && s.book.core.HasSpace()
    ensures |path| == 4 && path[0] == s && Path(path)
    ensures var w, last := s.senders.queue[0], path[3];
      && w in last.senders.waiters && last.senders.waiters[w].resumes == 1
      && w in last.book.jobs && last.book.jobs[w].done
      && last.senders.owed == s.senders.owed - 1 && last.senders.queue == s.senders.queue[1..]
  {
    var w := s.senders.queue[0];
    var begun, woken, served := FirstWaiterServed(s.senders);
    var a := s.(senders := begun);
    var b := a.(senders := woken, book := After(s.book, SenderTries(w)));
    SenderLineStep(s, BeginWake, begun);
    SenderHitStep(a, w, woken);
    SenderLineStep(b, Resume(w), served);
    path := [s, a, b, b.(senders := served)];
  }

  // The same for a queued item and the first waiting receiver: it gets the oldest item.
  lemma ItemReachesReceiver<T(!new)>(r: seq<State<T>>, k: nat) returns (path: seq<State<T>>)
    requires Run(r) && k < |r|
    requires r[k].receivers.queue != [] && r[k].receivers.lock.Free? && r[k].receivers.owed > 0
    requires r[k].book.core.queue != []
    ensures |path| == 4 && path[0] == r[k] && Path(path)
    ensures var w, last := r[k].receivers.queue[0], path[3];
      && w in last.receivers.waiters && last.receivers.waiters[w].resumes == 1
      && w in last.book.box && last.book.box[w] == r[k].book.core.queue[0]
      && last.receivers.owed == r[k].receivers.owed - 1 && last.receivers.queue == r[k].receivers.queue[1..]
  {
    RunInv(r, k);
    path := ItemServed(r[k]);
  }

  lemma ItemServed<T(!new)>(s: State<T>) returns (path: seq<State<T>>)
    requires Wf(s.receivers) && s.receivers.queue != [] && s.receivers.lock.Free? && s.receivers.owed > 0
    requires s.book.core.queue != []
    ensures |path| == 4 && path[0] == s && Path(path)
    ensures var w, last := s.receivers.queue[0], path[3];
      && w in last.receivers.waiters && last.receivers.waiters[w].resumes == 1
      && w in last.book.box && last.book.box[w] == s.book.core.queue[0]
      && last.receivers.owed == s.receivers.owed - 1 && last.receivers.queue == s.receivers.queue[1..]
  {
    var w := s.receivers.queue[0];
    var begun, woken, served := FirstWaiterServed(s.receivers);
    var a := s.(receivers := begun);
    var b := a.(receivers := woken, book := After(s.book, ReceiverTries(w)));
    ReceiverLineStep(s, BeginWake, begun);
    ReceiverHitStep(a, w, woken);
    ReceiverLineStep(b, Resume(w), served);
    path := [s, a, b, b.(receivers := served)];
  }

  // A wake-up that a woken receiver has still to call for: at most three steps take it through
  // its resume, and then the sender queue is owed one call more.
  lemma TakerComesRound<T(!new)>(r: seq<State<T>>, k: nat, w: Id) returns (path: seq<State<T>>)
    requires Run(r) && k < |r| && w in r[k].book.taken
    ensures 2 <= |path| <= 4 && path[0] == r[k] && Path(path)
    ensures var s, last := r[k], path[|path| - 1];
      && last.senders == s.senders.(owed := s.senders.owed + 1)
      && last.book == s.book.(taken := s.book.taken - {w})
  {
    RunInv(r, k);
    path := ReceiverSettles(r[k], w);
  }

  lemma {:induction false} ReceiverSettles<T(!new)>(s: State<T>, w: Id) returns (path: seq<State<T>>)
    requires w in s.book.taken && w in s.receivers.waiters && s.receivers.waiters[w].grants == 1
    requires Coherent(s.receivers.waiters[w]) && GrantKept(s.receivers.waiters[w])
    ensures 2 <= |path| <= 2 + Rank(s.receivers.waiters[w].at) && path[0] == s && Path(path)
    ensures var last := path[|path| - 1];
      && last.senders == s.senders.(owed := s.senders.owed + 1)
      && last.book == s.book.(taken := s.book.taken - {w})
    decreases Rank(s.receivers.waiters[w].at)
  {
    var x := s.receivers.waiters[w];
    if x.at.Settled? {
      var s' := s.(book := After(s.book, ReceiverDone(w)), senders := s.senders.(owed := s.senders.owed + 1));
      assert ChanNext(s, ReceiverDone(w), Owe(1), Owe(0), s');
      path := [s, s'];
    } else {
      var a := if x.at.Ready? then Drain(w) else Resume(w);
      var x' := if x.at.Ready? then x.(at := Waking) else x.(at := Settled, resumes := x.resumes + 1);
      ReceiverLineStep(s, a, Put(s.receivers, w, x'));
      var rest := ReceiverSettles(s.(receivers := Put(s.receivers, w, x')), w);
      path := PathFrom(s, rest);
    }
  }

  function Rank(p: Place): (n: nat) {
    if p.Ready? then 2 else if p.Waking? then 1 else 0
  }

  lemma PathFrom<T(!new)>(s: State<T>, rest: seq<State<T>>) returns (path: seq<State<T>>)
    requires Path(rest) && Step(s, rest[0])
    ensures Path(path) && path[0] == s && |path| == |rest| + 1 && path[|path| - 1] == rest[|rest| - 1]
  {
    path := [s] + rest;
    forall i | 0 <= i < |path| - 1 ensures Step(path[i], path[i + 1]) {
      assert path[i + 1] == rest[i];
      if i > 0 {
        assert Step(rest[i - 1], rest[i - 1 + 1]);
      }
    }
  }

  // The other way round: a woken sender that has put its item comes round to call for a
  // receiver, and a woken reserver comes round to own its permit.
  lemma SenderComesRound<T(!new)>(r: seq<State<T>>, k: nat, w: Id) returns (path: seq<State<T>>)
    requires Run(r) && k < |r| && w in r[k].book.sent + r[k].book.slots
    ensures 2 <= |path| <= 4 && path[0] == r[k] && Path(path)
    ensures var s, last := r[k], path[|path| - 1];
      if w in s.book.sent then
        && last.receivers == s.receivers.(owed := s.receivers.owed + 1)
        && last.book == s.book.(sent := s.book.sent - {w})
      else
        && last.receivers == s.receivers
        && last.book == s.book.(slots := s.book.slots - {w}, permits := s.book.permits + 1)
  {
    RunInv(r, k);
    path := SenderSettles(r[k], w);
  }

  function SenderDoneStep<T>(s: State<T>, w: Id): (s': State<T>) {
    var n := if w in s.book.sent then 1 else 0;
    s.(book := After(s.book, SenderDone(w)), receivers := s.receivers.(owed := s.receivers.owed + n))
  }

  lemma SenderDoneIsStep<T(!new)>(s: State<T>, w: Id)
    requires w in s.book.sent + s.book.slots && s.book.sent !! s.book.slots
    requires w in s.senders.waiters && s.senders.waiters[w].resumes == 1
    ensures Step(s, SenderDoneStep(s, w))
    ensures SenderDoneStep(s, w).book ==
      if w in s.book.sent then s.book.(sent := s.book.sent - {w})
      else s.book.(slots := s.book.slots - {w}, permits := s.book.permits + 1)
  {
    var n := if w in s.book.sent then 1 else 0;
    assert ChanNext(s, SenderDone(w), Owe(0), Owe(n), SenderDoneStep(s, w));
  }

  lemma {:induction false} SenderSettles<T(!new)>(s: State<T>, w: Id) returns (path: seq<State<T>>)
    requires w in s.book.sent + s.book.slots && s.book.sent !! s.book.slots
    requires w in s.senders.waiters && s.senders.waiters[w].grants == 1
    requires Coherent(s.senders.waiters[w]) && GrantKept(s.senders.waiters[w])
    ensures 2 <= |path| <= 2 + Rank(s.senders.waiters[w].at) && path[0] == s && Path(path)
    ensures var last := path[|path| - 1];
      if w in s.book.sent then
        && last.receivers == s.receivers.(owed := s.receivers.owed + 1)
        && last.book == s.book.(sent := s.book.sent - {w})
      else
        && last.receivers == s.receivers
        && last.book == s.book.(slots := s.book.slots - {w}, permits := s.book.permits + 1)
    decreases Rank(s.senders.waiters[w].at)
  {
    var x := s.senders.waiters[w];
    if x.at.Settled? {
      SenderDoneIsStep(s, w);
      path := [s, SenderDoneStep(s, w)];
    } else {
      var a := if x.at.Ready? then Drain(w) else Resume(w);
      var x' := if x.at.Ready? then x.(at := Waking) else x.(at := Settled, resumes := x.resumes + 1);
      SenderLineStep(s, a, Put(s.senders, w, x'));
      var rest := SenderSettles(s.(senders := Put(s.senders, w, x')), w);
      path := PathFrom(s, rest);
    }
  }

  // What a call that does not wait, or a permit, can do: exactly what the channel has room or
  // items for, and a permit can always be used or given up.
  lemma PossibleExactly<T>(b: Book<T>, item: T)
    requires CountsOk(b)
    ensures Possible(b, TrySendOk(item)) <==>
      !b.core.receiverClosed && |b.core.queue| + b.core.reserved < b.core.capacity
    ensures Possible(b, TryReserveOk) <==>
      !b.core.receiverClosed && |b.core.queue| + b.core.reserved < b.core.capacity
    ensures Possible(b, TryRecvOk) <==> b.core.queue != []
    ensures Possible(b, UsePermit(item)) <==> b.permits > 0
    ensures Possible(b, DropPermit) <==> b.permits > 0
    ensures Possible(b, CloseSender) <==> !b.core.senderClosed
    ensures Possible(b, CloseReceiver) <==> !b.core.receiverClosed
    ensures forall w, job :: Possible(b, NewSender(w, job)) <==> !b.core.senderClosed && !job.done
    ensures forall w :: Possible(b, NewReceiver(w)) <==> !b.core.receiverClosed
  {
  }

  // A sender that finds no room, and a receiver that finds no item, can come to wait at the end
  // of its queue in three steps.
  lemma SenderCanWait<T(!new)>(r: seq<State<T>>, k: nat, w: Id, item: T) returns (path: seq<State<T>>)
    requires Run(r) && k < |r| && r[k].senders.lock.Free? && w !in r[k].senders.waiters
    requires !r[k].book.core.senderClosed && !r[k].book.core.receiverClosed && !r[k].book.core.HasSpace()
    ensures |path| == 4 && path[0] == r[k] && Path(path)
    ensures path[3].senders.queue == r[k].senders.queue + [w] && path[3].senders.lock.Free?
    ensures path[3].book == r[k].book.(jobs := r[k].book.jobs[w := SendJob(item, false)])
  {
    RunInv(r, k);
    path := SenderWaits(r[k], w, item);
  }

  lemma SenderWaits<T(!new)>(s: State<T>, w: Id, item: T) returns (path: seq<State<T>>)
    requires Wf(s.senders) && s.senders.lock.Free? && w !in s.senders.waiters
    requires !s.book.core.senderClosed && !s.book.core.receiverClosed && !s.book.core.HasSpace()
    ensures |path| == 4 && path[0] == s && Path(path)
    ensures path[3].senders.queue == s.senders.queue + [w] && path[3].senders.lock.Free?
    ensures path[3].book == s.book.(jobs := s.book.jobs[w := SendJob(item, false)])
  {
    var begun, asked, queued := WaitsAfterAsking(s.senders, w);
    var a := s.(senders := begun, book := After(s.book, NewSender(w, SendJob(item, false))));
    assert ChanNext(s, NewSender(w, SendJob(item, false)), BeginSuspend(w), Owe(0), a);
    SenderMissStep(a, w, asked);
    SenderLineStep(a.(senders := asked), Enqueue, queued);
    path := [s, a, a.(senders := asked), a.(senders := queued)];
  }

  lemma SenderMissStep<T(!new)>(s: State<T>, w: Id, l': Line)
    requires HasTarget(s.senders) && Target(s.senders) == w && Next(s.senders, Miss, l') && w in s.book.jobs
    requires !s.book.core.receiverClosed && !s.book.core.HasSpace()
    ensures Step(s, s.(senders := l'))
  {
    assert ChanNext(s, SenderTries(w), Miss, Owe(0), s.(senders := l'));
  }

  lemma ReceiverCanWait<T(!new)>(r: seq<State<T>>, k: nat, w: Id) returns (path: seq<State<T>>)
    requires Run(r) && k < |r| && r[k].receivers.lock.Free? && w !in r[k].receivers.waiters
    requires r[k].single ==> r[k].receivers.queue == []
    requires !r[k].book.core.senderClosed && !r[k].book.core.receiverClosed && r[k].book.core.queue == []
    ensures |path| == 4 && path[0] == r[k] && Path(path)
    ensures path[3].receivers.queue == r[k].receivers.queue + [w] && path[3].receivers.lock.Free?
    ensures path[3].book == r[k].book
  {
    RunInv(r, k);
    path := ReceiverWaits(r[k], w);
  }

  lemma ReceiverWaits<T(!new)>(s: State<T>, w: Id) returns (path: seq<State<T>>)
    requires Wf(s.receivers) && s.receivers.lock.Free? && w !in s.receivers.waiters
    requires s.single ==> s.receivers.queue == []
    requires !s.book.core.senderClosed && !s.book.core.receiverClosed && s.book.core.queue == []
    ensures |path| == 4 && path[0] == s && Path(path)
    ensures path[3].receivers.queue == s.receivers.queue + [w] && path[3].receivers.lock.Free?
    ensures path[3].book == s.book
  {
    var begun, asked, queued := WaitsAfterAsking(s.receivers, w);
    var a := s.(receivers := begun);
    assert ChanNext(s, NewReceiver(w), Owe(0), BeginSuspend(w), a);
    ReceiverMissStep(a, w, asked);
    ReceiverLineStep(a.(receivers := asked), Enqueue, queued);
    path := [s, a, a.(receivers := asked), a.(receivers := queued)];
  }

  lemma ReceiverMissStep<T(!new)>(s: State<T>, w: Id, l': Line)
    requires HasTarget(s.receivers) && Target(s.receivers) == w && Next(s.receivers, Miss, l')
    requires !s.book.core.senderClosed && s.book.core.queue == []
    ensures Step(s, s.(receivers := l'))
  {
    assert ChanNext(s, ReceiverTries(w), Owe(0), Miss, s.(receivers := l'));
  }

  lemma WaitsAfterAsking(l: Line, w: Id) returns (begun: Line, asked: Line, queued: Line)
    requires Wf(l) && l.lock.Free? && w !in l.waiters
    ensures Next(l, BeginSuspend(w), begun) && HasTarget(begun) && Target(begun) == w
    ensures Next(begun, Miss, asked) && Next(asked, Enqueue, queued)
    ensures queued.queue == l.queue + [w] && queued.lock.Free?
  {
    begun, asked := SuspendingAsksFirst(l, w, false);
    queued :| Next(asked, Enqueue, queued) && queued.queue == l.queue + [w] && queued.lock.Free?;
  }

  // A side that nobody waits on can close, once, and calls for everybody on the other side
  // (for the single receiver one call is enough), unless that has closed before.
  lemma SenderCanClose<T(!new)>(s: State<T>) returns (s': State<T>)
    requires Idle(s.senders) && !s.book.core.senderClosed
    ensures Step(s, s') && s'.book == s.book.(core := s.book.core.(senderClosed := true)) && s'.senders == s.senders
    ensures s'.receivers ==
      if s.book.core.receiverClosed then s.receivers
      else if s.single then s.receivers.(owed := s.receivers.owed + 1)
      else s.receivers.(owedAll := s.receivers.owedAll + 1)
  {
    var y := if s.book.core.receiverClosed then Owe(0) else if s.single then Owe(1) else OweAll;
    var l := if s.book.core.receiverClosed then s.receivers
      else if s.single then s.receivers.(owed := s.receivers.owed + 1)
      else s.receivers.(owedAll := s.receivers.owedAll + 1);
    s' := s.(book := s.book.(core := s.book.core.(senderClosed := true)), receivers := l);
    assert ChanNext(s, CloseSender, Owe(0), y, s');
  }

  lemma ReceiverCanClose<T(!new)>(s: State<T>) returns (s': State<T>)
    requires Idle(s.receivers) && !s.book.core.receiverClosed
    ensures Step(s, s') && s'.book == s.book.(core := s.book.core.(receiverClosed := true))
    ensures s'.receivers == s.receivers && s'.senders ==
      if s.book.core.senderClosed then s.senders else s.senders.(owedAll := s.senders.owedAll + 1)
  {
    var x := if s.book.core.senderClosed then Owe(0) else OweAll;
    var l := if s.book.core.senderClosed then s.senders else s.senders.(owedAll := s.senders.owedAll + 1);
    s' := s.(book := s.book.(core := s.book.core.(receiverClosed := true)), senders := l);
    assert ChanNext(s, CloseReceiver, x, Owe(0), s');
  }
}
