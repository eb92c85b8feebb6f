/** The lifetime of a channel: each of the two sides closes, counts down and, if it was last,
    frees.  The two do so on different threads, one atomic step at a time.
 */
module ChannelLifetime {
  // How far a side is: in use, closed, closed and found to be last, or through.
  datatype Phase = Live | Closed | Last | Gone

  datatype Side = Sender | Receiver

  datatype State = State(
    count: int, sender: Phase, receiver: Phase, senderClosed: bool, receiverClosed: bool, frees: nat)

  const INITIAL := State(2, Live, Live, false, false, 0)

  function PhaseOf(s: State, side: Side): (r: Phase) {
    if side == Sender then s.sender else s.receiver
  }

  function Next(s: State, side: Side): (r: State) {
    match PhaseOf(s, side)
    case Live => InPhase(if side == Sender then s.(senderClosed := true) else s.(receiverClosed := true), side, Closed)
    case Closed => InPhase(s.(count := s.count - 1), side, if s.count == 1 then Last else Gone)
    case Last => InPhase(s.(frees := s.frees + 1), side, Gone)
    case Gone => s
  }

  function InPhase(s: State, side: Side, phase: Phase): (r: State) {
    if side == Sender then s.(sender := phase) else s.(receiver := phase)
  }

  // The state after the sides have moved in the order given.
  function After(steps: seq<Side>): (r: State) {
    if steps == [] then INITIAL else Next(After(steps[..|steps| - 1]), steps[|steps| - 1])
  }

  function Holding(p: Phase): (r: int) {
    if p.Live? || p.Closed? then 1 else 0
  }

  function Freeing(p: Phase): (r: int) {
    if p.Last? then 1 else 0
  }

  // The count is that of the sides still holding it, and as soon as nobody does there is
  // exactly one free, done or to be done.
  lemma {:induction false} Counted(steps: seq<Side>)
    ensures var s := After(steps);
      && s.count == Holding(s.sender) + Holding(s.receiver)
      && s.frees + Freeing(s.sender) + Freeing(s.receiver) == (if s.count == 0 then 1 else 0)
      && (s.sender.Live? <==> !s.senderClosed) && (s.receiver.Live? <==> !s.receiverClosed)
  {
    if steps != [] {
      Counted(steps[..|steps| - 1]);
    }
  }

  // No side that has still to touch the channel finds it freed; it is freed after both sides
  // have closed, at most once, and once both are through.
  lemma FreedOnceAtTheEnd(steps: seq<Side>)
    ensures var s := After(steps);
      && s.frees <= 1
      && (s.frees == 1 <==> s.sender.Gone? && s.receiver.Gone?)
      && (s.frees == 1 ==> s.senderClosed && s.receiverClosed)
  {
    Counted(steps);
  }

  function Moves(steps: seq<Side>, side: Side): (n: nat) {
    if steps == [] then 0 else Moves(steps[..|steps| - 1], side) + (if steps[|steps| - 1] == side then 1 else 0)
  }

  // Three moves take a side through, whatever the other one does in between.
  lemma {:induction false} ThreeMovesEnough(steps: seq<Side>, side: Side)
    ensures var p := PhaseOf(After(steps), side);
      && (Moves(steps, side) == 0 <==> p.Live?)
      && (Moves(steps, side) == 1 <==> p.Closed?)
      && (p.Last? ==> Moves(steps, side) == 2)
      && (Moves(steps, side) >= 3 ==> p.Gone?)
  {
    if steps != [] {
      ThreeMovesEnough(steps[..|steps| - 1], side);
    }
  }

  // So once both sides have run their deleter the channel has been freed, once.
  lemma FreedAfterBothDeleters(steps: seq<Side>)
    requires Moves(steps, Sender) >= 3 && Moves(steps, Receiver) >= 3
    ensures After(steps).frees == 1
  {
    ThreeMovesEnough(steps, Sender);
    ThreeMovesEnough(steps, Receiver);
    FreedOnceAtTheEnd(steps);
  }
}
