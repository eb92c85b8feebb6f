/** The in-memory duplex pipe: two byte channels, each with one reader and one writer.

    Every step runs under the lock of the channels it touches.  A transfer that cannot make
    progress parks its coroutine; a wake-up or a stop takes it out again, whichever is first.
    Transfers are of at least one byte.
 */
module Duplex {
  import opened Common
  import opened Bytes

  // A coroutine's transfer: none, suspended in the channel, or scheduled to run again.
  datatype Task<T> = Idle | Parked(job: T) | Woken(job: T)

  // `written` and `taken` are histories.
  datatype Channel = Channel(
    buffer: seq<byte>, reader: Task<nat>, writer: Task<seq<byte>>, readerClose: bool, writerClose: bool,
    written: seq<byte>, taken: seq<byte>)

  datatype End = Left | Right

  // The two channels; `Right` is the flipped end.
  datatype Pipe = Pipe(read: Channel, write: Channel)

  const FRESH := Channel([], Idle, Idle, false, false, [], [])

  datatype Action =
    | Read(end: End, n: nat)
    | ResumeRead(end: End)
    | StopRead(end: End)
    | Write(end: End, data: seq<byte>)
    | ResumeWrite(end: End)
    | StopWrite(end: End)
    | Shutdown(end: End)

  function Wakened<T>(t: Task<T>): (r: Task<T>) {
    if t.Parked? then Woken(t.job) else t
  }

  predicate CanRead(c: Channel) {
    c.buffer != [] || c.writerClose
  }

  predicate CanWrite(c: Channel, max: nat) {
    |c.buffer| < max || c.readerClose
  }

  // What a read of n bytes returns, and the channel behind it.
  function ReadCount(c: Channel, n: nat): (r: nat) {
    Min(|c.buffer|, n)
  }

  function AfterRead(c: Channel, n: nat): (r: Channel) {
    var k := ReadCount(c, n);
    c.(buffer := c.buffer[k..], taken := c.taken + c.buffer[..k], reader := Idle, writer := Wakened(c.writer))
  }

  function WriteCount(c: Channel, data: seq<byte>, max: nat): (r: nat) {
    if c.readerClose then 0 else if |c.buffer| <= max then Min(|data|, max - |c.buffer|) else 0
  }

  function AfterWrite(c: Channel, data: seq<byte>, max: nat): (r: Channel) {
    if c.readerClose then c.(writer := Idle) else
    var piece := data[..WriteCount(c, data, max)];
    c.(buffer := c.buffer + piece, written := c.written + piece, writer := Idle, reader := Wakened(c.reader))
  }

  // The channel that an end reads from, and the one it writes to.
  function Incoming(p: Pipe, e: End): (r: Channel) {
    if e == Right then p.write else p.read
  }

  function Outgoing(p: Pipe, e: End): (r: Channel) {
    if e == Right then p.read else p.write
  }

  predicate Enabled(p: Pipe, a: Action) {
    match a
    case Read(e, n) => n > 0 && Incoming(p, e).reader.Idle?
    case ResumeRead(e) => Incoming(p, e).reader.Woken?
    case StopRead(e) => Incoming(p, e).reader.Parked?
    case Write(e, data) => data != [] && Outgoing(p, e).writer.Idle?
    case ResumeWrite(e) => Outgoing(p, e).writer.Woken?
    case StopWrite(e) => Outgoing(p, e).writer.Parked?
    case Shutdown(_) => true
  }

  // What a step does to the channel its end reads from, and to the one it writes to.
  function InNext(c: Channel, a: Action): (r: Channel) {
    match a
    case Read(_, n) => if CanRead(c) then AfterRead(c, n) else c.(reader := Parked(n))
    case ResumeRead(_) => if c.reader.Woken? then AfterRead(c, c.reader.job) else c
    case StopRead(_) => c.(reader := Idle)
    case Shutdown(_) => c.(readerClose := true, writer := Wakened(c.writer))
    case _ => c
  }

  function OutNext(c: Channel, a: Action, max: nat): (r: Channel) {
    match a
    case Write(_, data) => if CanWrite(c, max) then AfterWrite(c, data, max) else c.(writer := Parked(data))
    case ResumeWrite(_) => if c.writer.Woken? then AfterWrite(c, c.writer.job, max) else c
    case StopWrite(_) => c.(writer := Idle)
    case Shutdown(_) => c.(writerClose := true, reader := Wakened(c.reader))
    case _ => c
  }

  function Next(p: Pipe, a: Action, max: nat): (r: Pipe) {
    if a.end == Right then Pipe(OutNext(p.read, a, max), InNext(p.write, a))
    else Pipe(InNext(p.read, a), OutNext(p.write, a, max))
  }

  ghost predicate Does(p: Pipe, a: Action, q: Pipe, max: nat) {
    Enabled(p, a) && q == Next(p, a, max)
  }

  ghost predicate Step(p: Pipe, q: Pipe, max: nat) {
    exists a :: Does(p, a, q, max)
  }

  ghost predicate Run(r: seq<Pipe>, max: nat) {
    && max > 0 && |r| > 0 && r[0] == Pipe(FRESH, FRESH)
    && forall i | 0 <= i < |r| - 1 :: Step(r[i], r[i + 1], max)
  }

  // Nothing is lost or reordered, the limit is kept, nobody sleeps who could go on, and
  // whoever was woken can go on.
  ghost predicate Ok(c: Channel, max: nat) {
    && c.written == c.taken + c.buffer && |c.buffer| <= max
    && (c.reader.Parked? ==> !CanRead(c))
    && (c.reader.Woken? ==> CanRead(c))
    && (c.writer.Parked? ==> !CanWrite(c, max))
    && (c.writer.Woken? ==> CanWrite(c, max))
    && (!c.reader.Idle? ==> c.reader.job > 0)
    && (!c.writer.Idle? ==> c.writer.job != [])
  }

  lemma ReadKeepsOk(c: Channel, n: nat, max: nat)
    requires Ok(c, max) && CanRead(c) && n > 0 && max > 0
    ensures Ok(AfterRead(c, n), max)
    ensures ReadCount(c, n) == 0 <==> c.writerClose && c.taken == c.written
  {
    var k := ReadCount(c, n);
    assert c.buffer == c.buffer[..k] + c.buffer[k..];
  }

  lemma WriteKeepsOk(c: Channel, data: seq<byte>, max: nat)
    requires Ok(c, max) && CanWrite(c, max) && data != []
    ensures Ok(AfterWrite(c, data, max), max)
    ensures WriteCount(c, data, max) == 0 <==> c.readerClose
  {
    var piece := data[..WriteCount(c, data, max)];
    assert (c.taken + c.buffer) + piece == c.taken + (c.buffer + piece);
  }

  lemma InKept(c: Channel, a: Action, max: nat)
    requires Ok(c, max) && max > 0 && (a.Read? ==> a.n > 0 && c.reader.Idle?)
    ensures Ok(InNext(c, a), max)
  {
    if a.Read? && CanRead(c) {
      ReadKeepsOk(c, a.n, max);
    } else if a.ResumeRead? && c.reader.Woken? {
      ReadKeepsOk(c, c.reader.job, max);
    }
  }

  lemma OutKept(c: Channel, a: Action, max: nat)
    requires Ok(c, max) && max > 0 && (a.Write? ==> a.data != [] && c.writer.Idle?)
    ensures Ok(OutNext(c, a, max), max)
  {
    if a.Write? && CanWrite(c, max) {
      WriteKeepsOk(c, a.data, max);
    } else if a.ResumeWrite? && c.writer.Woken? {
      WriteKeepsOk(c, c.writer.job, max);
    }
  }

  ghost predicate BothOk(p: Pipe, max: nat) {
    Ok(p.read, max) && Ok(p.write, max)
  }

  lemma StepKept(p: Pipe, a: Action, max: nat)
    requires BothOk(p, max) && max > 0 && Enabled(p, a)
    ensures BothOk(Next(p, a, max), max)
  {
    InKept(Incoming(p, a.end), a, max);
    OutKept(Outgoing(p, a.end), a, max);
  }

  lemma {:induction false} RunOk(r: seq<Pipe>, i: nat, max: nat)
    requires Run(r, max) && i < |r|
    ensures BothOk(r[i], max)
  {
    if i > 0 {
      RunOk(r, i - 1, max);
      assert Step(r[i - 1], r[i - 1 + 1], max);
      var a :| Does(r[i - 1], a, r[i], max);
      StepKept(r[i - 1], a, max);
    }
  }

  // The read that a step performs on the channel of its end, if it does.
  predicate Reads(p: Pipe, a: Action) {
    (a.Read? && CanRead(Incoming(p, a.end))) || a.ResumeRead?
  }

  function Asked(p: Pipe, a: Action): (r: nat)
    requires Enabled(p, a) && Reads(p, a)
  {
    if a.Read? then a.n else Incoming(p, a.end).reader.job
  }

  predicate Writes(p: Pipe, a: Action, max: nat) {
    (a.Write? && CanWrite(Outgoing(p, a.end), max)) || a.ResumeWrite?
  }

  function Offered(p: Pipe, a: Action, max: nat): (r: seq<byte>)
    requires Enabled(p, a) && Writes(p, a, max)
  {
    if a.Write? then a.data else Outgoing(p, a.end).writer.job
  }

  // A read returns 0 exactly when the other end has shut down and everything it has written
  // so far is taken; a write returns 0 exactly when the reading end has shut down.
  lemma ZeroMeansClosed(r: seq<Pipe>, a: Action, max: nat)
    requires Run(r, max) && Enabled(r[|r| - 1], a)
    ensures var p := r[|r| - 1];
      Reads(p, a) ==>
        var c := Incoming(p, a.end);
        ReadCount(c, Asked(p, a)) == 0 <==> c.writerClose && c.taken == c.written
    ensures var p := r[|r| - 1];
      Writes(p, a, max) ==>
        var c := Outgoing(p, a.end);
        WriteCount(c, Offered(p, a, max), max) == 0 <==> c.readerClose
  {
    RunOk(r, |r| - 1, max);
    var p := r[|r| - 1];
    if Reads(p, a) {
      ReadKeepsOk(Incoming(p, a.end), Asked(p, a), max);
    }
    if Writes(p, a, max) {
      WriteKeepsOk(Outgoing(p, a.end), Offered(p, a, max), max);
    }
  }

  // The two sides of a channel never wait for each other, and who sleeps has nothing to do.
  lemma NobodyWaitsInVain(r: seq<Pipe>, max: nat, c: Channel)
    requires Run(r, max) && c in [r[|r| - 1].read, r[|r| - 1].write]
    ensures !(c.reader.Parked? && c.writer.Parked?)
    ensures c.reader.Parked? ==> c.taken == c.written && !c.writerClose
    ensures c.writer.Parked? ==> |c.written| == |c.taken| + max && !c.readerClose
    ensures c.taken <= c.written && |c.written| <= |c.taken| + max
  {
    RunOk(r, |r| - 1, max);
  }

  // ---- What each step moves ----------------------------------------------------------------

  // A read takes the first bytes of the buffer: all it asked for, or all there is.
  lemma ReadTakesTheFront(c: Channel, n: nat)
    ensures var k := ReadCount(c, n);
      && k <= n && k <= |c.buffer| && (k == n || k == |c.buffer|)
      && AfterRead(c, n).taken == c.taken + c.buffer[..k] && AfterRead(c, n).buffer == c.buffer[k..]
      && AfterRead(c, n).written == c.written
  {
  }

  // A write puts the first bytes of its data behind the buffer: all of them, or as many as
  // there is room for; none for a reader that has closed.
  lemma WriteTakesAPrefix(c: Channel, data: seq<byte>, max: nat)
    requires |c.buffer| <= max
    ensures var k := WriteCount(c, data, max);
      && k <= |data| && (if c.readerClose then k == 0 else k == |data| || |c.buffer| + k == max)
      && AfterWrite(c, data, max).written == c.written + data[..k]
      && AfterWrite(c, data, max).buffer == c.buffer + data[..k]
      && AfterWrite(c, data, max).taken == c.taken
  {
  }

  // Every step of either end, resumed transfers included: what it takes and what it writes is
  // what the count it returns says, and no other step moves a byte.
  lemma StepMovesBytes(p: Pipe, a: Action, max: nat)
    requires BothOk(p, max) && Enabled(p, a)
    ensures var i, i' := Incoming(p, a.end), Incoming(Next(p, a, max), a.end);
      && i'.written == i.written
      && i'.taken == i.taken + (if Reads(p, a) then i.buffer[..ReadCount(i, Asked(p, a))] else [])
    ensures var o, o' := Outgoing(p, a.end), Outgoing(Next(p, a, max), a.end);
      && o'.taken == o.taken
      && o'.written == o.written +
           (if Writes(p, a, max) then Offered(p, a, max)[..WriteCount(o, Offered(p, a, max), max)] else [])
  {
    if Reads(p, a) {
      ReadTakesTheFront(Incoming(p, a.end), Asked(p, a));
    }
    if Writes(p, a, max) {
      WriteTakesAPrefix(Outgoing(p, a.end), Offered(p, a, max), max);
    }
  }

  lemma BytesMovedInRun(r: seq<Pipe>, i: nat, max: nat) returns (a: Action)
    requires Run(r, max) && i < |r| - 1
    ensures Enabled(r[i], a) && r[i + 1] == Next(r[i], a, max)
    ensures var c, c' := Incoming(r[i], a.end), Incoming(r[i + 1], a.end);
      c'.taken == c.taken + (if Reads(r[i], a) then c.buffer[..ReadCount(c, Asked(r[i], a))] else [])
    ensures var c, c' := Outgoing(r[i], a.end), Outgoing(r[i + 1], a.end);
      c'.written == c.written +
        (if Writes(r[i], a, max) then Offered(r[i], a, max)[..WriteCount(c, Offered(r[i], a, max), max)] else [])
  {
    RunOk(r, i, max);
    assert Step(r[i], r[i + 1], max);
    a :| Does(r[i], a, r[i + 1], max);
    StepMovesBytes(r[i], a, max);
  }

  // A transfer keeps what it was called with while it is parked and woken, ends when it moves
  // or is stopped, and nothing else touches it.
  lemma JobsStay(p: Pipe, a: Action, max: nat)
    requires Enabled(p, a)
    ensures var i, i' := Incoming(p, a.end), Incoming(Next(p, a, max), a.end);
      match a
      case Read(_, n) => i'.reader == if CanRead(i) then Idle else Parked(n)
      case ResumeRead(_) => i'.reader == Idle
      case StopRead(_) => i'.reader == Idle && i' == i.(reader := Idle)
      case _ => i'.reader == i.reader
    ensures var o, o' := Outgoing(p, a.end), Outgoing(Next(p, a, max), a.end);
      match a
      case Write(_, data) => o'.writer == if CanWrite(o, max) then Idle else Parked(data)
      case ResumeWrite(_) => o'.writer == Idle
      case StopWrite(_) => o'.writer == Idle && o' == o.(writer := Idle)
      case _ => o'.writer == o.writer
    ensures var i, i' := Incoming(p, a.end), Incoming(Next(p, a, max), a.end);
      i'.writer == i.writer || (i.writer.Parked? && i'.writer == Woken(i.writer.job))
    ensures var o, o' := Outgoing(p, a.end), Outgoing(Next(p, a, max), a.end);
      o'.reader == o.reader || (o.reader.Parked? && o'.reader == Woken(o.reader.job))
  {
  }

  // A shutdown closes both directions for good, and only a shutdown does.
  lemma ShutdownCloses(p: Pipe, a: Action, max: nat)
    requires Enabled(p, a)
    ensures var q := Next(p, a, max);
      && Incoming(q, a.end).readerClose == (Incoming(p, a.end).readerClose || a.Shutdown?)
      && Outgoing(q, a.end).writerClose == (Outgoing(p, a.end).writerClose || a.Shutdown?)
      && Incoming(q, a.end).writerClose == Incoming(p, a.end).writerClose
      && Outgoing(q, a.end).readerClose == Outgoing(p, a.end).readerClose
  {
  }

  // The two ends look at the two channels crosswise.
  lemma EndsCross(p: Pipe)
    ensures Incoming(p, Left) == Outgoing(p, Right) && Incoming(p, Right) == Outgoing(p, Left)
    ensures p == Pipe(Incoming(p, Left), Outgoing(p, Left))
  {
  }

  function Other(e: End): (r: End) {
    if e == Left then Right else Left
  }

  // A parked reader is woken by the other end's next write, and then takes what was written;
  // a parked writer by the other end's next read, and then writes on.
  lemma WriteReachesReader(r: seq<Pipe>, k: nat, e: End, data: seq<byte>, max: nat) returns (p: Pipe, q: Pipe)
    requires Run(r, max) && k < |r| && data != [] && !Incoming(r[k], e).readerClose
    requires Incoming(r[k], e).reader.Parked? && Incoming(r[k], e).writer.Idle?
    ensures Does(r[k], Write(Other(e), data), p, max) && Does(p, ResumeRead(e), q, max)
    ensures var c, d := Incoming(r[k], e), Incoming(q, e);
      && d.reader.Idle? && c.taken < d.taken <= c.taken + data
      && |d.taken| == |c.taken| + Min(c.reader.job, Min(|data|, max))
  {
    RunOk(r, k, max);
    p := Next(r[k], Write(Other(e), data), max);
    q := Next(p, ResumeRead(e), max);
    var c, c' := Incoming(r[k], e), Incoming(p, e);
    assert c' == AfterWrite(c, data, max) && c'.buffer == data[..Min(|data|, max)];
    assert Incoming(q, e) == AfterRead(c', c.reader.job);
  }

  lemma ReadReachesWriter(r: seq<Pipe>, k: nat, e: End, n: nat, max: nat) returns (p: Pipe, q: Pipe)
    requires Run(r, max) && k < |r| && n > 0
    requires Outgoing(r[k], e).writer.Parked? && Outgoing(r[k], e).reader.Idle?
    ensures Does(r[k], Read(Other(e), n), p, max) && Does(p, ResumeWrite(e), q, max)
    ensures var c, d := Outgoing(r[k], e), Outgoing(q, e);
      && d.writer.Idle? && c.written < d.written <= c.written + c.writer.job
      && |d.written| == |c.written| + Min(|c.writer.job|, Min(n, max))
  {
    RunOk(r, k, max);
    p := Next(r[k], Read(Other(e), n), max);
    q := Next(p, ResumeWrite(e), max);
    var c, c' := Outgoing(r[k], e), Outgoing(p, e);
    assert c' == AfterRead(c, n) && |c'.buffer| == max - Min(n, max);
    assert Outgoing(q, e) == AfterWrite(c', c.writer.job, max);
  }

  // A shutdown wakes whoever is parked on the other end, to return 0.
  lemma ShutdownReachesBoth(r: seq<Pipe>, k: nat, e: End, max: nat) returns (p: Pipe)
    requires Run(r, max) && k < |r|
    ensures Does(r[k], Shutdown(e), p, max)
    ensures Outgoing(r[k], e).reader.Parked? ==>
      Enabled(p, ResumeRead(Other(e))) && ReadCount(Outgoing(p, e), Outgoing(p, e).reader.job) == 0
    ensures Incoming(r[k], e).writer.Parked? ==>
      Enabled(p, ResumeWrite(Other(e))) && WriteCount(Incoming(p, e), Incoming(p, e).writer.job, max) == 0
  {
    RunOk(r, k, max);
    p := Next(r[k], Shutdown(e), max);
  }

  // A parked transfer can be stopped, which moves nothing.
  lemma ParkedCanBeStopped(p: Pipe, e: End, max: nat)
    ensures Incoming(p, e).reader.Parked? ==> Does(p, StopRead(e), Next(p, StopRead(e), max), max)
    ensures Outgoing(p, e).writer.Parked? ==> Does(p, StopWrite(e), Next(p, StopWrite(e), max), max)
    ensures Incoming(p, e).reader.Idle? ==> forall n | n > 0 :: Enabled(p, Read(e, n))
    ensures Outgoing(p, e).writer.Idle? ==> forall data | data != [] :: Enabled(p, Write(e, data))
  {
  }
}
