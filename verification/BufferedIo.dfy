/** Buffered wrappers around a source or a sink.

    `BufReader.Rest` and `BufWriter.Accepted` are what the wrapper stands for: the bytes its
    user has still to get, and the bytes its user has handed over.  Every operation moves
    exactly the bytes it reports and no others, however the wrapped stream cuts its transfers.
 */
module BufferedIo {
  import opened Common
  import opened Bytes
  import opened Streams
  import opened StreamBuffers

  class BufReader {
    const buffer: StreamBuffer
    const source: Source

    ghost predicate Valid()
      reads this, buffer
    {
      buffer.Valid()
    }

    ghost function Rest(): (r: seq<byte>)
      reads this, buffer, buffer.a, source
      requires Valid()
    {
      buffer.Contents() + source.rest
    }

    constructor (s: Source, capacity: nat)
      ensures Valid() && fresh(buffer) && fresh(buffer.a) && source == s && buffer.max == capacity
      ensures Rest() == s.rest
    {
      source := s;
      buffer := new StreamBuffer(capacity);
    }

    // Reads of half the capacity or more go past an empty buffer.
    method Read(n: nat) returns (r: Result<seq<byte>>)
      requires Valid()
      modifies buffer, buffer.a, source
      ensures Valid() && (buffer.a == old(buffer.a) || fresh(buffer.a))
      ensures r.Ok? ==> old(Rest()) == r.value + Rest() && |r.value| <= n
      ensures r.Ok? && r.value == [] ==> n == 0 || Rest() == []
      ensures r.Err? ==> r.error.Failed? && Rest() == old(Rest())
      ensures source.failures == old(source.failures) + (if r.Err? then 1 else 0)
      ensures old(buffer.Contents()) != [] ==> r.Ok? && source.rest == old(source.rest)
    {
      var empty := buffer.Empty();
      if empty && n >= buffer.max / 2 {
        r := source.Read(n);
        return;
      }
      var filled := Fill();
      if filled.Err? {
        return filled;
      }
      if filled.value == [] {
        return Ok([]);
      }
      var chunk := TakeBuffered(n);
      r := Ok(chunk);
    }

    // Hand out buffered bytes, as many as fit.
    method TakeBuffered(n: nat) returns (chunk: seq<byte>)
      requires Valid()
      modifies buffer
      ensures Valid() && buffer.a == old(buffer.a) && |chunk| == Min(n, old(|buffer.Contents()|))
      ensures old(Rest()) == chunk + Rest()
    {
      var data := buffer.a[buffer.pos..buffer.tail];
      var size := Min(n, |data|);
      chunk := data[..size];
      CutAt(data, source.rest, size);
      buffer.Consume(size);
    }

    // The buffered bytes, fetched first when there are none.
    method Fill() returns (r: Result<seq<byte>>)
      requires Valid()
      modifies buffer, buffer.a, source
      ensures Valid() && (buffer.a == old(buffer.a) || fresh(buffer.a))
      ensures Rest() == old(Rest())
      ensures r.Ok? ==> r.value == buffer.Contents()
      ensures r.Ok? && r.value == [] ==> buffer.max == 0 || Rest() == []
      ensures r.Err? ==> r.error.Failed?
      ensures source.failures == old(source.failures) + (if r.Err? then 1 else 0)
      ensures old(buffer.Contents()) != [] ==> r.Ok? && source.rest == old(source.rest)
    {
      var empty := buffer.Empty();
      if empty {
        r := Refill();
      } else {
        r := Ok(buffer.a[buffer.pos..buffer.tail]);
      }
    }

    method Refill() returns (r: Result<seq<byte>>)
      requires Valid() && buffer.Contents() == []
      modifies buffer, buffer.a, source
      ensures Valid() && (buffer.a == old(buffer.a) || fresh(buffer.a))
      ensures old(source.rest) == buffer.Contents() + source.rest
      ensures r.Ok? ==> r.value == buffer.Contents() && (r.value == [] ==> buffer.max == 0 || source.rest == [])
      ensures r.Err? ==> r.error.Failed? && buffer.Contents() == []
      ensures source.failures == old(source.failures) + (if r.Err? then 1 else 0)
    {
      var size := buffer.Size();
      assert size == 0 && buffer.AtFront();
      var window := buffer.Prepare(buffer.max - size);
      assert window == buffer.max;
      var got := source.Read(window);
      if got.Err? {
        return got;
      }
      buffer.Append(got.value);
      assert buffer.Contents() == got.value;
      r := Ok(buffer.a[buffer.pos..buffer.tail]);
    }

    method Consume(n: nat)
      requires Valid()
      modifies buffer
      ensures Valid() && buffer.a == old(buffer.a)
      ensures var k := Min(n, old(|buffer.Contents()|));
        buffer.Contents() == old(buffer.Contents())[k..] && Rest() == old(Rest())[k..]
    {
      buffer.Consume(n);
    }
  }

  // What a write did.  Overrun stands for what the source leaves undefined: copying a
  // non-empty request into the empty window of a refused Prepare.
  datatype WriteResult = Wrote(n: nat) | Refused(error: Error) | Overrun

  class BufWriter {
    const buffer: StreamBuffer
    const sink: Sink
    ghost var halfway: bool   // a flush has handed over some bytes and stopped, and none got through since

    ghost predicate Valid()
      reads this, buffer
    {
      buffer.Valid() && (!halfway ==> buffer.AtFront())
    }

    ghost function Accepted(): (r: seq<byte>)
      reads this, buffer, buffer.a, sink
      requires Valid()
    {
      sink.written + buffer.Contents()
    }

    constructor (s: Sink, capacity: nat)
      ensures Valid() && !halfway && fresh(buffer) && fresh(buffer.a) && sink == s && buffer.max == capacity
      ensures Accepted() == s.written && buffer.Contents() == []
    {
      sink := s;
      halfway := false;
      buffer := new StreamBuffer(capacity);
    }

    // Writes of half the capacity or more go past the buffer, behind what it holds.
    method Write(data: seq<byte>) returns (r: WriteResult)
      requires Valid()
      modifies this, buffer, buffer.a, sink
      ensures Valid() && (buffer.a == old(buffer.a) || fresh(buffer.a))
      ensures r.Wrote? ==> r.n <= |data| && Accepted() == old(Accepted()) + data[..r.n]
      ensures r.Wrote? ==> if |data| < buffer.max / 2 then r.n == |data| else buffer.Contents() == []
      ensures !r.Wrote? ==> Accepted() == old(Accepted())
      ensures r.Refused? || (r == Wrote(0) && data != []) <==> sink.refusals > old(sink.refusals)
      ensures r.Overrun? <==>
        && |data| < buffer.max / 2
        && old(|buffer.Contents()|) + |data| <= buffer.max < old(buffer.Offset()) + |data|
      // refused only behind a flush that stopped half-way, which is the only way to get there
      ensures r.Overrun? ==> old(halfway)
      ensures halfway && !old(halfway) ==> r.Refused? && buffer.Contents() != []
      ensures |data| < buffer.max / 2 && old(|buffer.Contents()|) + |data| <= buffer.max ==>
        && !r.Refused? && sink.script == old(sink.script)
        && (r.Wrote? ==> buffer.Contents() == old(buffer.Contents()) + data)
    {
      if |data| >= buffer.max / 2 {
        var flushed := Flush();
        if flushed.Err? {
          return Refused(flushed.error);
        }
        var direct := sink.Write(data);
        return if direct.Ok? then Wrote(direct.value) else Refused(direct.error);
      }
      var size := buffer.Size();
      if buffer.max - size < |data| {
        var flushed := Flush();
        if flushed.Err? {
          return Refused(flushed.error);
        }
      }
      r := Keep(data);
    }

    // Copy into the buffer.
    method Keep(data: seq<byte>) returns (r: WriteResult)
      requires Valid() && |buffer.Contents()| + |data| <= buffer.max
      modifies buffer, buffer.a
      ensures Valid() && (buffer.a == old(buffer.a) || fresh(buffer.a))
      ensures r == if old(buffer.Offset()) + |data| <= buffer.max then Wrote(|data|) else Overrun
      ensures r.Wrote? ==> buffer.Contents() == old(buffer.Contents()) + data && Accepted() == old(Accepted()) + data
      ensures r.Overrun? ==> buffer.Contents() == old(buffer.Contents()) && halfway
    {
      var window := buffer.Prepare(|data|);
      if window < |data| {
        return Overrun;
      }
      Regroup(sink.written, buffer.Contents(), data);
      buffer.Append(data);
      return Wrote(|data|);
    }

    // Hand the buffered bytes to the sink, in as many writes as it takes.
    method Flush() returns (r: Result<()>)
      requires Valid()
      modifies this, buffer, sink
      ensures Valid() && buffer.tail == old(buffer.tail)
      ensures buffer.a == old(buffer.a) && buffer.a[..] == old(buffer.a[..])
      ensures Accepted() == old(Accepted())
      ensures r.Ok? ==> buffer.Contents() == []
      ensures buffer.Contents() == [] ==> !halfway
      ensures halfway && !old(halfway) ==> r.Err? && 0 < |buffer.Contents()| < old(|buffer.Contents()|)
      ensures Scripted(old(|buffer.Contents()|), old(sink.script)) ==>
        |buffer.Contents()| == old(|buffer.Contents()|) - Through(old(|buffer.Contents()|), old(sink.script))
      ensures r.Err? && r.error.WriteZero? ==> buffer.Contents() != []
      ensures r.Err? ==> r.error.WriteZero? || r.error.Failed?
      ensures r.Err? <==> sink.refusals > old(sink.refusals)
      ensures r.Ok? ==> sink.refusals == old(sink.refusals)
    {
      var empty := buffer.Empty();
      halfway := halfway && !empty;
      while !empty
        invariant Valid() && buffer.a == old(buffer.a) && buffer.a[..] == old(buffer.a[..])
        invariant buffer.tail == old(buffer.tail) && Accepted() == old(Accepted())
        invariant sink.refusals == old(sink.refusals) && (empty <==> buffer.Contents() == [])
        invariant halfway ==> !empty && (old(halfway) || |buffer.Contents()| < old(|buffer.Contents()|))
        invariant Ahead(old(|buffer.Contents()|), old(sink.script), |buffer.Contents()|, sink.script)
        decreases |buffer.Contents()|
      {
        ghost var left, rest := |buffer.Contents()|, sink.script;
        var wrote := HandOver();
        if wrote.Err? {
          return Err(wrote.error);
        }
        AheadStep(old(|buffer.Contents()|), old(sink.script), left, rest);
        empty := buffer.Empty();
      }
      r := sink.Flush();
    }

    // One turn of the loop: the sink is offered all that is buffered.
    method HandOver() returns (r: Result<nat>)
      requires Valid() && buffer.Contents() != []
      modifies this, buffer, sink
      ensures Valid() && buffer.tail == old(buffer.tail)
      ensures buffer.a == old(buffer.a) && buffer.a[..] == old(buffer.a[..])
      ensures Accepted() == old(Accepted())
      ensures r.Ok? ==> r.value > 0 && |buffer.Contents()| == old(|buffer.Contents()|) - r.value
      ensures r.Ok? ==> halfway == (buffer.Contents() != [])
      ensures r.Err? ==> buffer.Contents() == old(buffer.Contents()) && halfway == old(halfway)
      ensures r.Err? ==> r.error.WriteZero? || r.error.Failed?
      ensures sink.refusals == old(sink.refusals) + (if r.Err? then 1 else 0)
      ensures old(sink.script) != [] ==>
        sink.script == old(sink.script)[1..] && r == Answer(old(|buffer.Contents()|), old(sink.script)[0])
    {
      r := sink.Write(buffer.a[buffer.pos..buffer.tail]);
      if r.Err? {
        return;
      }
      if r.value == 0 {
        return Err(WriteZero);
      }
      buffer.Consume(r.value);
      halfway := buffer.pos != buffer.tail;
    }
  }

  // What one turn of a flush comes to when the sink gives this reply.
  function Answer(n: nat, reply: Reply): (r: Result<nat>) {
    match reply
    case Fail(code) => Err(Failed(code))
    case Accept(k) => if Min(k, n) == 0 then Err(WriteZero) else Ok(Min(k, n))
  }

  // How many of n bytes a flush gets through if the sink answers as scripted.
  function Through(n: nat, script: seq<Reply>): (k: nat)
    ensures k <= n
  {
    if n == 0 || script == [] || Answer(n, script[0]).Err? then 0
    else
      var m := Answer(n, script[0]).value;
      m + Through(n - m, script[1..])
  }

  // The script lasts until the flush ends.
  predicate Scripted(n: nat, script: seq<Reply>) {
    n == 0 || (script != [] &&
      var a := Answer(n, script[0]);
      a.Err? || Scripted(n - a.value, script[1..]))
  }

  // A flush of n bytes that has come to `left` bytes and what is left of the script.
  ghost predicate Ahead(n: nat, script: seq<Reply>, left: nat, rest: seq<Reply>) {
    Scripted(n, script) ==> Scripted(left, rest) && left <= n && Through(n, script) == n - left + Through(left, rest)
  }

  lemma AheadStep(n: nat, script: seq<Reply>, left: nat, rest: seq<Reply>)
    requires Ahead(n, script, left, rest) && left > 0
    ensures rest != [] && Answer(left, rest[0]).Ok? ==>
      Ahead(n, script, left - Answer(left, rest[0]).value, rest[1..])
    ensures rest == [] ==> !Scripted(n, script)
  {
  }

  // A write into a writer whose flush has stopped half-way can meet a refused window: of 14
  // buffered bytes the sink takes 4 and fails, and 5 more do not fit behind the other 10.
  method OverrunHistory() returns (r: WriteResult, capacity: nat, buffered: nat, n: nat)
    ensures r == Overrun && buffered + n <= capacity && n < capacity / 2
  {
    capacity, n := 16, 5;
    var sink := new Sink([Accept(4), Fail(0)]);
    var w := new BufWriter(sink, capacity);
    var first := w.Write(seq(7, _ => 1));
    var second := w.Write(seq(7, _ => 2));
    assert w.buffer.tail == 14;
    var flushed := w.Flush();
    buffered := w.buffer.Size();
    r := w.Write(seq(n, _ => 3));
  }

  lemma CutAt(s: seq<byte>, rest: seq<byte>, k: nat)
    requires k <= |s|
    ensures s + rest == s[..k] + (s[k..] + rest)
  {
    assert s == s[..k] + s[k..];
  }

  lemma Regroup(a: seq<byte>, b: seq<byte>, c: seq<byte>)
    ensures a + (b + c) == (a + b) + c
  {
  }
}
