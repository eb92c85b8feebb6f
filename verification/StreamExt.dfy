/** The stream algorithms: transfer everything, in order, however the stream cuts it up. */
module StreamExt {
  import opened Bytes
  import opened Streams
  import opened BufferedIo

  // Write all of `data`; on an error a proper prefix of it has been written.
  method WriteAll(sink: Sink, data: seq<byte>) returns (r: Result<nat>)
    modifies sink
    ensures r.Ok? ==> r.value == |data| && sink.written == old(sink.written) + data
    ensures r.Err? ==> !r.error.UnexpectedEof?
    ensures r.Err? <==> sink.refusals > old(sink.refusals)
    ensures r.Ok? ==> sink.refusals == old(sink.refusals)
    ensures r.Err? ==> exists k | 0 <= k < |data| :: sink.written == old(sink.written) + data[..k]
  {
    var done := 0;
    while done < |data|
      invariant done <= |data| && sink.written == old(sink.written) + data[..done]
      invariant sink.refusals == old(sink.refusals)
    {
      var wrote := sink.Write(data[done..]);
      if wrote.Err? {
        return Err(wrote.error);
      }
      var n := wrote.value;
      if n == 0 {
        return Err(WriteZero);
      }
      NextPiece(old(sink.written), data, done, n);
      done := done + n;
    }
    r := Ok(done);
  }

  // The bytes written so far and one more piece.
  lemma NextPiece(before: seq<byte>, data: seq<byte>, done: nat, n: nat)
    requires done + n <= |data|
    ensures before + data[..done] + data[done..][..n] == before + data[..done + n]
  {
    assert data[..done] + data[done..][..n] == data[..done + n];
  }

  // Fill the whole array; on an error a proper prefix of it is filled with what was read, and
  // the end of the stream is reported exactly when the stream has too few bytes.
  method ReadAll(source: Source, a: array<byte>) returns (r: Result<nat>)
    modifies source, a
    ensures r.Ok? ==> r.value == a.Length && old(source.rest) == a[..] + source.rest
    ensures r.Err? ==> exists k | 0 <= k < a.Length :: old(source.rest) == a[..k] + source.rest
    ensures r.Err? && r.error.UnexpectedEof? ==> source.rest == [] && |old(source.rest)| < a.Length
    ensures r.Err? && !r.error.UnexpectedEof? <==> source.failures > old(source.failures)
  {
    var done := 0;
    while done < a.Length
      invariant done <= a.Length && old(source.rest) == a[..done] + source.rest
      invariant source.failures == old(source.failures)
    {
      var got := source.Read(a.Length - done);
      if got.Err? {
        assert a[..done] + source.rest == old(source.rest);
        return Err(got.error);
      }
      var n := |got.value|;
      if n == 0 {
        assert got.value + source.rest == source.rest;
        assert a[..done] + source.rest == old(source.rest);
        return Err(UnexpectedEof);
      }
      ghost var before := a[..done];
      Put(a, done, got.value, before);
      Regroup(before, got.value, source.rest);
      done := done + n;
    }
    assert a[..done] == a[..];
    r := Ok(done);
  }

  method Put(a: array<byte>, at: nat, chunk: seq<byte>, ghost before: seq<byte>)
    requires at + |chunk| <= a.Length && a[..at] == before
    modifies a
    ensures a[..at + |chunk|] == before + chunk
  {
    CopyTo(a, at, chunk);
    Extended(a, at, |chunk|, before, chunk);
  }

  lemma Extended(a: array<byte>, done: nat, n: nat, before: seq<byte>, chunk: seq<byte>)
    requires done + n <= a.Length && a[..done] == before && a[done..done + n] == chunk
    ensures a[..done + n] == before + chunk
  {
  }

  // A growable container of bytes.
  class Container {
    var a: array<byte>

    constructor ()
      ensures fresh(a) && a[..] == []
    {
      a := new byte[0];
    }

    method Resize(size: nat)
      modifies this
      ensures fresh(a) && a.Length == size
      ensures forall k | 0 <= k <= size && k <= old(a.Length) :: a[..k] == old(a[..k])
    {
      a := Resized(a, size);
    }
  }

  // Append everything up to the end of the stream.  The container ends up holding its old
  // bytes and everything read, also when a read fails in between.
  method ReadToEnd(source: Source, c: Container) returns (r: Result<nat>)
    modifies source, c, c.a
    ensures old(c.a[..]) <= c.a[..] && old(source.rest) == c.a[..][|old(c.a[..])|..] + source.rest
    ensures r.Ok? ==> source.rest == [] && r.value == |old(source.rest)|
    ensures r.Err? ==> r.error.Failed?
    ensures r.Err? <==> source.failures > old(source.failures)
  {
    ghost var before, input := c.a[..], source.rest;
    var size, readed := c.a.Length, 0;
    while true
      invariant size == |before| + readed && size <= c.a.Length && readed <= |input|
      invariant c.a[..size] == before + input[..readed] && source.rest == input[readed..]
      invariant (c.a == old(c.a) || fresh(c.a)) && source.failures == old(source.failures)
      decreases |input| - readed
    {
      ghost var start := readed;
      c.Resize(size + 1024);
      assert c.a[..size] == before + input[..readed];
      var end := size + 1024;
      while size < end
        invariant size == |before| + readed && size <= end == c.a.Length && start <= readed <= |input|
        invariant c.a[..size] == before + input[..readed] && source.rest == input[readed..]
        invariant source.failures == old(source.failures)
        invariant fresh(c.a) && (size < end || start < readed)
        decreases end - size
      {
        var got := source.Read(end - size);
        if got.Err? {
          c.Resize(size);
          AllOf(c.a, before, input, readed);
          return Err(got.error);
        }
        var n := |got.value|;
        if n == 0 {
          c.Resize(size);
          AllOf(c.a, before, input, readed);
          return Ok(readed);
        }
        Put(c.a, size, got.value, before + input[..readed]);
        Grown(before, input, readed, got.value);
        readed := readed + n;
        size := size + n;
      }
    }
  }

  lemma Grown(before: seq<byte>, input: seq<byte>, readed: nat, chunk: seq<byte>)
    requires readed <= |input| && chunk <= input[readed..]
    ensures readed + |chunk| <= |input| && input[readed + |chunk|..] == input[readed..][|chunk|..]
    ensures (before + input[..readed]) + chunk == before + input[..readed + |chunk|]
  {
    assert input[..readed] + chunk == input[..readed + |chunk|];
  }

  lemma AllOf(a: array<byte>, before: seq<byte>, input: seq<byte>, readed: nat)
    requires readed <= |input| && a.Length == |before| + readed && a[..a.Length] == before + input[..readed]
    ensures before <= a[..] && input == a[..][|before|..] + input[readed..]
  {
  }

  // Everything from the source reaches the sink.  When the sink refuses, the bytes of the
  // current piece that it did not take are lost, and no others.
  method Copy(sink: Sink, source: Source) returns (r: Result<nat>, ghost lost: seq<byte>)
    modifies sink, source
    ensures old(sink.written) + old(source.rest) == sink.written + lost + source.rest
    ensures |lost| <= 8192 && old(sink.written) <= sink.written
    ensures r.Ok? ==> lost == [] && source.rest == [] && r.value == |old(source.rest)|
    ensures r.Err? <==> sink.refusals > old(sink.refusals) || source.failures > old(source.failures)
  {
    ghost var before, input := sink.written, source.rest;
    var done := 0;
    lost := [];
    while true
      invariant before + input == sink.written + lost + source.rest
      invariant sink.refusals == old(sink.refusals) && source.failures == old(source.failures)
      invariant lost == [] && before <= sink.written && |sink.written| == |before| + done
      decreases |source.rest|
    {
      ghost var written := sink.written;
      var got := source.Read(8192);
      if got.Err? {
        return Err(got.error), lost;
      }
      if got.value == [] {
        break;
      }
      var wrote := WriteAll(sink, got.value);
      if wrote.Err? {
        lost := CutShort(written, got.value, source.rest, sink.written);
        return Err(wrote.error), lost;
      }
      assert written + (got.value + source.rest) == (written + got.value) + source.rest;
      done := done + |got.value|;
    }
    r := Ok(done);
  }

  lemma CutShort(before: seq<byte>, chunk: seq<byte>, rest: seq<byte>, written: seq<byte>) returns (lost: seq<byte>)
    requires exists k | 0 <= k < |chunk| :: written == before + chunk[..k]
    ensures before + (chunk + rest) == written + lost + rest && |lost| <= |chunk| && before <= written
  {
    var k :| 0 <= k < |chunk| && written == before + chunk[..k];
    lost := chunk[k..];
    assert chunk == chunk[..k] + lost;
  }
}
