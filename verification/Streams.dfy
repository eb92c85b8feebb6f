/** The streams that the buffered wrappers and the stream algorithms run on.

    A stream may cut transfers into pieces of any size and may fail at any call; what it does
    not do is lose, repeat or reorder bytes.
 */
module Streams {
  import opened Common
  import opened Bytes

  datatype Error = Failed(code: int) | UnexpectedEof | WriteZero

  datatype Result<T> = Ok(value: T) | Err(error: Error)

  // A readable stream; `rest` is what it has still to deliver.
  class Source {
    var rest: seq<byte>
    ghost var failures: nat   // how many reads have failed

    constructor (bytes: seq<byte>)
      ensures rest == bytes && failures == 0
    {
      rest, failures := bytes, 0;
    }

    // Deliver up to n bytes; none only when n is 0 or the stream is at its end.
    method Read(n: nat) returns (r: Result<seq<byte>>)
      modifies this
      ensures r.Ok? ==> old(rest) == r.value + rest && |r.value| <= n && (r.value == [] ==> n == 0 || rest == [])
      ensures r.Err? ==> r.error.Failed? && rest == old(rest)
      ensures failures == old(failures) + (if r.Err? then 1 else 0)
    {
      var fails, code, k: nat := *, *, *;
      if fails {
        failures := failures + 1;
        return Err(Failed(code));
      }
      k := if k > |rest| then |rest| else k;
      k := if k > n then n else if k == 0 && rest != [] then Min(1, n) else k;
      r := Ok(rest[..k]);
      rest := rest[k..];
    }
  }

  datatype Reply = Accept(n: nat) | Fail(code: int)

  // A writable stream; `written` is what it has accepted.  It answers as `script` says, and
  // when that is used up in any way it likes.
  class Sink {
    var written: seq<byte>
    var script: seq<Reply>
    ghost var refusals: nat   // how many calls have failed or taken nothing of some data

    constructor (replies: seq<Reply>)
      ensures written == [] && script == replies && refusals == 0
    {
      written, script, refusals := [], replies, 0;
    }

    // Accept some prefix of the data, possibly nothing.
    method Write(data: seq<byte>) returns (r: Result<nat>)
      modifies this
      ensures r.Ok? ==> r.value <= |data| && written == old(written) + data[..r.value]
      ensures r.Err? ==> r.error.Failed? && written == old(written)
      ensures refusals == old(refusals) + (if r.Err? || (r.value == 0 && data != []) then 1 else 0)
      ensures script == if old(script) == [] then [] else old(script)[1..]
      ensures old(script) != [] ==> match old(script)[0]
        case Accept(n) => r == Ok(Min(n, |data|))
        case Fail(code) => r == Err(Failed(code))
    {
      var fails, code, k: nat := *, *, *;
      if script != [] {
        match script[0] {
          case Accept(n) => fails, k := false, n;
          case Fail(c) => fails, code := true, c;
        }
        script := script[1..];
      }
      if fails {
        refusals := refusals + 1;
        return Err(Failed(code));
      }
      k := Min(k, |data|);
      refusals := refusals + (if k == 0 && data != [] then 1 else 0);
      written := written + data[..k];
      r := Ok(k);
    }

    method Flush() returns (r: Result<()>)
      modifies this`refusals
      ensures r.Err? ==> r.error.Failed?
      ensures refusals == old(refusals) + (if r.Err? then 1 else 0)
    {
      var fails, code := *, *;
      refusals := refusals + (if fails then 1 else 0);
      r := if fails then Err(Failed(code)) else Ok(());
    }
  }
}
