/** Reading lines from a buffered reader, for a delimiter of one byte. */
module Lines {
  import opened Bytes
  import opened Streams
  import opened BufferedIo

  // The position of the first d in s, or |s|.
  function Find(s: seq<byte>, d: byte): (k: nat)
    ensures k <= |s| && (forall i | 0 <= i < k :: s[i] != d) && (k < |s| ==> s[k] == d)
  {
    if s == [] || s[0] == d then 0 else 1 + Find(s[1..], d)
  }

  lemma FindIs(s: seq<byte>, d: byte, k: nat)
    requires k <= |s| && (forall i | 0 <= i < k :: s[i] != d) && (k < |s| ==> s[k] == d)
    ensures Find(s, d) == k
  {
    var f := Find(s, d);
    assert !(k < f);
  }

  // The first line of s with its delimiter, if it has one.
  function LineLength(s: seq<byte>, d: byte): (n: nat)
    ensures n <= |s| && (s != [] ==> n > 0)
  {
    var k := Find(s, d);
    if k < |s| then k + 1 else k
  }

  // s split at the delimiters; a delimiter at the end does not start another line.
  function Split(s: seq<byte>, d: byte): (r: seq<seq<byte>>) {
    if s == [] then [] else [s[..Find(s, d)]] + Split(s[LineLength(s, d)..], d)
  }

  function Joined(lines: seq<seq<byte>>, d: byte): (r: seq<byte>) {
    if lines == [] then [] else lines[0] + [d] + Joined(lines[1..], d)
  }

  // Joining the lines gives the text back, with a final delimiter if it lacked one.
  lemma {:induction false} JoinOfSplit(s: seq<byte>, d: byte)
    ensures Joined(Split(s, d), d) == if s == [] || s[|s| - 1] == d then s else s + [d]
  {
    if s != [] {
      var k, rest := Find(s, d), s[LineLength(s, d)..];
      JoinOfSplit(rest, d);
      assert Joined(Split(s, d), d) == s[..k] + [d] + Joined(Split(rest, d), d) by {
        var lines := Split(s, d);
        assert lines[0] == s[..k] && lines[1..] == Split(rest, d);
      }
      if k < |s| {
        HeadAndRest(s, k, d);
      } else {
        assert s[..k] == s && s[|s| - 1] != d;
      }
    }
  }

  lemma HeadAndRest(s: seq<byte>, k: nat, d: byte)
    requires k < |s| && s[k] == d
    ensures s == s[..k] + [d] + s[k + 1..] && s + [d] == s[..k] + [d] + (s[k + 1..] + [d])
    ensures s[|s| - 1] == if s[k + 1..] == [] then d else s[k + 1..][|s| - k - 2]
  {
  }

  // No line contains the delimiter, and lines without it are found again.
  lemma {:induction false} SplitHasNone(s: seq<byte>, d: byte)
    ensures forall i | 0 <= i < |Split(s, d)| :: d !in Split(s, d)[i]
  {
    if s != [] {
      SplitHasNone(s[LineLength(s, d)..], d);
    }
  }

  lemma {:induction false} SplitOfJoin(lines: seq<seq<byte>>, d: byte)
    requires forall i | 0 <= i < |lines| :: d !in lines[i]
    ensures Split(Joined(lines, d), d) == lines
  {
    if lines != [] {
      var s, k := Joined(lines, d), |lines[0]|;
      assert s[..k] == lines[0] && s[k] == d && s[k + 1..] == Joined(lines[1..], d);
      FindIs(s, d, k);
      SplitOfJoin(lines[1..], d);
    }
  }

  // A line that starts with bytes free of delimiters.
  lemma FindBehind(a: seq<byte>, b: seq<byte>, d: byte)
    requires d !in a
    ensures Find(a + b, d) == |a| + Find(b, d)
  {
    var k := |a| + Find(b, d);
    assert (a + b)[..k] == a + b[..Find(b, d)];
    FindIs(a + b, d, k);
  }

  // One turn of Readline: take from the buffer what belongs to the current line.
  method TakeView(stream: BufReader, d: byte) returns (r: Result<seq<byte>>, found: bool)
    requires stream.Valid()
    modifies stream.buffer, stream.buffer.a, stream.source
    ensures stream.Valid() && (stream.buffer.a == old(stream.buffer.a) || fresh(stream.buffer.a))
    ensures r.Ok? ==> old(stream.Rest()) == r.value + stream.Rest()
    ensures r.Ok? && found ==>
      |r.value| == LineLength(old(stream.Rest()), d) && r.value != [] && r.value[|r.value| - 1] == d
    ensures r.Ok? && !found ==> d !in r.value
    ensures r.Ok? && r.value == [] ==> stream.buffer.max == 0 || old(stream.Rest()) == []
    ensures r.Ok? && r.value != [] ==> stream.buffer.max > 0
    ensures r.Err? ==> r.error.Failed? && stream.Rest() == old(stream.Rest())
  {
    var filled := stream.Fill();
    if filled.Err? {
      return filled, false;
    }
    var view := filled.value;
    var pos := Find(view, d);
    ghost var rest := stream.Rest();
    assert rest == view + stream.source.rest;
    FirstView(view, stream.source.rest, d);
    if pos == |view| {
      stream.Consume(|view|);
      return Ok(view), false;
    }
    stream.Consume(pos + 1);
    return Ok(view[..pos + 1]), true;
  }

  lemma FirstView(view: seq<byte>, behind: seq<byte>, d: byte)
    ensures var pos, rest := Find(view, d), view + behind;
      if pos == |view| then rest == view + rest[|view|..] && d !in view
      else rest == view[..pos + 1] + rest[pos + 1..] && LineLength(rest, d) == pos + 1
  {
    var pos := Find(view, d);
    if pos == |view| {
      assert view[..pos] == view;
    } else {
      FindIs(view + behind, d, pos);
    }
  }

  // Append the next line and its delimiter to `str`.  The end of the stream is an error only
  // in front of a line; a failed read leaves the part of the line seen so far in `line`.
  method Readline(stream: BufReader, str: seq<byte>, d: byte)
    returns (r: Result<nat>, line: seq<byte>, ghost seen: seq<byte>)
    requires stream.Valid()
    modifies stream.buffer, stream.buffer.a, stream.source
    ensures stream.Valid() && (stream.buffer.a == old(stream.buffer.a) || fresh(stream.buffer.a))
    ensures line == str + seen && old(stream.Rest()) == seen + stream.Rest()
    ensures r.Ok? ==> r.value > 0 && |seen| == r.value == LineLength(old(stream.Rest()), d)
    ensures r.Err? ==> d !in seen && (r.error.Failed? || r.error.UnexpectedEof?)
    ensures r.Err? && r.error.UnexpectedEof? ==> seen == [] && (stream.buffer.max == 0 || old(stream.Rest()) == [])
  {
    line, seen := str, [];
    var readed := 0;
    ghost var all := stream.Rest();
    while true
      invariant stream.Valid() && (stream.buffer.a == old(stream.buffer.a) || fresh(stream.buffer.a))
      invariant line == str + seen && |seen| == readed && d !in seen
      invariant all == seen + stream.Rest()
      invariant readed > 0 ==> stream.buffer.max > 0
      decreases |stream.Rest()|
    {
      ghost var rest := stream.Rest();
      var taken, found := TakeView(stream, d);
      if taken.Err? {
        return Err(taken.error), line, seen;
      }
      var view := taken.value;
      if view == [] {
        EndOfText(all, seen, rest, d);
        return if readed != 0 then Ok(readed) else Err(UnexpectedEof), line, seen;
      }
      OneView(str, seen, view, stream.Rest(), d);
      line := line + view;
      readed := readed + |view|;
      seen := seen + view;
      if found {
        return Ok(readed), line, seen;
      }
    }
  }

  lemma OneView(str: seq<byte>, seen: seq<byte>, view: seq<byte>, rest: seq<byte>, d: byte)
    requires d !in seen
    ensures seen + (view + rest) == (seen + view) + rest && (str + seen) + view == str + (seen + view)
    ensures LineLength(seen + (view + rest), d) == |seen| + LineLength(view + rest, d)
    ensures d !in view ==> d !in seen + view
  {
    FindBehind(seen, view + rest, d);
  }

  lemma EndOfText(all: seq<byte>, seen: seq<byte>, rest: seq<byte>, d: byte)
    requires all == seen + rest && d !in seen
    ensures rest == [] ==> LineLength(all, d) == |seen|
  {
    if rest == [] {
      FindIs(all, d, |seen|);
    }
  }

  // The next line without its delimiter is the next part of the split.
  method Getline(stream: BufReader, d: byte) returns (r: Result<seq<byte>>)
    requires stream.Valid()
    modifies stream.buffer, stream.buffer.a, stream.source
    ensures stream.Valid() && (stream.buffer.a == old(stream.buffer.a) || fresh(stream.buffer.a))
    ensures r.Ok? ==> Split(old(stream.Rest()), d) == [r.value] + Split(stream.Rest(), d)
    ensures r.Ok? ==> |stream.Rest()| < |old(stream.Rest())|
    ensures r.Err? && r.error.UnexpectedEof? ==> stream.buffer.max == 0 || old(stream.Rest()) == []
    ensures r.Err? ==> r.error.Failed? || r.error.UnexpectedEof?
  {
    var read, str, _ := Readline(stream, [], d);
    if read.Err? {
      return Err(read.error);
    }
    FirstLine(old(stream.Rest()), str, stream.Rest(), d);
    if str[|str| - 1] == d {
      str := str[..|str| - 1];
    }
    r := Ok(str);
  }

  lemma FirstLine(all: seq<byte>, str: seq<byte>, rest: seq<byte>, d: byte)
    requires str != [] && all == str + rest && |str| == LineLength(all, d)
    ensures Split(all, d) == [if str[|str| - 1] == d then str[..|str| - 1] else str] + Split(rest, d)
  {
    var k := Find(all, d);
    assert all[|str|..] == rest;
    assert str[|str| - 1] == all[|str| - 1];
    if k < |all| {
      assert str[..k] == all[..k];
    } else {
      assert str == all && all[|str| - 1] in all[..k];
    }
  }

  // Calling Getline until it fails: at the end of the stream all lines have been returned.
  method GetAllLines(stream: BufReader, d: byte) returns (error: Error, lines: seq<seq<byte>>)
    requires stream.Valid()
    modifies stream.buffer, stream.buffer.a, stream.source
    ensures stream.Valid()
    ensures lines <= Split(old(stream.Rest()), d)
    ensures error.UnexpectedEof? && stream.buffer.max > 0 ==> lines == Split(old(stream.Rest()), d)
    ensures error.Failed? || error.UnexpectedEof?
  {
    lines := [];
    ghost var all := Split(stream.Rest(), d);
    while true
      invariant stream.Valid() && (stream.buffer.a == old(stream.buffer.a) || fresh(stream.buffer.a))
      invariant lines + Split(stream.Rest(), d) == all
      decreases |stream.Rest()|
    {
      var r := Getline(stream, d);
      if r.Err? {
        return r.error, lines;
      }
      assert lines + ([r.value] + Split(stream.Rest(), d)) == (lines + [r.value]) + Split(stream.Rest(), d);
      lines := lines + [r.value];
    }
  }
}
