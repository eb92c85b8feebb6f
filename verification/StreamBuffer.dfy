/** The buffers under all stream I/O, as refinements of a plain byte queue.

    Both keep the queued bytes in a[pos..tail] of an array.  What `Prepare` does to make
    room, sliding the bytes to the front or moving them to a larger array, is not visible
    in `Contents`; the window it hands out is a[tail..tail + n].
 */
module StreamBuffers {
  import opened Common
  import opened Bytes

  class FixedStreamBuffer {
    const N: nat
    const a: array<byte>
    var pos: nat
    var tail: nat

    ghost predicate Valid()
      reads this
    {
      a.Length == N && pos <= tail <= N
    }

    ghost function Contents(): (r: seq<byte>)
      reads this, a
      requires Valid()
    {
      a[pos..tail]
    }

    constructor (n: nat)
      requires n > 0
      ensures Valid() && N == n && fresh(a) && Contents() == []
    {
      N, pos, tail := n, 0, 0;
      a := new byte[n];
    }

    method Size() returns (n: nat)
      requires Valid()
      ensures n == |Contents()|
    {
      n := tail - pos;
    }

    // The length of the window handed out: n, or 0 when there is no room.
    method Prepare(n: nat) returns (window: nat)
      requires Valid()
      modifies this, a
      ensures Valid() && Contents() == old(Contents())
      ensures window == if |Contents()| + n <= N then n else 0
      ensures tail + window <= N
    {
      if pos == tail {
        pos, tail := 0, 0;
      }
      var space := N - tail;
      if tail - pos < N / 8 || space < n {
        MoveToFront(a, pos, tail - pos);
        tail := tail - pos;
        pos := 0;
        space := N - tail;
      }
      window := if space < n then 0 else n;
    }

    // The caller fills the window.
    method Fill(bytes: seq<byte>)
      requires Valid() && tail + |bytes| <= N
      modifies a
      ensures Valid() && Contents() == old(Contents())
      ensures a[tail..tail + |bytes|] == bytes
    {
      CopyTo(a, tail, bytes);
      assert a[pos..tail] == a[..tail][pos..];
    }

    // A size beyond the window is cut down to it.
    method Commit(n: nat)
      requires Valid()
      modifies this
      ensures Valid() && Contents() == old(Contents()) + old(a[tail..tail + Min(n, N - tail)])
    {
      tail := tail + Min(n, N - tail);
    }

    // A size beyond the contents is cut down to them.
    method Consume(n: nat)
      requires Valid()
      modifies this
      ensures Valid() && Contents() == old(Contents())[Min(n, old(|Contents()|))..]
    {
      pos := pos + Min(n, tail - pos);
    }

    method Clear()
      requires Valid()
      modifies this
      ensures Valid() && Contents() == []
    {
      pos, tail := 0, 0;
    }
  }

  class StreamBuffer {
    var a: array<byte>
    var pos: nat
    var tail: nat
    const max: nat

    ghost predicate Valid()
      reads this
    {
      pos <= tail <= a.Length <= max
    }

    ghost function Contents(): (r: seq<byte>)
      reads this, a
      requires Valid()
    {
      a[pos..tail]
    }

    // The bytes start at offset 0, or will once the next window is prepared.
    ghost predicate AtFront()
      reads this
    {
      pos == 0 || pos == tail
    }

    // Where the window of the next Prepare starts: the bytes are slid to the front when there
    // are none or when they fill less than an eighth of the array.
    ghost function Offset(): (r: nat)
      reads this
      requires Valid()
    {
      if pos == tail then 0 else if tail - pos < a.Length / 8 then tail - pos else tail
    }

    constructor (maxCapacity: nat)
      ensures Valid() && max == maxCapacity && fresh(a) && Contents() == [] && AtFront()
    {
      max, pos, tail := maxCapacity, 0, 0;
      a := new byte[0];
    }

    method Size() returns (n: nat)
      requires Valid()
      ensures n == |Contents()|
    {
      n := tail - pos;
    }

    method Empty() returns (r: bool)
      requires Valid()
      ensures r <==> Contents() == []
    {
      r := pos == tail;
    }

    // The first half of Prepare: slide the bytes to the front, or leave them where they are.
    method Settle()
      requires Valid()
      modifies this, a
      ensures Valid() && Contents() == old(Contents()) && a == old(a)
      ensures tail == old(Offset()) && (old(AtFront()) ==> pos == 0)
    {
      if pos == tail {
        pos, tail := 0, 0;
      }
      if tail - pos < a.Length / 8 {
        MoveToFront(a, pos, tail - pos);
        tail := tail - pos;
        pos := 0;
      }
    }

    // The window is granted exactly when it fits behind the offset, which is implied by
    // fitting at all when the bytes are at the front, and never granted when it does not fit.
    method Prepare(n: nat) returns (window: nat)
      requires Valid()
      modifies this, a
      ensures Valid() && Contents() == old(Contents()) && (a == old(a) || fresh(a))
      ensures window == if old(Offset()) + n <= max then n else 0
      ensures tail == old(Offset()) && tail + window <= a.Length
      ensures old(AtFront()) ==> pos == 0 && window == if |Contents()| + n <= max then n else 0
      ensures |Contents()| + n > max ==> window == 0
      // bytes elsewhere are slid to the front if they fill less than an eighth, else stay
      ensures old(pos > 0 && |Contents()| < a.Length / 8) ==> window == if |Contents()| + n <= max then n else 0
      ensures old(0 < pos < tail && |Contents()| >= a.Length / 8) ==> window == if old(tail) + n <= max then n else 0
    {
      Settle();
      if tail - pos + n > max {
        return 0;
      }
      var space := a.Length - tail;
      if space < n {
        var newSize := Min((a.Length + n) * 2, max);
        var newSpace := newSize - tail;
        if newSpace < n {
          return 0;
        }
        a := Resized(a, newSize);
      }
      return n;
    }

    method Fill(bytes: seq<byte>)
      requires Valid() && tail + |bytes| <= a.Length
      modifies a
      ensures Valid() && Contents() == old(Contents())
      ensures a[tail..tail + |bytes|] == bytes
    {
      CopyTo(a, tail, bytes);
      assert a[pos..tail] == a[..tail][pos..];
    }

    method Commit(n: nat)
      requires Valid()
      modifies this
      ensures Valid() && Contents() == old(Contents()) + old(a[tail..tail + Min(n, a.Length - tail)])
      ensures a == old(a) && pos == old(pos)
    {
      tail := tail + Min(n, a.Length - tail);
    }

    // What a caller of Prepare does: fill some of the window and commit it.
    method Append(bytes: seq<byte>)
      requires Valid() && tail + |bytes| <= a.Length
      modifies this, a
      ensures Valid() && Contents() == old(Contents()) + bytes && a == old(a) && pos == old(pos)
    {
      Fill(bytes);
      Commit(|bytes|);
    }

    method Consume(n: nat)
      requires Valid()
      modifies this
      ensures Valid() && Contents() == old(Contents())[Min(n, old(|Contents()|))..]
      ensures a == old(a) && tail == old(tail)
    {
      pos := pos + Min(n, tail - pos);
    }

    method ShrinkToFit()
      requires Valid()
      modifies this, a
      ensures Valid() && Contents() == old(Contents()) && fresh(a)
      ensures Contents() != [] ==> a.Length == |Contents()| && AtFront()
    {
      if tail - pos > 0 {
        MoveToFront(a, pos, tail - pos);
        tail := tail - pos;
        pos := 0;
      }
      a := Resized(a, tail);
    }

    method Clear()
      requires Valid()
      modifies this
      ensures Valid() && fresh(a) && Contents() == [] && AtFront()
    {
      a := new byte[0];
      pos, tail := 0, 0;
    }
  }

  // A window that fits in the capacity is refused when the bytes are not at the front and too
  // many to be slid there.
  method RefusedThoughItFits() returns (window: nat, size: nat, n: nat, max: nat)
    ensures n > 0 && size + n <= max && window == 0
  {
    n, max := 8, 16;
    var b := new StreamBuffer(max);
    var w := b.Prepare(16);
    b.Fill(seq(12, _ => 1));
    b.Commit(12);
    b.Consume(4);
    size := b.Size();
    assert b.tail == 12 && b.a.Length == 16;
    window := b.Prepare(n);
  }
}
