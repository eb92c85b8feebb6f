/** Bytes, and the two block moves of the C library that the buffers are built on. */
module Bytes {
  newtype byte = x: int | 0 <= x < 256

  // Slide a[from..from + n] to the front; source and destination may overlap.
  method MoveToFront(a: array<byte>, from: nat, n: nat)
    requires from + n <= a.Length
    modifies a
    ensures a[..n] == old(a[from..from + n])
  {
    for i := 0 to n
      invariant forall j | 0 <= j < i :: a[j] == old(a[from + j])
      invariant forall j | i <= j < a.Length :: a[j] == old(a[j])
    {
      a[i] := a[from + i];
    }
  }

  // Copy `bytes` to a[at..].
  method CopyTo(a: array<byte>, at: nat, bytes: seq<byte>)
    requires at + |bytes| <= a.Length
    modifies a
    ensures a[..at] == old(a[..at])
    ensures a[at..at + |bytes|] == bytes
  {
    for i := 0 to |bytes|
      invariant forall j | 0 <= j < i :: a[at + j] == bytes[j]
      invariant forall j | 0 <= j < at :: a[j] == old(a[j])
    {
      a[at + i] := bytes[i];
    }
  }

  // The array grown or shrunk to `size`: what fits is kept.
  method Resized(a: array<byte>, size: nat) returns (b: array<byte>)
    ensures fresh(b) && b.Length == size
    ensures forall i | 0 <= i < size && i < a.Length :: b[i] == a[i]
  {
    b := new byte[size];
    for i := 0 to size
      invariant forall j | 0 <= j < i && j < a.Length :: b[j] == a[j]
    {
      if i < a.Length {
        b[i] := a[i];
      }
    }
  }
}
