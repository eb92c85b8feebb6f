/** The intrusive circular doubly-linked list, on the heap.

    A node that is in no list forms a ring by itself; a list is the ring of its sentinel.
    Methods take the rings they work on as ghost arguments, read from the node they are
    called on, so that a node can unlink itself without knowing its list.
 */
module IntrusiveList {
  class Node {
    var prev: Node
    var next: Node

    constructor ()
      ensures fresh(this) && Ring([this])
    {
      prev := this;
      next := this;
    }

    // The move constructor: the new node takes the place of `other`, which ends up alone.
    constructor Move(other: Node, ghost ring: seq<Node>)
      requires Ring(ring) && ring[0] == other
      modifies other, other.prev`next, other.next`prev
      ensures fresh(this) && Ring([this] + ring[1..]) && Ring([other])
    {
      prev := this;
      next := this;
      new;
      var linked := other.IsLinked(ring);
      if linked {
        prev := other.prev;
        next := other.next;
        prev.next := this;
        next.prev := this;
        other.prev := other;
        other.next := other;
        ghost var r := [this] + ring[1..];
        assert ring[1] == next && ring[|ring| - 1] == prev;
        forall i | 0 <= i < |r| - 1 ensures Linked(r[i], r[i + 1]) {
          assert i > 0 ==> old(Linked(ring[i], ring[i + 1]));
        }
      }
    }

    method IsLinked(ghost ring: seq<Node>) returns (linked: bool)
      requires Ring(ring) && ring[0] == this
      ensures linked <==> |ring| > 1
    {
      linked := prev != this || next != this;
    }

    // Leave the ring; the others close up.
    method Unlink(ghost ring: seq<Node>)
      requires Ring(ring) && ring[0] == this
      modifies this, prev`next, next`prev
      ensures Ring([this])
      ensures |ring| > 1 ==> Ring(ring[1..])
    {
      var linked := IsLinked(ring);
      if !linked {
        return;
      }
      prev.next := next;
      next.prev := prev;
      prev := this;
      next := this;
    }

    // Become the last node of the ring read from `where`, leaving the ring this node was in.
    method InsertBefore(where: Node, ghost mine: seq<Node>, ghost target: seq<Node>)
      requires Ring(mine) && mine[0] == this && Ring(target) && target[0] == where
      modifies this, prev`next, next`prev, where`prev, where.prev`next
      ensures where != this ==> Ring(Minus(target, this) + [this])
      ensures where == this ==> Ring([this])
      ensures |mine| > 1 && (where == this || this !in target) ==> Ring(mine[1..])
    {
      if this !in target {
        RingsApart(mine, target);
      }
      UnlinkInside(mine, target);
      ghost var t := Minus(target, this);
      MinusMembers(target, this);
      if this !in target {
        MinusNone(target, this);
        RestApart(mine, target, t);
      }
      label unlinked:
      LinkBefore(where, t);
      if |mine| > 1 && (where == this || this !in target) {
        RingUntouched@unlinked(mine[1..]);
      }
    }

    method LinkBefore(where: Node, ghost t: seq<Node>)
      requires Ring([this]) && (where != this ==> this !in t && Ring(t) && t[0] == where)
      modifies this, where`prev, where.prev`next
      ensures where != this ==> Ring(t + [this])
      ensures where == this ==> Ring([this])
    {
      next := where;
      prev := where.prev;
      where.prev := this;
      prev.next := this;
    }

    // Become the node behind `where`, leaving the ring this node was in.
    method InsertAfter(where: Node, ghost mine: seq<Node>, ghost target: seq<Node>)
      requires Ring(mine) && mine[0] == this && Ring(target) && target[0] == where
      modifies this, prev`next, next`prev, where`next, where.next`prev
      ensures where != this ==> Ring([where, this] + Minus(target, this)[1..])
      ensures where == this ==> Ring([this])
      ensures |mine| > 1 && (where == this || this !in target) ==> Ring(mine[1..])
    {
      if this !in target {
        RingsApart(mine, target);
      }
      UnlinkInside(mine, target);
      ghost var t := Minus(target, this);
      MinusMembers(target, this);
      if this !in target {
        MinusNone(target, this);
        RestApart(mine, target, t);
      }
      label unlinked:
      LinkAfter(where, t);
      if |mine| > 1 && (where == this || this !in target) {
        RingUntouched@unlinked(mine[1..]);
      }
    }

    method LinkAfter(where: Node, ghost t: seq<Node>)
      requires Ring([this]) && (where != this ==> this !in t && Ring(t) && t[0] == where)
      modifies this, where`next, where.next`prev
      ensures where != this ==> Ring([where, this] + t[1..])
      ensures where == this ==> Ring([this])
    {
      assert where != this ==> where.next == if |t| > 1 then t[1] else t[0] by {
        assert where != this && |t| > 1 ==> Linked(t[0], t[0 + 1]);
      }
      next := where.next;
      prev := where;
      where.next := this;
      next.prev := this;
      if where != this {
        ghost var r := [where, this] + t[1..];
        forall i | 0 <= i < |r| - 1 ensures Linked(r[i], r[i + 1]) {
          assert i > 1 ==> t[i - 1] == r[i] && t[i - 1 + 1] == r[i + 1];
        }
      }
    }

    // Unlinking seen from another ring: if the node was in it, that ring closes up.
    method UnlinkInside(ghost mine: seq<Node>, ghost target: seq<Node>)
      requires Ring(mine) && mine[0] == this && Ring(target)
      modifies this, prev`next, next`prev
      ensures Ring([this])
      ensures |mine| > 1 ==> Ring(mine[1..])
      ensures target[0] != this ==> Ring(Minus(target, this)) && Minus(target, this)[0] == target[0]
    {
      ghost var k := 0;
      ghost var rest := Minus(target, this);
      ghost var apart := this !in target;
      if apart {
        MinusNone(target, this);
        NeighboursApart(mine, target);
      } else if target[0] != this {
        k := PlaceInRing(mine, target);
      }
      Unlink(mine);
      if apart {
        RingUntouched(target);
      } else if k > 0 {
        Rotate(target[k + 1..], target[..k]);
      }
    }
  }

  // Linking a node to one ring writes nothing of the ring it came from.
  lemma RestApart(mine: seq<Node>, target: seq<Node>, t: seq<Node>)
    requires mine != [] && Distinct(mine) && forall n | n in mine :: n !in target
    requires Ring(t) && forall n | n in t :: n in target
    ensures forall n | n in mine[1..] :: n !in [mine[0], t[0], t[0].prev, t[0].next]
  {
    assert t[0].prev in t && t[0].next in t by {
      assert Linked(t[|t| - 1], t[0]);
      assert |t| > 1 ==> Linked(t[0], t[0 + 1]);
    }
    forall i | 1 <= i < |mine| ensures mine[i] !in [mine[0], t[0], t[0].prev, t[0].next] {
      assert mine[i] in mine;
    }
  }

  // What unlinking a node of one ring writes is in no other ring.
  lemma NeighboursApart(mine: seq<Node>, target: seq<Node>)
    requires Ring(mine) && Ring(target) && mine[0] !in target
    ensures mine[0].prev !in target && mine[0].next !in target
    ensures forall n | n in mine :: n !in target
  {
    RingsApart(mine, target);
    assert Linked(mine[|mine| - 1], mine[0]);
    assert |mine| > 1 ==> Linked(mine[0], mine[0 + 1]);
  }

  // A ring none of whose nodes was written is still a ring.
  twostate lemma RingUntouched(s: seq<Node>)
    requires old(Ring(s)) && forall n | n in s :: n.prev == old(n.prev) && n.next == old(n.next)
    ensures Ring(s)
  {
    forall i | 0 <= i < |s| - 1 ensures Linked(s[i], s[i + 1]) {
      assert old(Linked(s[i], s[i + 1]));
    }
    assert old(Linked(s[|s| - 1], s[0]));
  }

  // A ring read from one of its inner nodes.
  lemma PlaceInRing(mine: seq<Node>, target: seq<Node>) returns (k: nat)
    requires Ring(mine) && Ring(target) && mine[0] in target && mine[0] != target[0]
    ensures 0 < k < |target| && target[k] == mine[0]
    ensures mine[1..] == target[k + 1..] + target[..k]
    ensures Minus(target, mine[0]) == target[..k] + target[k + 1..]
  {
    k :| 0 < k < |target| && target[k] == mine[0];
    MinusAt(target, k);
    assert target == target[..k] + target[k..];
    Rotate(target[..k], target[k..]);
    RingDetermined(mine, target[k..] + target[..k]);
  }

  function Minus(s: seq<Node>, n: Node): (r: seq<Node>) {
    if s == [] then [] else (if s[0] == n then [] else [s[0]]) + Minus(s[1..], n)
  }

  lemma {:induction false} MinusMembers(s: seq<Node>, n: Node)
    ensures forall m :: m in Minus(s, n) <==> m in s && m != n
  {
    if s != [] {
      MinusMembers(s[1..], n);
    }
  }

  lemma {:induction false} MinusNone(s: seq<Node>, n: Node)
    requires n !in s
    ensures Minus(s, n) == s
  {
    if s != [] {
      MinusNone(s[1..], n);
    }
  }

  lemma {:induction false} MinusAt(s: seq<Node>, k: nat)
    requires Distinct(s) && k < |s|
    ensures Minus(s, s[k]) == s[..k] + s[k + 1..]
  {
    if k == 0 {
      assert s[0] !in s[1..];
      MinusNone(s[1..], s[0]);
    } else {
      assert s[0] != s[k];
      MinusAt(s[1..], k - 1);
      assert s[1..][..k - 1] == s[1..k] && s[1..][k..] == s[k + 1..];
      assert s[..k] == [s[0]] + s[1..k];
    }
  }

  ghost predicate Distinct(s: seq<Node>) {
    forall i, j | 0 <= i < j < |s| :: s[i] != s[j]
  }

  // b follows a, seen from both sides.
  ghost predicate Linked(a: Node, b: Node)
    reads a, b
  {
    a.next == b && b.prev == a
  }

  ghost predicate Chain(s: seq<Node>)
    reads s
  {
    forall i | 0 <= i < |s| - 1 :: Linked(s[i], s[i + 1])
  }

  // The nodes of s, in this order, form a closed ring whose links are inverse to each other.
  ghost predicate Ring(s: seq<Node>)
    reads s
  {
    s != [] && Distinct(s) && Chain(s) && Linked(s[|s| - 1], s[0])
  }

  // In no list.
  ghost predicate Alone(n: Node)
    reads n
  {
    n.prev == n && n.next == n
  }

  // A ring can be read from any of its nodes.
  lemma Rotate(a: seq<Node>, b: seq<Node>)
    requires Ring(a + b)
    ensures Ring(b + a)
  {
    var s, r := a + b, b + a;
    forall i | 0 <= i < |r| - 1 ensures Linked(r[i], r[i + 1]) {
      if i + 1 == |b| {
        assert s[|s| - 1] == r[i] && s[0] == r[i + 1];
      } else {
        var j := if i < |b| then i + |a| else i - |b|;
        assert s[j] == r[i] && s[j + 1] == r[i + 1];
      }
    }
    forall i, j | 0 <= i < j < |r| ensures r[i] != r[j] {
      var i', j' := if i < |b| then i + |a| else i - |b|, if j < |b| then j + |a| else j - |b|;
      assert s[i'] == r[i] && s[j'] == r[j] && i' != j';
    }
    if a != [] && b != [] {
      assert Linked(s[|a| - 1], s[|a|]);
    }
  }

  // The links determine the ring.
  lemma {:induction false} SamePrefix(a: seq<Node>, b: seq<Node>, k: nat)
    requires Ring(a) && Ring(b) && a[0] == b[0] && k < |a| && k < |b|
    ensures a[k] == b[k]
  {
    if k > 0 {
      SamePrefix(a, b, k - 1);
      assert Linked(a[k - 1], a[k - 1 + 1]) && Linked(b[k - 1], b[k - 1 + 1]);
    }
  }

  lemma RingDetermined(a: seq<Node>, b: seq<Node>)
    requires Ring(a) && Ring(b) && a[0] == b[0]
    ensures a == b
  {
    forall k | 0 <= k < |a| && k < |b| ensures a[k] == b[k] {
      SamePrefix(a, b, k);
    }
  }

  // Two rings share all their nodes or none, so a node is in at most one list.
  lemma RingsDisjointOrEqual(a: seq<Node>, b: seq<Node>, n: Node)
    requires Ring(a) && Ring(b) && n in a && n in b
    ensures forall m :: m in a <==> m in b
  {
    var a' := ReadFrom(a, n);
    var b' := ReadFrom(b, n);
    RingDetermined(a', b');
  }

  // A ring read from a given node of it.
  lemma ReadFrom(s: seq<Node>, n: Node) returns (r: seq<Node>)
    requires Ring(s) && n in s
    ensures Ring(r) && r[0] == n && forall m :: m in r <==> m in s
  {
    var k :| 0 <= k < |s| && s[k] == n;
    assert s == s[..k] + s[k..];
    Rotate(s[..k], s[k..]);
    r := s[k..] + s[..k];
    assert forall m :: m in s[..k] + s[k..] <==> m in r;
  }

  lemma RingsApart(a: seq<Node>, b: seq<Node>)
    requires Ring(a) && Ring(b) && a[0] !in b
    ensures forall n | n in a :: n !in b
  {
    forall n | n in a ensures n !in b {
      if n in b {
        RingsDisjointOrEqual(a, b, n);
      }
    }
  }

  lemma OneListOnly(h: Node, s: seq<Node>, g: Node, t: seq<Node>, n: Node)
    requires Ring([h] + s) && Ring([g] + t) && n in s && n in t && g !in s
    ensures h == g && s == t
  {
    RingsDisjointOrEqual([h] + s, [g] + t, n);
    assert g in [g] + t;
    assert h == g;
    RingDetermined([h] + s, [g] + t);
    assert ([h] + s)[1..] == ([g] + t)[1..];
  }

  // The list owns nothing but its sentinel; `Holds` names the nodes linked behind it.
  class List {
    const head: Node

    ghost predicate Holds(elems: seq<Node>)
      reads head, elems
    {
      Ring([head] + elems)
    }

    constructor ()
      ensures fresh(head) && Holds([])
    {
      var h := new Node();
      head := h;
      new;
      assert [head] + [] == [head];
    }

    // Moving a list: the new sentinel takes over all the nodes.
    constructor Move(other: List, ghost elems: seq<Node>)
      requires other.Holds(elems)
      modifies other.head, other.head.prev`next, other.head.next`prev
      ensures fresh(head) && Holds(elems) && other.Holds([])
    {
      var h := new Node.Move(other.head, [other.head] + elems);
      head := h;
      new;
      assert ([other.head] + elems)[1..] == elems;
      assert [other.head] + [] == [other.head];
    }

    method Empty(ghost elems: seq<Node>) returns (r: bool)
      requires Holds(elems)
      ensures r <==> elems == []
    {
      assert elems != [] ==> Linked(([head] + elems)[0], ([head] + elems)[1]);
      r := head.next == head;
    }

    method PushBack(n: Node, ghost elems: seq<Node>, ghost mine: seq<Node>)
      requires Holds(elems) && Ring(mine) && mine[0] == n && n != head
      modifies n, n.prev`next, n.next`prev, head`prev, head.prev`next
      ensures Holds(Minus(elems, n) + [n])
      ensures |mine| > 1 && n !in elems ==> Ring(mine[1..])
    {
      n.InsertBefore(head, mine, [head] + elems);
      assert Minus([head] + elems, n) + [n] == [head] + (Minus(elems, n) + [n]);
    }

    method PushFront(n: Node, ghost elems: seq<Node>, ghost mine: seq<Node>)
      requires Holds(elems) && Ring(mine) && mine[0] == n && n != head
      modifies n, n.prev`next, n.next`prev, head`next, head.next`prev
      ensures Holds([n] + Minus(elems, n))
      ensures |mine| > 1 && n !in elems ==> Ring(mine[1..])
    {
      n.InsertAfter(head, mine, [head] + elems);
      assert [head, n] + Minus([head] + elems, n)[1..] == [head] + ([n] + Minus(elems, n));
    }

    // Nodes of a list are distinct and none is the sentinel.
    lemma ElemsDistinct(elems: seq<Node>)
      requires Holds(elems)
      ensures Distinct(elems) && head !in elems
    {
      var ring := [head] + elems;
      forall i, j | 0 <= i < j < |elems| ensures elems[i] != elems[j] {
        assert ring[i + 1] != ring[j + 1];
      }
      forall i | 0 <= i < |elems| ensures elems[i] != head {
        assert ring[0] != ring[i + 1];
      }
    }

    // The neighbours of the k-th node, and of the sentinel.
    lemma Neighbours(elems: seq<Node>, k: nat)
      requires Holds(elems) && k <= |elems|
      ensures head.next == if elems != [] then elems[0] else head
      ensures k < |elems| ==> elems[k].next == if k + 1 < |elems| then elems[k + 1] else head
      ensures k < |elems| ==> elems[k].prev == if k > 0 then elems[k - 1] else head
    {
      var ring := [head] + elems;
      assert elems != [] ==> Linked(ring[0], ring[0 + 1]);
      assert k < |elems| ==> Linked(ring[k], ring[k + 1]);
      assert k + 1 < |elems| ==> Linked(ring[k + 1], ring[k + 1 + 1]);
    }

    // The ring of a list's node, read from that node.
    lemma RingFrom(elems: seq<Node>, k: nat)
      requires Holds(elems) && k < |elems|
      ensures Ring(elems[k..] + ([head] + elems[..k])) && (elems[k..] + ([head] + elems[..k]))[0] == elems[k]
    {
      assert [head] + elems == ([head] + elems[..k]) + elems[k..];
      Rotate([head] + elems[..k], elems[k..]);
    }

    // Erase the node at `position` and return the iterator behind it (the sentinel is end()).
    method Erase(position: Node, ghost elems: seq<Node>, ghost k: nat) returns (following: Node)
      requires Holds(elems) && k < |elems| && position == elems[k]
      modifies position, position.prev`next, position.next`prev
      ensures Holds(elems[..k] + elems[k + 1..]) && Ring([position])
      ensures following == if k + 1 < |elems| then elems[k + 1] else head
    {
      RingFrom(elems, k);
      ghost var ring := elems[k..] + ([head] + elems[..k]);
      assert Linked(ring[0], ring[1]);
      following := position.next;
      position.Unlink(ring);
      assert ring[1..] == elems[k + 1..] + ([head] + elems[..k]);
      Rotate(elems[k + 1..], [head] + elems[..k]);
      assert ([head] + elems[..k]) + elems[k + 1..] == [head] + (elems[..k] + elems[k + 1..]);
    }

    method PopFront(ghost elems: seq<Node>)
      requires Holds(elems) && elems != []
      modifies head.next, head.next.prev`next, head.next.next`prev
      ensures Holds(elems[1..]) && Ring([elems[0]])
    {
      assert Linked(([head] + elems)[0], ([head] + elems)[1]);
      var _ := Erase(head.next, elems, 0);
      assert elems[..0] + elems[1..] == elems[1..];
    }

    method PopBack(ghost elems: seq<Node>)
      requires Holds(elems) && elems != []
      modifies head.prev, head.prev.prev`next, head.prev.next`prev
      ensures Holds(elems[..|elems| - 1]) && Ring([elems[|elems| - 1]])
    {
      var _ := Erase(head.prev, elems, |elems| - 1);
      assert elems[..|elems| - 1] + elems[|elems|..] == elems[..|elems| - 1];
    }

    // Unlink everything: the list ends up empty and each node alone.
    method Clear(ghost elems: seq<Node>)
      requires Holds(elems)
      modifies head, elems
      ensures Holds([]) && forall n | n in elems :: Ring([n])
    {
      ghost var i := 0;
      ElemsDistinct(elems);
      var empty := Empty(elems);
      assert elems[0..] == elems;
      while !empty
        invariant i <= |elems| && Holds(elems[i..]) && (empty <==> i == |elems|)
        invariant forall j | 0 <= j < i :: Ring([elems[j]])
        decreases |elems| - i
      {
        Neighbours(elems[i..], 0);
        assert elems[i..][0] == elems[i] && elems[i..][1..] == elems[i + 1..];
        assert forall j | 0 <= j < i :: elems[j] !in elems[i..];
        PopFront(elems[i..]);
        i := i + 1;
        empty := Empty(elems[i..]);
      }
      assert elems[i..] == [];
    }

    method Size(ghost elems: seq<Node>) returns (n: nat)
      requires Holds(elems)
      ensures n == |elems|
    {
      n := 0;
      var cur := head.next;
      ElemsDistinct(elems);
      Neighbours(elems, 0);
      while cur != head
        invariant n <= |elems| && cur == if n < |elems| then elems[n] else head
        decreases |elems| - n
      {
        Neighbours(elems, n);
        n := n + 1;
        cur := cur.next;
      }
    }

    // One turn of an erase-while-iterating loop: erase the i-th node or step over it.
    method Advance(position: Node, drop: set<Node>, ghost elems: seq<Node>, ghost i: nat) returns (following: Node)
      requires Distinct(elems) && head !in elems && i < |elems| && position == elems[i]
      requires Holds(Kept(elems, i, drop) + elems[i..]) && Dropped(elems, i, drop)
      modifies head, elems
      ensures Holds(Kept(elems, i + 1, drop) + elems[i + 1..]) && Dropped(elems, i + 1, drop)
      ensures following == if i + 1 < |elems| then elems[i + 1] else head
    {
      ghost var cur, k, after := TurnFacts(elems, i, drop);
      if position in drop {
        following := Erase(position, cur, k);
      } else {
        following := position.next;
      }
    }

    // Where the i-th node stands, what the list is behind its turn, and that none of the
    // dropped nodes is its neighbour.
    lemma TurnFacts(elems: seq<Node>, i: nat, drop: set<Node>) returns (cur: seq<Node>, k: nat, after: seq<Node>)
      requires Distinct(elems) && head !in elems && i < |elems|
      requires Holds(Kept(elems, i, drop) + elems[i..])
      ensures Holds(cur) && k < |cur| && cur[k] == elems[i]
      ensures elems[i].next == if k + 1 < |cur| then cur[k + 1] else head
      ensures elems[i].next == if i + 1 < |elems| then elems[i + 1] else head
      ensures after == Kept(elems, i + 1, drop) + elems[i + 1..]
      ensures after == if elems[i] in drop then cur[..k] + cur[k + 1..] else cur
      ensures Outside(elems, i, drop, elems[i].prev) && Outside(elems, i, drop, elems[i].next)
    {
      cur, k := Kept(elems, i, drop) + elems[i..], |Kept(elems, i, drop)|;
      after := KeptTurn(elems, i, drop);
      Neighbours(cur, k);
      LinkedIsOutside(elems, i, drop, elems[i].prev);
      LinkedIsOutside(elems, i, drop, elems[i].next);
    }

    // The first i nodes of s that are dropped are in no list.
    ghost predicate Dropped(s: seq<Node>, i: nat, drop: set<Node>)
      requires i <= |s|
      reads s
    {
      forall j | 0 <= j < i && s[j] in drop :: Alone(s[j])
    }

    // n belongs to the list and is none of the nodes dropped so far.
    ghost predicate Outside(elems: seq<Node>, i: nat, drop: set<Node>, n: Node)
      requires i <= |elems|
    {
      (n == head || n in elems) && forall j | 0 <= j < i && elems[j] in drop :: elems[j] != n
    }

    lemma LinkedIsOutside(elems: seq<Node>, i: nat, drop: set<Node>, n: Node)
      requires Distinct(elems) && head !in elems && i <= |elems|
      requires n == head || n in Kept(elems, i, drop) + elems[i..]
      ensures Outside(elems, i, drop, n)
    {
      KeptMembers(elems, i, drop);
    }

    // Erase while iterating: every node is looked at once, in order; what is dropped is
    // unlinked and the rest stays linked in order.
    method Filter(drop: set<Node>, ghost elems: seq<Node>) returns (visited: seq<Node>)
      requires Holds(elems)
      modifies head, elems
      ensures Holds(Kept(elems, |elems|, drop)) && visited == elems
      ensures Dropped(elems, |elems|, drop)
    {
      visited := [];
      ghost var i := 0;
      var it := head.next;
      ElemsDistinct(elems);
      Neighbours(elems, 0);
      KeptEnds(elems, drop);
      while it != head
        invariant i <= |elems| && visited == elems[..i]
        invariant it == head <==> i == |elems|
        invariant it == if i < |elems| then elems[i] else head
        invariant Holds(Kept(elems, i, drop) + elems[i..]) && Dropped(elems, i, drop)
        decreases |elems| - i
      {
        visited := visited + [it];
        TakeOne(elems, i);
        it := Advance(it, drop, elems, i);
        i := i + 1;
      }
    }
  }

  lemma KeptEnds(s: seq<Node>, drop: set<Node>)
    ensures Kept(s, 0, drop) + s[0..] == s && s[..0] == []
    ensures Kept(s, |s|, drop) + s[|s|..] == Kept(s, |s|, drop) && s[..|s|] == s
  {
  }

  // The list behind one turn: the i-th node taken out of it, or the same as before.
  lemma KeptTurn(s: seq<Node>, i: nat, drop: set<Node>) returns (after: seq<Node>)
    requires i < |s|
    ensures after == Kept(s, i + 1, drop) + s[i + 1..]
    ensures var cur := Kept(s, i, drop) + s[i..];
      var k := |Kept(s, i, drop)|;
      after == if s[i] in drop then cur[..k] + cur[k + 1..] else cur
  {
    after := Kept(s, i + 1, drop) + s[i + 1..];
  }

  lemma TakeOne(s: seq<Node>, i: nat)
    requires i < |s|
    ensures s[..i] + [s[i]] == s[..i + 1]
  {
  }

  // What a filter keeps of the first i nodes of s.
  function Kept(s: seq<Node>, i: nat, drop: set<Node>): (r: seq<Node>)
    requires i <= |s|
  {
    if i == 0 then [] else Kept(s, i - 1, drop) + (if s[i - 1] in drop then [] else [s[i - 1]])
  }

  lemma {:induction false} KeptMembers(s: seq<Node>, i: nat, drop: set<Node>)
    requires i <= |s|
    ensures forall n :: n in Kept(s, i, drop) <==> n !in drop && n in s[..i]
  {
    if i > 0 {
      KeptMembers(s, i - 1, drop);
      assert s[..i] == s[..i - 1] + [s[i - 1]];
    }
  }
}
