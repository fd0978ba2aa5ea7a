/** A ring of fixed capacity that forgets its oldest element when it is full. */
module RingBuffers {
  import opened Common

  /** The last `n` elements. */
  function LastOf<T>(s: seq<T>, n: nat): (r: seq<T>)
    ensures |r| == if |s| <= n then |s| else n
  {
    if |s| <= n then s else s[|s| - n..]
  }

  /** The slot `k` places after `front` in a ring of `capacity`. */
  function Slot(capacity: nat, front: nat, k: nat): (i: nat)
    requires front < capacity && k < capacity
    ensures i < capacity
  {
    if front + k < capacity then front + k else front + k - capacity
  }

  lemma {:induction false} ModIsSlot(capacity: nat, i: nat)
    requires 0 < capacity && i < 2 * capacity
    ensures i % capacity == if i < capacity then i else i - capacity
  {
    if i >= capacity {
      ModPlus(i - capacity, capacity);
    } else {
      SmallMod(i, capacity);
    }
  }

  lemma {:induction false} SmallMod(x: nat, d: nat)
    requires x < d
    ensures x % d == x
  {
  }

  lemma {:induction false} ModPlus(x: nat, d: nat)
    requires x < d
    ensures (x + d) % d == x
  {
    var q := (x + d) / d;
    assert x + d == q * d + (x + d) % d;
    Times(q, 0, d);
    Times(2, q, d);
    Times(q, 1, d);
  }

  /** The `size` elements that start at `front`. */
  function InRing<T>(q: seq<T>, size: nat, front: nat): (c: seq<T>)
    requires size <= |q| && front < |q|
    ensures |c| == size && forall k | 0 <= k < size :: c[k] == q[Slot(|q|, front, k)]
  {
    seq(size, k requires 0 <= k < size => q[Slot(|q|, front, k)])
  }

  /** Moving the front of a full ring drops the oldest element. */
  lemma {:induction false} Dropped<T>(q: seq<T>, size: nat, front: nat)
    requires 0 < size <= |q| && front < |q|
    ensures InRing(q, size - 1, Slot(|q|, front, 1 % |q|)) == InRing(q, size, front)[1..]
  {
    if |q| > 1 {
      assert 1 % |q| == 1;
      var c, d := InRing(q, size, front), InRing(q, size - 1, Slot(|q|, front, 1));
      forall k | 0 <= k < size - 1 ensures d[k] == c[k + 1] {
        assert Slot(|q|, Slot(|q|, front, 1), k) == Slot(|q|, front, k + 1);
      }
    }
  }

  lemma {:induction false} Shorter<T>(q: seq<T>, size: nat, front: nat)
    requires 0 < size <= |q| && front < |q|
    ensures InRing(q, size, front)[..size - 1] == InRing(q, size - 1, front)
  {
    var c, d := InRing(q, size, front), InRing(q, size - 1, front);
    assert forall k | 0 <= k < size - 1 :: d[k] == c[k];
  }

  lemma {:induction false} Written<T>(q: seq<T>, size: nat, front: nat, x: T)
    requires 0 < size <= |q| && front < |q|
    ensures InRing(q[Slot(|q|, front, size - 1) := x], size, front) == InRing(q, size, front)[..size - 1] + [x]
  {
    var c, d := InRing(q, size, front), InRing(q[Slot(|q|, front, size - 1) := x], size, front);
    forall k | 0 <= k < size ensures d[k] == if k == size - 1 then x else c[k] {}
  }

  function After(capacity: nat, i: nat): (j: nat)
    requires i < capacity
    ensures j < capacity
  {
    (i + 1) % capacity
  }

  predicate Shape(capacity: nat, size: nat, front: nat, back: nat) {
    && 0 < capacity && size <= capacity && front < capacity && back < capacity
    && back == Slot(capacity, front, if size == 0 then capacity - 1 else size - 1)
  }

  lemma {:induction false} GrowShape(capacity: nat, size: nat, front: nat, back: nat)
    requires Shape(capacity, size, front, back)
    ensures if size == capacity then Shape(capacity, size, After(capacity, front), After(capacity, back))
            else Shape(capacity, size + 1, front, After(capacity, back))
  {
    ModIsSlot(capacity, back + 1);
    ModIsSlot(capacity, front + 1);
    var b, f := After(capacity, back), After(capacity, front);
    assert b == (if back + 1 < capacity then back + 1 else 0) && f == (if front + 1 < capacity then front + 1 else 0);
  }

  lemma {:induction false} GrowContents<T>(q: seq<T>, size: nat, front: nat)
    requires 0 < |q| && size <= |q| && front < |q|
    ensures var n, f := if size == |q| then size else size + 1, if size == |q| then After(|q|, front) else front;
            InRing(q, n, f)[..n - 1] == LastOf(InRing(q, size, front), |q| - 1)
  {
    if size == |q| {
      NextFront(|q|, front);
      Dropped(q, size, front);
      Shorter(q, size, After(|q|, front));
    } else {
      Shorter(q, size + 1, front);
    }
  }

  lemma {:induction false} NextFront(capacity: nat, front: nat)
    requires front < capacity
    ensures After(capacity, front) == Slot(capacity, front, 1 % capacity)
  {
    ModIsSlot(capacity, front + 1);
    ModIsSlot(capacity, 1);
  }

  class RingBuffer<T(0)> {
    const buffer: array<T>
    var size: nat
    var front: nat
    var back: nat

    ghost predicate Valid()
      reads this
    {
      Shape(buffer.Length, size, front, back)
    }

    /** The elements, oldest first. */
    ghost function Contents(): (c: seq<T>)
      reads this, buffer
      requires Valid()
      ensures |c| == size
    {
      InRing(buffer[..], size, front)
    }

    constructor (capacity: nat)
      requires 0 < capacity
      ensures Valid() && Contents() == [] && buffer.Length == capacity && fresh(buffer)
    {
      buffer := new T[capacity];
      size, front, back := 0, 0, capacity - 1;
    }

    method Clear()
      requires 0 < buffer.Length
      modifies this
      ensures Valid() && Contents() == []
    {
      size, front, back := 0, 0, buffer.Length - 1;
    }

    function Front(): (x: T)
      reads this, buffer
      requires Valid() && size > 0
      ensures x == Contents()[0]
    {
      buffer[front]
    }

    function Back(): (x: T)
      reads this, buffer
      requires Valid() && size > 0
      ensures x == Contents()[size - 1]
    {
      buffer[back]
    }

    /** Makes room for a new element at the back. */
    method Grow()
      requires Valid()
      modifies this
      ensures Valid() && size > 0
      ensures Contents()[..size - 1] == LastOf(old(Contents()), buffer.Length - 1)
    {
      GrowShape(buffer.Length, size, front, back);
      GrowContents(buffer[..], size, front);
      hide Shape, After, LastOf;
      back := After(buffer.Length, back);
      if size == buffer.Length {
        front := After(buffer.Length, front);
      } else {
        size := size + 1;
      }
    }

    method Push(x: T)
      requires Valid()
      modifies this, buffer
      ensures Valid() && Contents() == LastOf(old(Contents()) + [x], buffer.Length)
    {
      ghost var was := Contents();
      Grow();
      ghost var c := Contents();
      Written(buffer[..], size, front, x);
      ghost var q := buffer[..];
      buffer[back] := x;
      assert buffer[..] == q[back := x];
      LastOfSnoc(was, x, buffer.Length);
    }

    /** Changes the newest element. */
    method SetBack(x: T)
      requires Valid() && size > 0
      modifies buffer
      ensures Valid() && Contents() == old(Contents())[..size - 1] + [x]
    {
      Written(buffer[..], size, front, x);
      ghost var q := buffer[..];
      buffer[back] := x;
      assert buffer[..] == q[back := x];
    }

    method Pop()
      requires Valid()
      modifies this
      ensures Valid() && Contents() == if old(size) > 0 then old(Contents())[1..] else []
    {
      NextFront(buffer.Length, front);
      ModIsSlot(buffer.Length, 1);
      if size > 0 {
        Dropped(buffer[..], size, front);
        size := size - 1;
        front := After(buffer.Length, front);
      }
    }

    method CopyTo() returns (out: seq<T>)
      requires Valid()
      ensures out == Contents()
    {
      out := [];
      var idx, counter := front, 0;
      while counter < size
        invariant counter <= size && out == Contents()[..counter]
        invariant idx == if counter == 0 then front else Slot(buffer.Length, front, counter - 1) + 1
      {
        ModIsSlot(buffer.Length, idx);
        idx := idx % buffer.Length;
        out := out + [buffer[idx]];
        idx := idx + 1;
        counter := counter + 1;
      }
    }
  }

  lemma {:induction false} LastOfSnoc<T>(s: seq<T>, x: T, n: nat)
    requires 0 < n
    ensures LastOf(s + [x], n) == LastOf(s, n - 1) + [x]
  {
  }

  lemma {:induction false} PushLast<T>(s: seq<T>, x: T, n: nat)
    requires n > 0
    ensures LastOf(s + [x], n) == LastOf(LastOf(s, n) + [x], n)
  {
  }
}
