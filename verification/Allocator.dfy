/** A bump allocator over extents of fixed size. Addresses are numbers; where the heap
    puts a new extent is a parameter. */
module Allocators {
  import opened Common

  const EXTENT_SIZE: nat := 0x10000

  /** A block that was handed out. */
  datatype Block = Block(start: nat, size: nat, alignment: nat)

  /** The bytes to skip so that an address is aligned. */
  function Padding(address: nat, alignment: nat): (n: nat)
    requires 0 < alignment
    ensures n < alignment && (address + n) % alignment == 0
  {
    PaddingAligns(address, alignment);
    if address % alignment == 0 then 0 else alignment - address % alignment
  }

  lemma {:induction false} PaddingAligns(address: nat, alignment: nat)
    requires 0 < alignment
    ensures address % alignment != 0 ==> (address + (alignment - address % alignment)) % alignment == 0
  {
    var q := address / alignment;
    assert address + (alignment - address % alignment) == (q + 1) * alignment;
    MultipleMod(q + 1, alignment);
  }

  lemma {:induction false} MultipleMod(q: nat, d: nat)
    requires 0 < d
    ensures q * d % d == 0
  {
    var r := q * d % d;
    var p := q * d / d;
    assert q * d == p * d + r;
    Times(q, p, d);
    Times(p + 1, q, d);
  }

  /** A block of this size and alignment fits an extent at `base` that is empty. */
  predicate Fits(base: nat, size: nat, alignment: nat)
    requires 0 < alignment
  {
    Padding(base, alignment) + size <= EXTENT_SIZE
  }

  predicate Apart(a: nat, n: nat, b: nat, m: nat) {
    a + n <= b || b + m <= a
  }

  ghost predicate Separate(extents: seq<nat>) {
    forall i, j | 0 <= i < j < |extents| :: Apart(extents[i], EXTENT_SIZE, extents[j], EXTENT_SIZE)
  }

  lemma {:induction false} SeparateFront(a: seq<nat>, b: seq<nat>)
    requires Separate(a + b)
    ensures Separate(a)
  {
    forall i, j | 0 <= i < j < |a| ensures Apart(a[i], EXTENT_SIZE, a[j], EXTENT_SIZE) {
      assert (a + b)[i] == a[i] && (a + b)[j] == a[j];
    }
  }

  /** A block lies in one extent, and in the last one below `position`. */
  ghost predicate Placed(b: Block, extents: seq<nat>, position: nat) {
    exists i :: 0 <= i < |extents| && extents[i] <= b.start
             && b.start + b.size <= extents[i] + (if i == |extents| - 1 then position else EXTENT_SIZE)
  }

  /** Every block is aligned and inside one extent, and no two overlap. */
  ghost predicate Sound(blocks: seq<Block>, extents: seq<nat>, position: nat) {
    && (forall k | 0 <= k < |blocks| :: blocks[k].alignment > 0 && blocks[k].start % blocks[k].alignment == 0
                                     && Placed(blocks[k], extents, position))
    && forall j, k | 0 <= j < k < |blocks| :: Apart(blocks[j].start, blocks[j].size, blocks[k].start, blocks[k].size)
  }

  lemma {:induction false} SoundBlock(blocks: seq<Block>, extents: seq<nat>, position: nat, b: Block)
    requires Sound(blocks, extents, position) && Separate(extents) && extents != [] && position <= EXTENT_SIZE
    requires extents[|extents| - 1] + position <= b.start && b.start + b.size <= extents[|extents| - 1] + EXTENT_SIZE
    requires 0 < b.alignment && b.start % b.alignment == 0
    ensures Sound(blocks + [b], extents, b.start + b.size - extents[|extents| - 1])
  {
    var last := |extents| - 1;
    var position' := b.start + b.size - extents[last];
    forall k | 0 <= k < |blocks|
      ensures Placed(blocks[k], extents, position') && Apart(blocks[k].start, blocks[k].size, b.start, b.size)
    {
      var i :| 0 <= i < |extents| && extents[i] <= blocks[k].start
            && blocks[k].start + blocks[k].size <= extents[i] + (if i == last then position else EXTENT_SIZE);
      assert i < last ==> Apart(extents[i], EXTENT_SIZE, extents[last], EXTENT_SIZE);
    }
    assert Placed(b, extents, position');
  }

  lemma {:induction false} SoundExtent(blocks: seq<Block>, extents: seq<nat>, position: nat, base: nat)
    requires Sound(blocks, extents, position) && position <= EXTENT_SIZE
    ensures Sound(blocks, extents + [base], 0)
  {
    forall k | 0 <= k < |blocks| ensures Placed(blocks[k], extents + [base], 0) {
      var i :| 0 <= i < |extents| && extents[i] <= blocks[k].start
            && blocks[k].start + blocks[k].size <= extents[i] + (if i == |extents| - 1 then position else EXTENT_SIZE);
      assert (extents + [base])[i] == extents[i];
    }
  }

  /** The first free address. */
  function End(storage: seq<nat>, position: nat): nat
    requires storage != []
  {
    storage[|storage| - 1] + position
  }

  class Allocator {
    var position: nat
    var storage: seq<nat>
    ghost var blocks: seq<Block>

    ghost predicate Valid()
      reads this
    {
      storage != [] && position <= EXTENT_SIZE && Separate(storage) && Sound(blocks, storage, position)
    }

    constructor (base: nat)
      ensures Valid() && storage == [base] && blocks == [] && position == 0
    {
      position, storage, blocks := 0, [base], [];
    }

    method AllocateExtent(base: nat)
      requires Valid() && Separate(storage + [base])
      modifies this`position, this`storage
      ensures Valid() && storage == old(storage) + [base] && position == 0
    {
      SoundExtent(blocks, storage, position, base);
      storage := storage + [base];
      position := 0;
    }

    /** `bases` are the places of the extents that the heap would give, in order. The call
        takes extents until the block fits, and never returns if it fits none of them. */
    method AllocateAligned(size: nat, alignment: nat, bases: seq<nat>) returns (ptr: Option<nat>)
      requires Valid() && 0 < alignment && Separate(storage + bases)
      modifies this
      ensures Valid() && old(storage) <= storage
      ensures ptr.Some? ==> blocks == old(blocks) + [Block(ptr.value, size, alignment)]
      ensures ptr.None? ==> blocks == old(blocks) && storage == old(storage) + bases
      ensures ptr.Some? ==> End(storage, position) == ptr.value + size
      ensures var here := old(position) + Padding(End(old(storage), old(position)), alignment) + size <= EXTENT_SIZE;
              && (ptr.Some? <==> here || exists i :: 0 <= i < |bases| && Fits(bases[i], size, alignment))
              && (here ==> storage == old(storage) && ptr.value == End(old(storage), old(position)) + Padding(End(old(storage), old(position)), alignment))
              && (!here && bases != [] && Fits(bases[0], size, alignment) ==> storage == old(storage) + [bases[0]])
      decreases |bases|
    {
      hide Sound, Separate;
      var current := End(storage, position);
      var bytesForAlignment := current % alignment;
      if bytesForAlignment != 0 {
        bytesForAlignment := alignment - bytesForAlignment;
      }
      assert bytesForAlignment == Padding(current, alignment);
      if position + bytesForAlignment + size > EXTENT_SIZE {
        if bases == [] {
          return None;
        }
        assert storage + bases == (storage + [bases[0]]) + bases[1..];
        SeparateFront(storage + [bases[0]], bases[1..]);
        AllocateExtent(bases[0]);
        ptr := AllocateAligned(size, alignment, bases[1..]);
        return;
      }
      var start := current + bytesForAlignment;
      SoundBlock(blocks, storage, position, Block(start, size, alignment));
      blocks := blocks + [Block(start, size, alignment)];
      position := position + bytesForAlignment + size;
      return Some(start);
    }

    function ConsumedMemory(): nat
      reads this
    {
      |storage| * EXTENT_SIZE
    }
  }

  /** A block that leaves room for the worst padding fits any empty extent, so that one
      new extent is always enough; one byte more, and there are places where it does not. */
  lemma {:induction false} OneExtentIsEnough(size: nat, alignment: nat)
    requires 0 < alignment
    ensures (forall base: nat :: Fits(base, size, alignment)) <==> alignment - 1 + size <= 65536
  {
    if alignment - 1 + size > EXTENT_SIZE {
      if alignment == 1 {
        assert !Fits(0, size, alignment);
      } else {
        assert 1 % alignment == 1;
        assert !Fits(1, size, alignment);
      }
    }
  }
}
