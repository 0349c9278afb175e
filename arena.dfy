// Arena: a growable stack of bytes in one block obtained from the memory
// registry. Pushing hands out the next `n` bytes and grows the block to the
// next power of two when it would become full.
module Arenas {
  import opened Common

  /** Memory::Usage::Type, the tag every registered block carries. */
  datatype UsageType = Any

  /** A block as operator new leaves it after allocate_memory's memset. */
  function Zeros(n: nat): (r: seq<byte>)
    ensures |r| == n && forall i :: 0 <= i < n ==> r[i] == 0
  {
    seq(n, _ => 0)
  }

  /** The value of the shift-and-or cascade of push_memory: every bit below the
      highest set bit of `x` is set, so the result is the least 2^k - 1 >= x. */
  function FillLowBits(x: nat): (r: nat)
  {
    if x == 0 then 0 else 2 * FillLowBits(x / 2) + 1
  }

  predicate IsPowerOfTwo(p: nat)
  {
    p == 1 || (p > 1 && p % 2 == 0 && IsPowerOfTwo(p / 2))
  }

  /** The capacity push_memory asks for when `n` more bytes do not fit in a
      block of `capacity` bytes: the cascade over capacity + n, plus one, all in
      unsigned 64-bit arithmetic. */
  function GrownCapacity(capacity: nat, n: nat): (r: u64)
  {
    Wrap64(FillLowBits(Wrap64(capacity + n)) + 1)
  }

  lemma {:induction false} FillLowBitsShape(x: nat)
    ensures IsPowerOfTwo(FillLowBits(x) + 1)
    ensures x <= FillLowBits(x)
    ensures x > 0 ==> FillLowBits(x) < 2 * x
  {
    if x > 0 {
      FillLowBitsShape(x / 2);
    }
  }

  /** The grown capacity is the least power of two strictly above capacity + n
      (for the sizes below 2^63 for which it does not wrap around). */
  lemma GrownCapacityIsNextPowerOfTwo(capacity: nat, n: nat)
    requires capacity + n < 0x8000_0000_0000_0000
    ensures IsPowerOfTwo(GrownCapacity(capacity, n))
    ensures capacity + n < GrownCapacity(capacity, n)
    ensures GrownCapacity(capacity, n) / 2 <= capacity + n
  {
    FillLowBitsShape(capacity + n);
  }

  class Arena {
    /** m_usage.memory is not null. */
    var created: bool
    /** The bytes of the block; its length is m_usage.size, the capacity. */
    var buffer: seq<byte>
    /** m_used: the number of bytes handed out. */
    var used: nat
    /** m_usage.usage. */
    var usage: UsageType

    /** A block exists exactly when the capacity is positive, and a created
        arena always keeps at least one free byte. */
    ghost predicate Valid()
      reads this
    {
      (created <==> |buffer| > 0) && (created ==> used < |buffer|)
    }

    function Capacity(): nat
      reads this
    {
      |buffer|
    }

    /** `Arena() = default`: no block, nothing used. */
    constructor ()
      ensures Valid() && !created && buffer == [] && used == 0
    {
      created, buffer, used, usage := false, [], 0, Any;
    }

    /** `Arena(size, usage)` asserts that create succeeds. */
    constructor Sized(size: nat, kind: UsageType)
      requires size > 0
      ensures Valid() && created && buffer == Zeros(size) && used == 0 && usage == kind
    {
      created, buffer, used, usage := true, Zeros(size), 0, kind;
    }

    /** create(size, usage): refuses size 0, keeps an existing block, and
        otherwise allocates a zero-filled block with nothing used. */
    method Create(size: nat, kind: UsageType) returns (ok: bool)
      requires Valid()
      modifies this
      ensures Valid()
      ensures ok <==> size > 0
      ensures size > 0 && !old(created) ==>
                created && buffer == Zeros(size) && used == 0 && usage == kind
      ensures size == 0 || old(created) ==>
                created == old(created) && buffer == old(buffer) && used == old(used) && usage == old(usage)
    {
      if size == 0 {
        return false;
      }
      if created {
        return true;
      }
      created, buffer, used, usage := true, Zeros(size), 0, kind;
      return true;
    }

    /** destroy: releases the block; only a created arena resets its count. */
    method Destroy()
      requires Valid()
      modifies this
      ensures Valid() && !created && buffer == [] && usage == old(usage)
      ensures used == if old(created) then 0 else old(used)
    {
      if created {
        created, buffer, used := false, [], 0;
      }
    }

    /** push_memory(n): returns the offset of the n bytes handed out. A push that
        would leave no free byte first regrows the block to GrownCapacity; the
        reallocation keeps the old bytes. On an arena without a block the
        reallocation is refused and only the count moves. */
    method PushMemory(n: nat) returns (position: nat)
      requires Valid()
      requires |buffer| + n < 0x8000_0000_0000_0000
      modifies this
      ensures Valid()
      ensures position == old(used) && used == old(used) + n
      ensures created == old(created) && usage == old(usage)
      ensures created && old(used) + n >= old(|buffer|) ==>
                |buffer| == GrownCapacity(old(|buffer|), n) && buffer[..old(|buffer|)] == old(buffer)
      ensures !(created && old(used) + n >= old(|buffer|)) ==> buffer == old(buffer)
    {
      if used + n >= |buffer| {
        var newCapacity := GrownCapacity(|buffer|, n);
        GrownCapacityIsNextPowerOfTwo(|buffer|, n);
        if created {
          // std::realloc keeps the prefix; the new tail is indeterminate and
          // zero is one of its possible values.
          buffer := buffer + Zeros(newCapacity - |buffer|);
        }
      }
      position := used;
      used := used + n;
    }

    /** pop_memory(n) asserts n <= used and gives the last n bytes back. */
    method PopMemory(n: nat)
      requires Valid() && n <= used
      modifies this`used
      ensures Valid() && used == old(used) - n
    {
      used := used - n;
    }

    /** increment_memory(n): grows a created block by exactly n bytes. */
    method IncrementMemory(n: nat)
      requires Valid()
      modifies this`buffer
      ensures Valid() && used == old(used)
      ensures created && n > 0 ==> |buffer| == old(|buffer|) + n && buffer[..old(|buffer|)] == old(buffer)
      ensures !(created && n > 0) ==> buffer == old(buffer)
    {
      if created && n > 0 {
        buffer := buffer + Zeros(n);
      }
    }

    /** reset: everything is free again; the block stays. */
    method Reset()
      requires Valid()
      modifies this`used
      ensures Valid() && used == 0
    {
      used := 0;
    }

    /** A caller writing through a pointer push_memory returned. */
    method Write(position: nat, bytes: seq<byte>)
      requires Valid() && position + |bytes| <= |buffer|
      modifies this`buffer
      ensures Valid()
      ensures buffer == old(buffer)[..position] + bytes + old(buffer)[position + |bytes|..]
    {
      buffer := buffer[..position] + bytes + buffer[position + |bytes|..];
    }

    /** copy_to(other): gives `other` this arena's capacity, bytes and count. A
        copy onto itself, or between two arenas without blocks, does nothing;
        copying an arena without a block only destroys the target. */
    method CopyTo(other: Arena?)
      requires Valid() && (other != null ==> other.Valid())
      modifies other
      ensures Valid()
      ensures other != null ==> other.Valid()
      ensures other == this ==> buffer == old(buffer) && used == old(used) && created == old(created)
      ensures other != null && other != this && created ==>
                other.created && other.buffer == buffer && other.used == used && other.usage == usage
      ensures other != null && other != this && !created ==>
                !other.created && other.buffer == [] &&
                other.used == (if old(other.created) then 0 else old(other.used))
    {
      if other == null {
        return;
      }
      if other == this || (!other.created && !created) {
        return;
      }
      if other.created {
        other.Destroy();
      }
      if !created {
        return;
      }
      var ok := other.Create(|buffer|, usage);
      other.buffer := buffer;
      other.used := used;
    }

    /** The copy constructor: a new arena receiving copy_to. */
    constructor Copy(source: Arena)
      requires source.Valid()
      ensures Valid()
      ensures source.created ==> created && buffer == source.buffer && used == source.used && usage == source.usage
      ensures !source.created ==> !created && buffer == [] && used == 0
    {
      created, buffer, used, usage := false, [], 0, Any;
      new;
      source.CopyTo(this);
    }

    /** The move constructor: takes the block and count; the source keeps none. */
    constructor Move(source: Arena)
      requires source.Valid()
      modifies source
      ensures Valid() && source.Valid()
      ensures created == old(source.created) && buffer == old(source.buffer)
      ensures used == old(source.used) && usage == old(source.usage)
      ensures !source.created && source.buffer == [] && source.used == 0
    {
      created, buffer, used, usage := source.created, source.buffer, source.used, source.usage;
      new;
      source.created, source.buffer, source.used := false, [], 0;
    }

    /** Copy assignment: destroy, then copy_to. Assigning an arena to itself
        therefore leaves it without a block. */
    method CopyAssign(source: Arena)
      requires Valid() && source.Valid()
      modifies this
      ensures Valid()
      ensures source == this ==> !created && buffer == []
      ensures source != this && old(source.created) ==>
                created && buffer == old(source.buffer) && used == old(source.used)
      ensures source != this && !old(source.created) ==> !created && buffer == []
    {
      Destroy();
      source.CopyTo(this);
    }

    /** Move assignment: destroy, take the source's block and count, and leave
        the source without a block. */
    method MoveAssign(source: Arena)
      requires Valid() && source.Valid()
      modifies this, source
      ensures Valid() && source.Valid()
      ensures source != this ==> created == old(source.created) && buffer == old(source.buffer) && used == old(source.used)
      ensures !source.created && source.buffer == [] && source.used == 0
    {
      Destroy();
      created, buffer, used, usage := source.created, source.buffer, source.used, source.usage;
      source.created, source.buffer, source.used := false, [], 0;
    }
  }

  /** push(n) followed by pop(n) gives back the count, and the bytes handed out
      start at the old count. */
  method PushThenPop(a: Arena, n: nat) returns (position: nat)
    requires a.Valid() && a.Capacity() + n < 0x8000_0000_0000_0000
    modifies a
    ensures a.Valid() && a.used == old(a.used) && position == old(a.used)
  {
    position := a.PushMemory(n);
    a.PopMemory(n);
  }
}
