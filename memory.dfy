// The memory registry: every block the engine allocates is registered under
// its address with its size and usage tag, so that leaks can be reported at
// shutdown and, in debug builds, the total number of bytes in use is known.
// Addresses are abstract: the allocator's choice of a new address is a
// parameter, and address 0 is the null pointer.
module MemoryRegistry {
  import opened Common
  import opened Arenas

  type Address = nat

  /** A pointer: null, or `offset` bytes into the block registered at `block`. */
  datatype Pointer = Null | At(block: Address, offset: nat)

  /** The registry entry of a block. */
  datatype Usage = Usage(kind: UsageType, size: nat)

  /** Memory::Usage: the tag, size and memory pointer that arenas hold. */
  datatype UsageRecord = UsageRecord(kind: UsageType, size: nat, memory: Pointer)

  /** The sum of the sizes of the registered blocks. */
  ghost function Total(m: map<Address, Usage>): nat
    decreases |m|
  {
    if m == map[] then 0
    else
      assert exists a :: a in m by { var a :| a in m.Keys; }
      var a :| a in m;
      m[a].size + Total(m - {a})
  }

  /** The total does not depend on which block is counted first. */
  lemma {:induction false} TotalRemove(m: map<Address, Usage>, a: Address)
    requires a in m
    ensures Total(m) == m[a].size + Total(m - {a})
    decreases |m|
  {
    var b :| b in m && Total(m) == m[b].size + Total(m - {b});
    if b != a {
      TotalRemove(m - {b}, a);
      TotalRemove(m - {a}, b);
      assert m - {b} - {a} == m - {a} - {b};
    }
  }

  /** Registering, or re-registering, one block changes the total by exactly
      that block's size. */
  lemma TotalUpdate(m: map<Address, Usage>, a: Address, u: Usage)
    ensures Total(m[a := u]) == u.size + Total(m - {a})
    ensures a in m ==> Total(m[a := u]) == Total(m) - m[a].size + u.size
  {
    TotalRemove(m[a := u], a);
    assert m[a := u] - {a} == m - {a};
    if a in m {
      TotalRemove(m, a);
    }
  }

  /** The bytes of `block` with `bytes` copied in at `offset`. */
  function Overwrite(block: seq<byte>, offset: nat, bytes: seq<byte>): (r: seq<byte>)
    requires offset + |bytes| <= |block|
    ensures |r| == |block| && r[offset..offset + |bytes|] == bytes
    ensures r[..offset] == block[..offset] && r[offset + |bytes|..] == block[offset + |bytes|..]
  {
    block[..offset] + bytes + block[offset + |bytes|..]
  }

  class MemorySystem {
    /** usages: address -> registration. */
    var usages: map<Address, Usage>
    /** The bytes of every registered block. */
    var contents: map<Address, seq<byte>>
    /** total_memory_used (debug builds). */
    var totalUsed: int

    /** Every registered block is non-null and has its bytes. */
    ghost predicate Valid()
      reads this
    {
      0 !in usages && usages.Keys == contents.Keys &&
      forall a :: a in usages ==> |contents[a]| == usages[a].size
    }

    /** The debug counter agrees with the registrations. */
    ghost predicate CountersAgree()
      reads this
    {
      totalUsed == Total(usages)
    }

    /** `p` points into a registered block with `n` bytes available after it. */
    predicate InBlock(p: Pointer, n: nat)
      reads this
    {
      p.At? && p.block in usages && p.block in contents && p.offset + n <= |contents[p.block]|
    }

    /** A result std::realloc or operator new may give for `old`: a new
        registration-free address or the old one. */
    predicate AllocatorResult(r: Pointer, previous: Address)
      reads this
    {
      r.At? && r.offset == 0 && r.block != 0 && (r.block == previous || r.block !in usages)
    }

    /** initialize_memory_system: nothing registered, nothing used. */
    constructor Initialize()
      ensures Valid() && CountersAgree() && usages == map[] && totalUsed == 0
    {
      usages, contents, totalUsed := map[], map[], 0;
    }

    /** shutdown_memory_system reports success exactly when no block is still
        registered. */
    method Shutdown() returns (ok: bool)
      requires Valid()
      ensures ok <==> usages == map[]
    {
      ok := |usages| == 0;
    }

    /** has_memory. */
    function HasMemory(p: Pointer): (b: bool)
      reads this
      ensures b <==> p.At? && p.offset == 0 && p.block in usages
    {
      p.At? && p.offset == 0 && p.block in usages
    }

    /** get_usage asserts that the block is registered. */
    function GetUsage(p: Pointer): (u: UsageRecord)
      reads this
      requires HasMemory(p)
      ensures u.memory == p && u.kind == usages[p.block].kind && u.size == usages[p.block].size
    {
      UsageRecord(usages[p.block].kind, usages[p.block].size, p)
    }

    /** allocate_memory(size, kind): registers a newAddress zero-filled block of
        `size` bytes at the address operator new returned. */
    method AllocateMemory(size: nat, kind: UsageType, newAddress: Address) returns (p: Pointer)
      requires Valid() && newAddress != 0 && newAddress !in usages
      modifies this
      ensures Valid() && CountersAgree() == old(CountersAgree())
      ensures p == At(newAddress, 0) && HasMemory(p)
      ensures usages == old(usages)[newAddress := Usage(kind, size)]
      ensures contents == old(contents)[newAddress := Zeros(size)]
      ensures totalUsed == old(totalUsed) + size
    {
      TotalUpdate(usages, newAddress, Usage(kind, size));
      assert usages - {newAddress} == usages;
      usages := usages[newAddress := Usage(kind, size)];
      contents := contents[newAddress := Zeros(size)];
      totalUsed := totalUsed + size;
      p := At(newAddress, 0);
    }

    /** deallocate_memory(p): a null pointer only warns; otherwise the block
        must be registered (asserted) and is unregistered. */
    method DeallocateMemory(p: Pointer)
      requires Valid() && (p.At? ==> HasMemory(p))
      modifies this
      ensures Valid() && CountersAgree() == old(CountersAgree())
      ensures p.Null? ==> usages == old(usages) && contents == old(contents) && totalUsed == old(totalUsed)
      ensures p.At? ==> usages == old(usages) - {p.block} && contents == old(contents) - {p.block}
      ensures p.At? ==> totalUsed == old(totalUsed) - old(usages)[p.block].size && !HasMemory(p)
    {
      if p.Null? {
        return;
      }
      TotalRemove(usages, p.block);
      totalUsed := totalUsed - usages[p.block].size;
      usages := usages - {p.block};
      contents := contents - {p.block};
    }

    /** reallocate_memory(p, newSize), as written. `outcome` is what std::realloc
        returns (Null when it fails). A null block or size 0 gives Null and
        changes nothing; the same size gives the block back unchanged.
        Otherwise the debug counter moves by the size difference BEFORE the
        call can fail, and only a successful call re-registers the block. */
    method ReallocateMemory(p: Pointer, newSize: nat, outcome: Pointer) returns (r: Pointer)
      requires Valid()
      requires p.At? && newSize > 0 ==> HasMemory(p)
      requires outcome.Null? || (p.At? && AllocatorResult(outcome, p.block))
      modifies this
      ensures Valid()
      ensures p.Null? || newSize == 0 ==> r.Null? && unchanged(this)
      ensures p.At? && newSize > 0 && newSize == old(usages)[p.block].size ==> r == p && unchanged(this)
      ensures p.At? && newSize > 0 && newSize != old(usages)[p.block].size ==>
                totalUsed == old(totalUsed) + newSize - old(usages)[p.block].size
      ensures p.At? && newSize > 0 && newSize != old(usages)[p.block].size && outcome.Null? ==>
                r.Null? && usages == old(usages) && contents == old(contents)
      ensures p.At? && newSize > 0 && newSize != old(usages)[p.block].size && outcome.At? ==>
                r == outcome && Reregistered(old(usages), old(contents), p.block, outcome.block, newSize)
    {
      if p.Null? || newSize == 0 {
        return Null;
      }
      var usage := usages[p.block];
      if newSize == usage.size {
        return p;
      }
      totalUsed := totalUsed + newSize - usage.size;
      if outcome.Null? {
        return Null;
      }
      Reregister(p.block, outcome.block, newSize);
      r := outcome;
    }

    /** reallocate_memory with the debug counter moved only once std::realloc
        has succeeded: the counter then always agrees with the registrations. */
    method ReallocateMemoryCorrected(p: Pointer, newSize: nat, outcome: Pointer) returns (r: Pointer)
      requires Valid() && CountersAgree()
      requires p.At? && newSize > 0 ==> HasMemory(p)
      requires outcome.Null? || (p.At? && AllocatorResult(outcome, p.block))
      modifies this
      ensures Valid() && CountersAgree()
      ensures p.Null? || newSize == 0 ==> r.Null? && unchanged(this)
      ensures p.At? && newSize > 0 && newSize == old(usages)[p.block].size ==> r == p && unchanged(this)
      ensures p.At? && newSize > 0 && newSize != old(usages)[p.block].size && outcome.Null? ==>
                r.Null? && unchanged(this)
      ensures p.At? && newSize > 0 && newSize != old(usages)[p.block].size && outcome.At? ==>
                r == outcome && Reregistered(old(usages), old(contents), p.block, outcome.block, newSize)
    {
      if p.Null? || newSize == 0 {
        return Null;
      }
      var usage := usages[p.block];
      if newSize == usage.size || outcome.Null? {
        return if newSize == usage.size then p else Null;
      }
      TotalRemove(usages, p.block);
      TotalUpdate(usages - {p.block}, outcome.block, Usage(usage.kind, newSize));
      assert usages - {p.block} - {outcome.block} == usages - {p.block};
      Reregister(p.block, outcome.block, newSize);
      totalUsed := totalUsed + newSize - usage.size;
      r := outcome;
    }

    /** The registrations after a successful realloc of `from` to `to`: the old
        entry is erased and the new address holds the old tag, the new size and
        the old bytes up to the smaller size. */
    ghost predicate Reregistered(oldUsages: map<Address, Usage>, oldContents: map<Address, seq<byte>>,
                                 from: Address, to: Address, newSize: nat)
      reads this
      requires from in oldUsages && from in oldContents
    {
      var keep := if newSize < |oldContents[from]| then newSize else |oldContents[from]|;
      usages == (oldUsages - {from})[to := Usage(oldUsages[from].kind, newSize)] &&
      to in contents && |contents[to]| == newSize &&
      contents[to][..keep] == oldContents[from][..keep] &&
      contents - {to} == oldContents - {from} - {to}
    }

    method Reregister(from: Address, to: Address, newSize: nat)
      requires Valid() && from in usages && to != 0 && (to == from || to !in usages)
      modifies this`usages, this`contents
      ensures Valid()
      ensures Reregistered(old(usages), old(contents), from, to, newSize)
    {
      var bytes := contents[from];
      var moved := if newSize < |bytes| then bytes[..newSize] else bytes + Zeros(newSize - |bytes|);
      usages := (usages - {from})[to := Usage(usages[from].kind, newSize)];
      contents := (contents - {from})[to := moved];
    }

    /** copy_memory(dst, src, n): null pointers or n = 0 give Null and copy
        nothing; otherwise n bytes are copied and dst is returned. */
    method CopyMemory(dst: Pointer, src: Pointer, n: nat) returns (r: Pointer)
      requires Valid()
      requires dst.At? && src.At? && n > 0 ==> InBlock(dst, n) && InBlock(src, n)
      modifies this`contents
      ensures Valid() && usages == old(usages)
      ensures dst.Null? || src.Null? || n == 0 ==> r.Null? && contents == old(contents)
      ensures dst.At? && src.At? && n > 0 ==>
                r == dst &&
                contents == old(contents)[dst.block :=
                  Overwrite(old(contents)[dst.block], dst.offset, old(contents)[src.block][src.offset..src.offset + n])]
    {
      if dst.Null? || src.Null? || n == 0 {
        return Null;
      }
      var bytes := contents[src.block][src.offset..src.offset + n];
      contents := contents[dst.block := Overwrite(contents[dst.block], dst.offset, bytes)];
      r := dst;
    }

    /** set_memory(p, value, n): a null pointer gives Null; otherwise n bytes
        are set to `value` converted to unsigned char. */
    method SetMemory(p: Pointer, value: i32, n: nat) returns (r: Pointer)
      requires Valid() && (p.At? ==> InBlock(p, n))
      modifies this`contents
      ensures Valid() && usages == old(usages)
      ensures p.Null? ==> r.Null? && contents == old(contents)
      ensures p.At? ==> r == p && contents == old(contents)[p.block :=
                Overwrite(old(contents)[p.block], p.offset, seq(n, _ => value % U8_LIMIT))]
    {
      if p.Null? {
        return Null;
      }
      contents := contents[p.block := Overwrite(contents[p.block], p.offset, seq(n, _ => value % U8_LIMIT))];
      r := p;
    }

    /** allocate_usage: allocate_memory, returned as a Usage. */
    method AllocateUsage(size: nat, kind: UsageType, newAddress: Address) returns (u: UsageRecord)
      requires Valid() && newAddress != 0 && newAddress !in usages
      modifies this
      ensures Valid() && CountersAgree() == old(CountersAgree())
      ensures u == UsageRecord(kind, size, At(newAddress, 0)) && HasMemory(u.memory)
      ensures usages == old(usages)[newAddress := Usage(kind, size)]
    {
      var p := AllocateMemory(size, kind, newAddress);
      u := GetUsage(p);
    }

    /** deallocate_usage: deallocate_memory, then the Usage has no memory and
        size 0. */
    method DeallocateUsage(u: UsageRecord) returns (v: UsageRecord)
      requires Valid() && (u.memory.At? ==> HasMemory(u.memory))
      modifies this
      ensures Valid() && CountersAgree() == old(CountersAgree())
      ensures v == u.(memory := Null, size := 0)
      ensures u.memory.At? ==> usages == old(usages) - {u.memory.block}
      ensures u.memory.Null? ==> usages == old(usages)
    {
      DeallocateMemory(u.memory);
      v := u.(memory := Null, size := 0);
    }

    /** reallocate_usage: reallocate_memory as written, and the Usage takes the
        new memory and size only when that returned a block. A refused
        reallocation still moves the debug counter, as reallocate_memory does. */
    method ReallocateUsage(u: UsageRecord, newSize: nat, outcome: Pointer) returns (v: UsageRecord)
      requires Valid()
      requires u.memory.At? && newSize > 0 ==> HasMemory(u.memory)
      requires outcome.Null? || (u.memory.At? && AllocatorResult(outcome, u.memory.block))
      modifies this
      ensures Valid()
      ensures v.kind == u.kind
      ensures v == (if u.memory.At? && newSize > 0 && (newSize == old(usages)[u.memory.block].size || outcome.At?)
                    then u.(memory := (if newSize == old(usages)[u.memory.block].size then u.memory else outcome), size := newSize)
                    else u)
      ensures u.memory.Null? || newSize == 0 || newSize == old(usages)[u.memory.block].size ==> unchanged(this)
      ensures u.memory.At? && newSize > 0 && newSize != old(usages)[u.memory.block].size ==>
                totalUsed == old(totalUsed) + newSize - old(usages)[u.memory.block].size
      ensures u.memory.At? && newSize > 0 && newSize != old(usages)[u.memory.block].size && outcome.Null? ==>
                usages == old(usages) && contents == old(contents)
      ensures u.memory.At? && newSize > 0 && newSize != old(usages)[u.memory.block].size && outcome.At? ==>
                Reregistered(old(usages), old(contents), u.memory.block, outcome.block, newSize)
    {
      var r := ReallocateMemory(u.memory, newSize, outcome);
      if r.At? {
        v := u.(memory := r, size := newSize);
      } else {
        v := u;
      }
    }

    /** copy_usage: copy_memory between the two usages' blocks; the
        destination Usage is returned as it was. */
    method CopyUsage(dest: UsageRecord, src: UsageRecord, n: nat) returns (v: UsageRecord)
      requires Valid()
      requires dest.memory.At? && src.memory.At? && n > 0 ==> InBlock(dest.memory, n) && InBlock(src.memory, n)
      modifies this`contents
      ensures Valid() && usages == old(usages) && v == dest
      ensures dest.memory.Null? || src.memory.Null? || n == 0 ==> contents == old(contents)
      ensures dest.memory.At? && src.memory.At? && n > 0 ==>
                contents == old(contents)[dest.memory.block :=
                  Overwrite(old(contents)[dest.memory.block], dest.memory.offset,
                            old(contents)[src.memory.block][src.memory.offset..src.memory.offset + n])]
      ensures dest.memory.At? && src.memory.At? && n > 0 ==>
                contents[dest.memory.block][dest.memory.offset..dest.memory.offset + n] ==
                old(contents)[src.memory.block][src.memory.offset..src.memory.offset + n]
    {
      var r := CopyMemory(dest.memory, src.memory, n);
      v := if r.At? then dest.(memory := r) else dest;
    }

    /** set_usage_memory: set_memory on the Usage's block. */
    method SetUsageMemory(u: UsageRecord, value: i32, n: nat) returns (v: UsageRecord)
      requires Valid() && (u.memory.At? ==> InBlock(u.memory, n))
      modifies this`contents
      ensures Valid() && usages == old(usages) && v == u
      ensures u.memory.Null? ==> contents == old(contents)
      ensures u.memory.At? ==> contents == old(contents)[u.memory.block :=
                Overwrite(old(contents)[u.memory.block], u.memory.offset, seq(n, _ => value % U8_LIMIT))]
      ensures u.memory.At? ==> contents[u.memory.block][u.memory.offset..u.memory.offset + n] ==
                               seq(n, _ => value % U8_LIMIT)
    {
      var _ := SetMemory(u.memory, value, n);
      v := u;
    }
  }

  /** As written: a reallocation that std::realloc refuses still moves the debug
      counter, which then no longer equals the registered total. */
  method FailedReallocationSkewsCounter() returns (total: int, blocks: map<Address, Usage>)
    ensures blocks == map[1 := Usage(Any, 32)] && total == 48
  {
    var system := new MemorySystem.Initialize();
    var p := system.AllocateMemory(32, Any, 1);
    var r := system.ReallocateMemory(p, 48, Null);
    total, blocks := system.totalUsed, system.usages;
  }
}
