/** The block pool, its free list in the blocks. */
module Pool {
  import opened Common
  import opened Bytes

  const ALIGN: nat := 16

  /** The block size apool_create settles on: room for a link, rounded up to the alignment. */
  function BlockSizeFor(requested: nat): (size: nat)
    ensures size >= ALIGN && size >= requested && size % ALIGN == 0 && (requested >= 8 ==> size < requested + ALIGN)
  {
    var least := if requested < 8 then 8 else requested;
    (least + 15) / ALIGN * ALIGN
  }

  lemma BlocksApart(i: nat, j: nat, size: nat)
    requires i < j
    ensures i * size + size <= j * size
  {
    var d := j - i - 1;
    assert j * size == (i + 1 + d) * size == i * size + size + d * size;
    assert d * size >= 0;
  }

  /** The eight bytes at a place in a buffer, as a pointer. */
  function LinkAt(mem: seq<Byte>, at: nat): (link: nat)
    requires at + 8 <= |mem|
  {
    FromLittle(mem[at..at + 8])
  }

  /** Overwriting one place leaves a link elsewhere as it was. */
  lemma LinkKept(mem: seq<Byte>, at: nat, bytes: seq<Byte>, other: nat)
    requires at + |bytes| <= |mem| && other + 8 <= |mem|
    requires other + 8 <= at || at + |bytes| <= other
    ensures LinkAt(Overwrite(mem, at, bytes), other) == LinkAt(mem, other)
  {
    assert Overwrite(mem, at, bytes)[other..other + 8] == mem[other..other + 8];
  }

  lemma LinkStored(mem: seq<Byte>, at: nat, link: nat)
    requires at + 8 <= |mem| && link < WORD64
    ensures LinkAt(Overwrite(mem, at, Little(link, 8)), at) == link
  {
    LittleReadsBack(link, 8);
    RadixValues();
  }

  /** All indices below n, as a set. */
  ghost function Upto(n: nat): (s: set<nat>)
    ensures forall i: nat :: i in s <==> i < n
    ensures |s| == n
  {
    if n == 0 then {} else Upto(n - 1) + {n - 1}
  }

  /** No index twice. */
  predicate NoRepeats(chain: seq<nat>) {
    forall i, j :: 0 <= i < j < |chain| ==> chain[i] != chain[j]
  }

  /** The free list and the live blocks: different blocks, and all of them. */
  ghost predicate Partition(chain: seq<nat>, live: set<nat>, n: nat) {
    && NoRepeats(chain)
    && (forall k :: 0 <= k < |chain| ==> chain[k] !in live)
    && (forall i: nat :: i < n <==> i in chain || i in live)
  }

  lemma BlockTaken(i: nat, rest: seq<nat>, live: set<nat>, n: nat)
    requires Partition([i] + rest, live, n)
    ensures Partition(rest, live + {i}, n) && i !in rest && i !in live && i < n
    ensures |live + {i}| == |live| + 1
  {
    var chain := [i] + rest;
    assert chain[0] == i && forall k :: 0 <= k < |rest| ==> chain[k + 1] == rest[k];
    assert forall j :: j in chain <==> j == i || j in rest;
  }

  lemma BlockReturned(i: nat, chain: seq<nat>, live: set<nat>, n: nat)
    requires Partition(chain, live, n) && i in live
    ensures Partition([i] + chain, live - {i}, n) && i !in chain && |live - {i}| == |live| - 1
  {
    assert forall j :: j in [i] + chain <==> j == i || j in chain;
  }

  lemma InFront(chain: seq<nat>, live: set<nat>, n: nat, i: nat)
    requires Partition(chain, live, n) && i < n && i !in chain
    ensures i in live && Partition([i] + chain, live - {i}, n) && |live - {i}| == |live| - 1
  {
    BlockReturned(i, chain, live, n);
  }

  /** A free list as long as the number of free blocks. */
  lemma {:induction false} CountFree(chain: seq<nat>, live: set<nat>, n: nat)
    requires Partition(chain, live, n)
    ensures |chain| + |live| == n
  {
    if chain == [] {
      assert live == Upto(n);
    } else {
      var rest := chain[1..];
      assert chain == [chain[0]] + rest;
      BlockTaken(chain[0], rest, live, n);
      CountFree(rest, live + {chain[0]}, n);
    }
  }

  class APool {
    const base: nat
    const blockSize: nat
    const totalBlocks: nat
    const memory: array<Byte>
    var freeList: nat
    var usedBlocks: nat
    var currentAllocated: nat
    var failedAllocations: nat
    /** The free blocks in the order of the list, and the blocks handed out. */
    ghost var chain: seq<nat>
    ghost var live: set<nat>

    /** The bytes of n blocks, which is where block n starts in the pool's memory. */
    function Offset(i: nat): nat {
      i * blockSize
    }

    /** The address of a block; the null pointer is 0. */
    function Address(i: nat): nat {
      base + Offset(i)
    }

    function AddressOrNull(list: seq<nat>): nat {
      if list == [] then 0 else Address(list[0])
    }

    ghost predicate Shape() {
      && blockSize >= ALIGN && blockSize % ALIGN == 0
      && base > 0 && base % ALIGN == 0
      && memory.Length == Offset(totalBlocks)
      && base + memory.Length < WORD64
    }

    /** Each free block's first eight bytes are the address of the next one, or null at the end. */
    ghost predicate Linked(mem: seq<Byte>, list: seq<nat>)
      requires Shape() && |mem| == memory.Length
    {
      forall k :: 0 <= k < |list| ==>
        list[k] < totalBlocks && InBounds(list[k]) && LinkAt(mem, Offset(list[k])) == AddressOrNull(list[k + 1..])
    }

    predicate InBounds(i: nat) {
      Offset(i) + blockSize <= memory.Length
    }

    /** The free list is a chain of different blocks inside the pool; it and the live blocks are the whole pool; the
        counters agree with them. */
    ghost predicate Valid()
      reads this, memory
    {
      Shape() && Consistent(memory[..], freeList, chain, live, usedBlocks, currentAllocated)
    }

    ghost predicate Consistent(mem: seq<Byte>, head: nat, list: seq<nat>, out: set<nat>, used: nat, bytes: nat)
      requires Shape() && |mem| == memory.Length
    {
      && IsList(mem, list, head)
      && Partition(list, out, totalBlocks)
      && used == |out|
      && bytes == Offset(used)
    }

    ghost predicate IsList(mem: seq<Byte>, list: seq<nat>, head: nat)
      requires Shape() && |mem| == memory.Length
    {
      Linked(mem, list) && head == AddressOrNull(list)
    }

    /** The list from a head on comes to an end: there is a finite chain of links to a null one. */
    ghost predicate ListEnds(mem: seq<Byte>, head: nat)
      requires Shape() && |mem| == memory.Length
    {
      exists list :: IsList(mem, list, head)
    }

    lemma Apart(i: nat, j: nat)
      requires i != j
      ensures Offset(i) + blockSize <= Offset(j) || Offset(j) + blockSize <= Offset(i)
    {
      if i < j { BlocksApart(i, j, blockSize); } else { BlocksApart(j, i, blockSize); }
    }

    lemma BlockInBounds(i: nat)
      requires Shape() && i < totalBlocks
      ensures InBounds(i) && Address(i) % ALIGN == 0 && 0 < Address(i) < WORD64
    {
      BlocksApart(i, totalBlocks, blockSize);
      AlignedProduct(i, blockSize);
    }

    /** Writing inside one block keeps the links of a list without it. */
    lemma LinksKept(mem: seq<Byte>, list: seq<nat>, i: nat, at: nat, bytes: seq<Byte>)
      requires Shape() && |mem| == memory.Length && Linked(mem, list)
      requires i < totalBlocks && InBounds(i) && i !in list
      requires Offset(i) <= at && at + |bytes| <= Offset(i) + blockSize
      ensures Linked(Overwrite(mem, at, bytes), list)
    {
      hide Offset, LinkAt, Overwrite;
      forall k | 0 <= k < |list|
        ensures LinkAt(Overwrite(mem, at, bytes), Offset(list[k])) == LinkAt(mem, Offset(list[k]))
      {
        var j := list[k];
        Apart(i, j);
        LinkKept(mem, at, bytes, Offset(j));
      }
    }

    /** A block put at the head of a list, its link written. */
    lemma LinkAdded(mem: seq<Byte>, list: seq<nat>, i: nat)
      requires Shape() && |mem| == memory.Length && Linked(mem, list)
      requires i < totalBlocks && InBounds(i) && i !in list
      ensures Linked(Overwrite(mem, Offset(i), Little(AddressOrNull(list), 8)), [i] + list)
    {
      hide Offset, Little, LinkAt, Overwrite;
      var at, link := Offset(i), AddressOrNull(list);
      if list != [] { BlockInBounds(list[0]); }
      var mem' := Overwrite(mem, at, Little(link, 8));
      LinksKept(mem, list, i, at, Little(link, 8));
      LinkStored(mem, at, link);
      forall k | 0 <= k < |[i] + list|
        ensures ([i] + list)[k] < totalBlocks && InBounds(([i] + list)[k])
        ensures LinkAt(mem', Offset(([i] + list)[k])) == AddressOrNull(([i] + list)[k + 1..])
      {
        if k == 0 {
          assert ([i] + list)[1..] == list;
        } else {
          assert ([i] + list)[k + 1..] == list[k..];
        }
      }
    }

    /** Puts a block at the head of the free list. */
    method PushFree(i: nat)
      requires Shape() && Linked(memory[..], chain) && freeList == AddressOrNull(chain)
      requires i < totalBlocks && i !in chain
      modifies this`freeList, this`chain, memory
      ensures Linked(memory[..], chain) && freeList == AddressOrNull(chain) && chain == [i] + old(chain)
      ensures forall m :: 0 <= m < Offset(i) || Offset(i) + 8 <= m < memory.Length ==> memory[m] == old(memory[m])
    {
      BlockInBounds(i);
      LinkAdded(memory[..], chain, i);
      StoreBytes(memory, Offset(i), Little(freeList, 8));
      freeList := Address(i);
      chain := [i] + chain;
    }

    /** The loop that apool_create and apool_reset share: every block goes onto the list, the last one first. */
    method BuildFreeList()
      requires Shape()
      modifies this`freeList, this`chain, memory
      ensures Linked(memory[..], chain) && freeList == AddressOrNull(chain)
      ensures |chain| == totalBlocks && forall k :: 0 <= k < totalBlocks ==> chain[k] == totalBlocks - 1 - k
    {
      freeList, chain := 0, [];
      var i := 0;
      while i < totalBlocks
        invariant 0 <= i <= totalBlocks
        invariant Linked(memory[..], chain) && freeList == AddressOrNull(chain)
        invariant |chain| == i && forall k :: 0 <= k < i ==> chain[k] == i - 1 - k
      {
        PushFree(i);
        i := i + 1;
      }
    }

    /** apool_create, on memory the arena has given at an aligned address. */
    constructor (address: nat, requestedSize: nat, numBlocks: nat)
      requires address > 0 && address % ALIGN == 0
      requires address + numBlocks * BlockSizeFor(requestedSize) < WORD64
      ensures Valid() && live == {} && fresh(memory)
      ensures base == address && blockSize == BlockSizeFor(requestedSize) && totalBlocks == numBlocks
    {
      base, blockSize, totalBlocks := address, BlockSizeFor(requestedSize), numBlocks;
      memory := new Byte[numBlocks * BlockSizeFor(requestedSize)](_ => 0);
      freeList, usedBlocks, currentAllocated, failedAllocations := 0, 0, 0, 0;
      chain, live := [], {};
      new;
      hide Offset, LinkAt, Linked, BlockSizeFor;
      BuildFreeList();
      AllThere(chain, totalBlocks);
      OffsetZero();
    }

    /** apool_alloc: the head of the free list, cleared, or null when there is none. */
    method Alloc() returns (ptr: nat)
      requires Valid()
      modifies this, memory
      ensures Valid()
      ensures old(chain) == [] <==> ptr == 0
      ensures ptr == 0 ==> live == old(live) && chain == old(chain) && memory[..] == old(memory[..])
      ensures ptr != 0 ==> var i := old(chain)[0];
                           && ptr == Address(i) && i !in old(live) && live == old(live) + {i} && chain == old(chain)[1..]
                           && InBounds(i) && ptr % ALIGN == 0
                           && memory[..] == Overwrite(old(memory[..]), Offset(i), Zeros(blockSize))
    {
      HeadIsNull();
      if freeList == 0 {
        failedAllocations := failedAllocations + 1;
        ptr := 0;
      } else {
        ptr := TakeHead();
      }
    }

    lemma HeadIsNull()
      requires Valid()
      ensures freeList == 0 <==> chain == []
    {
      hide Offset;
      if chain != [] { BlockInBounds(chain[0]); }
    }

    /** The head of a free list that is not empty. */
    method TakeHead() returns (ptr: nat)
      requires Valid() && chain != []
      modifies this, memory
      ensures Valid() && failedAllocations == old(failedAllocations)
      ensures var i := old(chain)[0];
              && ptr == Address(i) && ptr > 0 && i !in old(live) && live == old(live) + {i} && chain == old(chain)[1..]
              && InBounds(i) && ptr % ALIGN == 0
              && memory[..] == Overwrite(old(memory[..]), Offset(i), Zeros(blockSize))
    {
      hide Offset, LinkAt, Overwrite, Linked, Partition, Zeros;
      ghost var i, rest := chain[0], chain[1..];
      assert chain == [i] + rest;
      BlockTaken(i, rest, live, totalBlocks);
      BlockInBounds(i);
      TailLinked(memory[..], i, rest);
      LinksKept(memory[..], rest, i, Offset(i), Zeros(blockSize));
      OneMoreBlock(usedBlocks);
      ptr := freeList;
      freeList := LinkAt(memory[..], ptr - base);
      usedBlocks := usedBlocks + 1;
      currentAllocated := currentAllocated + blockSize;
      StoreBytes(memory, ptr - base, Zeros(blockSize));
      chain, live := rest, live + {i};
    }

    lemma TailLinked(mem: seq<Byte>, i: nat, rest: seq<nat>)
      requires Shape() && |mem| == memory.Length && Linked(mem, [i] + rest)
      ensures Linked(mem, rest) && InBounds(i) && LinkAt(mem, Offset(i)) == AddressOrNull(rest)
    {
      hide Offset, LinkAt;
      assert ([i] + rest)[1..] == rest && ([i] + rest)[0] == i;
      forall k | 0 <= k < |rest|
        ensures rest[k] < totalBlocks && InBounds(rest[k])
        ensures LinkAt(mem, Offset(rest[k])) == AddressOrNull(rest[k + 1..])
      {
        assert ([i] + rest)[k + 1] == rest[k] && ([i] + rest)[k + 2..] == rest[k + 1..];
      }
    }

    /** The test apool_free makes of a pointer. */
    predicate Accepts(ptr: nat) {
      ptr != 0 && blockSize > 0 && base <= ptr < base + Offset(totalBlocks) && (ptr - base) % blockSize == 0
    }

    /** The block a pointer is in. */
    function BlockAt(ptr: nat): nat {
      if blockSize > 0 && ptr >= base then (ptr - base) / blockSize else 0
    }

    /** A pointer to a block that is free already. */
    ghost predicate FreedBefore(ptr: nat)
      reads this
    {
      Accepts(ptr) && BlockAt(ptr) in chain
    }

    /** The pool's memory with a block linked in front of the free list. */
    function Linking(mem: seq<Byte>, i: nat, head: nat): (mem': seq<Byte>)
      requires InBounds(i) && blockSize >= 8 && |mem| == memory.Length
      ensures |mem'| == |mem|
    {
      Overwrite(mem, Offset(i), Little(head, 8))
    }

    function Decreased(n: nat, d: nat): nat
      requires d < WORD64
    {
      if n < d then n + WORD64 - d else n - d
    }

    /** apool_free. A block that is free already is put at the head once more, and the list then never ends. */
    method Free(ptr: nat)
      requires Valid()
      modifies this, memory
      ensures !old(FreedBefore(ptr)) ==> Valid()
      ensures Shape() && (ListEnds(memory[..], freeList) <==> !old(FreedBefore(ptr)))
      ensures !Accepts(ptr) ==> live == old(live) && chain == old(chain) && memory[..] == old(memory[..])
      ensures Accepts(ptr) ==>
                var i := BlockAt(ptr);
                && ptr == Address(i) && InBounds(i) && freeList == ptr
                && memory[..] == Linking(old(memory[..]), i, old(freeList))
                && usedBlocks == Decreased(old(usedBlocks), 1)
                && (if old(FreedBefore(ptr)) then live == old(live) && chain == old(chain)
                    else live == old(live) - {i} && chain == [i] + old(chain))
    {
      hide Offset, LinkAt, Consistent, ListEnds, Overwrite, Little, Accepts, BlockAt;
      ListIs();
      if !Accepts(ptr) {
        return;
      }
      BlockOf(ptr);
      var i := BlockAt(ptr);
      BlockInBounds(i);
      if i in chain {
        RingClosed(i);
      } else {
        GoesInFront(i);
        chain, live := [i] + chain, live - {i};
      }
      StoreBytes(memory, Offset(i), Little(freeList, 8));
      freeList := ptr;
      usedBlocks := Decreased(usedBlocks, 1);
      currentAllocated := Decreased(currentAllocated, blockSize);
    }

    /** The pointers it accepts are those of the pool's blocks. */
    lemma AcceptsBlocks(ptr: nat)
      requires Shape()
      ensures Accepts(ptr) <==> exists i :: 0 <= i < totalBlocks && ptr == Address(i)
    {
      if Accepts(ptr) { BlockOf(ptr); }
      if i :| 0 <= i < totalBlocks && ptr == Address(i) {
        BlocksApart(i, totalBlocks, blockSize);
        Uniquely(i * blockSize, blockSize, i, 0);
      }
    }

    lemma ListIs()
      requires Valid()
      ensures ListEnds(memory[..], freeList) && (totalBlocks > 0 ==> blockSize < WORD64)
    {
      assert IsList(memory[..], chain, freeList);
      if totalBlocks > 0 { OneBlockFits(); }
    }

    lemma OneBlockFits()
      requires Shape() && totalBlocks > 0
      ensures blockSize < WORD64
    {
      BlockInBounds(0);
    }

    /** A live block can go in front of the free list. */
    lemma GoesInFront(i: nat)
      requires Valid() && i < totalBlocks && i !in chain
      ensures InBounds(i) && blockSize < WORD64
      ensures var mem := Linking(memory[..], i, freeList);
              && Consistent(mem, Address(i), [i] + chain, live - {i},
                            Decreased(usedBlocks, 1), Decreased(currentAllocated, blockSize))
              && ListEnds(mem, Address(i))
    {
      hide Offset, LinkAt, Overwrite, Little, Linked, Partition;
      OneBlockFits();
      BlockInBounds(i);
      InFront(chain, live, totalBlocks, i);
      LinkAdded(memory[..], chain, i);
      LastBlockOff();
      assert IsList(Linking(memory[..], i, freeList), [i] + chain, Address(i));
    }

    lemma LastBlockOff()
      requires Valid() && live != {}
      ensures usedBlocks > 0 && currentAllocated >= blockSize && currentAllocated - blockSize == Offset(usedBlocks - 1)
    {
      hide Linked, Partition;
      OneMoreBlock(usedBlocks - 1);
    }

    function NextIn(k: nat, p: nat): nat {
      if k < p then k + 1 else 0
    }

    /** Links that lead from each of the first blocks of a list to the next, and from the p-th back to the first. */
    ghost predicate Ring(mem: seq<Byte>, list: seq<nat>, p: nat)
      requires Shape() && |mem| == memory.Length
    {
      p < |list|
      && forall k :: 0 <= k <= p ==> Leads(mem, list[k], list[NextIn(k, p)])
    }

    /** A block's link is the address of another one. */
    ghost predicate Leads(mem: seq<Byte>, i: nat, j: nat)
      requires Shape() && |mem| == memory.Length
    {
      i < totalBlocks && InBounds(i) && LinkAt(mem, Offset(i)) == Address(j)
    }

    /** Linking a block of the free list in front of it closes a ring. */
    lemma RingClosed(i: nat)
      requires Valid() && i in chain
      ensures InBounds(i) && !ListEnds(Linking(memory[..], i, freeList), Address(i))
    {
      hide Offset, LinkAt, Overwrite, Little;
      var p :| 0 <= p < |chain| && chain[p] == i;
      BlockInBounds(i);
      var mem' := Linking(memory[..], i, freeList);
      BlockInBounds(chain[0]);
      LinkStored(memory[..], Offset(i), freeList);
      forall k | 0 <= k <= p ensures Leads(mem', chain[k], chain[NextIn(k, p)]) {
        if k < p {
          Apart(i, chain[k]);
          LinkKept(memory[..], Offset(i), Little(freeList, 8), Offset(chain[k]));
          assert chain[k + 1..][0] == chain[k + 1];
        }
      }
      forall l ensures !IsList(mem', l, Address(i)) {
        if Linked(mem', l) { NoListAround(mem', chain, p, l, p); }
      }
    }

    /** A list that entered a ring would go around it for ever. */
    lemma {:induction false} NoListAround(mem: seq<Byte>, ring: seq<nat>, p: nat, list: seq<nat>, k: nat)
      requires Shape() && |mem| == memory.Length && Ring(mem, ring, p) && Linked(mem, list) && k <= p
      ensures AddressOrNull(list) != Address(ring[k])
      decreases |list|
    {
      hide Offset, LinkAt;
      assert Leads(mem, ring[k], ring[NextIn(k, p)]);
      BlockInBounds(ring[k]);
      if list != [] && Address(list[0]) == Address(ring[k]) {
        if list[0] != ring[k] { Apart(list[0], ring[k]); }
        var rest := list[1..];
        assert list == [list[0]] + rest;
        TailLinked(mem, list[0], rest);
        assert Leads(mem, ring[k], ring[NextIn(k, p)]);
        NoListAround(mem, ring, p, rest, NextIn(k, p));
      }
    }

    lemma OffsetZero()
      ensures Offset(0) == 0
    {
    }

    lemma OneMoreBlock(n: nat)
      ensures Offset(n + 1) == Offset(n) + blockSize
    {
    }

    /** A pointer that passes the range and alignment tests is a block's address. */
    lemma BlockOf(ptr: nat)
      requires Shape() && Accepts(ptr)
      ensures BlockAt(ptr) < totalBlocks && ptr == Address(BlockAt(ptr))
    {
      var i := BlockAt(ptr);
      assert ptr - base == i * blockSize;
      assert i >= totalBlocks ==> (i - totalBlocks) * blockSize >= 0;
    }

    /** apool_reset: everything is free again. */
    method Reset()
      requires Valid()
      modifies this, memory
      ensures Valid() && live == {} && |chain| == totalBlocks
    {
      hide Offset, LinkAt, Linked;
      BuildFreeList();
      AllThere(chain, totalBlocks);
      OffsetZero();
      usedBlocks, currentAllocated, live := 0, 0, {};
    }

    /** A caller writing inside a block it holds. */
    method ClientWrite(i: nat, offset: nat, bytes: seq<Byte>)
      requires Valid() && i in live && offset + |bytes| <= blockSize
      modifies memory
      ensures Valid() && InBounds(i) && memory[..] == Overwrite(old(memory[..]), Offset(i) + offset, bytes)
    {
      BlockInBounds(i);
      LinksKept(memory[..], chain, i, Offset(i) + offset, bytes);
      StoreBytes(memory, Offset(i) + offset, bytes);
    }

    /** Used and free blocks add up, as apool_available_blocks reports them. */
    lemma Conserved()
      requires Valid()
      ensures usedBlocks + |chain| == totalBlocks && usedBlocks <= totalBlocks
    {
      CountFree(chain, live, totalBlocks);
    }
  }

  lemma AllThere(chain: seq<nat>, n: nat)
    requires |chain| == n && forall k :: 0 <= k < n ==> chain[k] == n - 1 - k
    ensures Partition(chain, {}, n)
  {
    forall i: nat | i < n ensures i in chain {
      assert chain[n - 1 - i] == i;
    }
  }

  function Zeros(n: nat): (z: seq<Byte>)
    ensures |z| == n && forall k :: 0 <= k < n ==> z[k] == 0
  {
    seq(n, _ => 0)
  }

  lemma AlignedProduct(i: nat, size: nat)
    requires size % ALIGN == 0
    ensures i * size % ALIGN == 0
  {
    assert i * size == ALIGN * (i * (size / ALIGN));
  }
}
