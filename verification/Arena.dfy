/** The arena, its regions and subregions at work. */
module Arena {
  import opened Common
  import opened Bytes
  import opened ArenaLayout
  import opened Masks
  import opened Regions

  const CANARY: nat := 0xDEADC0DE
  const GUARD_WORD: nat := 0xCCCC_CCCC_CCCC_CCCC
  /** How far past the capacity the end of the arena can come. */
  const SLACK: nat := 2 * (ALIGN - 1)

  function Field(mem: seq<Byte>, at: nat, n: nat): nat
    requires at + n <= |mem|
  {
    FromLittle(mem[at..at + n])
  }

  /** The header and the guard of an arena block are as they were written. */
  ghost predicate Intact(mem: seq<Byte>, b: Block)
    requires BlockOk(b) && b.tagged && b.hi <= |mem|
  {
    && Field(mem, b.lo, 8) == b.len
    && Field(mem, b.lo + 8, 4) == CANARY
    && Field(mem, b.hi - GUARD, 8) == GUARD_WORD
  }

  /** Where a check looks for the guard. */
  function GuardAt(mem: seq<Byte>, ptr: nat): nat
    requires HEADER <= ptr <= |mem|
  {
    ptr + RoundUp(Field(mem, ptr - HEADER, 8), ALIGN)
  }

  /** The canary in front of a pointer and the guard behind what it points to are in place. */
  predicate Passes(mem: seq<Byte>, ptr: nat)
    requires HEADER <= ptr <= |mem|
  {
    Field(mem, ptr - 8, 4) == CANARY
    && GuardAt(mem, ptr) + GUARD <= |mem| && Field(mem, GuardAt(mem, ptr), GUARD) == GUARD_WORD
  }

  /** As long as a block's size is readable, the check passes if and only if its canary and guard are intact. */
  lemma PassesIntact(mem: seq<Byte>, b: Block)
    requires BlockOk(b) && b.tagged && b.hi <= |mem| && Field(mem, b.lo, 8) == b.len
    ensures Passes(mem, b.data) <==> Intact(mem, b)
  {
    hide RoundUp;
  }

  /** So a write into the canary or the guard of an intact block that changes any byte there is found. */
  lemma DamageFound(mem: seq<Byte>, b: Block, mem': seq<Byte>)
    requires BlockOk(b) && b.tagged && b.hi <= |mem| == |mem'| && Intact(mem, b)
    requires mem'[b.lo..b.lo + 8] == mem[b.lo..b.lo + 8]
    ensures Passes(mem', b.data) <==>
              mem'[b.lo + 8..b.lo + 12] == mem[b.lo + 8..b.lo + 12] && mem'[b.hi - GUARD..b.hi] == mem[b.hi - GUARD..b.hi]
  {
    PassesIntact(mem', b);
    hide RoundUp, Passes;
    if Intact(mem', b) {
      SameNumber(mem'[b.lo + 8..b.lo + 12], mem[b.lo + 8..b.lo + 12]);
      SameNumber(mem'[b.hi - GUARD..b.hi], mem[b.hi - GUARD..b.hi]);
    }
  }

  ghost predicate AllIntact(mem: seq<Byte>, blocks: set<Block>) {
    forall b :: b in blocks && b.tagged ==> BlockOk(b) && b.hi <= |mem| && Intact(mem, b)
  }

  lemma FieldKept(mem: seq<Byte>, at: nat, bytes: seq<Byte>, other: nat, n: nat)
    requires at + |bytes| <= |mem| && other + n <= |mem| && (other + n <= at || at + |bytes| <= other)
    ensures Field(Overwrite(mem, at, bytes), other, n) == Field(mem, other, n)
  {
    assert Overwrite(mem, at, bytes)[other..other + n] == mem[other..other + n];
  }

  lemma FieldStored(mem: seq<Byte>, at: nat, v: nat, n: nat)
    requires at + n <= |mem| && v < Radix(n)
    ensures Field(Overwrite(mem, at, Little(v, n)), at, n) == v
  {
    LittleReadsBack(v, n);
    Uniquely(v, Radix(n), 0, v);
  }

  /** A write that stays off a block leaves it intact. */
  lemma IntactKept(mem: seq<Byte>, at: nat, bytes: seq<Byte>, b: Block)
    requires at + |bytes| <= |mem| && BlockOk(b) && b.tagged && b.hi <= |mem| && Intact(mem, b)
    requires at + |bytes| <= b.lo || b.hi <= at
          || (b.lo + HEADER <= at && at + |bytes| <= b.hi - GUARD) || |bytes| == 0
    ensures Intact(Overwrite(mem, at, bytes), b)
  {
    hide Field;
    if |bytes| == 0 {
      assert Overwrite(mem, at, bytes) == mem;
    } else {
      FieldKept(mem, at, bytes, b.lo, 8);
      FieldKept(mem, at, bytes, b.lo + 8, 4);
      FieldKept(mem, at, bytes, b.hi - GUARD, 8);
    }
  }

  lemma AllIntactKept(mem: seq<Byte>, at: nat, bytes: seq<Byte>, blocks: set<Block>)
    requires at + |bytes| <= |mem| && AllIntact(mem, blocks)
    requires forall b :: b in blocks && b.tagged ==>
               at + |bytes| <= b.lo || b.hi <= at || (b.data <= at && at + |bytes| <= b.hi - GUARD) || |bytes| == 0
    ensures AllIntact(Overwrite(mem, at, bytes), blocks)
  {
    hide Overwrite, Intact;
    forall b | b in blocks && b.tagged ensures Intact(Overwrite(mem, at, bytes), b) {
      IntactKept(mem, at, bytes, b);
    }
  }

  /** The block that an arena allocation of a size at a place is. */
  function ArenaBlock(ptr: nat, len: nat): (b: Block)
    requires ptr >= HEADER
    ensures BlockOk(b) && b.tagged && b.data == ptr && b.len == len
  {
    Block(ptr - HEADER, ptr, len, ptr + RoundUp(len, ALIGN) + GUARD, true)
  }

  /** Where the payload lies that an arena of a size gives next. */
  function NextPayload(base: nat, size: nat): nat {
    RoundUp(base + size, ALIGN) + HEADER - base
  }

  /** A size in whole units, as the arena takes it. */
  function Rounded(size: nat): nat {
    RoundUp(size, ALIGN)
  }

  /** The arena's size after its last block has been resized in place, and whether it may be. */
  function Grown(size: nat, oldSize: nat, newSize: nat): int {
    size + Rounded(newSize) - Rounded(oldSize)
  }

  predicate MayGrow(size: nat, oldSize: nat, newSize: nat) {
    Rounded(newSize) <= Rounded(oldSize) || Grown(size, oldSize, newSize) <= CAPACITY
  }

  function RegionBlock(ptr: nat, len: nat): (b: Block)
    ensures BlockOk(b) && !b.tagged && b.data == ptr && b.len == len
  {
    Block(ptr, ptr, len, ptr + RoundUp(len, ALIGN), false)
  }

  /** The buffer after a block's header and guard have been written. */
  function Tagged(mem: seq<Byte>, b: Block): (r: seq<Byte>)
    requires BlockOk(b) && b.tagged && b.hi <= |mem| && b.len < 0x1_0000_0000_0000_0000
    ensures |r| == |mem|
  {
    Overwrite(Overwrite(Overwrite(mem, b.lo, Little(b.len, 8)), b.lo + 8, Little(CANARY, 4)),
              b.hi - GUARD, Little(GUARD_WORD, 8))
  }

  lemma TaggedIntact(mem: seq<Byte>, b: Block)
    requires BlockOk(b) && b.tagged && b.hi <= |mem| && b.len < 0x1_0000_0000_0000_0000
    ensures Intact(Tagged(mem, b), b)
  {
    hide Field, Overwrite, Little;
    RadixValues();
    var m1 := Overwrite(mem, b.lo, Little(b.len, 8));
    var m2 := Overwrite(m1, b.lo + 8, Little(CANARY, 4));
    FieldStored(mem, b.lo, b.len, 8);
    FieldStored(m1, b.lo + 8, CANARY, 4);
    FieldKept(m1, b.lo + 8, Little(CANARY, 4), b.lo, 8);
    FieldStored(m2, b.hi - GUARD, GUARD_WORD, 8);
    FieldKept(m2, b.hi - GUARD, Little(GUARD_WORD, 8), b.lo, 8);
    FieldKept(m2, b.hi - GUARD, Little(GUARD_WORD, 8), b.lo + 8, 4);
  }

  /** Tagging writes nowhere but in the block, and not in its payload. */
  lemma TaggedElsewhere(mem: seq<Byte>, b: Block, k: nat)
    requires BlockOk(b) && b.tagged && b.hi <= |mem| && b.len < 0x1_0000_0000_0000_0000 && k < |mem|
    requires k < b.lo || b.hi <= k || (b.data <= k < b.hi - GUARD)
    ensures Tagged(mem, b)[k] == mem[k]
  {
  }

  lemma OthersIntact(mem: seq<Byte>, b: Block, blocks: set<Block>)
    requires BlockOk(b) && b.tagged && b.hi <= |mem| && b.len < 0x1_0000_0000_0000_0000
    requires AllIntact(mem, blocks) && forall c :: c in blocks && c.tagged ==> c.hi <= b.lo || b.hi <= c.lo
    ensures AllIntact(Tagged(mem, b), blocks)
  {
    hide Overwrite, Little;
    var m1 := Overwrite(mem, b.lo, Little(b.len, 8));
    var m2 := Overwrite(m1, b.lo + 8, Little(CANARY, 4));
    AllIntactKept(mem, b.lo, Little(b.len, 8), blocks);
    AllIntactKept(m1, b.lo + 8, Little(CANARY, 4), blocks);
    AllIntactKept(m2, b.hi - GUARD, Little(GUARD_WORD, 8), blocks);
  }

  /** A block that keeps its place and changes its size. */
  predicate Resizes(mem: seq<Byte>, b: Block, b': Block) {
    && BlockOk(b) && b.tagged && b.hi <= |mem|
    && b' == ArenaBlock(b.data, b'.len) && b'.hi <= |mem| && b'.len < 0x1_0000_0000_0000_0000
  }

  /** The buffer after the two stores of an in-place realloc. */
  function Resized(mem: seq<Byte>, b: Block, b': Block): (r: seq<Byte>)
    requires Resizes(mem, b, b')
    ensures |r| == |mem|
    ensures forall k :: 0 <= k < b.lo ==> r[k] == mem[k]
  {
    Overwrite(Overwrite(mem, b.lo, Little(b'.len, 8)), b'.hi - GUARD, Little(GUARD_WORD, 8))
  }

  lemma ResizedIntact(mem: seq<Byte>, b: Block, b': Block)
    requires Resizes(mem, b, b') && Intact(mem, b)
    ensures Intact(Resized(mem, b, b'), b')
  {
    hide Field, Overwrite, Little, RoundUp;
    RadixValues();
    var m1 := Overwrite(mem, b.lo, Little(b'.len, 8));
    FieldStored(mem, b.lo, b'.len, 8);
    FieldKept(mem, b.lo, Little(b'.len, 8), b.lo + 8, 4);
    FieldStored(m1, b'.hi - GUARD, GUARD_WORD, 8);
    FieldKept(m1, b'.hi - GUARD, Little(GUARD_WORD, 8), b.lo, 8);
    FieldKept(m1, b'.hi - GUARD, Little(GUARD_WORD, 8), b.lo + 8, 4);
  }

  lemma ResizedStart(mem: seq<Byte>, b: Block, b': Block)
    requires Resizes(mem, b, b')
    ensures SameStart(mem, b.data, Resized(mem, b, b'), b.data, if b.len < b'.len then b.len else b'.len)
  {
    hide Little;
    var n := if b.len < b'.len then b.len else b'.len;
    var after := Resized(mem, b, b');
    assert after[b.data..b.data + n] == mem[b.data..b.data + n];
  }

  lemma OthersResized(mem: seq<Byte>, b: Block, b': Block, rest: set<Block>)
    requires Resizes(mem, b, b') && AllIntact(mem, rest)
    requires forall c :: c in rest && c.tagged ==> c.hi <= b.lo
    ensures AllIntact(Resized(mem, b, b'), rest)
  {
    hide Overwrite, Little;
    AllIntactKept(mem, b.lo, Little(b'.len, 8), rest);
    AllIntactKept(Overwrite(mem, b.lo, Little(b'.len, 8)), b'.hi - GUARD, Little(GUARD_WORD, 8), rest);
  }

  lemma JoinIntact(mem: seq<Byte>, rest: set<Block>, b: Block)
    requires AllIntact(mem, rest) && BlockOk(b) && b.tagged && b.hi <= |mem| && Intact(mem, b)
    ensures AllIntact(mem, rest + {b})
  {
    hide Intact;
  }

  /** What every operation keeps: the payloads of the other live blocks. */
  ghost predicate OthersSame(before: seq<Byte>, after: seq<Byte>, all: set<Block>, but: Block) {
    |before| == |after| &&
    forall c, k :: c in all && c != but && c.data <= k < c.data + c.len && k < |before| ==> after[k] == before[k]
  }

  /** The first bytes of a block are those another one had. */
  predicate SameStart(before: seq<Byte>, from: nat, after: seq<Byte>, to: nat, n: nat) {
    from + n <= |before| && to + n <= |after| && after[to..to + n] == before[from..from + n]
  }

  /** A new block is written, then a block's first bytes are copied into it. */
  lemma Moved(before: seq<Byte>, middle: seq<Byte>, after: seq<Byte>, all: set<Block>, b: Block, c: Block)
    requires b in all && b != c && OthersSame(before, middle, all, c) && OthersSame(middle, after, all, c)
    requires var n := if b.len < c.len then b.len else c.len;
             SameStart(middle, b.data, after, c.data, n)
    ensures SameStart(before, b.data, after, c.data, if b.len < c.len then b.len else c.len)
    ensures OthersSame(before, after, all - {c}, b)
  {
  }

  /** The regions still valid, by their number. */
  ghost function LiveOf(regions: seq<Region>, live: set<nat>): map<nat, Region> {
    map r | r in live && r < |regions| :: regions[r]
  }

  lemma LiveChanged(regions: seq<Region>, live: set<nat>, k: nat, r: Region)
    requires k in live && k < |regions|
    ensures LiveOf(regions[k := r], live) == LiveOf(regions, live)[k := r]
  {
  }

  lemma LiveAdded(regions: seq<Region>, live: set<nat>, r: Region)
    requires forall k :: k in live ==> k < |regions|
    ensures LiveOf(regions + [r], live) == LiveOf(regions, live)
    ensures LiveOf(regions + [r], live + {|regions|}) == LiveOf(regions, live)[|regions| := r]
    ensures |regions| !in LiveOf(regions, live)
  {
  }

  lemma LiveGet(regions: seq<Region>, live: set<nat>, k: nat)
    requires k in live && k < |regions|
    ensures k in LiveOf(regions, live) && LiveOf(regions, live)[k] == regions[k]
  {
  }

  ghost function StillLive(live: set<nat>, left: map<nat, Region>): set<nat> {
    set k | k in live && k in left
  }

  lemma LiveLeft(regions: seq<Region>, live: set<nat>, left: map<nat, Region>)
    requires forall k :: k in left ==> k in live && k < |regions| && left[k] == regions[k]
    ensures LiveOf(regions, StillLive(live, left)) == left
  {
  }

  lemma LeftAfter(regions: seq<Region>, live: set<nat>, k: nat, marker: nat)
    requires k in live && k < |regions| && regions[k].Region?
    requires LiveOf(regions, live)[k] == regions[k]
    ensures var left := RegionsOutside(LiveOf(regions, live), k, marker);
            LiveOf(regions[k := regions[k].(offset := marker)], StillLive(live, left)) == left
  {
    var left := RegionsOutside(LiveOf(regions, live), k, marker);
    LiveLeft(regions[k := regions[k].(offset := marker)], live, left);
  }

  /** What every operation of the arena and its regions keeps. */
  ghost predicate Sound(mem: seq<Byte>, size: nat, regions: seq<Region>, live: set<nat>, blocks: set<Block>) {
    && |mem| == CAPACITY + SLACK
    && size <= CAPACITY + SLACK
    && (forall r :: r in live ==> r < |regions|)
    && Layout(size, LiveOf(regions, live), blocks)
    && AllIntact(mem, blocks)
  }

  /** Blocks other than the last one end where it starts, or are empty. */
  lemma BeforeLast(size: nat, regions: map<nat, Region>, blocks: set<Block>, b: Block, c: Block)
    requires Layout(size, regions, blocks)
    requires b in blocks && b.tagged && b.hi + GUARD == size && c in blocks && c != b && c.lo < c.hi
    ensures c.hi <= b.lo
  {
    assert BlocksApart(b, c) && BlockOk(c) && BlockOk(b);
    AtLeastAlign(c);
  }

  lemma ResizeKeeps(mem: seq<Byte>, size: nat, regions: seq<Region>, live: set<nat>, blocks: set<Block>,
                    b: Block, b': Block, size': nat)
    requires Sound(mem, size, regions, live, blocks)
    requires b in blocks && b.tagged && b.hi + GUARD == size && Resizes(mem, b, b') && b'.hi <= size' <= CAPACITY + SLACK
    ensures Sound(Resized(mem, b, b'), size', regions, live, blocks - {b} + {b'})
  {
    var rest, regionsNow := blocks - {b}, LiveOf(regions, live);
    forall c | c in rest && c.tagged ensures c.hi <= b.lo {
      assert BlockOk(c);
      BeforeLast(size, regionsNow, blocks, b, c);
    }
    assert Intact(mem, b) && AllIntact(mem, rest);
    hide Layout, AllIntact, Intact, Resized, Overwrite, Little, RoundUp, LiveOf;
    LastBlockResized(size, regionsNow, blocks, b, b', size');
    ResizedIntact(mem, b, b');
    OthersResized(mem, b, b', rest);
    JoinIntact(Resized(mem, b, b'), rest, b');
  }

  lemma Copied(mem: seq<Byte>, from: nat, to: nat, n: nat)
    requires from + n <= |mem| && to + n <= |mem|
    ensures SameStart(mem, from, Overwrite(mem, to, mem[from..from + n]), to, n)
  {
    assert Overwrite(mem, to, mem[from..from + n])[to..to + n] == mem[from..from + n];
  }

  class AArena {
    /** The address of the buffer's first byte. */
    const base: nat
    const buffer: array<Byte>
    var size: nat
    var failedAllocations: nat
    /** The region structures callers hold. */
    var regions: seq<Region>
    /** Which of them are still valid, and the blocks in use. */
    ghost var liveRegions: set<nat>
    ghost var blocks: set<Block>

    ghost function Live(): map<nat, Region>
      reads this
    {
      LiveOf(regions, liveRegions)
    }

    ghost predicate Valid()
      reads this, buffer
    {
      Sound(buffer[..], size, regions, liveRegions, blocks)
    }

    constructor (address: nat)
      ensures Valid() && base == address && size == 0 && blocks == {} && liveRegions == {} && fresh(buffer)
    {
      base := address;
      buffer := new Byte[CAPACITY + SLACK](_ => 0);
      size, failedAllocations, regions := 0, 0, [];
      liveRegions, blocks := {}, {};
    }

    /** The three stores of aarena_alloc. */
    method WriteTags(ghost b: Block, at: nat, len: nat, guardAt: nat)
      requires BlockOk(b) && b.tagged && b.hi <= buffer.Length && b.len < 0x1_0000_0000_0000_0000
      requires at == b.lo && len == b.len && guardAt == b.hi - GUARD
      modifies buffer
      ensures buffer[..] == Tagged(old(buffer[..]), b)
    {
      hide Overwrite, Little;
      StoreBytes(buffer, at, Little(len, 8));
      StoreBytes(buffer, at + 8, Little(CANARY, 4));
      StoreBytes(buffer, guardAt, Little(GUARD_WORD, 8));
    }

    /** aarena_alloc: the test counts neither the padding nor the rounding. */
    method Alloc(request: nat) returns (ok: bool, ptr: nat)
      requires Valid()
      modifies this`size, this`failedAllocations, this`blocks, buffer
      ensures Valid() && ok == (old(size) + request + HEADER + GUARD <= CAPACITY)
      ensures !ok ==> size == old(size) && blocks == old(blocks) && buffer[..] == old(buffer[..])
      ensures ok ==>
                && base + ptr == RoundUp(base + old(size), ALIGN) + HEADER && (base + ptr) % ALIGN == 0
                && ptr >= old(size) + HEADER && ArenaBlock(ptr, request) !in old(blocks)
                && blocks == old(blocks) + {ArenaBlock(ptr, request)}
                && size == ArenaBlock(ptr, request).hi
                && size <= old(size) + request + HEADER + GUARD + SLACK
                && buffer[..] == Tagged(old(buffer[..]), ArenaBlock(ptr, request))
                && NoGap()
      ensures InWords(base, old(size)) ==> InWords(base, size)
    {
      hide RoundUp, Tagged, Layout, AllIntact;
      ptr := 0;
      ok := size + request + HEADER + GUARD <= CAPACITY;
      if !ok {
        failedAllocations := failedAllocations + 1;
        return;
      }
      var aligned := RoundUp(request, ALIGN);
      var current := base + size;
      var padding := RoundUp(current, ALIGN) - current;
      ptr := size + padding + HEADER;
      ghost var b := ArenaBlock(ptr, request);
      assert base + ptr == RoundUp(current, ALIGN) + ALIGN;
      NewBlock(b);
      BlocksBelowEnd();
      WriteTags(b, size + padding, request, ptr + aligned);
      BlockInWords(base, size, ptr, request);
      size := size + padding + HEADER + aligned + GUARD;
      blocks := blocks + {b};
    }

    /** No block has just a guard's width between itself and the arena's end. */
    ghost predicate NoGap()
      reads this
    {
      forall b :: b in blocks && b.tagged ==> b.hi + GUARD != size
    }

    lemma BlocksBelowEnd()
      requires Valid()
      ensures forall b :: b in blocks && b.tagged ==> b.hi <= size
    {
      hide RoundUp, Intact;
    }

    /** A block behind everything live. */
    lemma NewBlock(b: Block)
      requires Valid() && BlockOk(b) && b.tagged && size <= b.lo && b.hi <= CAPACITY + SLACK
      ensures b !in blocks && Layout(b.hi, Live(), blocks + {b})
      ensures AllIntact(Tagged(buffer[..], b), blocks + {b})
    {
      hide RoundUp, Tagged, Intact;
      BlockAppended(size, Live(), blocks, b);
      TaggedIntact(buffer[..], b);
      OthersIntact(buffer[..], b, blocks);
    }

    /** aarena_alloc_aligned: its padding stays even when the allocation that follows fails, and what it aligns is the
        header, not the payload. */
    method AllocAligned(request: nat, alignment: nat) returns (ok: bool, ptr: nat)
      requires Valid() && alignment > 0
      modifies this`size, this`failedAllocations, this`blocks, buffer
      ensures Valid()
      ensures var padding := Padding(base + old(size), alignment);
              && padding < alignment && ok == (old(size) + padding + request + HEADER + GUARD <= CAPACITY)
              && (!ok ==> blocks == old(blocks) && buffer[..] == old(buffer[..])
                          && size == old(size) + if old(size) + request + padding > CAPACITY then 0 else padding)
      ensures ok ==>
                && base + ptr == RoundUp(Aligned(base + old(size), alignment), ALIGN) + HEADER && (base + ptr) % ALIGN == 0
                && ptr >= HEADER && ArenaBlock(ptr, request) !in old(blocks)
                && blocks == old(blocks) + {ArenaBlock(ptr, request)} && size == ArenaBlock(ptr, request).hi
                && buffer[..] == Tagged(old(buffer[..]), ArenaBlock(ptr, request)) && NoGap()
      ensures InWords(base, old(size)) && IsPowerOfTwo(alignment) ==> InWords(base, size)
    {
      hide Layout, AllIntact, Tagged, RoundUp, Padding, Aligned, IsPowerOfTwo;
      ok, ptr := false, 0;
      var current := base + size;
      var padding := Padding(current, alignment);
      PaddingInWords(base, size, alignment);
      if size + request + padding > CAPACITY {
        failedAllocations := failedAllocations + 1;
        return;
      }
      EndRaised(size, size + padding, Live(), blocks);
      size := size + padding;
      ok, ptr := Alloc(request);
    }

    /** aarena_check_memory, of any pointer behind bytes that can be a header; with the canary in place, the guard it looks
        for is to lie in the buffer. */
    method CheckMemory(ptr: nat) returns (ok: bool)
      requires ptr != 0 ==> HEADER <= ptr <= buffer.Length
      requires ptr != 0 && Field(buffer[..], ptr - 8, 4) == CANARY ==> GuardAt(buffer[..], ptr) + GUARD <= buffer.Length
      ensures ok <==> ptr != 0 && Passes(buffer[..], ptr)
    {
      hide RoundUp;
      if ptr == 0 {
        return false;
      }
      var len := FromLittle(buffer[ptr - HEADER..ptr - HEADER + 8]);
      var canary := FromLittle(buffer[ptr - 8..ptr - 4]);
      assert buffer[..][ptr - HEADER..ptr - HEADER + 8] == buffer[ptr - HEADER..ptr - HEADER + 8];
      assert buffer[..][ptr - 8..ptr - 4] == buffer[ptr - 8..ptr - 4];
      if canary != CANARY {
        return false;
      }
      var guardAt := ptr + RoundUp(len, ALIGN);
      var guard := FromLittle(buffer[guardAt..guardAt + GUARD]);
      assert buffer[..][guardAt..guardAt + GUARD] == buffer[guardAt..guardAt + GUARD];
      ok := guard == GUARD_WORD;
    }

    /** The check passes for every live block, whatever was allocated, released and written inside payloads before. */
    lemma LivePasses(b: Block)
      requires Valid() && b in blocks && b.tagged
      ensures b.data >= HEADER && b.hi <= buffer.Length && Passes(buffer[..], b.data)
    {
      PayloadInside(b);
      assert Intact(buffer[..], b);
      hide RoundUp, Layout, Intact, Passes;
      PassesIntact(buffer[..], b);
    }

    /** A caller writing inside the payload of a block it holds. */
    method ClientWrite(ghost b: Block, at: nat, bytes: seq<Byte>)
      requires Valid() && b in blocks && b.data <= at && at + |bytes| <= b.data + b.len && bytes != []
      modifies buffer
      ensures Valid() && at + |bytes| <= buffer.Length && buffer[..] == Overwrite(old(buffer[..]), at, bytes)
    {
      PayloadInside(b);
      forall c | c in blocks && c.tagged
        ensures at + |bytes| <= c.lo || c.hi <= at || (c.data <= at && at + |bytes| <= c.hi - GUARD) || |bytes| == 0
      {
        if c != b { assert BlocksApart(b, c) && BlockOk(c); }
      }
      hide Overwrite, Layout, AllIntact;
      AllIntactKept(buffer[..], at, bytes, blocks);
      StoreBytes(buffer, at, bytes);
    }

    lemma PayloadInside(b: Block)
      requires Valid() && b in blocks && (b.tagged || b.len > 0)
      ensures BlockOk(b) && b.data + b.len <= buffer.Length
      ensures b.tagged ==> b.data + b.len <= b.hi - GUARD
      ensures !b.tagged ==> b.lo <= b.data && b.data + b.len <= b.hi
      ensures b.hi <= size
    {
      assert BlockOk(b);
    }

    /** aarena_realloc of a live block, called with its size: in place when only a gap of GUARD bytes follows the block,
        which no granted allocation leaves behind (`NoGap`), else by copying. The old block stays in use when it is copied. */
    method Realloc(ptr: nat, ghost b: Block, oldSize: nat, newSize: nat) returns (ok: bool, ptr': nat)
      requires Valid() && b in blocks && b.tagged && ptr == b.data && oldSize == b.len
      requires newSize < 0x1_0000_0000_0000_0000
      modifies this`size, this`failedAllocations, this`blocks, buffer
      ensures Valid() && (InWords(base, old(size)) ==> InWords(base, size))
      ensures !ok ==> blocks == old(blocks) && buffer[..] == old(buffer[..]) && size == old(size)
      ensures ok ==>
                && ptr' >= HEADER
                && SameStart(old(buffer[..]), ptr, buffer[..], ptr', if oldSize < newSize then oldSize else newSize)
                && OthersSame(old(buffer[..]), buffer[..], old(blocks), b)
      ensures b.hi + GUARD == old(size) ==>
                && ok == MayGrow(old(size), oldSize, newSize)
                && (ok ==> ptr' == ptr && size == Grown(old(size), oldSize, newSize)
                           && blocks == old(blocks) - {b} + {ArenaBlock(ptr', newSize)})
      ensures b.hi + GUARD != old(size) ==>
                && ok == (old(size) + newSize + HEADER + GUARD <= CAPACITY)
                && (ok ==> ptr' > ptr && ptr' == NextPayload(base, old(size)) && size == ArenaBlock(ptr', newSize).hi
                           && blocks == old(blocks) + {ArenaBlock(ptr', newSize)})
    {
      TaggedEnd(b);
      hide Valid, Sound, RoundUp, Rounded, ArenaBlock, BlockOk, InWords, NextPayload, Grown, MayGrow, SameStart, OthersSame;
      if ptr + Rounded(oldSize) + GUARD + GUARD == size {
        ok := ReallocLast(b, ptr, oldSize, newSize);
        return ok, ptr;
      }
      ok, ptr' := Replace(b, ptr, newSize, if oldSize < newSize then oldSize else newSize);
    }

    lemma TaggedEnd(b: Block)
      requires Valid() && b in blocks && b.tagged
      ensures b.hi == b.data + Rounded(b.len) + GUARD && b.data >= HEADER && b.data + Rounded(b.len) < size
    {
      PayloadInside(b);
    }

    lemma LastResizes(b: Block, newSize: nat)
      requires Valid() && b in blocks && b.tagged && b.hi + GUARD == size && newSize < 0x1_0000_0000_0000_0000
      requires b.data >= HEADER && size + Rounded(newSize) - Rounded(b.len) <= CAPACITY + SLACK
      ensures var b' := ArenaBlock(b.data, newSize);
              && Resizes(buffer[..], b, b') && b'.hi + GUARD == size + Rounded(newSize) - Rounded(b.len)
    {
      PayloadInside(b);
      TaggedEnd(b);
      hide RoundUp, Layout, AllIntact;
    }

    /** The branch of a block with only a guard's width behind it. */
    method ReallocLast(ghost b: Block, ptr: nat, oldSize: nat, newSize: nat) returns (ok: bool)
      requires Valid() && b in blocks && b.tagged && ptr == b.data && oldSize == b.len && b.hi + GUARD == size
      requires ptr >= HEADER && newSize < 0x1_0000_0000_0000_0000
      modifies this`size, this`failedAllocations, this`blocks, buffer
      ensures Valid()
      ensures ok == MayGrow(old(size), oldSize, newSize)
      ensures size == if ok then Grown(old(size), oldSize, newSize) else old(size)
      ensures InWords(base, old(size)) ==> InWords(base, size)
      ensures !ok ==> blocks == old(blocks) && buffer[..] == old(buffer[..])
      ensures ok ==>
                && blocks == old(blocks) - {b} + {ArenaBlock(ptr, newSize)}
                && SameStart(old(buffer[..]), ptr, buffer[..], ptr, if oldSize < newSize then oldSize else newSize)
                && OthersSame(old(buffer[..]), buffer[..], old(blocks), b)
    {
      PayloadInside(b);
      TaggedEnd(b);
      hide Sound, Tagged, Overwrite, RoundUp, SameStart, OthersSame, InWords, BlockOk, Resizes, Resized;
      var alignedOld, alignedNew := Rounded(oldSize), Rounded(newSize);
      var size' := size + alignedNew - alignedOld;
      if alignedNew > alignedOld && size' > CAPACITY {
        failedAllocations := failedAllocations + 1;
        return false;
      }
      GrownInWords(base, size, size', newSize, oldSize);
      LastResizes(b, newSize);
      OthersUntouched(buffer[..], b, ArenaBlock(ptr, newSize), blocks);
      ResizedStart(buffer[..], b, ArenaBlock(ptr, newSize));
      Resize(b, ptr, newSize, size');
      ok := true;
    }

    /** The copying branch. */
    method Replace(ghost b: Block, ptr: nat, newSize: nat, n: nat) returns (ok: bool, ptr': nat)
      requires Valid() && b in blocks && b.tagged && ptr == b.data && newSize < 0x1_0000_0000_0000_0000
      requires n == if b.len < newSize then b.len else newSize
      modifies this`size, this`failedAllocations, this`blocks, buffer
      ensures Valid()
      ensures ok == (old(size) + newSize + HEADER + GUARD <= CAPACITY)
      ensures InWords(base, old(size)) ==> InWords(base, size)
      ensures !ok ==> blocks == old(blocks) && buffer[..] == old(buffer[..]) && size == old(size)
      ensures ok ==> ptr' >= HEADER && size == ArenaBlock(ptr', newSize).hi && ptr' == NextPayload(base, old(size))
      ensures ok ==> ptr' >= old(size) && blocks == old(blocks) + {ArenaBlock(ptr', newSize)}
      ensures ok ==> SameStart(old(buffer[..]), ptr, buffer[..], ptr', n)
                     && OthersSame(old(buffer[..]), buffer[..], old(blocks), b)
    {
      hide Layout, AllIntact, Intact, Tagged, Overwrite, RoundUp, SameStart, OthersSame;
      ok, ptr' := Alloc(newSize);
      if ok {
        ghost var c := ArenaBlock(ptr', newSize);
        ghost var before, middle := old(buffer[..]), buffer[..];
        TagsMiss(before, c);
        CopyOver(b, c, ptr, ptr', n);
        Moved(before, middle, buffer[..], blocks, b, c);
        assert blocks - {c} == old(blocks);
      }
    }

    /** The two stores of the in-place branches. */
    method WriteSize(ghost b: Block, ghost b': Block, at: nat, len: nat, guardAt: nat)
      requires Resizes(buffer[..], b, b') && at == b.lo && len == b'.len && guardAt == b'.hi - GUARD
      modifies buffer
      ensures Resizes(old(buffer[..]), b, b') && buffer[..] == Resized(old(buffer[..]), b, b')
    {
      hide Overwrite, Little;
      StoreBytes(buffer, at, Little(len, 8));
      StoreBytes(buffer, guardAt, Little(GUARD_WORD, 8));
    }

    /** The in-place branches: the end moves, the header's size and the guard are written again. */
    method Resize(ghost b: Block, ptr: nat, newSize: nat, size': nat)
      requires Valid() && b in blocks && b.tagged && ptr == b.data && b.hi + GUARD == size && newSize < 0x1_0000_0000_0000_0000
      requires ArenaBlock(b.data, newSize).hi <= size' <= CAPACITY + SLACK
      modifies this`size, this`blocks, buffer
      ensures Valid() && size == size' && blocks == old(blocks) - {b} + {ArenaBlock(b.data, newSize)}
      ensures Resizes(old(buffer[..]), b, ArenaBlock(b.data, newSize))
      ensures buffer[..] == Resized(old(buffer[..]), b, ArenaBlock(b.data, newSize))
    {
      ghost var b' := ArenaBlock(b.data, newSize);
      PayloadInside(b);
      ResizeKeeps(buffer[..], size, regions, liveRegions, blocks, b, b', size');
      assert ptr - HEADER == b.lo && ptr + RoundUp(newSize, ALIGN) == b'.hi - GUARD;
      hide Sound, Resized, Resizes, RoundUp, BlockOk;
      WriteSize(b, b', ptr - HEADER, newSize, ptr + RoundUp(newSize, ALIGN));
      size := size';
      blocks := blocks - {b} + {b'};
    }

    lemma OthersUntouched(before: seq<Byte>, b: Block, b': Block, all: set<Block>)
      requires Valid() && b in blocks && b.tagged && b.hi + GUARD == size && all == blocks && before == buffer[..]
      requires Resizes(before, b, b')
      ensures OthersSame(before, Resized(before, b, b'), all, b)
    {
      hide Layout, AllIntact, LiveOf;
      forall c, k | c in all && c != b && c.data <= k < c.data + c.len && k < |before|
        ensures Resized(before, b, b')[k] == before[k]
      {
        PayloadInside(c);
        BeforeLast(size, Live(), blocks, b, c);
      }
    }

    /** memcpy from a block to the one that replaces it. */
    method CopyOver(ghost b: Block, ghost c: Block, from: nat, to: nat, n: nat)
      requires Valid() && b in blocks && c in blocks && b != c && b.tagged && c.tagged
      requires from == b.data && to == c.data && n <= b.len && n <= c.len
      modifies buffer
      ensures Valid() && SameStart(old(buffer[..]), from, buffer[..], to, n)
      ensures OthersSame(old(buffer[..]), buffer[..], blocks, c)
    {
      hide *;
      CopyFacts(b, c, n);
      if n > 0 {
        ghost var before := buffer[..];
        var bytes := buffer[from..from + n];
        assert bytes == before[from..from + n];
        ClientWrite(c, to, bytes);
      }
    }

    lemma CopyFacts(b: Block, c: Block, n: nat)
      requires Valid() && b in blocks && c in blocks && b != c && b.tagged && c.tagged && n <= b.len && n <= c.len
      ensures b.data + n <= buffer.Length && c.data + n <= buffer.Length
      ensures n > 0 ==>
                var mem := buffer[..];
                var after := Overwrite(mem, c.data, mem[b.data..b.data + n]);
                SameStart(mem, b.data, after, c.data, n) && OthersSame(mem, after, blocks, c)
      ensures n == 0 ==> SameStart(buffer[..], b.data, buffer[..], c.data, n) && OthersSame(buffer[..], buffer[..], blocks, c)
    {
      PayloadInside(b);
      PayloadInside(c);
      if n > 0 {
        CopyMisses(buffer[..], c, c.data, buffer[..][b.data..b.data + n]);
        Copied(buffer[..], b.data, c.data, n);
      }
      hide Sound, Overwrite;
    }

    /** Writing in one block's payload misses the payloads of all others. */
    lemma CopyMisses(before: seq<Byte>, c: Block, at: nat, bytes: seq<Byte>)
      requires Valid() && c in blocks && c.data <= at && at + |bytes| <= c.data + c.len && bytes != []
      requires |before| == buffer.Length && at + |bytes| <= |before|
      ensures OthersSame(before, Overwrite(before, at, bytes), blocks, c)
    {
      forall d, k | d in blocks && d != c && d.data <= k < d.data + d.len && k < |before|
        ensures Overwrite(before, at, bytes)[k] == before[k]
      {
        assert BlocksApart(c, d) && BlockOk(c) && BlockOk(d);
      }
    }

    /** A new block's header and guard miss the payloads of all others. */
    lemma TagsMiss(before: seq<Byte>, b: Block)
      requires Valid() && b in blocks && b.tagged && b.len < 0x1_0000_0000_0000_0000 && |before| == buffer.Length
      ensures BlockOk(b) && b.hi <= |before| && OthersSame(before, Tagged(before, b), blocks, b)
    {
      PayloadInside(b);
      forall c, k | c in blocks && c != b && c.data <= k < c.data + c.len && k < |before|
        ensures Tagged(before, b)[k] == before[k]
      {
        assert BlocksApart(b, c) && BlockOk(c);
        TaggedElsewhere(before, b, k);
      }
    }

    // ---------- regions ----------

    /** create_region: its bytes start wherever the arena ends. */
    method CreateRegion(request: nat) returns (k: nat)
      requires Valid()
      modifies this`size, this`failedAllocations, this`regions, this`liveRegions
      ensures Valid() && k == |old(regions)| && |regions| == k + 1 && regions[..k] == old(regions)
      ensures var bytes := RoundUp(request, ALIGN);
              if old(size) + bytes > CAPACITY then
                regions[k] == NoRegion && liveRegions == old(liveRegions) && size == old(size)
              else regions[k] == Region(old(size), bytes, 0) && liveRegions == old(liveRegions) + {k}
                   && size == old(size) + bytes
      ensures InWords(base, old(size)) ==> InWords(base, size)
    {
      hide Layout, AllIntact, RoundUp, LiveOf;
      k := |regions|;
      ghost var live := Live();
      var bytes := RoundUp(request, ALIGN);
      if size + bytes > CAPACITY {
        failedAllocations := failedAllocations + 1;
        regions := regions + [NoRegion];
        LiveAdded(old(regions), liveRegions, NoRegion);
        return;
      }
      LiveAdded(regions, liveRegions, Region(size, bytes, 0));
      RegionAppended(size, live, blocks, k, bytes);
      regions := regions + [Region(size, bytes, 0)];
      liveRegions := liveRegions + {k};
      size := size + bytes;
    }

    /** region_alloc, of a live region or of the null one that a failed creation gives. */
    method RegionAlloc(k: nat, request: nat) returns (ok: bool, ptr: nat)
      requires Valid() && k < |regions| && (k in liveRegions || regions[k].NoRegion?)
      modifies this`regions, this`blocks
      ensures Valid() && |regions| == |old(regions)|
      ensures ok == (old(regions)[k].Region? && old(regions)[k].offset + RoundUp(request, ALIGN) <= old(regions)[k].size)
      ensures !ok ==> regions == old(regions) && blocks == old(blocks)
      ensures ok ==> var r := old(regions)[k];
                     && ptr == r.start + r.offset && blocks == old(blocks) + {RegionBlock(ptr, request)}
                     && regions == old(regions)[k := r.(offset := r.offset + RoundUp(request, ALIGN))]
                     && (request > 0 ==> RegionBlock(ptr, request) !in old(blocks))
      ensures old(regions)[k].Region? ==>
                && regions[k] == Called(base, old(regions)[k], Take(request))
                && Given(base, old(regions)[k], Take(request)) == if ok then Some(ptr) else None
    {
      hide Layout, AllIntact, RoundUp, LiveOf;
      ok, ptr := false, 0;
      match regions[k] {
        case NoRegion =>
        case Region(start, bytes, offset) =>
          var aligned := RoundUp(request, ALIGN);
          TakenIs(base, regions[k], request);
          if offset + aligned <= bytes {
            ghost var live := Live();
            ok, ptr := true, start + offset;
            RegionFrontFresh(k, request);
            LiveGet(regions, liveRegions, k);
            LiveChanged(regions, liveRegions, k, Region(start, bytes, offset + aligned));
            RegionBlockAdded(size, live, blocks, k, RegionBlock(ptr, request));
            UntaggedIntact(buffer[..], blocks, RegionBlock(ptr, request));
            regions := regions[k := Region(start, bytes, offset + aligned)];
            blocks := blocks + {RegionBlock(ptr, request)};
          }
      }
    }

    /** What a region hands out next is no block yet. */
    lemma RegionFrontFresh(k: nat, request: nat)
      requires Valid() && k in liveRegions && k < |regions| && regions[k].Region?
      requires regions[k].offset + RoundUp(request, ALIGN) <= regions[k].size
      ensures request > 0 ==> RegionBlock(regions[k].start + regions[k].offset, request) !in blocks
    {
      LiveGet(regions, liveRegions, k);
      var b := RegionBlock(regions[k].start + regions[k].offset, request);
      assert forall c :: c in blocks ==> BlockBeside(c, Live()[k]);
    }

    /** region_alloc_aligned: padded to an absolute address. */
    method RegionAllocAligned(k: nat, request: nat, alignment: nat) returns (ok: bool, ptr: nat)
      requires Valid() && k in liveRegions && alignment > 0
      modifies this`regions, this`blocks
      ensures Valid() && |regions| == |old(regions)| && k < |old(regions)| && old(regions)[k].Region?
      ensures regions == old(regions)[k := Called(base, old(regions)[k], TakeAligned(request, alignment))]
      ensures Given(base, old(regions)[k], TakeAligned(request, alignment)) == if ok then Some(ptr) else None
      ensures blocks == if ok then old(blocks) + {RegionBlock(ptr, request)} else old(blocks)
      ensures ok && request > 0 ==> RegionBlock(ptr, request) !in old(blocks)
    {
      LiveIsRegion(k);
      hide *;
      ok, ptr := false, 0;
      var r := regions[k];
      var padding := Padding(Front(base, r), alignment);
      if r.offset + Rounded(request) + padding <= r.size {
        ptr := AlignedRun(k, request, alignment, padding);
        ok := true;
      } else {
        AlignedTakenIs(base, r, request, alignment, padding);
        Unchanged(regions, k);
      }
    }

    /** An aligned request that fits. */
    method AlignedRun(k: nat, request: nat, alignment: nat, padding: nat) returns (ptr: nat)
      requires Valid() && k in liveRegions && k < |regions| && regions[k].Region? && alignment > 0
      requires padding == Padding(Front(base, regions[k]), alignment)
      requires regions[k].offset + Rounded(request) + padding <= regions[k].size
      modifies this`regions, this`blocks
      ensures Valid() && k < |old(regions)| && old(regions)[k].Region?
      ensures regions == old(regions)[k := Called(base, old(regions)[k], TakeAligned(request, alignment))]
      ensures Given(base, old(regions)[k], TakeAligned(request, alignment)) == Some(ptr)
      ensures blocks == old(blocks) + {RegionBlock(ptr, request)}
      ensures request > 0 ==> RegionBlock(ptr, request) !in old(blocks)
    {
      hide *;
      AlignedTakenIs(base, regions[k], request, alignment, padding);
      ptr := PadAndAlloc(k, padding, request);
    }

    /** Padding and then a block out of a region that has room for both. */
    method PadAndAlloc(k: nat, padding: nat, request: nat) returns (ptr: nat)
      requires Valid() && k in liveRegions && k < |regions| && regions[k].Region?
      requires regions[k].offset + padding + Rounded(request) <= regions[k].size
      modifies this`regions, this`blocks
      ensures Valid() && k < |old(regions)| && old(regions)[k].Region?
      ensures var r := old(regions)[k];
              && ptr == r.start + r.offset + padding
              && regions == old(regions)[k := r.(offset := r.offset + padding + Rounded(request))]
              && blocks == old(blocks) + {RegionBlock(ptr, request)}
              && (request > 0 ==> RegionBlock(ptr, request) !in old(blocks))
    {
      hide Valid, Sound, RoundUp, LiveOf, RegionBlock;
      Skip(k, padding);
      var _, p := RegionAlloc(k, request);
      ptr := p;
    }

    /** Padding handed out of a region. */
    method Skip(k: nat, padding: nat)
      requires Valid() && k in liveRegions && k < |regions| && regions[k].Region?
      requires regions[k].offset + padding <= regions[k].size
      modifies this`regions
      ensures Valid() && k < |old(regions)| && old(regions)[k].Region?
      ensures regions == old(regions)[k := old(regions)[k].(offset := old(regions)[k].offset + padding)]
    {
      hide Layout, AllIntact, RoundUp, LiveOf;
      var r := regions[k];
      LiveGet(regions, liveRegions, k);
      LiveChanged(regions, liveRegions, k, r.(offset := r.offset + padding));
      OffsetRaised(size, Live(), blocks, k, r.offset + padding);
      regions := regions[k := r.(offset := r.offset + padding)];
    }

    /** create_subregion. */
    method CreateSubregion(parent: nat, request: nat) returns (k: nat)
      requires Valid() && parent < |regions| && (parent in liveRegions || regions[parent].NoRegion?)
      modifies this`regions, this`liveRegions
      ensures Valid() && k == |old(regions)| && |regions| == k + 1
      ensures var bytes, r := RoundUp(request, ALIGN), old(regions)[parent];
              if r.NoRegion? || r.offset + bytes > r.size
              then regions == old(regions) + [NoRegion] && liveRegions == old(liveRegions)
              else regions == old(regions)[parent := r.(offset := r.offset + bytes)] + [Region(r.start + r.offset, bytes, 0)]
                   && liveRegions == old(liveRegions) + {k}
      ensures old(regions)[parent].Region? ==> regions[parent] == Called(base, old(regions)[parent], Carve(request))
    {
      hide Layout, AllIntact, RoundUp, LiveOf;
      k := |regions|;
      ghost var live := Live();
      var bytes := RoundUp(request, ALIGN);
      var r := regions[parent];
      if r.Region? { CarvedIs(base, r, request); }
      if r.NoRegion? || r.offset + bytes > r.size {
        regions := regions + [NoRegion];
        LiveAdded(old(regions), liveRegions, NoRegion);
        return;
      }
      LiveGet(regions, liveRegions, parent);
      LiveChanged(regions, liveRegions, parent, r.(offset := r.offset + bytes));
      LiveAdded(regions[parent := r.(offset := r.offset + bytes)], liveRegions, Region(r.start + r.offset, bytes, 0));
      LiveAdded(regions, liveRegions, NoRegion);
      SubregionAdded(size, live, blocks, parent, k, bytes);
      regions := regions[parent := r.(offset := r.offset + bytes)] + [Region(r.start + r.offset, bytes, 0)];
      liveRegions := liveRegions + {k};
    }

    lemma LiveIsRegion(k: nat)
      requires Valid() && k in liveRegions
      ensures k < |regions| && regions[k].Region? && regions[k].offset <= regions[k].size
      ensures k in Live() && Live()[k] == regions[k]
    {
      assert RegionOk(Live()[k]);
    }

    // ---------- releasing ----------

    /** aarena_free_to a marker taken earlier; aarena_reset is the marker 0. What lies above it is no longer in use. */
    method FreeTo(marker: nat)
      requires Valid()
      modifies this`size, this`liveRegions, this`blocks
      ensures Valid()
      ensures marker > old(size) ==> size == old(size) && liveRegions == old(liveRegions) && blocks == old(blocks)
      ensures marker <= old(size) ==>
                && size == marker && blocks == BlocksBelow(old(blocks), marker)
                && Live() == RegionsBelow(old(Live()), marker)
      ensures InWords(base, old(size)) && marker % WORD == 0 ==> InWords(base, size)
    {
      if marker <= size {
        hide Layout, Intact;
        ghost var live := Live();
        ArenaReleased(size, live, blocks, marker);
        size := marker;
        liveRegions := StillLive(liveRegions, RegionsBelow(live, marker));
        blocks := BlocksBelow(blocks, marker);
        LiveLeft(regions, old(liveRegions), RegionsBelow(live, marker));
      }
    }

    /** region_free_to a marker taken earlier; region_reset is the marker 0. */
    method RegionFreeTo(k: nat, marker: nat)
      requires Valid() && k in liveRegions
      modifies this`regions, this`liveRegions, this`blocks
      ensures Valid() && |regions| == |old(regions)|
      ensures k < |old(regions)| && old(regions)[k].Region?
      ensures var r := old(regions)[k];
              if marker > r.offset then regions == old(regions) && liveRegions == old(liveRegions) && blocks == old(blocks)
              else && regions == old(regions)[k := r.(offset := marker)]
                   && blocks == BlocksOutside(old(blocks), r.start + marker, r.start + r.offset)
                   && k in old(Live()) && Live() == RegionsOutside(old(Live()), k, marker)
      ensures k < |regions| && regions[k] == Called(base, old(regions)[k], BackTo(marker))
    {
      LiveIsRegion(k);
      hide Sound, LiveOf, RegionsOutside, BlocksOutside, StillLive;
      var r := regions[k];
      if marker > r.offset {
        return;
      }
      ghost var left := RegionsOutside(Live(), k, marker);
      ReleaseKeeps(buffer[..], size, regions, liveRegions, blocks, k, marker);
      regions := regions[k := r.(offset := marker)];
      liveRegions := StillLive(liveRegions, left);
      blocks := BlocksOutside(blocks, r.start + marker, r.start + r.offset);
    }
  }

  lemma ReleaseKeeps(mem: seq<Byte>, size: nat, regions: seq<Region>, live: set<nat>, blocks: set<Block>, k: nat, marker: nat)
    requires Sound(mem, size, regions, live, blocks)
    requires k in live && k < |regions| && regions[k].Region? && marker <= regions[k].offset
    ensures k in LiveOf(regions, live) && LiveOf(regions, live)[k] == regions[k]
    ensures var r, left := regions[k], RegionsOutside(LiveOf(regions, live), k, marker);
            var regions', live' := regions[k := r.(offset := marker)], StillLive(live, left);
            && LiveOf(regions', live') == left
            && Sound(mem, size, regions', live', BlocksOutside(blocks, r.start + marker, r.start + r.offset))
  {
    LiveGet(regions, live, k);
    var r := regions[k];
    var fewer := BlocksOutside(blocks, r.start + marker, r.start + r.offset);
    assert fewer <= blocks;
    hide Layout, AllIntact, LiveOf, RegionsOutside, BlocksOutside;
    RegionReleased(size, LiveOf(regions, live), blocks, k, marker);
    LeftAfter(regions, live, k, marker);
    FewerIntact(mem, blocks, fewer);
  }

  lemma FewerIntact(mem: seq<Byte>, blocks: set<Block>, fewer: set<Block>)
    requires AllIntact(mem, blocks) && fewer <= blocks
    ensures AllIntact(mem, fewer)
  {
    hide Intact;
  }

  lemma UntaggedIntact(mem: seq<Byte>, blocks: set<Block>, b: Block)
    requires AllIntact(mem, blocks) && !b.tagged
    ensures AllIntact(mem, blocks + {b})
  {
    hide Intact;
  }

  /** The test of aarena_alloc leaves padding and rounding out, so an accepted block can end past the capacity; this is
      when it does not. */
  lemma StaysInside(base: nat, size: nat, request: nat)
    requires size + request + HEADER + GUARD <= CAPACITY
    ensures var padding := RoundUp(base + size, ALIGN) - (base + size);
            var rounding := RoundUp(request, ALIGN) - request;
            var ptr := size + padding + HEADER;
            && ArenaBlock(ptr, request).hi <= CAPACITY + SLACK
            && (ArenaBlock(ptr, request).hi <= CAPACITY <==> size + padding + HEADER + request + rounding + GUARD <= CAPACITY)
  {
  }

  /** An arena whose size is a multiple of a word, as every arena's is that started empty at a word's address and was
      released only to sizes it had. */
  predicate InWords(base: nat, size: nat) {
    base % WORD == 0 && size % WORD == 0
  }

  const WORD: nat := 8

  lemma BlockInWords(base: nat, size: nat, ptr: nat, request: nat)
    requires ptr >= HEADER && base + ptr == RoundUp(base + size, ALIGN) + HEADER
    ensures InWords(base, size) ==> InWords(base, ArenaBlock(ptr, request).hi)
  {
    if InWords(base, size) {
      var u, v, w := RoundUp(base + size, ALIGN) / ALIGN, RoundUp(request, ALIGN) / ALIGN, base / WORD;
      var hi := ArenaBlock(ptr, request).hi;
      hide RoundUp;
      assert hi == WORD * (2 * u + 2 * v + 3 - w);
    }
  }

  /** An in-place realloc moves the end by whole units. */
  lemma GrownInWords(base: nat, size: nat, grown: nat, a: nat, b: nat)
    requires grown == size + RoundUp(a, ALIGN) - RoundUp(b, ALIGN)
    ensures InWords(base, size) ==> InWords(base, grown)
  {
    hide RoundUp;
  }

  lemma PaddingInWords(base: nat, size: nat, alignment: nat)
    requires alignment > 0
    ensures InWords(base, size) && IsPowerOfTwo(alignment) ==> InWords(base, size + Padding(base + size, alignment))
  {
    hide *;
    if InWords(base, size) && IsPowerOfTwo(alignment) {
      WordsAdd(base, size);
      AlignedInWords(base + size, alignment);
      SumInWords(base, size, Padding(base + size, alignment));
    }
  }

  lemma WordsAdd(base: nat, size: nat)
    requires InWords(base, size)
    ensures IsMultiple(base + size, WORD)
  {
  }

  lemma AlignedInWords(x: nat, alignment: nat)
    requires alignment > 0 && IsMultiple(x, WORD) && IsPowerOfTwo(alignment)
    ensures IsMultiple(Aligned(x, alignment), WORD)
  {
    PowersByWords(alignment);
    AlignedIsMultiple(x, alignment);
    hide *;
    if alignment < ALIGN {
      WordStays(x, Aligned(x, alignment), alignment);
    } else {
      MultipleOfDivisor(Aligned(x, alignment), ALIGN, alignment);
      UnitsAreWords(Aligned(x, alignment));
    }
  }

  lemma UnitsAreWords(x: nat)
    requires IsMultiple(x, ALIGN)
    ensures IsMultiple(x, WORD)
  {
  }

  lemma WordStays(x: nat, y: nat, alignment: nat)
    requires alignment in {1, 2, 4, 8} && IsMultiple(x, WORD) && IsMultiple(y, alignment) && x <= y < x + alignment
    ensures y == x
  {
    var a := x / WORD;
    assert x == WORD * a;
    if alignment == 2 {
      assert y - x == 2 * (y / 2 - 4 * a);
    } else if alignment == 4 {
      assert y - x == 4 * (y / 4 - 2 * a);
    } else if alignment == 8 {
      assert y - x == 8 * (y / 8 - a);
    }
  }

  lemma SumInWords(base: nat, size: nat, padding: nat)
    requires InWords(base, size) && IsMultiple(base + size + padding, WORD)
    ensures InWords(base, size + padding)
  {
  }

  /** In such an arena a block ends at most 8 bytes past the capacity, or 16 when the buffer starts 8 bytes off the block
      alignment. */
  lemma OverrunInWords(base: nat, size: nat, ptr: nat, request: nat)
    requires InWords(base, size) && size + request + HEADER + GUARD <= CAPACITY
    requires ptr >= HEADER && base + ptr == RoundUp(base + size, ALIGN) + HEADER
    ensures ArenaBlock(ptr, request).hi <= CAPACITY + if base % ALIGN == 0 then 8 else 16
  {
    EndOf(base, size, ptr, request);
    hide *;
    OverrunOf(base, size, request, RoundUp(base + size, ALIGN), RoundUp(request, ALIGN), ArenaBlock(ptr, request).hi);
  }

  lemma EndOf(base: nat, size: nat, ptr: nat, request: nat)
    requires ptr >= HEADER && base + ptr == RoundUp(base + size, ALIGN) + HEADER
    ensures base + ArenaBlock(ptr, request).hi == RoundUp(base + size, ALIGN) + RoundUp(request, ALIGN) + HEADER + GUARD
  {
    hide RoundUp;
  }

  lemma OverrunOf(base: nat, size: nat, request: nat, u: nat, v: nat, hi: nat)
    requires InWords(base, size) && size + request + HEADER + GUARD <= CAPACITY
    requires u % ALIGN == 0 && base + size <= u < base + size + ALIGN && v % ALIGN == 0 && v < request + ALIGN
    requires base + hi == u + v + HEADER + GUARD
    ensures hi <= CAPACITY + if base % ALIGN == 0 then 8 else 16
  {
    RoundedWord(base + size, u);
    EndsInGuard(u, v);
    Beyond(base, hi);
  }

  lemma EndsInGuard(u: nat, v: nat)
    requires u % ALIGN == 0 && v % ALIGN == 0
    ensures (u + v + HEADER + GUARD) % ALIGN == GUARD
  {
  }

  lemma RoundedWord(x: nat, u: nat)
    requires x % WORD == 0 && u % ALIGN == 0 && x <= u < x + ALIGN
    ensures u <= x + WORD
  {
    var a, b := x / WORD, u / ALIGN;
    assert x == WORD * a && u == ALIGN * b;
  }

  lemma Beyond(base: nat, hi: nat)
    requires base % WORD == 0 && (base + hi) % ALIGN == GUARD && hi < CAPACITY + 24
    ensures hi <= CAPACITY + if base % ALIGN == 0 then 8 else 16
  {
    var k, w := (base + hi) / ALIGN, base / WORD;
    assert base + hi == ALIGN * k + GUARD && base == WORD * w;
    if base % ALIGN == 0 {
      var h := base / ALIGN;
      assert hi == ALIGN * (k - h) + GUARD;
    } else {
      var h := base / ALIGN;
      assert base == ALIGN * h + WORD;
      assert hi == ALIGN * (k - h);
    }
  }

  /** Both are reached: by 16 bytes asked of an arena with 40 bytes left, and by 8 of one with 32 left. */
  lemma EndsPastCapacity()
    ensures var size := CAPACITY - 40;
            && InWords(0, size) && size + 16 + HEADER + GUARD <= CAPACITY
            && ArenaBlock(RoundUp(size, ALIGN) + HEADER, 16).hi == CAPACITY + 8
    ensures var base, size := 8, CAPACITY - 32;
            && InWords(base, size) && size + 8 + HEADER + GUARD <= CAPACITY
            && ArenaBlock(RoundUp(base + size, ALIGN) + HEADER - base, 8).hi == CAPACITY + 16
  {
    hide RoundUp;
    OnlyMultiple(CAPACITY - 40, CAPACITY - 32);
    OnlyMultiple(16, 16);
    OnlyMultiple(CAPACITY - 24, CAPACITY - 16);
    OnlyMultiple(8, 16);
  }

  lemma OnlyMultiple(x: nat, r: nat)
    requires r % ALIGN == 0 && x <= r < x + ALIGN
    ensures RoundUp(x, ALIGN) == r
  {
    hide RoundUp;
    var q, q' := r / ALIGN, RoundUp(x, ALIGN) / ALIGN;
    assert r == ALIGN * q && RoundUp(x, ALIGN) == ALIGN * q';
  }

  // ---------- alignment ----------

  lemma TakenIs(base: nat, r: Region, request: nat)
    requires r.Region?
    ensures var aligned := RoundUp(request, ALIGN);
            && Called(base, r, Take(request)) == (if r.offset + aligned <= r.size then r.(offset := r.offset + aligned) else r)
            && Given(base, r, Take(request)) == if r.offset + aligned <= r.size then Some(r.start + r.offset) else None
  {
    hide RoundUp;
  }

  lemma CarvedIs(base: nat, r: Region, request: nat)
    requires r.Region?
    ensures var aligned := RoundUp(request, ALIGN);
            Called(base, r, Carve(request)) == if r.offset + aligned <= r.size then r.(offset := r.offset + aligned) else r
  {
    hide RoundUp;
  }

  lemma Unchanged(regions: seq<Region>, k: nat)
    requires k < |regions|
    ensures regions[k := regions[k]] == regions
  {
  }

  lemma AlignedTakenIs(base: nat, r: Region, request: nat, alignment: nat, padding: nat)
    requires r.Region? && alignment > 0 && padding == Padding(Front(base, r), alignment)
    ensures if r.offset + Rounded(request) + padding > r.size then
              && Called(base, r, TakeAligned(request, alignment)) == r
              && Given(base, r, TakeAligned(request, alignment)) == None
            else
              && Called(base, r, TakeAligned(request, alignment)) == r.(offset := r.offset + padding + Rounded(request))
              && Given(base, r, TakeAligned(request, alignment)) == Some(r.start + r.offset + padding)
  {
    hide RoundUp, Padding;
  }

  /** Behind an arena block, which leaves the end 8 bytes off, a new region hands out no aligned pointer in any run
      without aligned calls. */
  lemma RegionsStartMisaligned(base: nat, ptr: nat, request: nat, bytes: nat, calls: seq<Call>)
    requires ptr >= HEADER && (base + ptr) % ALIGN == 0 && forall call :: call in calls ==> Ordinary(call)
    ensures Front(base, CalledAll(base, Region(ArenaBlock(ptr, request).hi, bytes, 0), calls)) % ALIGN != 0
  {
    EndOff(base, ptr, request);
    hide *;
    BehindABlock(base, Region(ArenaBlock(ptr, request).hi, bytes, 0), calls);
  }

  lemma EndOff(base: nat, ptr: nat, request: nat)
    requires ptr >= HEADER && (base + ptr) % ALIGN == 0
    ensures (base + ArenaBlock(ptr, request).hi) % ALIGN == GUARD
  {
    hide RoundUp;
  }

  /** An aligned allocation's payload, a header's width behind the padded address, has the alignment asked for exactly
      when that is at most the block alignment. */
  lemma AlignmentMet(base: nat, size: nat, ptr: nat, alignment: nat)
    requires IsPowerOfTwo(alignment)
    requires base + ptr == RoundUp(Aligned(base + size, alignment), ALIGN) + HEADER
    ensures IsMultiple(base + ptr, alignment) <==> alignment <= 16
  {
    hide *;
    if alignment <= 16 {
      SmallerMet(base + ptr, RoundUp(Aligned(base + size, alignment), ALIGN), alignment);
    } else {
      LargerMissed(base + ptr, base + size, alignment);
    }
  }

  lemma SmallerMet(x: nat, y: nat, alignment: nat)
    requires IsPowerOfTwo(alignment) && alignment <= 16 && y % ALIGN == 0 && x == y + HEADER
    ensures IsMultiple(x, alignment)
  {
    PowersByWords(alignment);
    UnitsBehind(y);
    SmallerAlignment(x, alignment);
  }

  lemma LargerMissed(x: nat, y: nat, alignment: nat)
    requires IsPowerOfTwo(alignment) && alignment > 16 && x == RoundUp(Aligned(y, alignment), ALIGN) + HEADER
    ensures !IsMultiple(x, alignment)
  {
    hide Aligned, RoundUp, IsMultiple, IsPowerOfTwo;
    AlignedIsMultiple(y, alignment);
    AlignedByUnits(y, alignment);
    AlreadyMultiple(Aligned(y, alignment), ALIGN);
    PastMultiple(x, Aligned(y, alignment), alignment);
  }

  lemma PastMultiple(x: nat, y: nat, alignment: nat)
    requires alignment > 16 && IsMultiple(y, alignment) && x == y + HEADER
    ensures !IsMultiple(x, alignment)
  {
    var q := y / alignment;
    assert y == alignment * q;
    Uniquely(x, alignment, q, HEADER);
  }

  lemma UnitsBehind(x: nat)
    ensures x % ALIGN == 0 ==> IsMultiple(x + HEADER, ALIGN)
  {
  }

  lemma AlreadyMultiple(x: nat, unit: nat)
    requires unit > 0 && IsMultiple(x, unit)
    ensures RoundUp(x, unit) == x
  {
    Uniquely(x + unit - 1, unit, x / unit, unit - 1);
  }

  lemma SmallerAlignment(x: nat, alignment: nat)
    requires alignment in {1, 2, 4, 8, 16} && IsMultiple(x, ALIGN)
    ensures IsMultiple(x, alignment)
  {
    var q := x / ALIGN;
    assert x == ALIGN * q;
    if alignment == 2 {
      assert x == 2 * (8 * q);
    } else if alignment == 4 {
      assert x == 4 * (4 * q);
    } else if alignment == 8 {
      assert x == 8 * (2 * q);
    }
  }
}
