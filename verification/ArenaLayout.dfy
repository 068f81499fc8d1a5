/** Where arena blocks and regions lie, as byte ranges. */
module ArenaLayout {
  import Bytes

  const CAPACITY: nat := 4194304
  const ALIGN: nat := 16
  const HEADER: nat := 16
  const GUARD: nat := 8

  /** Rounding up to a multiple. The C code masks, which for powers of two is the same: see `Masks.MaskClears`. */
  function RoundUp(x: nat, unit: nat): (r: nat)
    requires unit > 0
    ensures x <= r < x + unit && r % unit == 0
  {
    var q := (x + unit - 1) / unit;
    assert (x + unit - 1) == q * unit + (x + unit - 1) % unit;
    MultipleOf(q, unit);
    q * unit
  }

  lemma MultipleOf(q: nat, unit: nat)
    requires unit > 0
    ensures q * unit % unit == 0
    decreases q
  {
    if q > 0 {
      MultipleOf(q - 1, unit);
      assert q * unit == (q - 1) * unit + unit;
      assert ((q - 1) * unit + unit) % unit == 0 by { AddUnit((q - 1) * unit, unit); }
    }
  }

  lemma AddUnit(x: nat, unit: nat)
    requires unit > 0 && x % unit == 0
    ensures (x + unit) % unit == 0
  {
    var k := x / unit;
    assert x == k * unit;
    Bytes.Uniquely(x + unit, unit, k + 1, 0);
  }

  /** A live block: the bytes it takes, and its payload. A tagged block has a header before and a guard behind. */
  datatype Block = Block(lo: nat, data: nat, len: nat, hi: nat, tagged: bool)

  /** A region's bytes, and how many of them it has handed out. */
  datatype Region = NoRegion | Region(start: nat, size: nat, offset: nat)

  predicate BlockOk(b: Block) {
    if b.tagged then b.data == b.lo + HEADER && b.hi == b.data + RoundUp(b.len, ALIGN) + GUARD
    else b.data == b.lo && b.hi == b.data + RoundUp(b.len, ALIGN)
  }

  predicate RegionOk(r: Region) {
    r.Region? && r.offset <= r.size && r.size % ALIGN == 0
  }

  /** Two byte ranges with no byte in common. */
  predicate Apart(lo: nat, hi: nat, lo': nat, hi': nat) {
    hi <= lo' || hi' <= lo || lo >= hi || lo' >= hi'
  }

  predicate BlocksApart(b: Block, c: Block) {
    Apart(b.lo, b.hi, c.lo, c.hi)
  }

  predicate End(r: Region, size: nat)
    requires r.Region?
  {
    r.size > 0 ==> r.start + r.size <= size
  }

  /** A block lies outside a region, or, untagged, in the part the region has handed out. */
  predicate BlockBeside(b: Block, r: Region)
    requires r.Region?
  {
    || Apart(b.lo, b.hi, r.start, r.start + r.size)
    || (!b.tagged && r.start <= b.lo && b.hi <= r.start + r.offset)
  }

  /** A region lies in the part another one has handed out. */
  predicate Inside(q: Region, r: Region)
    requires q.Region? && r.Region?
  {
    r.start <= q.start && q.start + q.size <= r.start + r.offset
  }

  predicate RegionsBeside(q: Region, r: Region)
    requires q.Region? && r.Region?
  {
    Apart(q.start, q.start + q.size, r.start, r.start + r.size) || Inside(q, r) || Inside(r, q)
  }

  /** Everything live below `size`: blocks pairwise disjoint, regions nested or disjoint. */
  ghost predicate Layout(size: nat, regions: map<nat, Region>, blocks: set<Block>) {
    && (forall b :: b in blocks ==> BlockOk(b) && (b.lo < b.hi ==> b.hi <= size))
    && (forall b, c :: b in blocks && c in blocks && b != c ==> BlocksApart(b, c))
    && (forall r :: r in regions ==> RegionOk(regions[r]) && End(regions[r], size))
    && (forall r, b :: r in regions && b in blocks ==> BlockBeside(b, regions[r]))
    && (forall r, q :: r in regions && q in regions && r != q ==> RegionsBeside(regions[q], regions[r]))
  }

  /** Taking bytes from the end of the arena for a block. */
  lemma BlockAppended(size: nat, regions: map<nat, Region>, blocks: set<Block>, b: Block)
    requires Layout(size, regions, blocks) && BlockOk(b) && size <= b.lo
    ensures Layout(b.hi, regions, blocks + {b})
  {
    hide RoundUp;
  }

  /** Moving the end of the arena up. */
  lemma EndRaised(size: nat, size': nat, regions: map<nat, Region>, blocks: set<Block>)
    requires Layout(size, regions, blocks) && size <= size'
    ensures Layout(size', regions, blocks)
  {
  }

  /** Taking bytes from the end of the arena for a region. */
  lemma RegionAppended(size: nat, regions: map<nat, Region>, blocks: set<Block>, k: nat, bytes: nat)
    requires Layout(size, regions, blocks) && k !in regions && bytes % ALIGN == 0
    ensures Layout(size + bytes, regions[k := Region(size, bytes, 0)], blocks)
  {
    hide RoundUp;
  }

  /** What a region hands out next: the offset moved up over some padding. */
  lemma OffsetRaised(size: nat, regions: map<nat, Region>, blocks: set<Block>, k: nat, offset: nat)
    requires Layout(size, regions, blocks) && k in regions
    requires regions[k].offset <= offset <= regions[k].size
    ensures Layout(size, regions[k := regions[k].(offset := offset)], blocks)
  {
    hide BlockOk;
  }

  /** Taking bytes from a region for a block. */
  lemma RegionBlockAdded(size: nat, regions: map<nat, Region>, blocks: set<Block>, k: nat, b: Block)
    requires Layout(size, regions, blocks) && k in regions && BlockOk(b) && !b.tagged
    requires b.lo == regions[k].start + regions[k].offset && b.hi <= regions[k].start + regions[k].size
    ensures Layout(size, regions[k := regions[k].(offset := b.hi - regions[k].start)], blocks + {b})
  {
    hide RoundUp, BlocksApart, BlockBeside, BlockOk, RegionsBeside;
    BlockSpan(b);
    var r := regions[k];
    var raised := r.(offset := b.hi - r.start);
    assert RegionOk(r) && End(r, size);
    OffsetRaised(size, regions, blocks, k, b.hi - r.start);
    forall c | c in blocks ensures BlocksApart(b, c) { FrontFree(b, c, r); }
    forall q | q in regions && q != k ensures BlockBeside(b, regions[q]) { FrontInside(b, regions[q], r); }
    FrontHandedOut(b, raised);
    hide Layout;
    BlockJoins(size, regions[k := raised], blocks, b);
  }

  lemma BlockSpan(b: Block)
    requires BlockOk(b)
    ensures b.lo <= b.hi
  {
  }

  /** What a region hands out next is apart from every block that is already there. */
  lemma FrontFree(b: Block, c: Block, r: Region)
    requires r.Region? && BlockBeside(c, r) && b.lo == r.start + r.offset && b.lo <= b.hi <= r.start + r.size
    ensures BlocksApart(b, c)
  {
  }

  lemma FrontInside(b: Block, q: Region, r: Region)
    requires r.Region? && q.Region? && RegionsBeside(q, r) && !b.tagged
    requires b.lo == r.start + r.offset && b.lo <= b.hi <= r.start + r.size
    ensures BlockBeside(b, q)
  {
  }

  lemma FrontHandedOut(b: Block, r: Region)
    requires r.Region? && !b.tagged && r.start <= b.lo && b.hi == r.start + r.offset
    ensures BlockBeside(b, r)
  {
  }

  lemma BlockJoins(size: nat, regions: map<nat, Region>, blocks: set<Block>, b: Block)
    requires Layout(size, regions, blocks) && BlockOk(b) && (b.lo < b.hi ==> b.hi <= size)
    requires forall c :: c in blocks ==> BlocksApart(b, c)
    requires forall q :: q in regions ==> BlockBeside(b, regions[q])
    ensures Layout(size, regions, blocks + {b})
  {
    hide RoundUp;
  }

  /** Taking bytes from a region for a region of its own. */
  lemma SubregionAdded(size: nat, regions: map<nat, Region>, blocks: set<Block>, k: nat, n: nat, bytes: nat)
    requires Layout(size, regions, blocks) && k in regions && n !in regions && bytes % ALIGN == 0
    requires regions[k].offset + bytes <= regions[k].size
    ensures var r := regions[k];
            Layout(size, regions[k := r.(offset := r.offset + bytes)][n := Region(r.start + r.offset, bytes, 0)], blocks)
  {
    var r := regions[k];
    var sub := Region(r.start + r.offset, bytes, 0);
    SubBeside(size, regions, blocks, k, bytes);
    OffsetRaised(size, regions, blocks, k, r.offset + bytes);
    hide *;
    SubOfParent(r, bytes);
    RegionJoins(size, regions[k := r.(offset := r.offset + bytes)], blocks, n, sub);
  }

  lemma SubBeside(size: nat, regions: map<nat, Region>, blocks: set<Block>, k: nat, bytes: nat)
    requires Layout(size, regions, blocks) && k in regions && bytes % ALIGN == 0
    requires regions[k].Region? && regions[k].offset + bytes <= regions[k].size
    ensures var r := regions[k];
            var sub := Region(r.start + r.offset, bytes, 0);
            && RegionOk(sub) && End(sub, size)
            && (forall b :: b in blocks ==> BlockBeside(b, sub))
            && (forall q :: q in regions && q != k ==>
                  regions[q].Region? && RegionsBeside(sub, regions[q]) && RegionsBeside(regions[q], sub))
  {
    var r := regions[k];
    var sub := Region(r.start + r.offset, bytes, 0);
    assert RegionOk(r) && End(r, size) && RegionOk(sub) && End(sub, size);
    hide RoundUp, BlockOk, BlocksApart, BlockBeside, RegionsBeside, End;
    forall b | b in blocks ensures BlockBeside(b, sub) { SubFree(b, r, bytes); }
    forall q | q in regions && q != k
      ensures regions[q].Region? && RegionsBeside(sub, regions[q]) && RegionsBeside(regions[q], sub)
    {
      SubInside(regions[q], r, bytes);
    }
  }

  lemma SubFree(b: Block, r: Region, bytes: nat)
    requires r.Region? && BlockBeside(b, r) && r.offset + bytes <= r.size
    ensures BlockBeside(b, Region(r.start + r.offset, bytes, 0))
  {
  }

  lemma SubInside(q: Region, r: Region, bytes: nat)
    requires q.Region? && r.Region? && RegionsBeside(q, r) && r.offset + bytes <= r.size
    ensures RegionsBeside(Region(r.start + r.offset, bytes, 0), q) && RegionsBeside(q, Region(r.start + r.offset, bytes, 0))
  {
  }

  lemma SubOfParent(r: Region, bytes: nat)
    requires r.Region? && r.offset + bytes <= r.size
    ensures var sub, raised := Region(r.start + r.offset, bytes, 0), r.(offset := r.offset + bytes);
            RegionsBeside(sub, raised) && RegionsBeside(raised, sub)
  {
  }

  lemma RegionJoins(size: nat, regions: map<nat, Region>, blocks: set<Block>, n: nat, sub: Region)
    requires Layout(size, regions, blocks) && n !in regions && RegionOk(sub) && End(sub, size)
    requires forall b :: b in blocks ==> BlockBeside(b, sub)
    requires forall q :: q in regions ==>
               regions[q].Region? && RegionsBeside(sub, regions[q]) && RegionsBeside(regions[q], sub)
    ensures Layout(size, regions[n := sub], blocks)
  {
    hide RoundUp, BlockOk, BlocksApart, BlockBeside, RegionsBeside, RegionOk, End;
  }

  /** Blocks and regions that a release of the arena down to a marker leaves alive. */
  ghost function BlocksBelow(blocks: set<Block>, marker: nat): set<Block> {
    set b | b in blocks && b.hi <= marker
  }

  ghost function RegionsBelow(regions: map<nat, Region>, marker: nat): map<nat, Region> {
    map r | r in regions && regions[r].Region? && regions[r].start + regions[r].size <= marker :: regions[r]
  }

  lemma ArenaReleased(size: nat, regions: map<nat, Region>, blocks: set<Block>, marker: nat)
    requires Layout(size, regions, blocks)
    ensures Layout(marker, RegionsBelow(regions, marker), BlocksBelow(blocks, marker))
  {
    hide BlockOk;
  }

  /** What a release of a region back to a marker leaves alive: everything with no byte in what is taken back, and the
      regions this one was made from. */
  ghost function BlocksOutside(blocks: set<Block>, lo: nat, hi: nat): set<Block> {
    set b | b in blocks && Apart(b.lo, b.hi, lo, hi)
  }

  ghost predicate Survives(q: Region, r: Region, marker: nat)
    requires q.Region? && r.Region?
  {
    Apart(q.start, q.start + q.size, r.start + marker, r.start + r.offset) || Inside(r, q)
  }

  ghost function RegionsOutside(regions: map<nat, Region>, k: nat, marker: nat): map<nat, Region>
    requires k in regions && regions[k].Region?
  {
    map q | q in regions && regions[q].Region? && (q == k || Survives(regions[q], regions[k], marker)) ::
      if q == k then regions[k].(offset := marker) else regions[q]
  }

  lemma RegionReleased(size: nat, regions: map<nat, Region>, blocks: set<Block>, k: nat, marker: nat)
    requires Layout(size, regions, blocks) && k in regions && marker <= regions[k].offset
    ensures var r := regions[k];
            Layout(size, RegionsOutside(regions, k, marker), BlocksOutside(blocks, r.start + marker, r.start + r.offset))
  {
    var r := regions[k];
    var left := r.(offset := marker);
    var blocks' := BlocksOutside(blocks, r.start + marker, r.start + r.offset);
    var regions' := RegionsOutside(regions, k, marker);
    assert RegionOk(r) && End(r, size);
    forall b | b in blocks' ensures BlockBeside(b, left) {
      assert BlockBeside(b, r);
    }
    forall q | q in regions' && q != k ensures RegionsBeside(left, regions'[q]) && RegionsBeside(regions'[q], left) {
      assert RegionsBeside(regions[q], r);
      NestedOrApart(regions[q], r, marker);
    }
    hide BlockOk, BlockBeside, BlocksApart, RegionsBeside, Survives, Apart;
  }

  lemma NestedOrApart(q: Region, r: Region, marker: nat)
    requires q.Region? && r.Region? && marker <= r.offset && RegionsBeside(q, r) && Survives(q, r, marker)
    ensures RegionsBeside(r.(offset := marker), q) && RegionsBeside(q, r.(offset := marker))
  {
  }

  /** The last block of the arena grown or shrunk where it stands, with at most GUARD bytes behind it. */
  lemma LastBlockResized(size: nat, regions: map<nat, Region>, blocks: set<Block>, b: Block, b': Block, size': nat)
    requires Layout(size, regions, blocks) && b in blocks && b.tagged && b.hi + GUARD == size
    requires BlockOk(b') && b'.tagged && b'.lo == b.lo && b'.hi <= size'
    ensures Layout(size', regions, blocks - {b} + {b'})
  {
    hide RoundUp;
    forall c | c in blocks && c != b ensures BlocksApart(b', c) && (c.lo < c.hi ==> c.hi <= b.lo) {
      assert BlocksApart(b, c) && BlockOk(c);
      if c.lo < c.hi { AtLeastAlign(c); }
    }
    forall r | r in regions ensures BlockBeside(b', regions[r]) && End(regions[r], size') {
      assert BlockBeside(b, regions[r]) && RegionOk(regions[r]) && End(regions[r], size);
      if regions[r].size > 0 { assert regions[r].size >= ALIGN; }
    }
  }

  lemma AtLeastAlign(c: Block)
    requires BlockOk(c) && c.lo < c.hi
    ensures c.hi - c.lo >= ALIGN
  {
  }

  /** Any two live blocks have no byte in common. */
  lemma LiveBlocksDisjoint(size: nat, regions: map<nat, Region>, blocks: set<Block>, b: Block, c: Block, i: nat, j: nat)
    requires Layout(size, regions, blocks) && b in blocks && c in blocks && b != c
    requires i < b.len && j < c.len
    ensures b.data + i != c.data + j
  {
    assert BlocksApart(b, c) && BlockOk(b) && BlockOk(c);
  }
}
