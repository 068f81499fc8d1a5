/** A region over whole runs: which of its pointers are aligned. */
module Regions {
  import opened Common
  import opened ArenaLayout
  import opened Masks

  /** What is asked of a region: bytes for a block, bytes at an alignment, bytes for a subregion, and going back to a
      marker. */
  datatype Call = Take(request: nat) | TakeAligned(request: nat, alignment: nat) | Carve(request: nat) | BackTo(marker: nat)

  /** The address that a region hands out next. */
  function Front(base: nat, r: Region): nat
    requires r.Region?
  {
    base + r.start + r.offset
  }

  /** The padding a call puts in front of what it takes, and how much it takes. */
  function Skipped(base: nat, r: Region, call: Call): nat
    requires r.Region?
  {
    if call.TakeAligned? && call.alignment > 0 then Padding(Front(base, r), call.alignment) else 0
  }

  function Taken(call: Call): nat {
    if call.BackTo? then 0 else RoundUp(call.request, ALIGN)
  }

  predicate Granted(base: nat, r: Region, call: Call)
    requires r.Region?
  {
    if call.BackTo? then call.marker <= r.offset else r.offset + Skipped(base, r, call) + Taken(call) <= r.size
  }

  /** The region behind a call. */
  function Called(base: nat, r: Region, call: Call): (r': Region)
    requires r.Region?
    ensures r'.Region? && r'.start == r.start && r'.size == r.size
  {
    if !Granted(base, r, call) then r
    else if call.BackTo? then r.(offset := call.marker)
    else r.(offset := r.offset + Skipped(base, r, call) + Taken(call))
  }

  /** Where the bytes lie that a call hands out. */
  function Given(base: nat, r: Region, call: Call): Option<nat>
    requires r.Region?
  {
    if Granted(base, r, call) && !call.BackTo? then Some(r.start + r.offset + Skipped(base, r, call)) else None
  }

  /** An aligned call is granted exactly when padding and bytes fit; it gives the next aligned address, and its bytes lie in
      what the region had not handed out. */
  lemma GivenAligned(base: nat, r: Region, request: nat, alignment: nat)
    requires r.Region? && alignment > 0
    ensures var given := Given(base, r, TakeAligned(request, alignment));
            && (given.Some? <==> r.offset + Padding(Front(base, r), alignment) + RoundUp(request, ALIGN) <= r.size)
            && (given.Some? ==>
                  && base + given.value == Aligned(Front(base, r), alignment)
                  && r.start + r.offset <= given.value && given.value + RoundUp(request, ALIGN) <= r.start + r.size
                  && (IsPowerOfTwo(alignment) ==> IsMultiple(base + given.value, alignment)))
  {
    hide RoundUp, Padding, Aligned, IsPowerOfTwo, IsMultiple, Given, Granted, Front;
    GivenInside(base, r, request, alignment, RoundUp(request, ALIGN), Padding(Front(base, r), alignment));
    if IsPowerOfTwo(alignment) { AlignedIsMultiple(Front(base, r), alignment); }
  }

  lemma GivenInside(base: nat, r: Region, request: nat, alignment: nat, bytes: nat, padding: nat)
    requires r.Region? && alignment > 0 && bytes == RoundUp(request, ALIGN) && padding == Padding(Front(base, r), alignment)
    ensures var given := Given(base, r, TakeAligned(request, alignment));
            && (given.Some? <==> r.offset + padding + bytes <= r.size)
            && (given.Some? ==>
                  && base + given.value == Front(base, r) + padding
                  && r.start + r.offset <= given.value && given.value + bytes <= r.start + r.size)
  {
    hide RoundUp, Padding;
  }

  function CalledAll(base: nat, r: Region, calls: seq<Call>): (r': Region)
    requires r.Region?
    ensures r'.Region? && r'.start == r.start && r'.size == r.size
    decreases |calls|
  {
    if calls == [] then r else CalledAll(base, Called(base, r, calls[0]), calls[1..])
  }

  /** A call that asks for no alignment; markers are whole units, as every marker taken in a run of such calls is. */
  predicate Ordinary(call: Call) {
    call.Take? || call.Carve? || (call.BackTo? && call.marker % ALIGN == 0)
  }

  lemma SumOfUnits(x: nat, y: nat)
    requires y % ALIGN == 0
    ensures (x + y) % ALIGN == x % ALIGN
  {
  }

  lemma OrdinaryKeeps(base: nat, r: Region, call: Call)
    requires r.Region? && Ordinary(call) && r.offset % ALIGN == 0
    ensures Called(base, r, call).offset % ALIGN == 0
  {
    hide RoundUp;
    if !call.BackTo? { SumOfUnits(r.offset, RoundUp(call.request, ALIGN)); }
  }

  /** Ordinary calls hand out whole units, whatever they are and in whatever order. */
  lemma {:induction false} OrdinaryRun(base: nat, r: Region, calls: seq<Call>)
    requires r.Region? && r.offset % ALIGN == 0 && forall call :: call in calls ==> Ordinary(call)
    ensures CalledAll(base, r, calls).offset % ALIGN == 0
    decreases |calls|
  {
    hide Ordinary, Called;
    if calls != [] {
      OrdinaryKeeps(base, r, calls[0]);
      OrdinaryRun(base, Called(base, r, calls[0]), calls[1..]);
    }
  }

  /** The address a new region hands out next, after any run of ordinary calls, is aligned exactly when the region
      started at an aligned address: blocks are rounded, addresses are not. */
  lemma PointersAligned(base: nat, r: Region, calls: seq<Call>)
    requires r.Region? && r.offset == 0 && forall call :: call in calls ==> Ordinary(call)
    ensures Front(base, CalledAll(base, r, calls)) % ALIGN == 0 <==> (base + r.start) % ALIGN == 0
  {
    OrdinaryRun(base, r, calls);
    hide Ordinary, CalledAll;
    SumOfUnits(base + r.start, CalledAll(base, r, calls).offset);
  }

  predicate Forward(call: Call) {
    call.Take? || call.Carve?
  }

  lemma ForwardKeeps(base: nat, r: Region, call: Call)
    requires r.Region? && Forward(call)
    ensures Front(base, Called(base, r, call)) % ALIGN == Front(base, r) % ALIGN
  {
    hide RoundUp;
    SumOfUnits(Front(base, r), RoundUp(call.request, ALIGN));
  }

  /** From any state on, calls that ask for no alignment and go back to no marker leave the alignment as it is. */
  lemma {:induction false} ForwardRun(base: nat, r: Region, calls: seq<Call>)
    requires r.Region? && forall call :: call in calls ==> Forward(call)
    ensures Front(base, CalledAll(base, r, calls)) % ALIGN == Front(base, r) % ALIGN
    decreases |calls|
  {
    hide Called, Front, Forward;
    if calls != [] {
      ForwardKeeps(base, r, calls[0]);
      ForwardRun(base, Called(base, r, calls[0]), calls[1..]);
    }
  }

  /** An aligned call that is granted moves the region onto the alignment, wherever it started: all pointers behind it
      are aligned until it goes back. */
  lemma RealignedRun(base: nat, r: Region, request: nat, alignment: nat, calls: seq<Call>)
    requires r.Region? && IsPowerOfTwo(alignment) && alignment >= ALIGN
    requires Granted(base, r, TakeAligned(request, alignment)) && forall call :: call in calls ==> Forward(call)
    ensures Front(base, CalledAll(base, Called(base, r, TakeAligned(request, alignment)), calls)) % ALIGN == 0
  {
    var r' := Called(base, r, TakeAligned(request, alignment));
    FrontMoves(base, r, request, alignment);
    AlignedByUnits(Front(base, r), alignment);
    hide *;
    ForwardRun(base, r', calls);
    SumOfUnits(Aligned(Front(base, r), alignment), RoundUp(request, ALIGN));
  }

  lemma FrontMoves(base: nat, r: Region, request: nat, alignment: nat)
    requires r.Region? && alignment > 0 && Granted(base, r, TakeAligned(request, alignment))
    ensures Front(base, Called(base, r, TakeAligned(request, alignment)))
            == Aligned(Front(base, r), alignment) + RoundUp(request, ALIGN)
  {
    hide RoundUp, Aligned;
  }

  lemma AlignedByUnits(x: nat, alignment: nat)
    requires IsPowerOfTwo(alignment) && alignment >= ALIGN
    ensures IsMultiple(Aligned(x, alignment), ALIGN)
  {
    AlignedIsMultiple(x, alignment);
    PowersByWords(alignment);
    hide *;
    MultipleOfDivisor(Aligned(x, alignment), ALIGN, alignment);
  }

  lemma MultipleOfDivisor(x: nat, a: nat, b: nat)
    requires a > 0 && b > 0 && IsMultiple(b, a) && IsMultiple(x, b)
    ensures IsMultiple(x, a)
  {
    MultiplesOfMultiples(x / b, b / a, a);
    assert x == x / b * b && b == b / a * a;
  }

  lemma MultiplesOfMultiples(a: nat, b: nat, unit: nat)
    requires unit > 0
    ensures a * (b * unit) % unit == 0
  {
    assert a * (b * unit) == a * b * unit;
    MultipleOf(a * b, unit);
  }

  /** An ordinary run on a region behind an arena block, whose end is 8 bytes off, yields no aligned pointer. */
  lemma BehindABlock(base: nat, r: Region, calls: seq<Call>)
    requires r.Region? && r.offset == 0 && (base + r.start) % ALIGN == GUARD
    requires forall call :: call in calls ==> Ordinary(call)
    ensures Front(base, CalledAll(base, r, calls)) % ALIGN != 0
  {
    hide Ordinary, CalledAll, Front;
    PointersAligned(base, r, calls);
  }

  /** With an aligned call in between it does: 8 bytes off, 16 bytes asked for at 16 and then plainly. */
  lemma RealignedBehindABlock()
    ensures var r := Region(8, 64, 0);
            var r' := Called(0, r, TakeAligned(16, 16));
            && Granted(0, r, TakeAligned(16, 16)) && Granted(0, r', Take(16)) && Front(0, r') % ALIGN == 0
  {
    var r := Region(8, 64, 0);
    assert IsPowerOfTwo(16) by { Sixteen(); }
    RealignedRun(0, r, 16, 16, []);
  }

  lemma Sixteen()
    ensures IsPowerOfTwo(16)
  {
  }
}
