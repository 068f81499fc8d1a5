/** The flag bytes of a saved file. */
module XbinFlags {
  import opened Common
  import opened Bytes
  import opened Xbin
  import opened XbinProof

  // The places in the instruction enumeration of the instructions that have a flag.
  const PUSH: Byte := 1
  const POP: Byte := 3
  const ALLOC: Byte := 31
  const XCALL: Byte := 34
  const READMEM: Byte := 41
  const WRITEMEM: Byte := 43

  const STACK: Byte := 1
  const MEMORY: Byte := 2
  const FOREIGN: Byte := 3

  /** Some instruction asks for a flag. */
  ghost predicate Asked(code: seq<Instruction>, flag: Byte) {
    exists k :: 0 <= k < |code| && Asks(code[k].opcode, flag)
  }

  predicate Asks(opcode: Byte, flag: Byte) {
    || (flag == STACK && opcode in {PUSH, POP})
    || (flag == MEMORY && opcode in {ALLOC, READMEM, WRITEMEM})
    || (flag == FOREIGN && opcode == XCALL)
  }

  /** The flags in a file: those in front of the count it gives. */
  function FlagBytes(file: seq<Byte>): seq<Byte>
    requires |file| >= 9 && file[4] <= 4
  {
    file[5..5 + file[4]]
  }

  lemma AskedFlag(opcode: Byte, flag: Byte)
    requires flag > 0
    ensures FlagOf(opcode) == flag <==> Asks(opcode, flag)
  {
  }

  lemma AddedFlag(m: Meta, flag: Byte, f: Byte)
    requires MetaValid(m) && 1 <= flag <= 4
    ensures var r := AddFlag(m, flag);
            && (HasFlag(r, f) <==> HasFlag(m, f) || f == flag)
            && r.magic == m.magic && m.flagsCount <= r.flagsCount
            && r.flags[..m.flagsCount] == m.flags[..m.flagsCount]
            && r.flags[r.flagsCount..] == m.flags[r.flagsCount..]
  {
    if !HasFlag(m, flag) {
      RoomForFlag(m, flag);
      var r := AddFlag(m, flag);
      assert r.flags[..r.flagsCount] == m.flags[..m.flagsCount] + [flag];
    }
  }

  /** What set_flags does to the flags there are. */
  ghost predicate Extended(m: Meta, r: Meta)
    requires MetaValid(m) && MetaValid(r)
  {
    && r.magic == m.magic && m.flagsCount <= r.flagsCount
    && r.flags[..m.flagsCount] == m.flags[..m.flagsCount]
    && r.flags[r.flagsCount..] == m.flags[r.flagsCount..]
  }

  lemma ExtendedTwice(a: Meta, b: Meta, c: Meta)
    requires MetaValid(a) && MetaValid(b) && MetaValid(c) && Extended(a, b) && Extended(b, c)
    ensures Extended(a, c)
  {
    assert c.flags[..a.flagsCount] == c.flags[..b.flagsCount][..a.flagsCount];
    assert a.flags[c.flagsCount..] == a.flags[b.flagsCount..][c.flagsCount - b.flagsCount..];
    assert b.flags[c.flagsCount..] == b.flags[b.flagsCount..][c.flagsCount - b.flagsCount..];
  }

  lemma AskedFirst(code: seq<Instruction>, flag: Byte)
    requires code != []
    ensures Asked(code, flag) <==> Asks(code[0].opcode, flag) || Asked(code[1..], flag)
  {
    if Asked(code[1..], flag) {
      var k :| 0 <= k < |code[1..]| && Asks(code[1..][k].opcode, flag);
      assert code[k + 1] == code[1..][k];
    }
    if Asked(code, flag) && !Asks(code[0].opcode, flag) {
      var k :| 0 <= k < |code| && Asks(code[k].opcode, flag);
      assert code[1..][k - 1] == code[k];
    }
  }

  lemma {:induction false} FlagsAre(m: Meta, code: seq<Instruction>, f: Byte)
    requires MetaValid(m) && f > 0
    ensures HasFlag(Flagged(m, code), f) <==> HasFlag(m, f) || Asked(code, f)
    ensures Extended(m, Flagged(m, code))
    decreases |code|
  {
    if code != [] {
      var g := FlagOf(code[0].opcode);
      var m' := if g == 0 then m else AddFlag(m, g);
      AskedFirst(code, f);
      AskedFlag(code[0].opcode, f);
      hide HasFlag, AddFlag, FlagOf, Asks, Asked;
      if g != 0 { AddedFlag(m, g, f); }
      FlagsAre(m', code[1..], f);
      ExtendedTwice(m, m', Flagged(m', code[1..]));
    }
  }

  lemma SavedMeta(p: Program)
    requires Storable(p)
    ensures var m, file := Flagged(p.meta, p.instrs), Save(p);
            && MetaValid(m) && |file| >= 9 && file[..4] == m.magic && file[4] == m.flagsCount <= 4
            && FlagBytes(file) == m.flags[..m.flagsCount] && file[5 + file[4]..9] == m.flags[m.flagsCount..]
  {
    var m := Flagged(p.meta, p.instrs);
    hide EncodeText, EncodeInstructions, EncodeLabels, Little, Flagged;
    MetaFirst(m, Save(p));
  }

  lemma MetaFirst(m: Meta, file: seq<Byte>)
    requires MetaValid(m) && EncodeMeta(m) <= file
    ensures |file| >= 9 && file[..4] == m.magic && file[4] == m.flagsCount
    ensures FlagBytes(file) == m.flags[..m.flagsCount] && file[5 + file[4]..9] == m.flags[m.flagsCount..]
  {
    var meta := m.magic + [m.flagsCount] + m.flags;
    assert |meta| == 9 && file[..9] == meta;
    assert file[..4] == file[..9][..4] == meta[..4] && file[4] == file[..9][4] == meta[4];
    var n := m.flagsCount;
    assert file[5..5 + n] == file[..9][5..5 + n] == meta[5..5 + n] && file[5 + n..9] == file[..9][5 + n..] == meta[5 + n..];
  }

  /** A saved file has the stack flag if and only if it had it before or has a push or a pop, the memory flag with an
      allocation or an access to memory, and the flag of foreign calls with one. Earlier flags keep their places. */
  lemma SavedFlags(p: Program)
    requires Storable(p)
    ensures var before, file := p.meta.flags[..p.meta.flagsCount], Save(p);
            && |file| >= 9 && file[..4] == p.meta.magic && |before| <= file[4] <= 4 && before <= FlagBytes(file)
            && (forall f :: f > 0 ==> (f in FlagBytes(file) <==> f in before || Asked(p.instrs, f)))
            && file[5 + file[4]..9] == p.meta.flags[file[4]..]
  {
    SavedMeta(p);
    StorableMeta(p);
    hide Save, Flagged, Asked, MetaValid, Storable;
    FlagsAre(p.meta, p.instrs, 1);
    forall f: Byte | f > 0
      ensures f in FlagBytes(Save(p)) <==> f in p.meta.flags[..p.meta.flagsCount] || Asked(p.instrs, f)
    {
      FlagsAre(p.meta, p.instrs, f);
    }
    var m := Flagged(p.meta, p.instrs);
    assert p.meta.flags[..p.meta.flagsCount] <= m.flags[..m.flagsCount] by {
      assert m.flags[..m.flagsCount][..p.meta.flagsCount] == m.flags[..p.meta.flagsCount];
    }
  }

  lemma StorableMeta(p: Program)
    requires Storable(p)
    ensures MetaValid(p.meta) && |p.meta.flags| == 4 && p.meta.flagsCount <= 4 && |p.meta.magic| == 4
  {
  }

  lemma {:induction false} FlaggedJoins(m: Meta, a: seq<Instruction>, b: seq<Instruction>)
    requires MetaValid(m)
    ensures Flagged(m, a + b) == Flagged(Flagged(m, a), b)
    decreases |a|
  {
    hide AddFlag, FlagOf;
    if a == [] {
      assert a + b == b;
    } else {
      assert (a + b)[1..] == a[1..] + b;
      var f := FlagOf(a[0].opcode);
      FlaggedJoins(if f == 0 then m else AddFlag(m, f), a[1..], b);
    }
  }

  /** Flags are added in the order in which instructions first ask for them: the file of a program's first instructions has
      the first of its flags. */
  lemma FlagsInOrder(p: Program, k: nat)
    requires Storable(p) && k <= |p.instrs|
    ensures var q := p.(instrs := p.instrs[..k]);
            && Storable(q) && |Save(q)| >= 9 && |Save(p)| >= 9 && Save(q)[4] <= Save(p)[4] <= 4
            && FlagBytes(Save(q)) <= FlagBytes(Save(p))
  {
    var q := p.(instrs := p.instrs[..k]);
    assert p.instrs == p.instrs[..k] + p.instrs[k..];
    SavedMeta(p);
    SavedMeta(q);
    StorableMeta(p);
    FlagsExtended(p.meta, p.instrs[..k], p.instrs[k..]);
    hide *;
    ExtendedFlags(Flagged(q.meta, q.instrs), Flagged(p.meta, p.instrs));
  }

  lemma FlagsExtended(m: Meta, a: seq<Instruction>, b: seq<Instruction>)
    requires MetaValid(m)
    ensures Extended(Flagged(m, a), Flagged(m, a + b))
  {
    hide Flagged, Asked, HasFlag, MetaValid;
    FlaggedJoins(m, a, b);
    FlagsAre(Flagged(m, a), b, 1);
  }

  lemma ExtendedFlags(m: Meta, r: Meta)
    requires MetaValid(m) && MetaValid(r) && Extended(m, r)
    ensures m.flagsCount <= r.flagsCount && m.flags[..m.flagsCount] <= r.flags[..r.flagsCount]
  {
    assert r.flags[..r.flagsCount][..m.flagsCount] == r.flags[..m.flagsCount];
  }
}
