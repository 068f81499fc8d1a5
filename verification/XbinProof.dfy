/** Which programs survive the xbin format, and how. */
module XbinProof {
  import opened Common
  import opened Bytes
  import opened Xbin
  import Text

  // ---------- numbers ----------

  lemma NatReadsBack(data: seq<Byte>, pos: nat, v: nat, k: nat)
    requires At(data, pos, Little(v, k))
    ensures ReadNat(data, pos, k) == Got(v % Radix(k), pos + k)
  {
    LittleReadsBack(v, k);
  }

  lemma ByteReadsBack(data: seq<Byte>, pos: nat, b: Byte)
    requires At(data, pos, [b])
    ensures ReadNat(data, pos, 1) == Got(b, pos + 1)
  {
    assert FromLittle([b]) == b + 256 * FromLittle([b][1..]);
  }

  /** The field a number is written in. */
  lemma FieldOf(v: int)
    requires INT64_MIN <= v <= INT64_MAX
    ensures v % WORD64 % Radix(OptimalSize(v)) == if v < 0 then v + Radix(OptimalSize(v)) else v
  {
    RadixValues();
    var size := OptimalSize(v);
    if v < 0 {
      Uniquely(v, WORD64, -1, v + WORD64);
      FieldOfNegative(v, size);
    } else {
      Uniquely(v, WORD64, 0, v);
      Uniquely(v, Radix(size), 0, v);
    }
  }

  /** Truncating a number to its field and extending it again. */
  lemma FieldShifts(l: Loader, v: int)
    requires INT64_MIN <= v <= INT64_MAX
    ensures var size := OptimalSize(v);
            var field := v % WORD64 % Radix(size);
            Shift(l, v) == (if size == 1 then SignExtend(field, 0x80)
                            else if size == 2 then SignExtend(field, 0x8000)
                            else if size == 4 then (if l.FromFile? then field else SignExtend(field, 0x8000_0000))
                            else SignExtend(field, 0x8000_0000_0000_0000))
  {
    hide Radix;
    RadixValues();
    FieldOf(v);
    var field := v % WORD64 % Radix(OptimalSize(v));
    assert field == if v < 0 then v + Radix(OptimalSize(v)) else v;
  }

  lemma FieldOfNegative(v: int, size: nat)
    requires INT64_MIN <= v < 0 && size in {1, 2, 4, 8} && -v <= Radix(size)
    ensures (v + WORD64) % Radix(size) == v + Radix(size)
  {
    RadixValues();
    if size == 1 {
      Uniquely(v + WORD64, 0x100, 0xFF_FFFF_FFFF_FFFF, v + 0x100);
    } else if size == 2 {
      Uniquely(v + WORD64, 0x1_0000, 0xFFFF_FFFF_FFFF, v + 0x1_0000);
    } else if size == 4 {
      Uniquely(v + WORD64, 0x1_0000_0000, 0xFFFF_FFFF, v + 0x1_0000_0000);
    } else {
      Uniquely(v + WORD64, WORD64, 0, v + WORD64);
    }
  }

  lemma NumberReadsBack(l: Loader, data: seq<Byte>, pos: nat, v: int)
    requires INT64_MIN <= v <= INT64_MAX && At(data, pos, EncodeNumber(v))
    ensures ReadNumber(l, data, pos) == Got(Shift(l, v), pos + |EncodeNumber(v)|)
  {
    hide Shift, SignExtend, ReadNat, At, OptimalSize, Little, Radix;
    var size := OptimalSize(v);
    AtSplits(data, pos, [size as int], Little(v % WORD64, size));
    ByteReadsBack(data, pos, size);
    NatReadsBack(data, pos + 1, v % WORD64, size);
    FieldShifts(l, v);
  }

  /** The number written in a field of a given width is the one the other loader also sees, but for four bytes. */
  lemma LoadersDifferBy(v: int)
    requires INT64_MIN <= v <= INT64_MAX
    ensures Shift(FromFile, v) == Shift(FromMemory, v) <==> !(OptimalSize(v) == 4 && v % 0x1_0000_0000 >= 0x8000_0000)
    ensures Shift(FromFile, v) != Shift(FromMemory, v) ==> Shift(FromFile, v) == Shift(FromMemory, v) + 0x1_0000_0000
  {
  }

  /** The numbers that come back unchanged from a file, and what becomes of the others. */
  lemma ExactSurvivors(v: int)
    requires INT64_MIN <= v <= INT64_MAX
    ensures Shift(FromFile, v) == v <==> !(128 <= v <= 255 || 32768 <= v <= 65535 || -0x8000_0000 <= v <= -32769)
    ensures 128 <= v <= 255 ==> Shift(FromFile, v) == v - 0x100
    ensures 32768 <= v <= 65535 ==> Shift(FromFile, v) == v - 0x1_0000
    ensures -0x8000_0000 <= v <= -32769 ==> Shift(FromFile, v) == v + 0x1_0000_0000
    ensures forall l :: Shift(l, Shift(l, v)) == Shift(l, v)
  {
  }

  // ---------- texts and operands ----------

  lemma {:induction false} CTextOfBytes(s: string)
    requires CString(s)
    ensures CText(ToBytes(s)) == s
  {
    if s != [] {
      assert ToBytes(s)[1..] == ToBytes(s[1..]);
      CTextOfBytes(s[1..]);
      assert s == [s[0]] + s[1..];
    }
  }

  lemma TextReadsBack(data: seq<Byte>, pos: nat, s: string)
    requires TextFits(s) && At(data, pos, EncodeText(s))
    ensures ReadText(data, pos) == Got(s, pos + |EncodeText(s)|)
  {
    hide ReadNat, Little, Radix, CText;
    AtSplits(data, pos, Little(|s|, 8), ToBytes(s));
    NatReadsBack(data, pos, |s|, 8);
    RadixValues();
    CTextOfBytes(s);
  }

  lemma RegisterReadsBack(l: Loader, data: seq<Byte>, pos: nat, id: nat)
    requires id < |REGISTERS| && At(data, pos, ['R' as int] + Little(id, 4))
    ensures ReadOperand(l, data, pos) == Got(REGISTERS[id], pos + 5)
  {
    hide ReadNat, ReadText, ReadNumber, At, Little, Radix, Text.SignedDecimal;
    AtSplits(data, pos, ['R' as int], Little(id, 4));
    ByteReadsBack(data, pos, 'R' as int);
    NatReadsBack(data, pos + 1, id, 4);
    RadixValues();
  }

  lemma NumeralReadsBack(l: Loader, data: seq<Byte>, pos: nat, v: int)
    requires INT64_MIN <= v <= INT64_MAX && At(data, pos, ['N' as int] + EncodeNumber(v))
    ensures ReadOperand(l, data, pos) == Got(Text.SignedDecimal(Shift(l, v)), pos + 1 + |EncodeNumber(v)|)
  {
    hide ReadNat, ReadText, ReadNumber, At, Little, Radix, Text.SignedDecimal, EncodeNumber, Shift;
    AtSplits(data, pos, ['N' as int], EncodeNumber(v));
    ByteReadsBack(data, pos, 'N' as int);
    NumberReadsBack(l, data, pos + 1, v);
  }

  lemma StringReadsBack(l: Loader, data: seq<Byte>, pos: nat, s: string)
    requires TextFits(s) && At(data, pos, ['S' as int] + EncodeText(s))
    ensures ReadOperand(l, data, pos) == Got(s, pos + 1 + |EncodeText(s)|)
  {
    hide ReadNat, ReadText, ReadNumber, At, Little, Radix, Text.SignedDecimal, EncodeText, TextFits;
    AtSplits(data, pos, ['S' as int], EncodeText(s));
    ByteReadsBack(data, pos, 'S' as int);
    TextReadsBack(data, pos + 1, s);
  }

  lemma OperandReadsBack(l: Loader, data: seq<Byte>, pos: nat, s: string)
    requires TextFits(s) && At(data, pos, EncodeOperand(s))
    ensures ReadOperand(l, data, pos) == Got(NormalOperand(l, s), pos + |EncodeOperand(s)|)
  {
    hide ReadOperand, At, Little, EncodeText, EncodeNumber, IsNumber, RegisterId, Shift, NumberValue, TextFits;
    if IsRegister(s) {
      RegisterReadsBack(l, data, pos, RegisterId(s));
    } else if IsNumber(s) {
      NumeralReadsBack(l, data, pos, NumberValue(s));
    } else {
      StringReadsBack(l, data, pos, s);
    }
  }

  lemma {:induction false} OperandsReadBack(l: Loader, data: seq<Byte>, pos: nat, ss: seq<string>)
    requires (forall k :: 0 <= k < |ss| ==> TextFits(ss[k])) && At(data, pos, EncodeOperands(ss))
    ensures ReadOperands(l, data, pos, |ss|) == Got(NormalOperands(l, ss), pos + |EncodeOperands(ss)|)
    decreases ss
  {
    hide ReadOperand, EncodeOperand, NormalOperand, At, TextFits;
    if ss != [] {
      AtSplits(data, pos, EncodeOperand(ss[0]), EncodeOperands(ss[1..]));
      OperandReadsBack(l, data, pos, ss[0]);
      OperandsReadBack(l, data, pos + |EncodeOperand(ss[0])|, ss[1..]);
      assert NormalOperands(l, ss) == [NormalOperand(l, ss[0])] + NormalOperands(l, ss[1..]);
    }
  }

  // ---------- instructions, labels, programs ----------

  lemma InstructionReadsBack(l: Loader, data: seq<Byte>, pos: nat, i: Instruction)
    requires InstructionFits(i) && At(data, pos, EncodeInstruction(i))
    ensures ReadInstruction(l, data, pos) == Got(NormalInstruction(l, i), pos + |EncodeInstruction(i)|)
  {
    hide ReadNat, ReadOperands, At, Little, Radix, EncodeOperands, NormalOperands;
    var count := |i.operands|;
    AtSplits(data, pos, [i.opcode] + Little(i.line, 4) + Little(count, 8), EncodeOperands(i.operands));
    AtSplits(data, pos, [i.opcode] + Little(i.line, 4), Little(count, 8));
    AtSplits(data, pos, [i.opcode], Little(i.line, 4));
    ByteReadsBack(data, pos, i.opcode);
    NatReadsBack(data, pos + 1, i.line, 4);
    NatReadsBack(data, pos + 5, count, 8);
    RadixValues();
    OperandsReadBack(l, data, pos + 13, i.operands);
  }

  lemma {:induction false} InstructionsReadBack(l: Loader, data: seq<Byte>, pos: nat, code: seq<Instruction>)
    requires (forall k :: 0 <= k < |code| ==> InstructionFits(code[k])) && At(data, pos, EncodeInstructions(code))
    ensures ReadInstructions(l, data, pos, |code|) == Got(NormalInstructions(l, code), pos + |EncodeInstructions(code)|)
    decreases code
  {
    hide ReadInstruction, EncodeInstruction, NormalInstruction, At, InstructionFits;
    if code != [] {
      AtSplits(data, pos, EncodeInstruction(code[0]), EncodeInstructions(code[1..]));
      InstructionReadsBack(l, data, pos, code[0]);
      InstructionsReadBack(l, data, pos + |EncodeInstruction(code[0])|, code[1..]);
      assert NormalInstructions(l, code) == [NormalInstruction(l, code[0])] + NormalInstructions(l, code[1..]);
    }
  }

  lemma LabelReadsBack(data: seq<Byte>, pos: nat, entry: Label)
    requires TextFits(entry.name) && At(data, pos, EncodeLabel(entry))
    ensures ReadLabel(data, pos) == Got(entry, pos + |EncodeLabel(entry)|)
  {
    hide ReadNat, ReadText, At, Little, Radix, EncodeText, TextFits;
    AtSplits(data, pos, EncodeText(entry.name), Little(entry.address, 8));
    TextReadsBack(data, pos, entry.name);
    NatReadsBack(data, pos + |EncodeText(entry.name)|, entry.address, 8);
    RadixValues();
  }

  lemma {:induction false} LabelsReadBack(data: seq<Byte>, pos: nat, ls: seq<Label>)
    requires (forall k :: 0 <= k < |ls| ==> TextFits(ls[k].name)) && At(data, pos, EncodeLabels(ls))
    ensures ReadLabels(data, pos, |ls|) == Got(ls, pos + |EncodeLabels(ls)|)
    decreases ls
  {
    hide ReadLabel, EncodeLabel, At, TextFits;
    if ls != [] {
      AtSplits(data, pos, EncodeLabel(ls[0]), EncodeLabels(ls[1..]));
      LabelReadsBack(data, pos, ls[0]);
      LabelsReadBack(data, pos + |EncodeLabel(ls[0])|, ls[1..]);
      assert ls == [ls[0]] + ls[1..];
    }
  }

  lemma MetaReadsBack(data: seq<Byte>, pos: nat, m: Meta)
    requires |m.magic| == 4 && |m.flags| == 4 && At(data, pos, EncodeMeta(m))
    ensures ReadMeta(data, pos) == Got(m, pos + |EncodeMeta(m)|)
  {
    var b := EncodeMeta(m);
    assert b[..4] == m.magic && b[4] == m.flagsCount && b[5..] == m.flags;
  }

  /** Loading a saved program gives its normal form and takes exactly the bytes that were written. */
  lemma SavedLoads(l: Loader, p: Program)
    requires Storable(p)
    ensures Load(l, Save(p)) == Got(Normal(l, p), |Save(p)|)
  {
    hide ReadNat, ReadText, ReadMeta, ReadInstructions, ReadLabels, At, Little, Radix, EncodeText, EncodeMeta, TextFits,
         EncodeInstructions, EncodeLabels, NormalInstructions, Flagged, InstructionFits;
    var data := Save(p);
    var meta := Flagged(p.meta, p.instrs);
    var a, b := EncodeMeta(meta), EncodeText(p.filename);
    var c, d := Little(|p.instrs|, 8), EncodeInstructions(p.instrs);
    var e, f := Little(|p.labels|, 8), EncodeLabels(p.labels);
    Whole(data);
    AtSplits(data, 0, a + b + c + d + e, f);
    AtSplits(data, 0, a + b + c + d, e);
    AtSplits(data, 0, a + b + c, d);
    AtSplits(data, 0, a + b, c);
    AtSplits(data, 0, a, b);
    MetaReadsBack(data, 0, meta);
    TextReadsBack(data, |a|, p.filename);
    NatReadsBack(data, |a| + |b|, |p.instrs|, 8);
    RadixValues();
    InstructionsReadBack(l, data, |a| + |b| + |c|, p.instrs);
    NatReadsBack(data, |a| + |b| + |c| + |d|, |p.labels|, 8);
    LabelsReadBack(data, |a| + |b| + |c| + |d| + |e|, p.labels);
  }

  lemma Whole(data: seq<Byte>)
    ensures At(data, 0, data)
  {
  }

  // ---------- shorter files ----------

  /** What a reader gets from the start of a byte string it also gets from the whole. */
  ghost predicate Extends<T>(r: Read<T>, r': Read<T>) {
    r.Got? ==> r' == r
  }

  lemma BytesExtend(data: seq<Byte>, more: seq<Byte>, pos: nat, n: nat)
    ensures Extends(ReadBytes(data, pos, n), ReadBytes(data + more, pos, n))
    ensures Extends(ReadNat(data, pos, n), ReadNat(data + more, pos, n))
  {
    if pos + n <= |data| {
      assert (data + more)[pos..pos + n] == data[pos..pos + n];
    }
  }

  lemma TextExtends(data: seq<Byte>, more: seq<Byte>, pos: nat)
    ensures Extends(ReadText(data, pos), ReadText(data + more, pos))
  {
    hide ReadBytes, ReadNat, CText;
    BytesExtend(data, more, pos, 8);
    var n := ReadNat(data, pos, 8);
    if n.Got? { BytesExtend(data, more, n.pos, n.value); }
  }

  lemma NumberExtends(l: Loader, data: seq<Byte>, more: seq<Byte>, pos: nat)
    ensures Extends(ReadNumber(l, data, pos), ReadNumber(l, data + more, pos))
  {
    hide ReadBytes, ReadNat, SignExtend;
    BytesExtend(data, more, pos, 1);
    var size := ReadNat(data, pos, 1);
    if size.Got? { BytesExtend(data, more, size.pos, size.value); }
  }

  lemma OperandExtends(l: Loader, data: seq<Byte>, more: seq<Byte>, pos: nat)
    ensures Extends(ReadOperand(l, data, pos), ReadOperand(l, data + more, pos))
  {
    hide ReadNat, ReadText, ReadNumber;
    BytesExtend(data, more, pos, 1);
    var kind := ReadNat(data, pos, 1);
    if kind.Got? {
      BytesExtend(data, more, kind.pos, 4);
      NumberExtends(l, data, more, kind.pos);
      TextExtends(data, more, kind.pos);
    }
  }

  lemma {:induction false} OperandsExtend(l: Loader, data: seq<Byte>, more: seq<Byte>, pos: nat, n: nat)
    ensures Extends(ReadOperands(l, data, pos, n), ReadOperands(l, data + more, pos, n))
    decreases n
  {
    hide ReadOperand;
    if n > 0 {
      OperandExtends(l, data, more, pos);
      var first := ReadOperand(l, data, pos);
      if first.Got? { OperandsExtend(l, data, more, first.pos, n - 1); }
    }
  }

  lemma InstructionExtends(l: Loader, data: seq<Byte>, more: seq<Byte>, pos: nat)
    ensures Extends(ReadInstruction(l, data, pos), ReadInstruction(l, data + more, pos))
  {
    hide ReadNat, ReadOperands;
    BytesExtend(data, more, pos, 1);
    BytesExtend(data, more, pos + 1, 4);
    BytesExtend(data, more, pos + 5, 8);
    var count := ReadNat(data, pos + 5, 8);
    if count.Got? { OperandsExtend(l, data, more, pos + 13, count.value); }
  }

  lemma {:induction false} InstructionsExtend(l: Loader, data: seq<Byte>, more: seq<Byte>, pos: nat, n: nat)
    ensures Extends(ReadInstructions(l, data, pos, n), ReadInstructions(l, data + more, pos, n))
    decreases n
  {
    hide ReadInstruction;
    if n > 0 {
      InstructionExtends(l, data, more, pos);
      var first := ReadInstruction(l, data, pos);
      if first.Got? { InstructionsExtend(l, data, more, first.pos, n - 1); }
    }
  }

  lemma LabelExtends(data: seq<Byte>, more: seq<Byte>, pos: nat)
    ensures Extends(ReadLabel(data, pos), ReadLabel(data + more, pos))
  {
    hide ReadNat, ReadText;
    TextExtends(data, more, pos);
    var name := ReadText(data, pos);
    if name.Got? { BytesExtend(data, more, name.pos, 8); }
  }

  lemma {:induction false} LabelsExtend(data: seq<Byte>, more: seq<Byte>, pos: nat, n: nat)
    ensures Extends(ReadLabels(data, pos, n), ReadLabels(data + more, pos, n))
    decreases n
  {
    hide ReadLabel;
    if n > 0 {
      LabelExtends(data, more, pos);
      var first := ReadLabel(data, pos);
      if first.Got? { LabelsExtend(data, more, first.pos, n - 1); }
    }
  }

  /** Bytes after the program a loader finds do not matter to it. */
  lemma LoadExtends(l: Loader, data: seq<Byte>, more: seq<Byte>)
    ensures Extends(Load(l, data), Load(l, data + more))
  {
    hide ReadBytes, ReadNat, ReadText, ReadInstructions, ReadLabels;
    BytesExtend(data, more, 0, 9);
    TextExtends(data, more, 9);
    var filename := ReadText(data, 9);
    if filename.Got? {
      BytesExtend(data, more, filename.pos, 8);
      var n := ReadNat(data, filename.pos, 8);
      if n.Got? {
        InstructionsExtend(l, data, more, n.pos, n.value);
        var instrs := ReadInstructions(l, data, n.pos, n.value);
        if instrs.Got? {
          BytesExtend(data, more, instrs.pos, 8);
          var m := ReadNat(data, instrs.pos, 8);
          if m.Got? { LabelsExtend(data, more, m.pos, m.value); }
        }
      }
    }
  }

  /** No proper prefix of a saved file loads. */
  lemma PrefixRejected(l: Loader, p: Program, k: nat)
    requires Storable(p) && k < |Save(p)|
    ensures Load(l, Save(p)[..k]).Short?
  {
    hide Load, Save;
    var data := Save(p);
    SavedLoads(l, p);
    LoadExtends(l, data[..k], data[k..]);
    assert data[..k] + data[k..] == data;
  }

  // ---------- a second trip ----------

  lemma {:induction false} FlagsStay(m: Meta, code: seq<Instruction>, f: Byte)
    requires MetaValid(m) && HasFlag(m, f)
    ensures HasFlag(Flagged(m, code), f)
    decreases code
  {
    hide HasFlag, MetaValid;
    if code != [] {
      var g := FlagOf(code[0].opcode);
      FlagsStay(if g == 0 then m else AddFlag(m, g), code[1..], f);
    }
  }

  lemma {:induction false} FlagsComplete(m: Meta, code: seq<Instruction>, k: nat)
    requires MetaValid(m) && k < |code|
    ensures FlagOf(code[k].opcode) == 0 || HasFlag(Flagged(m, code), FlagOf(code[k].opcode))
    decreases code
  {
    hide HasFlag, MetaValid;
    var g := FlagOf(code[0].opcode);
    var m' := if g == 0 then m else AddFlag(m, g);
    if k == 0 {
      if g != 0 { FlagsStay(m', code[1..], g); }
    } else {
      FlagsComplete(m', code[1..], k - 1);
    }
  }

  lemma {:induction false} NothingToAdd(m: Meta, code: seq<Instruction>)
    requires MetaValid(m)
    requires forall k :: 0 <= k < |code| ==> FlagOf(code[k].opcode) == 0 || HasFlag(m, FlagOf(code[k].opcode))
    ensures Flagged(m, code) == m
    decreases code
  {
    hide HasFlag, MetaValid;
    if code != [] {
      NothingToAdd(m, code[1..]);
    }
  }

  /** The metadata that set_flags leaves is not changed by another save, of these or of the loaded instructions. */
  lemma FlagsOnce(l: Loader, m: Meta, code: seq<Instruction>)
    requires MetaValid(m)
    ensures Flagged(Flagged(m, code), NormalInstructions(l, code)) == Flagged(m, code)
  {
    hide HasFlag, Flagged, FlagOf;
    var code' := NormalInstructions(l, code);
    forall k | 0 <= k < |code'|
      ensures FlagOf(code'[k].opcode) == 0 || HasFlag(Flagged(m, code), FlagOf(code'[k].opcode))
    {
      assert code'[k].opcode == code[k].opcode;
      FlagsComplete(m, code, k);
    }
    NothingToAdd(Flagged(m, code), code');
  }

  /** The decimal text of a number is read as that number. */
  lemma DecimalIsNumber(v: int)
    requires INT64_MIN <= v <= INT64_MAX
    ensures IsNumber(Text.SignedDecimal(v)) && NumberValue(Text.SignedDecimal(v)) == v
    ensures !IsRegister(Text.SignedDecimal(v)) && TextFits(Text.SignedDecimal(v))
  {
    var n := if v < 0 then -v else v;
    var s := Text.SignedDecimal(v);
    Text.DecimalReadsBack(n);
    assert SkipSpace(s) == s;
    assert Unsigned(s) == Text.Decimal(n) by {
      if v < 0 { assert ("-" + Text.Decimal(n))[1..] == Text.Decimal(n); }
    }
    NotRegister(s, 0);
    DecimalIsShort(n);
  }

  lemma {:induction false} DecimalIsShort(n: nat)
    ensures |Text.Decimal(n)| <= n + 1
  {
    if n >= 10 {
      DecimalIsShort(n / 10);
    }
  }

  lemma {:induction false} NotRegister(s: string, k: nat)
    requires k <= |REGISTERS| && s != [] && (Text.IsDigit(s[0]) || s[0] == '-')
    ensures RegisterFrom(s, k) == |REGISTERS|
    decreases |REGISTERS| - k
  {
    if k < |REGISTERS| {
      NotRegister(s, k + 1);
      assert REGISTERS[k][0] == 'R' || REGISTERS[k][0] == 'F';
      assert Upper(s)[0] != Upper(REGISTERS[k])[0];
    }
  }

  /** Each table name is found at its own index. */
  lemma TableNames(k: nat)
    requires k < |REGISTERS|
    ensures RegisterId(REGISTERS[k]) == k && TextFits(REGISTERS[k])
  {
    hide Upper;
    UpperSame(REGISTERS[k]);
    forall j | 0 <= j < k ensures Upper(REGISTERS[j]) != Upper(REGISTERS[k]) {
      UpperSame(REGISTERS[j]);
      NamesDiffer(j, k);
    }
    FoundAt(REGISTERS[k], 0, k);
  }

  lemma NamesDiffer(j: nat, k: nat)
    requires j < k < |REGISTERS|
    ensures REGISTERS[j] != REGISTERS[k]
  {
    var a, b := REGISTERS[j], REGISTERS[k];
    if |a| == |b| {
      assert a[1] != b[1] || a[|a| - 1] != b[|b| - 1];
    }
  }

  lemma UpperSame(s: string)
    requires s in REGISTERS
    ensures Upper(s) == s
  {
  }

  lemma {:induction false} FoundAt(s: string, from: nat, k: nat)
    requires from <= k < |REGISTERS| && Upper(s) == Upper(REGISTERS[k])
    requires forall j :: 0 <= j < k ==> Upper(REGISTERS[j]) != Upper(REGISTERS[k])
    ensures RegisterFrom(s, from) == k
    decreases k - from
  {
    hide Upper;
    if from < k {
      FoundAt(s, from + 1, k);
    }
  }

  lemma OperandSettles(l: Loader, s: string)
    requires TextFits(s)
    ensures TextFits(NormalOperand(l, s)) && NormalOperand(l, NormalOperand(l, s)) == NormalOperand(l, s)
  {
    hide RegisterId, IsNumber, NumberValue, TextFits;
    if IsRegister(s) {
      TableNames(RegisterId(s));
    } else if IsNumber(s) {
      DecimalIsNumber(Shift(l, NumberValue(s)));
      ExactSurvivors(NumberValue(s));
    }
  }

  lemma OperandsSettle(l: Loader, ss: seq<string>)
    requires forall k :: 0 <= k < |ss| ==> TextFits(ss[k])
    ensures forall k :: 0 <= k < |ss| ==> TextFits(NormalOperands(l, ss)[k])
    ensures NormalOperands(l, NormalOperands(l, ss)) == NormalOperands(l, ss)
  {
    hide NormalOperand, TextFits;
    forall k | 0 <= k < |ss|
      ensures TextFits(NormalOperands(l, ss)[k])
      ensures NormalOperands(l, NormalOperands(l, ss))[k] == NormalOperands(l, ss)[k]
    {
      OperandSettles(l, ss[k]);
    }
  }

  lemma InstructionsSettle(l: Loader, code: seq<Instruction>)
    requires forall k :: 0 <= k < |code| ==> InstructionFits(code[k])
    ensures forall k :: 0 <= k < |code| ==> InstructionFits(NormalInstructions(l, code)[k])
    ensures NormalInstructions(l, NormalInstructions(l, code)) == NormalInstructions(l, code)
  {
    hide NormalOperands, TextFits;
    forall k | 0 <= k < |code|
      ensures InstructionFits(NormalInstructions(l, code)[k])
      ensures NormalInstructions(l, NormalInstructions(l, code))[k] == NormalInstructions(l, code)[k]
    {
      OperandsSettle(l, code[k].operands);
    }
  }

  /** After one trip through a file, a second trip through the same loader changes nothing. */
  lemma SecondTripSettled(l: Loader, p: Program)
    requires Storable(p)
    ensures Storable(Normal(l, p))
    ensures Load(l, Save(Normal(l, p))) == Got(Normal(l, p), |Save(Normal(l, p))|)
  {
    hide Load, Save, NormalInstructions, Flagged, InstructionFits, TextFits, MetaValid;
    InstructionsSettle(l, p.instrs);
    FlagsOnce(l, p.meta, p.instrs);
    SavedLoads(l, Normal(l, p));
  }

  /** A four-byte number with its top bit set. */
  predicate TopBitSet(s: string) {
    && !IsRegister(s) && IsNumber(s)
    && OptimalSize(NumberValue(s)) == 4 && NumberValue(s) % 0x1_0000_0000 >= 0x8000_0000
  }

  /** On a saved file the two loaders give the same program except for four-byte numbers with the top bit set, which
      the file loader gives larger by 2^32. */
  lemma LoadersAgree(p: Program, i: nat, j: nat)
    requires Storable(p) && i < |p.instrs| && j < |p.instrs[i].operands|
    ensures var file, memory := Load(FromFile, Save(p)), Load(FromMemory, Save(p));
            && file.Got? && memory.Got? && file.pos == memory.pos
            && file.value.(instrs := []) == memory.value.(instrs := [])
            && |file.value.instrs| == |memory.value.instrs| == |p.instrs|
            && file.value.instrs[i].(operands := []) == memory.value.instrs[i].(operands := [])
            && |file.value.instrs[i].operands| == |memory.value.instrs[i].operands| == |p.instrs[i].operands|
            && var s := p.instrs[i].operands[j];
               var a, b := file.value.instrs[i].operands[j], memory.value.instrs[i].operands[j];
               && (a == b <==> !TopBitSet(s))
               && (TopBitSet(s) ==> IsNumber(a) && IsNumber(b) && NumberValue(a) == NumberValue(b) + 0x1_0000_0000)
  {
    hide Load, Save, Flagged, RegisterId, IsNumber, NumberValue, InstructionFits;
    SavedLoads(FromFile, p);
    SavedLoads(FromMemory, p);
    var s := p.instrs[i].operands[j];
    assert NormalInstructions(FromFile, p.instrs)[i].operands[j] == NormalOperand(FromFile, s);
    assert NormalInstructions(FromMemory, p.instrs)[i].operands[j] == NormalOperand(FromMemory, s);
    if !IsRegister(s) && IsNumber(s) {
      var v := NumberValue(s);
      LoadersDifferBy(v);
      DecimalIsNumber(Shift(FromFile, v));
      DecimalIsNumber(Shift(FromMemory, v));
    }
  }
}
