/** The xbin format: its writer and its two loaders. */
module Xbin {
  import opened Common
  import opened Bytes
  import Text

  // ---------- C strings ----------

  /** Text that a C string can hold. */
  predicate CString(s: string) {
    forall i :: 0 <= i < |s| ==> 0 < s[i] as int < 256
  }

  function ToBytes(s: string): (b: seq<Byte>)
    requires CString(s)
    ensures |b| == |s|
  {
    seq(|s|, i requires 0 <= i < |s| => s[i] as int)
  }

  /** The C string at the start of a buffer: everything before the first zero byte. */
  function CText(b: seq<Byte>): (s: string)
    ensures CString(s) && |s| <= |b|
  {
    if b == [] || b[0] == 0 then [] else [b[0] as char] + CText(b[1..])
  }

  // ---------- operands ----------

  const REGISTERS: seq<string> := ["RAX", "RBX", "RCX", "RDX", "RSI", "RDI", "R8", "R9", "R10", "R11", "R12", "R13",
                                   "R14", "R15", "FR"]

  function UpperChar(c: char): char {
    if 'a' <= c <= 'z' then (c as int - 32) as char else c
  }

  function Upper(s: string): (u: string)
    ensures |u| == |s|
  {
    seq(|s|, i requires 0 <= i < |s| => UpperChar(s[i]))
  }

  /** The table index of a register name in any letter case, the table's length for other texts. */
  function RegisterId(s: string): (id: nat)
    ensures id <= |REGISTERS|
  {
    RegisterFrom(s, 0)
  }

  function RegisterFrom(s: string, k: nat): (id: nat)
    requires k <= |REGISTERS|
    ensures k <= id <= |REGISTERS|
    decreases |REGISTERS| - k
  {
    if k == |REGISTERS| || Upper(s) == Upper(REGISTERS[k]) then k else RegisterFrom(s, k + 1)
  }

  predicate IsRegister(s: string) {
    RegisterId(s) < |REGISTERS|
  }

  function SkipSpace(s: string): string {
    if s != [] && Text.IsSpace(s[0]) then SkipSpace(s[1..]) else s
  }

  function Unsigned(s: string): string {
    if s != [] && (s[0] == '-' || s[0] == '+') then s[1..] else s
  }

  /** Texts that strtol reads to the end. The empty text is one of them. */
  predicate IsNumber(s: string) {
    s == [] || (Unsigned(SkipSpace(s)) != [] && Text.AllDigits(Unsigned(SkipSpace(s))))
  }

  const INT64_MIN: int := -0x8000_0000_0000_0000
  const INT64_MAX: int := 0x7FFF_FFFF_FFFF_FFFF

  /** atoll on such a text: numbers out of range stop at the ends of the range. */
  function NumberValue(s: string): (v: int)
    ensures INT64_MIN <= v <= INT64_MAX
  {
    var t := SkipSpace(s);
    var n := Text.TrailingNumber(Unsigned(t));
    var v: int := if t != [] && t[0] == '-' then 0 - n else n;
    if v < INT64_MIN then INT64_MIN else if v > INT64_MAX then INT64_MAX else v
  }

  /** optimal_size: signed ranges for negative numbers, unsigned ones for the others. */
  function OptimalSize(v: int): (size: nat)
    ensures size in {1, 2, 4, 8}
  {
    if v < 0 then
      if v >= -0x80 then 1 else if v >= -0x8000 then 2 else if v >= -0x8000_0000 then 4 else 8
    else
      if v <= 0xFF then 1 else if v <= 0xFFFF then 2 else if v <= 0xFFFF_FFFF then 4 else 8
  }

  // ---------- programs ----------

  type U64 = x: int | 0 <= x < 0x1_0000_0000_0000_0000

  datatype Instruction = Instruction(opcode: Byte, line: U64, operands: seq<string>)

  datatype Label = Label(name: string, address: U64)

  /** The nine bytes of OrtaMeta. */
  datatype Meta = Meta(magic: seq<Byte>, flagsCount: Byte, flags: seq<Byte>)

  datatype Program = Program(meta: Meta, filename: string, instrs: seq<Instruction>, labels: seq<Label>)

  /** Flags as add_flag keeps them: at most four, different, each one of the four there are. */
  ghost predicate MetaValid(m: Meta) {
    && |m.magic| == 4 && |m.flags| == 4 && m.flagsCount <= 4
    && (forall i :: 0 <= i < m.flagsCount ==> 1 <= m.flags[i] <= 4)
    && (forall i, j :: 0 <= i < j < m.flagsCount ==> m.flags[i] != m.flags[j])
  }

  predicate TextFits(s: string) {
    CString(s) && |s| < WORD64
  }

  predicate InstructionFits(i: Instruction) {
    |i.operands| < WORD64 && forall k :: 0 <= k < |i.operands| ==> TextFits(i.operands[k])
  }

  /** Programs a 64-bit machine can hold: every text a C string, every count a size_t. */
  ghost predicate Storable(p: Program) {
    && MetaValid(p.meta) && TextFits(p.filename)
    && |p.instrs| < WORD64 && (forall k :: 0 <= k < |p.instrs| ==> InstructionFits(p.instrs[k]))
    && |p.labels| < WORD64 && (forall k :: 0 <= k < |p.labels| ==> TextFits(p.labels[k].name))
  }

  // ---------- flags ----------

  predicate HasFlag(m: Meta, flag: Byte)
    requires |m.flags| == 4 && m.flagsCount <= 4
  {
    flag in m.flags[..m.flagsCount]
  }

  function AddFlag(m: Meta, flag: Byte): (r: Meta)
    requires MetaValid(m) && 1 <= flag <= 4
    ensures MetaValid(r) && HasFlag(r, flag)
    ensures forall f :: HasFlag(m, f) ==> HasFlag(r, f)
  {
    if HasFlag(m, flag) then m
    else
      RoomForFlag(m, flag);
      var r := m.(flags := m.flags[m.flagsCount := flag], flagsCount := m.flagsCount + 1);
      assert r.flags[m.flagsCount] == flag;
      assert r.flags[..m.flagsCount] == m.flags[..m.flagsCount];
      r
  }

  lemma RoomForFlag(m: Meta, flag: Byte)
    requires MetaValid(m) && 1 <= flag <= 4 && !HasFlag(m, flag)
    ensures m.flagsCount < 4
  {
    var a, b, c, d := m.flags[0], m.flags[1], m.flags[2], m.flags[3];
    forall i | 0 <= i < m.flagsCount ensures m.flags[i] != flag {
      assert m.flags[i] == m.flags[..m.flagsCount][i];
    }
  }

  /** The flag set_flags adds for an opcode, 0 for none: the stack, memory and xcall flags. */
  function FlagOf(opcode: Byte): (f: Byte)
    ensures f <= 3
  {
    if opcode == 1 || opcode == 3 then 1
    else if opcode == 31 || opcode == 41 || opcode == 43 then 2
    else if opcode == 34 then 3
    else 0
  }

  function Flagged(m: Meta, instrs: seq<Instruction>): (r: Meta)
    requires MetaValid(m)
    ensures MetaValid(r)
    decreases instrs
  {
    if instrs == [] then m
    else
      var f := FlagOf(instrs[0].opcode);
      Flagged(if f == 0 then m else AddFlag(m, f), instrs[1..])
  }

  // ---------- writing ----------

  function EncodeText(s: string): seq<Byte>
    requires TextFits(s)
  {
    Little(|s|, 8) + ToBytes(s)
  }

  function EncodeNumber(v: int): seq<Byte>
    requires INT64_MIN <= v <= INT64_MAX
  {
    [OptimalSize(v) as int] + Little(v % WORD64, OptimalSize(v))
  }

  function EncodeOperand(s: string): seq<Byte>
    requires TextFits(s)
  {
    if IsRegister(s) then ['R' as int] + Little(RegisterId(s), 4)
    else if IsNumber(s) then ['N' as int] + EncodeNumber(NumberValue(s))
    else ['S' as int] + EncodeText(s)
  }

  function EncodeOperands(ss: seq<string>): seq<Byte>
    requires forall k :: 0 <= k < |ss| ==> TextFits(ss[k])
  {
    if ss == [] then [] else EncodeOperand(ss[0]) + EncodeOperands(ss[1..])
  }

  function EncodeInstruction(i: Instruction): seq<Byte>
    requires InstructionFits(i)
  {
    [i.opcode] + Little(i.line, 4) + Little(|i.operands|, 8) + EncodeOperands(i.operands)
  }

  function EncodeInstructions(code: seq<Instruction>): seq<Byte>
    requires forall k :: 0 <= k < |code| ==> InstructionFits(code[k])
  {
    if code == [] then [] else EncodeInstruction(code[0]) + EncodeInstructions(code[1..])
  }

  function EncodeLabel(l: Label): seq<Byte>
    requires TextFits(l.name)
  {
    EncodeText(l.name) + Little(l.address, 8)
  }

  function EncodeLabels(ls: seq<Label>): seq<Byte>
    requires forall k :: 0 <= k < |ls| ==> TextFits(ls[k].name)
  {
    if ls == [] then [] else EncodeLabel(ls[0]) + EncodeLabels(ls[1..])
  }

  function EncodeMeta(m: Meta): seq<Byte> {
    m.magic + [m.flagsCount] + m.flags
  }

  /** The file create_xbin writes. */
  function Save(p: Program): seq<Byte>
    requires Storable(p)
  {
    EncodeMeta(Flagged(p.meta, p.instrs)) + EncodeText(p.filename)
    + Little(|p.instrs|, 8) + EncodeInstructions(p.instrs)
    + Little(|p.labels|, 8) + EncodeLabels(p.labels)
  }

  // ---------- reading ----------

  /** The loader that reads a file, and the one that reads a buffer. */
  datatype Loader = FromFile | FromMemory

  /** A value read, and the cursor after it. */
  datatype Read<T> = Got(value: T, pos: nat) | Short

  function ReadBytes(data: seq<Byte>, pos: nat, n: nat): (r: Read<seq<Byte>>)
    ensures r.Got? ==> r.pos == pos + n <= |data| && |r.value| == n
  {
    if pos + n <= |data| then Got(data[pos..pos + n], pos + n) else Short
  }

  function ReadNat(data: seq<Byte>, pos: nat, n: nat): (r: Read<nat>)
    ensures r.Got? ==> r.pos == pos + n <= |data| && r.value < Radix(n)
  {
    var r := ReadBytes(data, pos, n);
    if r.Short? then Short else Got(FromLittle(r.value), r.pos)
  }

  function ReadText(data: seq<Byte>, pos: nat): (r: Read<string>)
    ensures r.Got? ==> pos < r.pos <= |data| && TextFits(r.value)
  {
    var n := ReadNat(data, pos, 8);
    if n.Short? then Short
    else
      var b := ReadBytes(data, n.pos, n.value);
      RadixValues();
      if b.Short? then Short else Got(CText(b.value), b.pos)
  }

  function SignExtend(v: nat, half: nat): int {
    if v >= half then v - 2 * half else v
  }

  /** The number in a field of a given size. Reading a file, `~0xFFFFFFFF` is an unsigned zero and a four-byte
      field is not extended; other sizes give 0, and only the memory loader steps over them. */
  function ReadNumber(l: Loader, data: seq<Byte>, pos: nat): (r: Read<int>)
    ensures r.Got? ==> pos < r.pos <= |data| && INT64_MIN <= r.value <= INT64_MAX
  {
    RadixValues();
    var size := ReadNat(data, pos, 1);
    if size.Short? then Short
    else if size.value in {1, 2, 4, 8} then
      var v := ReadNat(data, size.pos, size.value);
      if v.Short? then Short
      else if size.value == 1 then Got(SignExtend(v.value, 0x80), v.pos)
      else if size.value == 2 then Got(SignExtend(v.value, 0x8000), v.pos)
      else if size.value == 4 then Got(if l.FromFile? then v.value else SignExtend(v.value, 0x8000_0000), v.pos)
      else Got(SignExtend(v.value, 0x8000_0000_0000_0000), v.pos)
    else if l.FromFile? then Got(0, size.pos)
    else
      var b := ReadBytes(data, size.pos, size.value);
      if b.Short? then Short else Got(0, b.pos)
  }

  function ReadOperand(l: Loader, data: seq<Byte>, pos: nat): (r: Read<string>)
    ensures r.Got? ==> pos < r.pos <= |data|
  {
    var kind := ReadNat(data, pos, 1);
    if kind.Short? then Short
    else if kind.value == 'R' as int then
      var id := ReadNat(data, kind.pos, 4);
      if id.Short? || id.value >= |REGISTERS| then Short else Got(REGISTERS[id.value], id.pos)
    else if kind.value == 'N' as int then
      var v := ReadNumber(l, data, kind.pos);
      if v.Short? then Short else Got(Text.SignedDecimal(v.value), v.pos)
    else if kind.value == 'S' as int then ReadText(data, kind.pos)
    else Short
  }

  function ReadOperands(l: Loader, data: seq<Byte>, pos: nat, n: nat): (r: Read<seq<string>>)
    ensures r.Got? && pos <= |data| ==> pos <= r.pos <= |data|
    decreases n
  {
    if n == 0 then Got([], pos)
    else
      var first := ReadOperand(l, data, pos);
      if first.Short? then Short
      else
        var rest := ReadOperands(l, data, first.pos, n - 1);
        if rest.Short? then Short else Got([first.value] + rest.value, rest.pos)
  }

  function ReadInstruction(l: Loader, data: seq<Byte>, pos: nat): (r: Read<Instruction>)
    ensures r.Got? ==> pos < r.pos <= |data|
  {
    RadixValues();
    var opcode := ReadNat(data, pos, 1);
    if opcode.Short? then Short
    else
      var line := ReadNat(data, opcode.pos, 4);
      if line.Short? then Short
      else
        var count := ReadNat(data, line.pos, 8);
        if count.Short? then Short
        else
          var operands := ReadOperands(l, data, count.pos, count.value);
          if operands.Short? then Short
          else Got(Instruction(opcode.value, line.value, operands.value), operands.pos)
  }

  function ReadInstructions(l: Loader, data: seq<Byte>, pos: nat, n: nat): (r: Read<seq<Instruction>>)
    ensures r.Got? && pos <= |data| ==> pos <= r.pos <= |data|
    decreases n
  {
    if n == 0 then Got([], pos)
    else
      var first := ReadInstruction(l, data, pos);
      if first.Short? then Short
      else
        var rest := ReadInstructions(l, data, first.pos, n - 1);
        if rest.Short? then Short else Got([first.value] + rest.value, rest.pos)
  }

  function ReadLabel(data: seq<Byte>, pos: nat): (r: Read<Label>)
    ensures r.Got? ==> pos < r.pos <= |data|
  {
    RadixValues();
    var name := ReadText(data, pos);
    if name.Short? then Short
    else
      var address := ReadNat(data, name.pos, 8);
      if address.Short? then Short else Got(Label(name.value, address.value), address.pos)
  }

  function ReadLabels(data: seq<Byte>, pos: nat, n: nat): (r: Read<seq<Label>>)
    ensures r.Got? && pos <= |data| ==> pos <= r.pos <= |data|
    decreases n
  {
    if n == 0 then Got([], pos)
    else
      var first := ReadLabel(data, pos);
      if first.Short? then Short
      else
        var rest := ReadLabels(data, first.pos, n - 1);
        if rest.Short? then Short else Got([first.value] + rest.value, rest.pos)
  }

  function ReadMeta(data: seq<Byte>, pos: nat): (r: Read<Meta>)
    ensures r.Got? ==> pos < r.pos <= |data|
  {
    var b := ReadBytes(data, pos, 9);
    if b.Short? then Short else Got(Meta(b.value[..4], b.value[4], b.value[5..]), b.pos)
  }

  /** The program in a byte string and how much of the string it takes, Short where the loader returns 0. */
  function Load(l: Loader, data: seq<Byte>): (r: Read<Program>)
    ensures r.Got? ==> r.pos <= |data|
  {
    var meta := ReadMeta(data, 0);
    if meta.Short? then Short
    else
      var filename := ReadText(data, meta.pos);
      if filename.Short? then Short
      else
        var n := ReadNat(data, filename.pos, 8);
        if n.Short? then Short
        else
          var instrs := ReadInstructions(l, data, n.pos, n.value);
          if instrs.Short? then Short
          else
            var m := ReadNat(data, instrs.pos, 8);
            if m.Short? then Short
            else
              var labels := ReadLabels(data, m.pos, m.value);
              if labels.Short? then Short
              else Got(Program(meta.value, filename.value, instrs.value, labels.value), labels.pos)
  }

  // ---------- what survives ----------

  /** What becomes of a number on the way through a file. */
  function Shift(l: Loader, v: int): (r: int)
    requires INT64_MIN <= v <= INT64_MAX
    ensures INT64_MIN <= r <= INT64_MAX
  {
    if 128 <= v <= 255 then v - 0x100
    else if 32768 <= v <= 65535 then v - 0x1_0000
    else if l.FromFile? && -0x8000_0000 <= v <= -32769 then v + 0x1_0000_0000
    else if l.FromMemory? && 0x8000_0000 <= v <= 0xFFFF_FFFF then v - 0x1_0000_0000
    else v
  }

  function NormalOperand(l: Loader, s: string): string {
    if IsRegister(s) then REGISTERS[RegisterId(s)]
    else if IsNumber(s) then Text.SignedDecimal(Shift(l, NumberValue(s)))
    else s
  }

  function NormalOperands(l: Loader, ss: seq<string>): (r: seq<string>)
    ensures |r| == |ss|
  {
    seq(|ss|, k requires 0 <= k < |ss| => NormalOperand(l, ss[k]))
  }

  function NormalInstruction(l: Loader, i: Instruction): Instruction {
    Instruction(i.opcode, i.line % 0x1_0000_0000, NormalOperands(l, i.operands))
  }

  function NormalInstructions(l: Loader, code: seq<Instruction>): (r: seq<Instruction>)
    ensures |r| == |code|
  {
    seq(|code|, k requires 0 <= k < |code| => NormalInstruction(l, code[k]))
  }

  /** A program after one trip through a file. */
  function Normal(l: Loader, p: Program): Program
    requires MetaValid(p.meta)
  {
    Program(Flagged(p.meta, p.instrs), p.filename, NormalInstructions(l, p.instrs), p.labels)
  }
}
