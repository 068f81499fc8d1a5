/** The writer and the loaders as they run: a file that grows, and a cursor that moves over the bytes. */
module XbinFiles {
  import opened Common
  import opened Bytes
  import opened Xbin
  import Text

  /** The file being written. */
  class OutputFile {
    var contents: seq<Byte>

    constructor ()
      ensures contents == []
    {
      contents := [];
    }

    method Write(b: seq<Byte>)
      modifies this
      ensures contents == old(contents) + b
    {
      contents := contents + b;
    }

    method WriteText(s: string)
      requires TextFits(s)
      modifies this
      ensures contents == old(contents) + EncodeText(s)
    {
      Write(Little(|s|, 8));
      Write(ToBytes(s));
    }

    method WriteNumber(v: int)
      requires INT64_MIN <= v <= INT64_MAX
      modifies this
      ensures contents == old(contents) + EncodeNumber(v)
    {
      hide Little, OptimalSize;
      Write([OptimalSize(v)]);
      Write(Little(v % WORD64, OptimalSize(v)));
    }

    method WriteOperand(s: string)
      requires TextFits(s)
      modifies this
      ensures contents == old(contents) + EncodeOperand(s)
    {
      hide Little, EncodeText, EncodeNumber, RegisterId, IsNumber, NumberValue, TextFits;
      if IsRegister(s) {
        Write(['R' as int]);
        Write(Little(RegisterId(s), 4));
      } else if IsNumber(s) {
        Write(['N' as int]);
        WriteNumber(NumberValue(s));
      } else {
        Write(['S' as int]);
        WriteText(s);
      }
    }

    method WriteInstruction(instr: Instruction)
      requires InstructionFits(instr)
      modifies this
      ensures contents == old(contents) + EncodeInstruction(instr)
    {
      hide Little, EncodeOperand, TextFits;
      Write([instr.opcode]);
      Write(Little(instr.line, 4));
      Write(Little(|instr.operands|, 8));
      ghost var start := contents;
      assert start == old(contents) + ([instr.opcode] + Little(instr.line, 4) + Little(|instr.operands|, 8));
      var j := 0;
      while j < |instr.operands|
        invariant 0 <= j <= |instr.operands|
        invariant contents + EncodeOperands(instr.operands[j..]) == start + EncodeOperands(instr.operands)
      {
        ghost var before := contents;
        WriteOperand(instr.operands[j]);
        assert instr.operands[j..][1..] == instr.operands[j + 1..];
        assert before + EncodeOperands(instr.operands[j..]) == contents + EncodeOperands(instr.operands[j + 1..]);
        j := j + 1;
      }
      assert contents == start + EncodeOperands(instr.operands);
    }

    method WriteLabel(entry: Label)
      requires TextFits(entry.name)
      modifies this
      ensures contents == old(contents) + EncodeLabel(entry)
    {
      hide Little, EncodeText, TextFits;
      WriteText(entry.name);
      Write(Little(entry.address, 8));
    }

    method WriteInstructions(code: seq<Instruction>)
      requires forall k :: 0 <= k < |code| ==> InstructionFits(code[k])
      modifies this
      ensures contents == old(contents) + EncodeInstructions(code)
    {
      hide EncodeInstruction, InstructionFits;
      var i := 0;
      while i < |code|
        invariant 0 <= i <= |code|
        invariant contents + EncodeInstructions(code[i..]) == old(contents) + EncodeInstructions(code)
      {
        ghost var before := contents;
        WriteInstruction(code[i]);
        assert code[i..][1..] == code[i + 1..];
        assert before + EncodeInstructions(code[i..]) == contents + EncodeInstructions(code[i + 1..]);
        i := i + 1;
      }
    }

    method WriteLabels(labels: seq<Label>)
      requires forall k :: 0 <= k < |labels| ==> TextFits(labels[k].name)
      modifies this
      ensures contents == old(contents) + EncodeLabels(labels)
    {
      hide EncodeLabel, TextFits;
      var i := 0;
      while i < |labels|
        invariant 0 <= i <= |labels|
        invariant contents + EncodeLabels(labels[i..]) == old(contents) + EncodeLabels(labels)
      {
        ghost var before := contents;
        WriteLabel(labels[i]);
        assert labels[i..][1..] == labels[i + 1..];
        assert before + EncodeLabels(labels[i..]) == contents + EncodeLabels(labels[i + 1..]);
        i := i + 1;
      }
    }

    /** create_xbin. */
    method CreateXbin(p: Program)
      requires Storable(p) && contents == []
      modifies this
      ensures contents == Save(p)
    {
      hide Little, EncodeText, EncodeInstructions, EncodeLabels, Flagged, InstructionFits, TextFits, MetaValid;
      var meta := SetFlags(p.meta, p.instrs);
      Write(meta.magic);
      Write([meta.flagsCount]);
      Write(meta.flags);
      WriteText(p.filename);
      Write(Little(|p.instrs|, 8));
      WriteInstructions(p.instrs);
      Write(Little(|p.labels|, 8));
      WriteLabels(p.labels);
    }
  }

  /** set_flags: one pass over the instructions. */
  method SetFlags(m: Meta, code: seq<Instruction>) returns (r: Meta)
    requires MetaValid(m)
    ensures r == Flagged(m, code)
  {
    hide AddFlag, FlagOf;
    r := m;
    var i := 0;
    while i < |code|
      invariant 0 <= i <= |code| && MetaValid(r)
      invariant Flagged(r, code[i..]) == Flagged(m, code)
    {
      assert code[i..][1..] == code[i + 1..];
      var f := FlagOf(code[i].opcode);
      if f != 0 {
        r := AddFlag(r, f);
      }
      i := i + 1;
    }
  }

  /** Bytes being loaded, and how far the loader has come. */
  class Input {
    const loader: Loader
    const data: seq<Byte>
    var pos: nat

    constructor (l: Loader, bytes: seq<Byte>)
      ensures loader == l && data == bytes && pos == 0
    {
      loader, data, pos := l, bytes, 0;
    }

    /** fread of n bytes, or a bounds check and memcpy. */
    method Take(n: nat) returns (ok: bool, b: seq<Byte>)
      modifies this
      ensures ok == ReadBytes(data, old(pos), n).Got?
      ensures ok ==> Got(b, pos) == ReadBytes(data, old(pos), n)
    {
      ok, b := pos + n <= |data|, [];
      if ok {
        b := data[pos..pos + n];
        pos := pos + n;
      }
    }

    method TakeNat(n: nat) returns (ok: bool, v: nat)
      modifies this
      ensures ok == ReadNat(data, old(pos), n).Got?
      ensures ok ==> Got(v, pos) == ReadNat(data, old(pos), n)
    {
      var b;
      ok, b := Take(n);
      v := FromLittle(b);
    }

    method TakeText() returns (ok: bool, s: string)
      modifies this
      ensures ok == ReadText(data, old(pos)).Got?
      ensures ok ==> Got(s, pos) == ReadText(data, old(pos))
    {
      hide ReadBytes, ReadNat, CText;
      s := [];
      var n, b;
      ok, n := TakeNat(8);
      if ok {
        ok, b := Take(n);
        s := CText(b);
      }
    }

    /** The number of an 'N' operand, by the rules of this loader. */
    method TakeNumber() returns (ok: bool, v: int)
      modifies this
      ensures ok == ReadNumber(loader, data, old(pos)).Got?
      ensures ok ==> Got(v, pos) == ReadNumber(loader, data, old(pos))
    {
      hide ReadBytes, ReadNat, SignExtend;
      RadixValues();
      v := 0;
      var size;
      ok, size := TakeNat(1);
      if ok {
        if size in {1, 2, 4, 8} {
          var n;
          ok, n := TakeNat(size);
          if ok {
            v := if size == 1 then SignExtend(n, 0x80)
                 else if size == 2 then SignExtend(n, 0x8000)
                 else if size == 4 then (if loader.FromFile? then n else SignExtend(n, 0x8000_0000))
                 else SignExtend(n, 0x8000_0000_0000_0000);
          }
        } else if loader.FromMemory? {
          var b;
          ok, b := Take(size);
        }
      }
    }

    method TakeOperand() returns (ok: bool, s: string)
      modifies this
      ensures ok == ReadOperand(loader, data, old(pos)).Got?
      ensures ok ==> Got(s, pos) == ReadOperand(loader, data, old(pos))
    {
      hide ReadNat, ReadText, ReadNumber, Text.SignedDecimal;
      s := [];
      var kind;
      ok, kind := TakeNat(1);
      if ok {
        if kind == 'R' as int {
          var id;
          ok, id := TakeNat(4);
          if ok {
            ok := id < |REGISTERS|;
            s := if ok then REGISTERS[id] else [];
          }
        } else if kind == 'N' as int {
          var v;
          ok, v := TakeNumber();
          s := Text.SignedDecimal(v);
        } else if kind == 'S' as int {
          ok, s := TakeText();
        } else {
          ok := false;
        }
      }
    }

    method TakeOperands(n: nat) returns (ok: bool, ss: seq<string>)
      modifies this
      ensures ok == ReadOperands(loader, data, old(pos), n).Got?
      ensures ok ==> Got(ss, pos) == ReadOperands(loader, data, old(pos), n)
    {
      hide ReadOperand;
      ok, ss := true, [];
      var j := 0;
      ghost var whole := ReadOperands(loader, data, pos, n);
      PrependNothing(whole);
      while j < n
        invariant 0 <= j <= n && ok
        invariant Prepend(ss, ReadOperands(loader, data, pos, n - j)) == whole
      {
        ghost var start := pos;
        var s;
        ok, s := TakeOperand();
        if !ok {
          return;
        }
        PrependMore(ss, s, ReadOperands(loader, data, pos, n - j - 1));
        ss := ss + [s];
        j := j + 1;
      }
      assert ss + [] == ss;
    }

    method TakeInstruction() returns (ok: bool, instr: Instruction)
      modifies this
      ensures ok == ReadInstruction(loader, data, old(pos)).Got?
      ensures ok ==> Got(instr, pos) == ReadInstruction(loader, data, old(pos))
    {
      hide ReadNat, ReadOperands;
      RadixValues();
      instr := Instruction(0, 0, []);
      var opcode, line, count, operands;
      ok, opcode := TakeNat(1);
      if !ok { return; }
      ok, line := TakeNat(4);
      if !ok { return; }
      ok, count := TakeNat(8);
      if !ok { return; }
      ok, operands := TakeOperands(count);
      if !ok { return; }
      instr := Instruction(opcode, line, operands);
    }

    method TakeInstructions(n: nat) returns (ok: bool, code: seq<Instruction>)
      modifies this
      ensures ok == ReadInstructions(loader, data, old(pos), n).Got?
      ensures ok ==> Got(code, pos) == ReadInstructions(loader, data, old(pos), n)
    {
      hide ReadInstruction;
      ok, code := true, [];
      var i := 0;
      ghost var whole := ReadInstructions(loader, data, pos, n);
      PrependNothing(whole);
      while i < n
        invariant 0 <= i <= n && ok
        invariant Prepend(code, ReadInstructions(loader, data, pos, n - i)) == whole
      {
        var instr;
        ok, instr := TakeInstruction();
        if !ok {
          return;
        }
        PrependMore(code, instr, ReadInstructions(loader, data, pos, n - i - 1));
        code := code + [instr];
        i := i + 1;
      }
      assert code + [] == code;
    }

    method TakeLabels(n: nat) returns (ok: bool, labels: seq<Label>)
      modifies this
      ensures ok == ReadLabels(data, old(pos), n).Got?
      ensures ok ==> Got(labels, pos) == ReadLabels(data, old(pos), n)
    {
      hide ReadText, ReadNat;
      RadixValues();
      ok, labels := true, [];
      var i := 0;
      ghost var whole := ReadLabels(data, pos, n);
      PrependNothing(whole);
      while i < n
        invariant 0 <= i <= n && ok
        invariant Prepend(labels, ReadLabels(data, pos, n - i)) == whole
      {
        var name, address;
        ok, name := TakeText();
        if !ok { return; }
        ok, address := TakeNat(8);
        if !ok { return; }
        PrependMore(labels, Label(name, address), ReadLabels(data, pos, n - i - 1));
        labels := labels + [Label(name, address)];
        i := i + 1;
      }
      assert labels + [] == labels;
    }

    /** load_xbin and load_bytecode_from_memory. */
    method LoadProgram() returns (ok: bool, p: Program)
      requires pos == 0
      modifies this
      ensures ok == Load(loader, data).Got?
      ensures ok ==> Got(p, pos) == Load(loader, data)
    {
      hide ReadNat, ReadText, ReadInstructions, ReadLabels;
      p := Program(Meta([], 0, []), [], [], []);
      var meta, filename, n, code, m, labels;
      ok, meta := Take(9);
      if !ok { return; }
      ok, filename := TakeText();
      if !ok { return; }
      ok, n := TakeNat(8);
      if !ok { return; }
      ok, code := TakeInstructions(n);
      if !ok { return; }
      ok, m := TakeNat(8);
      if !ok { return; }
      ok, labels := TakeLabels(m);
      if !ok { return; }
      p := Program(Meta(meta[..4], meta[4], meta[5..]), filename, code, labels);
    }
  }

  /** A list read so far, before what is still to be read. */
  ghost function Prepend<T>(done: seq<T>, r: Read<seq<T>>): Read<seq<T>> {
    if r.Got? then Got(done + r.value, r.pos) else Short
  }

  lemma PrependNothing<T>(r: Read<seq<T>>)
    ensures Prepend([], r) == r
  {
    if r.Got? {
      assert [] + r.value == r.value;
    }
  }

  lemma PrependMore<T>(done: seq<T>, x: T, r: Read<seq<T>>)
    ensures Prepend(done, if r.Got? then Got([x] + r.value, r.pos) else Short) == Prepend(done + [x], r)
  {
    if r.Got? {
      assert done + ([x] + r.value) == done + [x] + r.value;
    }
  }
}
