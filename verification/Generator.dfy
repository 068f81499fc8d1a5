/** The generator as it runs: code appended to a stream, a label counter, and the current break label. */
module Generator {
  import opened Words
  import opened Nyva
  import opened CodeGen
  import Machine

  class CodeGenerator {
    var out: seq<Item>
    var labelCounter: nat
    var breakLabel: BreakLabel
    /** The generator has exited with an error, or has used a freed label. */
    var failed: bool

    ghost function State(): Gen
      reads this
    {
      Gen(labelCounter, breakLabel, failed)
    }

    constructor ()
      ensures out == [] && State() == Gen(0, Unset, false)
    {
      out, labelCounter, breakLabel, failed := [], 0, Unset, false;
    }

    method Emit(instr: Machine.Instr)
      modifies this`out
      ensures out == old(out) + [Ins(instr)]
    {
      out := out + [Ins(instr)];
    }

    method EmitLabel(name: string)
      modifies this`out
      ensures out == old(out) + [Lbl(name)]
    {
      out := out + [Lbl(name)];
    }

    method CreateLabel(prefix: string) returns (name: string)
      modifies this`labelCounter
      ensures name == LabelName(prefix, old(labelCounter)) && labelCounter == old(labelCounter) + 1
    {
      name := LabelName(prefix, labelCounter);
      labelCounter := labelCounter + 1;
    }

    method GenerateExpression(e: Expr)
      modifies this`out, this`failed
      ensures out == old(out) + GenExpr(e)
      ensures State() == Checked(old(State()), e)
      decreases e, 1
    {
      match e
      case Num(n) => Emit(Machine.PushInt(n));
      case Text(s) => Emit(Machine.PushStr(s));
      case Name(x) => Emit(Machine.GetVar(x));
      case Bin(op, l, r) =>
        GenerateExpression(l);
        GenerateExpression(r);
        GenerateOperator(e);
      case Apply(_, _) => GenerateCall(e);
    }

    method GenerateCall(e: Expr)
      requires e.Apply?
      modifies this`out, this`failed
      ensures out == old(out) + GenExpr(e)
      ensures State() == Checked(old(State()), e)
      decreases e, 0
    {
      hide GenExprs;
      var f, args := e.name, e.args;
      if f == "@print" {
        GenerateArguments(args);
        Emit(Machine.Print);
      } else if f == "@inline" {
      } else if f == "@push" || f == "@pop" {
        if |args| == 1 {
          GenerateExpression(args[0]);
        } else {
          failed := true;
        }
      } else {
        GenerateArguments(args);
        Emit(Machine.PushInt(Wrap(|args|)));
        Emit(Machine.Call(f));
      }
    }

    method GenerateOperator(e: Expr)
      requires e.Bin?
      modifies this`out
      ensures out == old(out) + Operator(e)
    {
      if JoinsText(e) {
        Emit(Machine.Merge);
      } else {
        Emit(Machine.Alu(AluOf(e.op)));
        if e.op.Equals? {
          Emit(Machine.Not);
        }
      }
    }

    method GenerateArguments(args: seq<Expr>)
      modifies this`out, this`failed
      ensures out == old(out) + GenExprs(args)
      ensures failed == (old(failed) || exists i :: 0 <= i < |args| && ExprFails(args[i]))
      decreases args, 0
    {
      var i := 0;
      while i < |args|
        invariant 0 <= i <= |args|
        invariant out + GenExprs(args[i..]) == old(out) + GenExprs(args)
        invariant failed == (old(failed) || exists k :: 0 <= k < i && ExprFails(args[k]))
      {
        ghost var before := out;
        GenerateExpression(args[i]);
        assert args[i..][1..] == args[i + 1..];
        assert before + GenExprs(args[i..]) == out + GenExprs(args[i + 1..]);
        i := i + 1;
      }
    }

    /** codegen_generate_statement: a break gives nothing here. */
    method GenerateStatement(s: Stmt)
      modifies this
      ensures out == old(out) + GenStmt(s, false, old(State())).0
      ensures State() == GenStmt(s, false, old(State())).1
      decreases s, 2
    {
      match s
      case Declare(x, value) =>
        if value.Some? {
          GenerateExpression(value.value);
          Emit(Machine.SetVar(x));
        } else {
          Emit(Machine.Var(x));
        }
      case Assign(x, e) =>
        GenerateExpression(e);
        Emit(Machine.SetVar(x));
      case If(_, _, _) => GenerateIf(s);
      case While(_, _) => GenerateWhile(s);
      case For(_, _, _, _) => GenerateFor(s);
      case Break =>
      case Eval(e) =>
        if e.Apply? {
          GenerateExpression(e);
        } else {
          failed := true;
        }
      case Return(result) =>
        if result.Some? {
          GenerateExpression(result.value);
        }
        Emit(Machine.ToggleLocalScope);
        Emit(Machine.Ret);
      case Function(_, _, _) =>
      case Import(_) =>
    }

    /** codegen_generate_statement_with_break: a break jumps to the current break label. */
    method GenerateStatementWithBreak(s: Stmt)
      modifies this
      ensures out == old(out) + GenStmt(s, true, old(State())).0
      ensures State() == GenStmt(s, true, old(State())).1
      decreases s, 3
    {
      if s.Break? {
        if breakLabel.Inside? {
          Emit(Machine.Jmp(breakLabel.end));
        } else {
          failed := true;
        }
      } else {
        GenerateStatement(s);
      }
    }

    /** The loop over a body that may break. */
    method GenerateBody(body: seq<Stmt>)
      modifies this
      ensures out == old(out) + GenAll(body, true, old(State())).0
      ensures State() == GenAll(body, true, old(State())).1
      decreases body, 0
    {
      hide GenStmt;
      var i := 0;
      ghost var (code, end) := GenAll(body, true, State());
      while i < |body|
        invariant 0 <= i <= |body|
        invariant out + GenAll(body[i..], true, State()).0 == old(out) + code
        invariant GenAll(body[i..], true, State()).1 == end
      {
        assert body[i..][1..] == body[i + 1..];
        ghost var before, g := out, State();
        GenerateStatementWithBreak(body[i]);
        assert before + GenAll(body[i..], true, g).0 == out + GenAll(body[i + 1..], true, State()).0;
        i := i + 1;
      }
    }

    /** The loop over an else-branch or a function body, whose direct breaks are dropped. */
    method GenerateStatements(ss: seq<Stmt>)
      modifies this
      ensures out == old(out) + GenAll(ss, false, old(State())).0
      ensures State() == GenAll(ss, false, old(State())).1
      decreases ss, 0
    {
      hide GenStmt;
      var i := 0;
      ghost var (code, end) := GenAll(ss, false, State());
      while i < |ss|
        invariant 0 <= i <= |ss|
        invariant out + GenAll(ss[i..], false, State()).0 == old(out) + code
        invariant GenAll(ss[i..], false, State()).1 == end
      {
        assert ss[i..][1..] == ss[i + 1..];
        ghost var before, g := out, State();
        GenerateStatement(ss[i]);
        assert before + GenAll(ss[i..], false, g).0 == out + GenAll(ss[i + 1..], false, State()).0;
        i := i + 1;
      }
    }

    method GenerateIf(s: Stmt)
      requires s.If?
      modifies this
      ensures out == old(out) + GenStmt(s, false, old(State())).0
      ensures State() == GenStmt(s, false, old(State())).1
      decreases s, 1
    {
      hide LabelName, GenExpr, GenAll, ExprFails;
      var end := CreateLabel("if_end");
      GenerateExpression(s.cond);
      if s.els.NoElse? {
        Emit(Machine.JmpIf(end));
        GenerateBody(s.body);
      } else {
        var other := CreateLabel("else");
        Emit(Machine.JmpIf(other));
        GenerateBranches(s, end, other);
      }
      EmitLabel(end);
    }

    /** Both branches, and what stands between them. */
    method GenerateBranches(s: Stmt, end: string, other: string)
      requires s.If? && s.els.Else?
      modifies this
      ensures var (code, g1) := GenAll(s.body, true, old(State()));
              var (code', g2) := GenAll(s.els.body, false, g1);
              out == old(out) + code + [Ins(Machine.Jmp(end)), Lbl(other)] + code' && State() == g2
      decreases s, 0
    {
      hide GenAll;
      GenerateBody(s.body);
      Emit(Machine.Jmp(end));
      EmitLabel(other);
      GenerateStatements(s.els.body);
    }

    method GenerateWhile(s: Stmt)
      requires s.While?
      modifies this
      ensures out == old(out) + GenStmt(s, false, old(State())).0
      ensures State() == GenStmt(s, false, old(State())).1
      decreases s, 0
    {
      hide LabelName, GenExpr, GenAll;
      var start := CreateLabel("while_start");
      var end := CreateLabel("while_end");
      GenerateLoopHead(s.cond, start, end);
      GenerateBody(s.body);
      Emit(Machine.Jmp(start));
      EmitLabel(end);
      breakLabel := Freed;
    }

    method GenerateFor(s: Stmt)
      requires s.For?
      modifies this
      ensures out == old(out) + GenStmt(s, false, old(State())).0
      ensures State() == GenStmt(s, false, old(State())).1
      decreases s, 1
    {
      hide LabelName, GenExpr, GenAll, LoopCode;
      var start := CreateLabel("for_start");
      var end := CreateLabel("for_end");
      ghost var g := State();
      GenerateStatement(s.first);
      ghost var g0 := State();
      ghost var init := out;
      GenerateForLoop(s, start, end);
      ghost var (code, g1) := GenAll(s.body, true, Checked(g0.(brk := Inside(end)), s.cond));
      ghost var (code', g2) := GenStmt(s.update, false, g1);
      assert init + LoopCode(start, end, s.cond, code + code')
          == old(out) + (GenStmt(s.first, false, g).0 + LoopCode(start, end, s.cond, code + code'));
    }

    method GenerateForLoop(s: Stmt, start: string, end: string)
      requires s.For?
      modifies this
      ensures var (code, g1) := GenAll(s.body, true, Checked(old(State()).(brk := Inside(end)), s.cond));
              var (code', g2) := GenStmt(s.update, false, g1);
              out == old(out) + LoopCode(start, end, s.cond, code + code') && State() == g2.(brk := Freed)
      decreases s, 0
    {
      hide GenExpr, GenAll, GenStmt, ExprFails;
      GenerateLoopHead(s.cond, start, end);
      ghost var head := out;
      ghost var g0 := State();
      GenerateBody(s.body);
      GenerateStatement(s.update);
      ghost var (code, g1) := GenAll(s.body, true, g0);
      ghost var code' := GenStmt(s.update, false, g1).0;
      assert out == head + (code + code');
      Emit(Machine.Jmp(start));
      EmitLabel(end);
      breakLabel := Freed;
    }

    /** The start label of a loop, its condition, and the way out. */
    method GenerateLoopHead(cond: Expr, start: string, end: string)
      modifies this
      ensures out == old(out) + ([Lbl(start)] + GenExpr(cond) + [Ins(Machine.JmpIf(end))])
      ensures State() == Checked(old(State()), cond).(brk := Inside(end))
    {
      hide GenExpr, ExprFails;
      EmitLabel(start);
      GenerateExpression(cond);
      Emit(Machine.JmpIf(end));
      breakLabel := Inside(end);
    }

    /** codegen_generate_program for one parameterless `__entry`, on a new generator. */
    method GenerateEntryProgram(body: seq<Stmt>)
      requires out == [] && State() == Gen(0, Unset, false)
      modifies this
      ensures out == GenProgram(body).0 && State() == GenProgram(body).1
    {
      hide GenAll, LabelName;
      var error := CreateLabel("error_not_enough_args");
      EmitLabel(ENTRY);
      Emit(Machine.ToggleLocalScope);
      GenerateStatements(body);
      Emit(Machine.ToggleLocalScope);
      Emit(Machine.Halt);
      EmitLabel(error);
      Emit(Machine.PushStr("[%s ERROR] invalid amount of arguments"));
      Emit(Machine.Sprintf);
      Emit(Machine.Print);
      Emit(Machine.HaltWith(1));
    }
  }

  /** The assembler's loop: a label takes the next index and leaves a nop, an instruction follows the last one. */
  method AssembleAll(items: seq<Item>) returns (p: Machine.Program)
    ensures p == Assemble(items)
  {
    var instrs: seq<Machine.Instr> := [];
    var labels: seq<Machine.Label> := [];
    var i := 0;
    while i < |items|
      invariant 0 <= i <= |items|
      invariant instrs == Instructions(items)[..i]
      invariant labels + Labels(items[i..], i) == Labels(items, 0)
    {
      assert items[i..][1..] == items[i + 1..];
      match items[i] {
        case Lbl(name) =>
          labels := labels + [Machine.Label(name, i)];
          instrs := instrs + [Machine.Nop];
        case Ins(instr) =>
          instrs := instrs + [instr];
      }
      i := i + 1;
    }
    p := Machine.Program(instrs, labels);
  }
}
