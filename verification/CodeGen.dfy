/** The Nyva code generator: labels and instructions. */
module CodeGen {
  import opened Words
  import opened Nyva
  import Text
  import Machine

  /** One line of generated assembly: a label or an instruction. */
  datatype Item = Lbl(name: string) | Ins(instr: Machine.Instr)

  /** The global `current_break_label`: none yet, the end label of the loop being generated, or a label
      that was freed when its loop was finished. */
  datatype BreakLabel = Unset | Inside(end: string) | Freed

  /** The generator's running state; `failed` once it has exited with an error or used a freed label. */
  datatype Gen = Gen(counter: nat, brk: BreakLabel, failed: bool)

  function LabelName(prefix: string, k: nat): string {
    "__" + prefix + "_" + Text.Decimal(k)
  }

  // ---------- expressions ----------

  function AluOf(op: BinOp): Machine.AluOp {
    match op
    case Plus => Machine.Add
    case Minus => Machine.Sub
    case Times => Machine.Mul
    case Over => Machine.Div
    case Modulo => Machine.Mod
    case Greater => Machine.Gt
    case Less => Machine.Lt
    case Equals => Machine.Eq
    case Differs => Machine.Eq
  }

  /** The instructions after both operands. */
  function Operator(e: Expr): seq<Item>
    requires e.Bin?
  {
    if JoinsText(e) then [Ins(Machine.Merge)]
    else if e.op.Equals? then [Ins(Machine.Alu(Machine.Eq)), Ins(Machine.Not)]
    else [Ins(Machine.Alu(AluOf(e.op)))]
  }

  function GenExpr(e: Expr): seq<Item> {
    match e
    case Num(n) => [Ins(Machine.PushInt(n))]
    case Text(s) => [Ins(Machine.PushStr(s))]
    case Name(x) => [Ins(Machine.GetVar(x))]
    case Bin(op, l, r) => GenExpr(l) + GenExpr(r) + Operator(e)
    case Apply(f, args) =>
      if f == "@print" then GenExprs(args) + [Ins(Machine.Print)]
      else if f == "@inline" then []
      else if f == "@push" || f == "@pop" then (if |args| == 1 then GenExpr(args[0]) else [])
      else GenExprs(args) + [Ins(Machine.PushInt(Wrap(|args|))), Ins(Machine.Call(f))]
  }

  function GenExprs(es: seq<Expr>): seq<Item> {
    if es == [] then [] else GenExpr(es[0]) + GenExprs(es[1..])
  }

  /** `@push` and `@pop` stop the generator unless they have one argument. */
  predicate ExprFails(e: Expr) {
    match e
    case Bin(_, l, r) => ExprFails(l) || ExprFails(r)
    case Apply(f, args) =>
      if f == "@inline" then false
      else ((f == "@push" || f == "@pop") && |args| != 1) || exists i :: 0 <= i < |args| && ExprFails(args[i])
    case _ => false
  }

  // ---------- statements ----------

  function Checked(g: Gen, e: Expr): Gen {
    g.(failed := g.failed || ExprFails(e))
  }

  /** Code for a statement. `armed` tells the two generator functions apart: the one that turns `break` into a
      jump, used for loop bodies and then-branches, and the one that drops it. Function definitions, imports and
      `@inline` are not part of this model and give no code here. */
  function GenStmt(s: Stmt, armed: bool, g: Gen): (r: (seq<Item>, Gen))
    ensures r.1.counter >= g.counter
    ensures g.failed ==> r.1.failed
  {
    match s
    case Declare(x, value) =>
      if value.Some? then (GenExpr(value.value) + [Ins(Machine.SetVar(x))], Checked(g, value.value))
      else ([Ins(Machine.Var(x))], g)
    case Assign(x, e) => (GenExpr(e) + [Ins(Machine.SetVar(x))], Checked(g, e))
    case If(cond, body, els) =>
      var end := LabelName("if_end", g.counter);
      var g0 := Checked(g.(counter := g.counter + 1), cond);
      if els.NoElse? then
        var (code, g1) := GenAll(body, true, g0);
        (GenExpr(cond) + [Ins(Machine.JmpIf(end))] + code + [Lbl(end)], g1)
      else
        var other := LabelName("else", g.counter + 1);
        var (code, g1) := GenAll(body, true, g0.(counter := g.counter + 2));
        var (code', g2) := GenAll(els.body, false, g1);
        (GenExpr(cond) + [Ins(Machine.JmpIf(other))] + code
         + [Ins(Machine.Jmp(end)), Lbl(other)] + code' + [Lbl(end)], g2)
    case While(cond, body) =>
      var start, end := LabelName("while_start", g.counter), LabelName("while_end", g.counter + 1);
      var g0 := Checked(g.(counter := g.counter + 2, brk := Inside(end)), cond);
      var (code, g1) := GenAll(body, true, g0);
      (LoopCode(start, end, cond, code), g1.(brk := Freed))
    case For(first, cond, update, body) =>
      var start, end := LabelName("for_start", g.counter), LabelName("for_end", g.counter + 1);
      var (init, g0) := GenStmt(first, false, g.(counter := g.counter + 2));
      var (code, g1) := GenAll(body, true, Checked(g0.(brk := Inside(end)), cond));
      var (code', g2) := GenStmt(update, false, g1);
      (init + LoopCode(start, end, cond, code + code'), g2.(brk := Freed))
    case Break =>
      if !armed then ([], g)
      else if g.brk.Inside? then ([Ins(Machine.Jmp(g.brk.end))], g)
      else ([], g.(failed := true))
    case Eval(e) => if e.Apply? then (GenExpr(e), Checked(g, e)) else ([], g.(failed := true))
    case Return(result) =>
      if result.Some? then
        (GenExpr(result.value) + [Ins(Machine.ToggleLocalScope), Ins(Machine.Ret)], Checked(g, result.value))
      else ([Ins(Machine.ToggleLocalScope), Ins(Machine.Ret)], g)
    case Function(_, _, _) => ([], g)
    case Import(_) => ([], g)
  }

  function GenAll(ss: seq<Stmt>, armed: bool, g: Gen): (r: (seq<Item>, Gen))
    ensures r.1.counter >= g.counter
    ensures g.failed ==> r.1.failed
  {
    if ss == [] then ([], g)
    else
      var (code, g1) := GenStmt(ss[0], armed, g);
      var (code', g2) := GenAll(ss[1..], armed, g1);
      (code + code', g2)
  }

  function LoopCode(start: string, end: string, cond: Expr, turn: seq<Item>): seq<Item> {
    [Lbl(start)] + GenExpr(cond) + [Ins(Machine.JmpIf(end))] + turn + [Ins(Machine.Jmp(start)), Lbl(end)]
  }

  // ---------- a whole program ----------

  const ENTRY := "__entry"

  function EntryCode(body: seq<Stmt>): (seq<Item>, Gen) {
    var (code, g) := GenAll(body, false, Gen(1, Unset, false));
    ([Lbl(ENTRY), Ins(Machine.ToggleLocalScope)] + code + [Ins(Machine.ToggleLocalScope), Ins(Machine.Halt)], g)
  }

  /** A program whose one definition is a parameterless `__entry`, with the error routine that every program ends in. */
  function GenProgram(body: seq<Stmt>): (seq<Item>, Gen) {
    var (code, g) := EntryCode(body);
    (code + [Lbl(LabelName("error_not_enough_args", 0)),
             Ins(Machine.PushStr("[%s ERROR] invalid amount of arguments")),
             Ins(Machine.Sprintf), Ins(Machine.Print), Ins(Machine.HaltWith(1))], g)
  }

  // ---------- assembling ----------

  /** Each label takes the next instruction index and leaves a nop there. */
  function Assemble(items: seq<Item>): Machine.Program {
    Machine.Program(Instructions(items), Labels(items, 0))
  }

  function Instructions(items: seq<Item>): (r: seq<Machine.Instr>)
    ensures |r| == |items|
    ensures forall i :: 0 <= i < |items| ==>
              r[i] == match items[i] case Lbl(_) => Machine.Nop case Ins(instr) => instr
  {
    seq(|items|, i requires 0 <= i < |items| => match items[i] case Lbl(_) => Machine.Nop case Ins(instr) => instr)
  }

  function Labels(items: seq<Item>, at: nat): seq<Machine.Label> {
    if items == [] then []
    else (if items[0].Lbl? then [Machine.Label(items[0].name, at)] else []) + Labels(items[1..], at + 1)
  }
}
