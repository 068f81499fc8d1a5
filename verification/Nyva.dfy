/** The Nyva language: the parser's trees, and what statements mean. */
module Nyva {
  import opened Common
  import opened Words

  datatype BinOp = Plus | Minus | Times | Over | Modulo | Greater | Less | Equals | Differs

  datatype Expr =
    | Num(n: Int32)
    | Text(s: string)
    | Name(name: string)
    | Bin(op: BinOp, left: Expr, right: Expr)
    | Apply(name: string, args: seq<Expr>)

  datatype Stmt =
    | Declare(name: string, value: Option<Expr>)
    | Assign(name: string, e: Expr)
    | If(cond: Expr, body: seq<Stmt>, els: Alternative)
    | While(cond: Expr, body: seq<Stmt>)
    | For(first: Stmt, cond: Expr, update: Stmt, body: seq<Stmt>)
    | Break
    | Eval(e: Expr)
    | Function(name: string, params: seq<string>, body: seq<Stmt>)
    | Return(result: Option<Expr>)
    | Import(file: string)

  datatype Alternative = NoElse | Else(body: seq<Stmt>)

  type Vars = map<string, Word>

  // ---------- expressions ----------

  /** `+` joins texts exactly when both operands are names or string literals. */
  predicate JoinsText(e: Expr) {
    e.Bin? && e.op.Plus? && (e.left.Text? || e.left.Name?) && (e.right.Text? || e.right.Name?)
  }

  function Truth(b: bool): Word {
    Int(if b then 1 else 0)
  }

  /** What an operator gives on two values, None where Nyva gives it no meaning. `-` subtracts the left operand
      from the right one. `==` and `!=` give the word that makes a condition on them mean what they say. */
  function Meaning(op: BinOp, text: bool, l: Word, r: Word): Option<Word> {
    if l.Null? || r.Null? then None
    else match op
      case Plus =>
        if text then (if l.Str? && r.Str? then Some(Str(l.s + " " + r.s)) else None)
        else if l.Int? && r.Int? then Some(Int(Wrap(l.i + r.i))) else None
      case Minus => if l.Int? && r.Int? then Some(Int(Wrap(r.i - l.i))) else None
      case Times => if l.Int? && r.Int? then Some(Int(Wrap(l.i * r.i))) else None
      case Over =>
        if l.Int? && r.Int? && r.i != 0 && r.i != INT_MIN && !(l.i == INT_MIN && r.i == -1) then
          Some(Int(Wrap(Quotient(l.i, r.i))))
        else None
      case Modulo =>
        if l.Int? && r.Int? && r.i != 0 && !(l.i == INT_MIN && r.i == -1) then
          Some(Int(Wrap(Remainder(l.i, r.i))))
        else None
      case Greater => if l.Str? && r.Str? then None else Some(Truth(l.Int? && r.Int? && l.i > r.i))
      case Less => if l.Str? && r.Str? then None else Some(Truth(l.Int? && r.Int? && l.i < r.i))
      case Equals => Some(Truth(l != r))
      case Differs => Some(Truth(l == r))
  }

  /** The value of a call-free expression, None when it has none. */
  function ValueOf(e: Expr, vars: Vars): Option<Word> {
    match e
    case Num(n) => Some(Int(n))
    case Text(s) => Some(Str(s))
    case Name(x) => if x in vars && vars[x] != Null then Some(vars[x]) else None
    case Bin(op, l, r) =>
      var a, b := ValueOf(l, vars), ValueOf(r, vars);
      if a.None? || b.None? then None else Meaning(op, JoinsText(e), a.value, b.value)
    case Apply(_, _) => None
  }

  /** A condition lets its body run when its value is anything but the integer 1. */
  predicate LetsIn(w: Word) {
    w != Int(1)
  }

  // ---------- statements ----------

  /** How a statement ends: normally, at a break, with no meaning, or not within the given number of loop turns. */
  datatype Ending =
    | Normal(vars: Vars, out: seq<Word>)
    | Broke(vars: Vars, out: seq<Word>)
    | Undefined
    | Unfinished

  function After(out: seq<Word>, e: Ending): Ending {
    match e
    case Normal(v, o) => Normal(v, out + o)
    case Broke(v, o) => Broke(v, out + o)
    case _ => e
  }

  /** The end of a loop catches a break. */
  function Caught(e: Ending): Ending {
    if e.Broke? then Normal(e.vars, e.out) else e
  }

  function ExecAssign(name: string, e: Expr, vars: Vars): Ending {
    var v := ValueOf(e, vars);
    if v.None? then Undefined else Normal(vars[name := v.value], [])
  }

  /** Runs a statement, each loop making at most `fuel` turns. */
  function ExecOne(s: Stmt, vars: Vars, fuel: nat): Ending
    decreases fuel, 1, s
  {
    match s
    case Declare(x, init) =>
      if init.Some? then ExecAssign(x, init.value, vars)
      else Normal(if x in vars then vars else vars[x := Null], [])
    case Assign(x, e) => ExecAssign(x, e, vars)
    case If(cond, body, els) =>
      var v := ValueOf(cond, vars);
      if v.None? then Undefined
      else if LetsIn(v.value) then ExecAll(body, vars, fuel)
      else if els.Else? then ExecAll(els.body, vars, fuel)
      else Normal(vars, [])
    case While(cond, body) => Loop(cond, body, [], vars, fuel)
    case For(init, cond, update, body) =>
      var first := ExecOne(init, vars, fuel);
      if first.Normal? then After(first.out, Loop(cond, body, [update], first.vars, fuel)) else first
    case Break => Broke(vars, [])
    case Eval(e) =>
      if e.Apply? && e.name == "@print" && |e.args| == 1 && ValueOf(e.args[0], vars).Some? then
        Normal(vars, [ValueOf(e.args[0], vars).value])
      else Undefined
    case Function(_, _, _) => Undefined
    case Return(_) => Undefined
    case Import(_) => Undefined
  }

  function ExecAll(ss: seq<Stmt>, vars: Vars, fuel: nat): Ending
    decreases fuel, 1, ss
  {
    if ss == [] then Normal(vars, [])
    else
      var first := ExecOne(ss[0], vars, fuel);
      if first.Normal? then After(first.out, ExecAll(ss[1..], first.vars, fuel)) else first
  }

  /** A loop with at most `fuel` turns left. */
  function Loop(cond: Expr, body: seq<Stmt>, update: seq<Stmt>, vars: Vars, fuel: nat): Ending
    decreases fuel, 0
  {
    if fuel == 0 then Unfinished
    else
      var v := ValueOf(cond, vars);
      if v.None? then Undefined
      else if !LetsIn(v.value) then Normal(vars, [])
      else
        var turn := ExecAll(body, vars, fuel - 1);
        if !turn.Normal? then Caught(turn)
        else
          var step := ExecAll(update, turn.vars, fuel - 1);
          if !step.Normal? then Caught(After(turn.out, step))
          else After(turn.out + step.out, Loop(cond, body, update, step.vars, fuel - 1))
  }
}
