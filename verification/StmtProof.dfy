/** Compiled statements do what Nyva says they do. */
module StmtProof {
  import opened Words
  import opened Nyva
  import opened CodeGen
  import opened Machine
  import opened ExprProof

  // ---------- source conditions ----------

  /** Nothing but assignments in loop headers, and no call but `@print` with one call-free argument. */
  predicate CallFree(s: Stmt) {
    match s
    case Declare(_, value) => value.Some? ==> Pure(value.value)
    case Assign(_, e) => Pure(e)
    case If(cond, body, els) => Pure(cond) && AllCallFree(body) && (els.Else? ==> AllCallFree(els.body))
    case While(cond, body) => Pure(cond) && AllCallFree(body)
    case For(first, cond, update, body) =>
      && (first.Declare? || first.Assign?) && CallFree(first)
      && Pure(cond)
      && update.Assign? && CallFree(update)
      && AllCallFree(body)
    case Break => true
    case Eval(e) => e.Apply? && e.name == "@print" && |e.args| == 1 && Pure(e.args[0])
    case _ => false
  }

  predicate AllCallFree(ss: seq<Stmt>) {
    ss == [] || (CallFree(ss[0]) && AllCallFree(ss[1..]))
  }

  predicate Pure(e: Expr) {
    match e
    case Bin(_, l, r) => Pure(l) && Pure(r)
    case Apply(_, _) => false
    case _ => true
  }

  /** No break stands where the generator drops it: directly in an else-branch or in the function body. */
  predicate Armed(s: Stmt, armed: bool) {
    match s
    case If(_, body, els) => AllArmed(body, true) && (els.Else? ==> AllArmed(els.body, false))
    case While(_, body) => AllArmed(body, true)
    case For(first, _, update, body) => Armed(first, false) && Armed(update, false) && AllArmed(body, true)
    case Break => armed
    case _ => true
  }

  predicate AllArmed(ss: seq<Stmt>, armed: bool) {
    ss == [] || (Armed(ss[0], armed) && AllArmed(ss[1..], armed))
  }

  /** The stack slots a statement needs. */
  function NeedOf(s: Stmt): nat {
    match s
    case Declare(_, value) => if value.Some? then Need(value.value) else 0
    case Assign(_, e) => Need(e)
    case If(cond, body, els) => Max(Need(cond), Max(NeedAll(body), if els.Else? then NeedAll(els.body) else 0))
    case While(cond, body) => Max(Need(cond), NeedAll(body))
    case For(first, cond, update, body) =>
      Max(Max(NeedOf(first), Need(cond)), Max(NeedAll(body), NeedOf(update)))
    case Eval(e) => if e.Apply? && |e.args| == 1 then Need(e.args[0]) else 0
    case _ => 0
  }

  function NeedAll(ss: seq<Stmt>): nat {
    if ss == [] then 0 else Max(NeedOf(ss[0]), NeedAll(ss[1..]))
  }

  // ---------- single steps ----------

  /** A state after some statements: elsewhere in the code, with new variables and more output. */
  ghost function Ended(st: State, at: nat, vars: Vars, out: seq<Word>): State
    requires st.scopes != []
  {
    st.(ip := at, scopes := st.scopes[..|st.scopes| - 1] + [vars], out := st.out + out)
  }

  lemma EndedTwice(st: State, at: nat, vars: Vars, out: seq<Word>, at': nat, vars': Vars, out': seq<Word>)
    requires st.scopes != []
    ensures Ended(Ended(st, at, vars, out), at', vars', out') == Ended(st, at', vars', out + out')
    ensures Current(Ended(st, at, vars, out)) == vars
    ensures Ended(st, st.ip, Current(st), []) == st
  {
    var st1 := Ended(st, at, vars, out);
    assert st1.scopes[..|st1.scopes| - 1] == st.scopes[..|st.scopes| - 1];
    assert st.out + out + out' == st.out + (out + out');
    assert st.out + [] == st.out;
    assert st.scopes[..|st.scopes| - 1] + [Current(st)] == st.scopes;
  }

  lemma LabelStep(p: Program, at: nat, name: string, st: State)
    requires CodeAt(p, at, [Lbl(name)]) && ReadyAt(st, at)
    ensures Run(p, st, 1) == st.(ip := at + 1) && Target(p, name) == at
  {
    assert ItemAt(p, at + 0, [Lbl(name)][0]);
    assert Run(p, st, 1) == Run(p, Step(p, st), 0);
  }

  lemma JumpStep(p: Program, at: nat, name: string, st: State)
    requires CodeAt(p, at, [Ins(Jmp(name))]) && ReadyAt(st, at) && Target(p, name) < |p.instrs|
    ensures Run(p, st, 1) == st.(ip := Target(p, name))
  {
    assert ItemAt(p, at + 0, [Ins(Jmp(name))][0]);
    assert Run(p, st, 1) == Run(p, Step(p, st), 0);
  }

  lemma JumpIfStep(p: Program, at: nat, name: string, st: State, base: seq<Word>, w: Word)
    requires CodeAt(p, at, [Ins(JmpIf(name))]) && ReadyAt(st, at) && Target(p, name) < |p.instrs|
    requires st.stack == base + [w]
    ensures Run(p, st, 1) == st.(stack := base, ip := if LetsIn(w) then at + 1 else Target(p, name))
  {
    assert ItemAt(p, at + 0, [Ins(JmpIf(name))][0]);
    assert Rest(st.stack) == base;
    assert Run(p, st, 1) == Run(p, Step(p, st), 0);
  }

  lemma SetVarStep(p: Program, at: nat, x: string, st: State, base: seq<Word>, w: Word)
    requires CodeAt(p, at, [Ins(SetVar(x))]) && ReadyAt(st, at) && st.stack == base + [w]
    ensures Run(p, st, 1) == Ended(st.(stack := base), at + 1, Current(st)[x := w], [])
  {
    assert ItemAt(p, at + 0, [Ins(SetVar(x))][0]);
    assert Rest(st.stack) == base && st.out + [] == st.out;
    assert Run(p, st, 1) == Run(p, Step(p, st), 0);
  }

  lemma VarStep(p: Program, at: nat, x: string, st: State)
    requires CodeAt(p, at, [Ins(Var(x))]) && ReadyAt(st, at)
    ensures Run(p, st, 1) == Ended(st, at + 1, Declared(Current(st), x), [])
  {
    assert ItemAt(p, at + 0, [Ins(Var(x))][0]);
    assert st.out + [] == st.out;
    assert Run(p, st, 1) == Run(p, Step(p, st), 0);
  }

  lemma PrintStep(p: Program, at: nat, st: State, base: seq<Word>, w: Word)
    requires CodeAt(p, at, [Ins(Print)]) && ReadyAt(st, at) && st.stack == base + [w]
    ensures Run(p, st, 1) == Ended(st.(stack := base), at + 1, Current(st), [w])
  {
    assert ItemAt(p, at + 0, [Ins(Print)][0]);
    assert Rest(st.stack) == base;
    assert Run(p, st, 1) == Run(p, Step(p, st), 0);
    assert st.scopes[..|st.scopes| - 1] + [Current(st)] == st.scopes;
  }

  // ---------- an expression and what consumes it ----------

  lemma AssignRuns(p: Program, at: nat, x: string, e: Expr, st: State) returns (n: nat)
    requires CodeAt(p, at, GenExpr(e) + [Ins(SetVar(x))]) && ReadyAt(st, at)
    requires ValueOf(e, Current(st)).Some? && |st.stack| + Need(e) <= st.capacity
    ensures Run(p, st, n) == Ended(st, at + |GenExpr(e)| + 1, Current(st)[x := ValueOf(e, Current(st)).value], [])
  {
    hide Step, Run, CodeAt, GenExpr, ValueOf, Need;
    CodeSplits(p, at, GenExpr(e), [Ins(SetVar(x))]);
    var k := ExprRuns(p, at, e, st);
    var st1 := Evaluated(st, at, e);
    SetVarStep(p, at + |GenExpr(e)|, x, st1, st.stack, ValueOf(e, Current(st)).value);
    RunAdds(p, st, k, 1);
    n := k + 1;
  }

  lemma PrintRuns(p: Program, at: nat, e: Expr, st: State) returns (n: nat)
    requires CodeAt(p, at, GenExpr(e) + [Ins(Print)]) && ReadyAt(st, at)
    requires ValueOf(e, Current(st)).Some? && |st.stack| + Need(e) <= st.capacity
    ensures Run(p, st, n) == Ended(st, at + |GenExpr(e)| + 1, Current(st), [ValueOf(e, Current(st)).value])
  {
    hide Step, Run, CodeAt, GenExpr, ValueOf, Need;
    CodeSplits(p, at, GenExpr(e), [Ins(Print)]);
    var k := ExprRuns(p, at, e, st);
    var st1 := Evaluated(st, at, e);
    PrintStep(p, at + |GenExpr(e)|, st1, st.stack, ValueOf(e, Current(st)).value);
    RunAdds(p, st, k, 1);
    n := k + 1;
  }

  /** A condition and its `jmpif`: the code after it is entered unless the condition is the integer 1. */
  lemma ConditionRuns(p: Program, at: nat, e: Expr, skip: string, st: State) returns (n: nat)
    requires CodeAt(p, at, GenExpr(e) + [Ins(JmpIf(skip))]) && ReadyAt(st, at) && Target(p, skip) < |p.instrs|
    requires ValueOf(e, Current(st)).Some? && |st.stack| + Need(e) <= st.capacity
    ensures n >= 1
    ensures var v := ValueOf(e, Current(st)).value;
            Run(p, st, n) == st.(ip := if LetsIn(v) then at + |GenExpr(e)| + 1 else Target(p, skip))
  {
    hide Step, Run, CodeAt, GenExpr, ValueOf, Need, LetsIn, Target;
    CodeSplits(p, at, GenExpr(e), [Ins(JmpIf(skip))]);
    var k := ExprRuns(p, at, e, st);
    var st1 := Evaluated(st, at, e);
    JumpIfStep(p, at + |GenExpr(e)|, skip, st1, st.stack, ValueOf(e, Current(st)).value);
    RunAdds(p, st, k, 1);
    n := k + 1;
  }

  // ---------- statements ----------

  /** What n steps of the machine must have reached, given how the statement ends. */
  ghost predicate Reaches(p: Program, st: State, n: nat, after: nat, brk: BreakLabel, e: Ending, fuel: nat)
    requires st.scopes != []
  {
    match e
    case Normal(vars, out) => Run(p, st, n) == Ended(st, after, vars, out)
    case Broke(vars, out) => brk.Inside? && Run(p, st, n) == Ended(st, Target(p, brk.end), vars, out)
    case Unfinished => n >= fuel && Run(p, st, n).status == Running && Run(p, st, n).ip < |p.instrs|
    case Undefined => true
  }

  /** A running start, then what follows it. */
  lemma ReachesAfter(p: Program, st: State, m: nat, mid: nat, vars: Vars, out: seq<Word>,
                     n: nat, after: nat, brk: BreakLabel, e: Ending, fuel: nat)
    requires st.scopes != [] && Run(p, st, m) == Ended(st, mid, vars, out)
    requires Reaches(p, Ended(st, mid, vars, out), n, after, brk, e, fuel)
    ensures Reaches(p, st, m + n, after, brk, After(out, e), fuel + m)
  {
    hide Run, Target;
    RunAdds(p, st, m, n);
    if e.Normal? || e.Broke? {
      EndedTwice(st, mid, vars, out, if e.Normal? then after else Target(p, brk.end), e.vars, e.out);
    }
  }

  lemma ReachesSooner(p: Program, st: State, n: nat, after: nat, brk: BreakLabel, e: Ending, fuel: nat, fuel': nat)
    requires st.scopes != [] && fuel' <= fuel && Reaches(p, st, n, after, brk, e, fuel)
    ensures Reaches(p, st, n, after, brk, e, fuel')
  {
    hide Run, Target;
  }

  lemma AfterNothing(e: Ending)
    ensures After([], e) == e
  {
    if e.Normal? || e.Broke? {
      assert [] + e.out == e.out;
    }
  }

  /** Steps that change nothing but the place, then what follows them. */
  lemma ReachesFrom(p: Program, st: State, m: nat, mid: nat, n: nat, after: nat, brk: BreakLabel, e: Ending, fuel: nat)
    requires st.scopes != [] && Run(p, st, m) == st.(ip := mid)
    requires Reaches(p, st.(ip := mid), n, after, brk, e, fuel)
    ensures Reaches(p, st, m + n, after, brk, e, fuel + m)
  {
    hide Run, Target, Reaches;
    EndedTwice(st.(ip := mid), mid, Current(st), [], mid, Current(st), []);
    AfterNothing(e);
    assert Ended(st, mid, Current(st), []) == st.(ip := mid);
    ReachesAfter(p, st, m, mid, Current(st), [], n, after, brk, e, fuel);
  }

  /** Where a normal ending would stop, one more step that only moves on. */
  lemma ThenMoves(p: Program, st: State, n: nat, mid: nat, brk: BreakLabel, e: Ending, fuel: nat, after: nat)
    returns (n': nat)
    requires st.scopes != [] && Reaches(p, st, n, mid, brk, e, fuel)
    requires e.Normal? ==> var st1 := Ended(st, mid, e.vars, e.out); Run(p, st1, 1) == st1.(ip := after)
    ensures n' >= n && Reaches(p, st, n', after, brk, e, fuel)
  {
    hide Run, Target;
    if e.Normal? {
      RunAdds(p, st, n, 1);
      n' := n + 1;
    } else {
      n' := n;
    }
  }

  lemma ThenLabel(p: Program, st: State, n: nat, mid: nat, name: string, brk: BreakLabel, e: Ending, fuel: nat)
    returns (n': nat)
    requires st.scopes != [] && st.status == Running && Reaches(p, st, n, mid, brk, e, fuel)
    requires CodeAt(p, mid, [Lbl(name)])
    ensures n' >= n && Reaches(p, st, n', mid + 1, brk, e, fuel)
  {
    hide Run, Target, Reaches, CodeAt;
    if e.Normal? {
      LabelStep(p, mid, name, Ended(st, mid, e.vars, e.out));
    }
    n' := ThenMoves(p, st, n, mid, brk, e, fuel, mid + 1);
  }

  lemma ThenJump(p: Program, st: State, n: nat, mid: nat, name: string, brk: BreakLabel, e: Ending, fuel: nat)
    returns (n': nat)
    requires st.scopes != [] && st.status == Running && Reaches(p, st, n, mid, brk, e, fuel)
    requires CodeAt(p, mid, [Ins(Jmp(name))]) && Target(p, name) < |p.instrs|
    ensures n' >= n && Reaches(p, st, n', Target(p, name), brk, e, fuel)
  {
    hide Run, Target, Reaches, CodeAt;
    if e.Normal? {
      JumpStep(p, mid, name, Ended(st, mid, e.vars, e.out));
    }
    n' := ThenMoves(p, st, n, mid, brk, e, fuel, Target(p, name));
  }

  /** Code in place, a machine ready to run it, a usable break label, and room on the stack. */
  ghost predicate Setup(p: Program, at: nat, code: seq<Item>, brk: BreakLabel, st: State, need: nat) {
    && CodeAt(p, at, code) && ReadyAt(st, at)
    && (brk.Inside? ==> Target(p, brk.end) < |p.instrs|)
    && |st.stack| + need <= st.capacity
  }

  /** The break label is the one of the enclosing loop until a loop is closed. */
  lemma {:induction false} BreakLabelKept(s: Stmt, armed: bool, g: Gen)
    ensures GenStmt(s, armed, g).1.brk == g.brk || GenStmt(s, armed, g).1.brk.Freed?
  {
    match s
    case If(cond, body, els) =>
      if els.NoElse? {
        BreakLabelsKept(body, true, Checked(g.(counter := g.counter + 1), cond));
      } else {
        var g0 := Checked(g.(counter := g.counter + 2), cond);
        BreakLabelsKept(body, true, g0);
        BreakLabelsKept(els.body, false, GenAll(body, true, g0).1);
      }
    case _ =>
  }

  lemma {:induction false} BreakLabelsKept(ss: seq<Stmt>, armed: bool, g: Gen)
    ensures GenAll(ss, armed, g).1.brk == g.brk || GenAll(ss, armed, g).1.brk.Freed?
  {
    if ss != [] {
      BreakLabelKept(ss[0], armed, g);
      BreakLabelsKept(ss[1..], armed, GenStmt(ss[0], armed, g).1);
    }
  }

  // ---------- the induction ----------

  lemma {:induction false} StmtRuns(p: Program, at: nat, s: Stmt, armed: bool, g: Gen, st: State, fuel: nat)
    returns (n: nat)
    requires Setup(p, at, GenStmt(s, armed, g).0, g.brk, st, NeedOf(s))
    requires !GenStmt(s, armed, g).1.failed && Armed(s, armed)
    requires CallFree(s) && !ExecOne(s, Current(st), fuel).Undefined?
    ensures Reaches(p, st, n, at + |GenStmt(s, armed, g).0|, g.brk, ExecOne(s, Current(st), fuel), fuel)
    decreases fuel, 1, s, 1
  {
    hide Step, Run, CodeAt, GenExpr, ValueOf, Need, Target, GenAll, LabelName, LoopCode;
    match s
    case Declare(x, value) =>
      if value.Some? {
        n := AssignRuns(p, at, x, value.value, st);
      } else {
        VarStep(p, at, x, st);
        n := 1;
      }
    case Assign(x, e) =>
      n := AssignRuns(p, at, x, e, st);
    case If(_, _, els) =>
      hide *;
      if els.NoElse? {
        n := IfRuns(p, at, s, armed, g, st, fuel);
      } else {
        n := IfElseRuns(p, at, s, armed, g, st, fuel);
      }
    case While(_, _) => hide *; n := WhileRuns(p, at, s, armed, g, st, fuel);
    case For(_, _, _, _) => hide *; n := ForRuns(p, at, s, armed, g, st, fuel);
    case Break =>
      JumpStep(p, at, g.brk.end, st);
      EndedTwice(st, at, Current(st), [], at, Current(st), []);
      n := 1;
    case Eval(e) =>
      PrintCode(e);
      n := PrintRuns(p, at, e.args[0], st);
  }

  lemma PrintCode(e: Expr)
    requires e.Apply? && e.name == "@print" && |e.args| == 1
    ensures GenExpr(e) == GenExpr(e.args[0]) + [Ins(Print)]
  {
    assert GenExprs(e.args) == GenExpr(e.args[0]) + GenExprs(e.args[1..]);
  }

  lemma {:induction false} AllRuns(p: Program, at: nat, ss: seq<Stmt>, armed: bool, g: Gen, st: State, fuel: nat)
    returns (n: nat)
    requires Setup(p, at, GenAll(ss, armed, g).0, g.brk, st, NeedAll(ss))
    requires !GenAll(ss, armed, g).1.failed && AllArmed(ss, armed)
    requires AllCallFree(ss) && !ExecAll(ss, Current(st), fuel).Undefined?
    ensures Reaches(p, st, n, at + |GenAll(ss, armed, g).0|, g.brk, ExecAll(ss, Current(st), fuel), fuel)
    decreases fuel, 1, ss, 1
  {
    hide Step, Run, CodeAt, Reaches, GenStmt, NeedOf, Armed, CallFree, ExecOne, Target;
    if ss == [] {
      StaysPut(p, st, g.brk, fuel);
      n := 0;
    } else {
      var (code, g1) := GenStmt(ss[0], armed, g);
      var (code', g2) := GenAll(ss[1..], armed, g1);
      CodeSplits(p, at, code, code');
      BreakLabelKept(ss[0], armed, g);
      var first := ExecOne(ss[0], Current(st), fuel);
      n := StmtRuns(p, at, ss[0], armed, g, st, fuel);
      if first.Normal? {
        var mid := at + |code|;
        RunsTo(p, st, n, mid, g.brk, first, fuel);
        var st1 := Ended(st, mid, first.vars, first.out);
        EndedTwice(st, mid, first.vars, first.out, mid, first.vars, []);
        var k := AllRuns(p, mid, ss[1..], armed, g1, st1, fuel);
        var e := ExecAll(ss[1..], first.vars, fuel);
        SameBreak(p, st1, k, mid + |code'|, g1.brk, g.brk, e, fuel);
        ReachesAfter(p, st, n, mid, first.vars, first.out, k, mid + |code'|, g.brk, e, fuel);
        ReachesSooner(p, st, n + k, mid + |code'|, g.brk, After(first.out, e), fuel + n, fuel);
        n := n + k;
      } else {
        ElsewhereToo(p, st, n, at + |code|, at + |code| + |code'|, g.brk, first, fuel);
      }
    }
  }

  lemma StaysPut(p: Program, st: State, brk: BreakLabel, fuel: nat)
    requires st.scopes != []
    ensures Reaches(p, st, 0, st.ip, brk, Normal(Current(st), []), fuel)
  {
    EndedTwice(st, st.ip, Current(st), [], st.ip, Current(st), []);
  }

  lemma RunsTo(p: Program, st: State, n: nat, after: nat, brk: BreakLabel, e: Ending, fuel: nat)
    requires st.scopes != [] && e.Normal? && Reaches(p, st, n, after, brk, e, fuel)
    ensures Run(p, st, n) == Ended(st, after, e.vars, e.out)
  {
  }

  lemma SameBreak(p: Program, st: State, n: nat, after: nat, brk: BreakLabel, brk': BreakLabel, e: Ending, fuel: nat)
    requires st.scopes != [] && Reaches(p, st, n, after, brk, e, fuel) && (brk == brk' || brk.Freed?)
    ensures Reaches(p, st, n, after, brk', e, fuel)
  {
    hide Run, Target;
  }

  lemma ElsewhereToo(p: Program, st: State, n: nat, after: nat, after': nat, brk: BreakLabel, e: Ending, fuel: nat)
    requires st.scopes != [] && !e.Normal? && Reaches(p, st, n, after, brk, e, fuel)
    ensures Reaches(p, st, n, after', brk, e, fuel)
  {
    hide Run, Target;
  }

  lemma LabelHere(p: Program, at: nat, name: string)
    requires CodeAt(p, at, [Lbl(name)])
    ensures Target(p, name) == at && at < |p.instrs|
  {
    assert ItemAt(p, at + 0, [Lbl(name)][0]);
  }

  /** A skipped body: the machine goes on after a label, with nothing changed. */
  lemma SkipsTo(p: Program, st: State, n: nat, mid: nat, name: string, brk: BreakLabel, fuel: nat)
    requires st.scopes != [] && st.status == Running && Run(p, st, n) == st.(ip := mid)
    requires CodeAt(p, mid, [Lbl(name)])
    ensures Reaches(p, st, n + 1, mid + 1, brk, Normal(Current(st), []), fuel)
  {
    hide Run, Target, CodeAt;
    LabelStep(p, mid, name, st.(ip := mid));
    RunAdds(p, st, n, 1);
    EndedTwice(st.(ip := mid + 1), mid + 1, Current(st), [], mid + 1, Current(st), []);
  }

  lemma {:induction false} IfRuns(p: Program, at: nat, s: Stmt, armed: bool, g: Gen, st: State, fuel: nat)
    returns (n: nat)
    requires s.If? && s.els.NoElse?
    requires Setup(p, at, GenStmt(s, armed, g).0, g.brk, st, NeedOf(s))
    requires !GenStmt(s, armed, g).1.failed && Armed(s, armed)
    requires CallFree(s) && !ExecOne(s, Current(st), fuel).Undefined?
    ensures Reaches(p, st, n, at + |GenStmt(s, armed, g).0|, g.brk, ExecOne(s, Current(st), fuel), fuel)
    decreases fuel, 1, s, 0
  {
    hide Step, Run, CodeAt, Reaches, GenExpr, ValueOf, Need, Target, GenAll, AllArmed, NeedAll, ExecAll, AllCallFree,
         LetsIn, LabelName;
    var end := LabelName("if_end", g.counter);
    var g0 := Checked(g.(counter := g.counter + 1), s.cond);
    var code := GenAll(s.body, true, g0).0;
    var head := GenExpr(s.cond) + [Ins(JmpIf(end))];
    CodeSplits(p, at, head + code, [Lbl(end)]);
    CodeSplits(p, at, head, code);
    var bodyAt := at + |head|;
    var endAt := bodyAt + |code|;
    LabelHere(p, endAt, end);
    var k := ConditionRuns(p, at, s.cond, end, st);
    if LetsIn(ValueOf(s.cond, Current(st)).value) {
      var st1 := st.(ip := bodyAt);
      var e := ExecAll(s.body, Current(st), fuel);
      var m := AllRuns(p, bodyAt, s.body, true, g0, st1, fuel);
      m := ThenLabel(p, st1, m, endAt, end, g.brk, e, fuel);
      ReachesFrom(p, st, k, bodyAt, m, endAt + 1, g.brk, e, fuel);
      ReachesSooner(p, st, k + m, endAt + 1, g.brk, e, fuel + k, fuel);
      n := k + m;
    } else {
      SkipsTo(p, st, k, endAt, end, g.brk, fuel);
      n := k + 1;
    }
  }

  lemma {:induction false} IfElseRuns(p: Program, at: nat, s: Stmt, armed: bool, g: Gen, st: State, fuel: nat)
    returns (n: nat)
    requires s.If? && s.els.Else?
    requires Setup(p, at, GenStmt(s, armed, g).0, g.brk, st, NeedOf(s))
    requires !GenStmt(s, armed, g).1.failed && Armed(s, armed)
    requires CallFree(s) && !ExecOne(s, Current(st), fuel).Undefined?
    ensures Reaches(p, st, n, at + |GenStmt(s, armed, g).0|, g.brk, ExecOne(s, Current(st), fuel), fuel)
    decreases fuel, 1, s, 0
  {
    hide Step, Run, CodeAt, Reaches, GenExpr, ValueOf, Need, Target, GenAll, AllArmed, NeedAll, ExecAll, AllCallFree,
         LetsIn, LabelName;
    var end, other := LabelName("if_end", g.counter), LabelName("else", g.counter + 1);
    var g0 := Checked(g.(counter := g.counter + 2), s.cond);
    var (code, g1) := GenAll(s.body, true, g0);
    var (code', g2) := GenAll(s.els.body, false, g1);
    var head := GenExpr(s.cond) + [Ins(JmpIf(other))];
    var bridge := [Ins(Jmp(end))] + [Lbl(other)];
    assert GenStmt(s, armed, g).0 == head + code + bridge + code' + [Lbl(end)];
    CodeSplits(p, at, head + code + bridge + code', [Lbl(end)]);
    CodeSplits(p, at, head + code + bridge, code');
    CodeSplits(p, at, head + code, bridge);
    CodeSplits(p, at, head, code);
    var bodyAt := at + |head|;
    var bridgeAt := bodyAt + |code|;
    CodeSplits(p, bridgeAt, [Ins(Jmp(end))], [Lbl(other)]);
    var elseAt := bridgeAt + 2;
    var endAt := elseAt + |code'|;
    LabelHere(p, endAt, end);
    LabelHere(p, bridgeAt + 1, other);
    BreakLabelsKept(s.body, true, g0);
    var k := ConditionRuns(p, at, s.cond, other, st);
    if LetsIn(ValueOf(s.cond, Current(st)).value) {
      var st1 := st.(ip := bodyAt);
      var e := ExecAll(s.body, Current(st), fuel);
      var m := AllRuns(p, bodyAt, s.body, true, g0, st1, fuel);
      m := ThenJump(p, st1, m, bridgeAt, end, g.brk, e, fuel);
      m := ThenLabel(p, st1, m, endAt, end, g.brk, e, fuel);
      ReachesFrom(p, st, k, bodyAt, m, endAt + 1, g.brk, e, fuel);
      ReachesSooner(p, st, k + m, endAt + 1, g.brk, e, fuel + k, fuel);
      n := k + m;
    } else {
      var st1 := st.(ip := elseAt);
      LabelStep(p, bridgeAt + 1, other, st.(ip := bridgeAt + 1));
      RunAdds(p, st, k, 1);
      var e := ExecAll(s.els.body, Current(st), fuel);
      var m := AllRuns(p, elseAt, s.els.body, false, g1, st1, fuel);
      SameBreak(p, st1, m, endAt, g1.brk, g.brk, e, fuel);
      m := ThenLabel(p, st1, m, endAt, end, g.brk, e, fuel);
      ReachesFrom(p, st, k + 1, elseAt, m, endAt + 1, g.brk, e, fuel);
      ReachesSooner(p, st, k + 1 + m, endAt + 1, g.brk, e, fuel + (k + 1), fuel);
      n := k + 1 + m;
    }
  }

  // ---------- loops ----------

  /** A loop's code in place, with all it needs. */
  ghost predicate LoopSetup(p: Program, at: nat, start: string, end: string, cond: Expr, body: seq<Stmt>,
                            update: seq<Stmt>, g: Gen, st: State)
  {
    var (code, g1) := GenAll(body, true, g);
    var (code', g2) := GenAll(update, false, g1);
    && CodeAt(p, at, LoopCode(start, end, cond, code + code'))
    && g.brk == Inside(end) && !g2.failed
    && st.status == Running && st.scopes != []
    && |st.stack| + Need(cond) <= st.capacity
    && |st.stack| + NeedAll(body) <= st.capacity
    && |st.stack| + NeedAll(update) <= st.capacity
    && AllArmed(body, true) && AllArmed(update, false)
    && AllCallFree(body) && AllCallFree(update)
  }

  /** Where the parts of a loop stand. */
  lemma LoopParts(p: Program, at: nat, start: string, end: string, cond: Expr, code: seq<Item>, code': seq<Item>)
    requires CodeAt(p, at, LoopCode(start, end, cond, code + code'))
    ensures var head := GenExpr(cond) + [Ins(JmpIf(end))];
            var bodyAt := at + 1 + |head|;
            var updateAt := bodyAt + |code|;
            var endAt := updateAt + |code'| + 1;
            && CodeAt(p, at, [Lbl(start)]) && CodeAt(p, at + 1, head)
            && CodeAt(p, bodyAt, code) && CodeAt(p, updateAt, code')
            && CodeAt(p, endAt - 1, [Ins(Jmp(start))]) && CodeAt(p, endAt, [Lbl(end)])
            && |LoopCode(start, end, cond, code + code')| == endAt + 1 - at
            && Target(p, start) == at && Target(p, end) == endAt && endAt < |p.instrs|
  {
    hide CodeAt, GenExpr, Target;
    var head := GenExpr(cond) + [Ins(JmpIf(end))];
    var tail := [Ins(Jmp(start))] + [Lbl(end)];
    assert LoopCode(start, end, cond, code + code') == [Lbl(start)] + head + code + code' + tail;
    CodeSplits(p, at, [Lbl(start)] + head + code + code', tail);
    CodeSplits(p, at, [Lbl(start)] + head + code, code');
    CodeSplits(p, at, [Lbl(start)] + head, code);
    CodeSplits(p, at, [Lbl(start)], head);
    var tailAt := at + 1 + |head| + |code| + |code'|;
    CodeSplits(p, tailAt, [Ins(Jmp(start))], [Lbl(end)]);
    LabelHere(p, at, start);
    LabelHere(p, tailAt + 1, end);
  }

  /** A turn that ends the loop: a break goes to the end label, and past it. */
  lemma CatchesBreak(p: Program, st: State, n: nat, mid: nat, end: string, e: Ending, fuel: nat) returns (n': nat)
    requires st.scopes != [] && st.status == Running && !e.Normal?
    requires Reaches(p, st, n, mid, Inside(end), e, fuel)
    requires CodeAt(p, Target(p, end), [Lbl(end)])
    ensures n' >= n && Reaches(p, st, n', Target(p, end) + 1, Freed, Caught(e), fuel)
  {
    hide Run, Target, CodeAt;
    if e.Broke? {
      LabelStep(p, Target(p, end), end, Ended(st, Target(p, end), e.vars, e.out));
      RunAdds(p, st, n, 1);
      n' := n + 1;
    } else {
      n' := n;
    }
  }

  lemma {:induction false} LoopRuns(p: Program, at: nat, start: string, end: string, cond: Expr, body: seq<Stmt>,
                                    update: seq<Stmt>, g: Gen, st: State, fuel: nat)
    returns (n: nat)
    requires LoopSetup(p, at, start, end, cond, body, update, g, st) && st.ip == at
    requires !Loop(cond, body, update, Current(st), fuel).Undefined?
    ensures var (code, g1) := GenAll(body, true, g);
            var code' := GenAll(update, false, g1).0;
            Reaches(p, st, n, at + |LoopCode(start, end, cond, code + code')|, Freed,
                    Loop(cond, body, update, Current(st), fuel), fuel)
    decreases fuel, 0
  {
    hide Step, Run, CodeAt, Reaches, GenExpr, ValueOf, Need, Target, GenAll, AllArmed, NeedAll, ExecAll, AllCallFree,
         LetsIn, LoopCode;
    var (code, g1) := GenAll(body, true, g);
    var code' := GenAll(update, false, g1).0;
    LoopParts(p, at, start, end, cond, code, code');
    if fuel == 0 {
      n := 0;
      Stays(p, st, at + |LoopCode(start, end, cond, code + code')|);
    } else {
      var bodyAt := at + 1 + |GenExpr(cond)| + 1;
      var endAt := Target(p, end);
      LabelStep(p, at, start, st);
      var k := ConditionRuns(p, at + 1, cond, end, st.(ip := at + 1));
      RunAdds(p, st, 1, k);
      if LetsIn(ValueOf(cond, Current(st)).value) {
        var st1 := st.(ip := bodyAt);
        var m := TurnRuns(p, at, start, end, cond, body, update, g, st1, fuel - 1);
        var e := Turn(cond, body, update, Current(st), fuel - 1);
        ReachesFrom(p, st, 1 + k, bodyAt, m, endAt + 1, Freed, e, fuel - 1);
        ReachesSooner(p, st, 1 + k + m, endAt + 1, Freed, e, fuel - 1 + (1 + k), fuel);
        n := 1 + k + m;
      } else {
        SkipsTo(p, st, 1 + k, endAt, end, Freed, fuel);
        n := 1 + k + 1;
      }
    }
  }

  lemma Stays(p: Program, st: State, after: nat)
    requires st.scopes != [] && st.status == Running && st.ip < |p.instrs|
    ensures Reaches(p, st, 0, after, Freed, Unfinished, 0)
  {
  }

  /** The ending of a loop whose condition has just let its body in. */
  function Turn(cond: Expr, body: seq<Stmt>, update: seq<Stmt>, vars: Vars, fuel: nat): Ending {
    var turn := ExecAll(body, vars, fuel);
    if !turn.Normal? then Caught(turn)
    else
      var step := ExecAll(update, turn.vars, fuel);
      if !step.Normal? then Caught(After(turn.out, step))
      else After(turn.out + step.out, Loop(cond, body, update, step.vars, fuel))
  }

  lemma {:induction false} TurnRuns(p: Program, at: nat, start: string, end: string, cond: Expr, body: seq<Stmt>,
                                    update: seq<Stmt>, g: Gen, st: State, fuel: nat)
    returns (n: nat)
    requires LoopSetup(p, at, start, end, cond, body, update, g, st)
    requires st.ip == at + 1 + |GenExpr(cond)| + 1
    requires !Turn(cond, body, update, Current(st), fuel).Undefined?
    ensures Reaches(p, st, n, Target(p, end) + 1, Freed, Turn(cond, body, update, Current(st), fuel), fuel)
    decreases fuel, 2
  {
    hide Step, Run, CodeAt, Reaches, GenExpr, ValueOf, Need, Target, GenAll, AllArmed, NeedAll, ExecAll, AllCallFree,
         LetsIn, LoopCode, Loop;
    var (code, g1) := GenAll(body, true, g);
    var code' := GenAll(update, false, g1).0;
    LoopParts(p, at, start, end, cond, code, code');
    StillGood(body, update, g);
    var updateAt := st.ip + |code|;
    var jumpAt := updateAt + |code'|;
    var endAt := Target(p, end);
    var turn := ExecAll(body, Current(st), fuel);
    var m := AllRuns(p, st.ip, body, true, g, st, fuel);
    if !turn.Normal? {
      n := CatchesBreak(p, st, m, updateAt, end, turn, fuel);
    } else {
      RunsTo(p, st, m, updateAt, g.brk, turn, fuel);
      var st1 := Ended(st, updateAt, turn.vars, turn.out);
      EndedTwice(st, updateAt, turn.vars, turn.out, updateAt, turn.vars, []);
      var step := ExecAll(update, turn.vars, fuel);
      BreakLabelsKept(body, true, g);
      var k := AllRuns(p, updateAt, update, false, g1, st1, fuel);
      SameBreak(p, st1, k, jumpAt, g1.brk, Inside(end), step, fuel);
      ReachesAfter(p, st, m, updateAt, turn.vars, turn.out, k, jumpAt, Inside(end), step, fuel);
      var both := After(turn.out, step);
      ReachesSooner(p, st, m + k, jumpAt, Inside(end), both, fuel + m, fuel);
      if !step.Normal? {
        n := CatchesBreak(p, st, m + k, jumpAt, end, both, fuel);
      } else {
        var j := ThenJump(p, st, m + k, jumpAt, start, Inside(end), both, fuel);
        RunsTo(p, st, j, at, Inside(end), both, fuel);
        var st2 := Ended(st, at, both.vars, both.out);
        EndedTwice(st, at, both.vars, both.out, at, both.vars, []);
        var l := LoopRuns(p, at, start, end, cond, body, update, g, st2, fuel);
        var rest := Loop(cond, body, update, both.vars, fuel);
        ReachesAfter(p, st, j, at, both.vars, both.out, l, endAt + 1, Freed, rest, fuel);
        ReachesSooner(p, st, j + l, endAt + 1, Freed, After(both.out, rest), fuel + j, fuel);
        n := j + l;
      }
    }
  }

  lemma StillGood(body: seq<Stmt>, update: seq<Stmt>, g: Gen)
    requires !GenAll(update, false, GenAll(body, true, g).1).1.failed
    ensures !GenAll(body, true, g).1.failed
  {
  }

  lemma {:induction false} WhileRuns(p: Program, at: nat, s: Stmt, armed: bool, g: Gen, st: State, fuel: nat)
    returns (n: nat)
    requires s.While?
    requires Setup(p, at, GenStmt(s, armed, g).0, g.brk, st, NeedOf(s))
    requires !GenStmt(s, armed, g).1.failed && Armed(s, armed)
    requires CallFree(s) && !ExecOne(s, Current(st), fuel).Undefined?
    ensures Reaches(p, st, n, at + |GenStmt(s, armed, g).0|, g.brk, ExecOne(s, Current(st), fuel), fuel)
    decreases fuel, 1, s, 0
  {
    hide Step, Run, CodeAt, Reaches, GenExpr, ValueOf, Need, Target, ExecAll, LetsIn, LoopCode, LabelName, Loop;
    var start, end := LabelName("while_start", g.counter), LabelName("while_end", g.counter + 1);
    var g0 := Checked(g.(counter := g.counter + 2, brk := Inside(end)), s.cond);
    var (code, g1) := GenAll(s.body, true, g0);
    assert GenAll([], false, g1).0 == [] && code + [] == code;
    n := LoopRuns(p, at, start, end, s.cond, s.body, [], g0, st, fuel);
    SameBreak(p, st, n, at + |LoopCode(start, end, s.cond, code)|, Freed, g.brk,
              Loop(s.cond, s.body, [], Current(st), fuel), fuel);
  }

  lemma OneStatement(s: Stmt, armed: bool)
    ensures NeedAll([s]) == NeedOf(s)
    ensures AllArmed([s], armed) == Armed(s, armed) && AllCallFree([s]) == CallFree(s)
  {
    assert [s][1..] == [];
  }

  lemma {:induction false} ForRuns(p: Program, at: nat, s: Stmt, armed: bool, g: Gen, st: State, fuel: nat)
    returns (n: nat)
    requires s.For?
    requires Setup(p, at, GenStmt(s, armed, g).0, g.brk, st, NeedOf(s))
    requires !GenStmt(s, armed, g).1.failed && Armed(s, armed)
    requires CallFree(s) && !ExecOne(s, Current(st), fuel).Undefined?
    ensures Reaches(p, st, n, at + |GenStmt(s, armed, g).0|, g.brk, ExecOne(s, Current(st), fuel), fuel)
    decreases fuel, 1, s, 0
  {
    hide Step, Run, CodeAt, Reaches, GenExpr, ValueOf, Need, Target, ExecAll, LetsIn, LoopCode, LabelName, Loop;
    var start, end := LabelName("for_start", g.counter), LabelName("for_end", g.counter + 1);
    var (init, g0) := GenStmt(s.first, false, g.(counter := g.counter + 2));
    var gb := Checked(g0.(brk := Inside(end)), s.cond);
    var (code, g1) := GenAll(s.body, true, gb);
    var (code', g2) := GenStmt(s.update, false, g1);
    assert GenAll([s.update], false, g1) == (code', g2) by {
      assert GenAll([s.update][1..], false, g2) == ([], g2) && code' + [] == code';
    }
    OneStatement(s.update, false);
    var loop := LoopCode(start, end, s.cond, code + code');
    CodeSplits(p, at, init, loop);
    var loopAt := at + |init|;
    var first := ExecOne(s.first, Current(st), fuel);
    var m := StmtRuns(p, at, s.first, false, g.(counter := g.counter + 2), st, fuel);
    RunsTo(p, st, m, loopAt, g.brk, first, fuel);
    var st1 := Ended(st, loopAt, first.vars, first.out);
    EndedTwice(st, loopAt, first.vars, first.out, loopAt, first.vars, []);
    var e := Loop(s.cond, s.body, [s.update], first.vars, fuel);
    var k := LoopRuns(p, loopAt, start, end, s.cond, s.body, [s.update], gb, st1, fuel);
    SameBreak(p, st1, k, loopAt + |loop|, Freed, g.brk, e, fuel);
    ReachesAfter(p, st, m, loopAt, first.vars, first.out, k, loopAt + |loop|, g.brk, e, fuel);
    ReachesSooner(p, st, m + k, loopAt + |loop|, g.brk, After(first.out, e), fuel + m, fuel);
    n := m + k;
  }
}
