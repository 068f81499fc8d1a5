/** Bodies on integers that always have a meaning, and the sums that have none. */
module NyvaTypes {
  import opened Common
  import opened Words
  import opened Nyva
  import StmtProof
  import ProgramProof
  import CodeGen
  import Machine
  import Instructions

  // ---------- integer bodies ----------

  type Env = set<string>

  /** The variables of a set hold integers. */
  predicate Holds(env: Env, vars: Vars) {
    forall x :: x in env ==> x in vars && vars[x].Int?
  }

  /** An expression on integers: no text, no sum of two variables, and only literals that are safe as divisors. */
  predicate OnInts(e: Expr, env: Env) {
    match e
    case Num(_) => true
    case Name(x) => x in env
    case Bin(op, l, r) =>
      && OnInts(l, env) && OnInts(r, env)
      && (op.Plus? ==> !(l.Name? && r.Name?))
      && (op.Over? || op.Modulo? ==> r.Num? && r.n != 0 && r.n != -1 && r.n != INT_MIN)
    case _ => false
  }

  /** The variables known to hold integers behind a statement. */
  function Behind(s: Stmt, env: Env): Env {
    match s
    case Declare(x, value) => if value.Some? then env + {x} else env
    case Assign(x, _) => env + {x}
    case _ => env
  }

  /** A statement whose expressions are all on integers, those printed included. */
  predicate Typed(s: Stmt, env: Env)
    decreases s, 1
  {
    match s
    case Declare(x, value) => value.Some? ==> OnInts(value.value, env)
    case Assign(_, e) => OnInts(e, env)
    case If(cond, body, els) => OnInts(cond, env) && AllTyped(body, env) && (els.Else? ==> AllTyped(els.body, env))
    case While(cond, body) => OnInts(cond, env) && AllTyped(body, env)
    case For(first, cond, update, body) =>
      && (first.Declare? || first.Assign?) && update.Assign? && Typed(first, env)
      && OnInts(cond, Behind(first, env)) && AllTyped(body, Behind(first, env)) && Typed(update, Behind(first, env))
    case Break => true
    case Eval(e) => e.Apply? && e.name == "@print" && |e.args| == 1 && OnInts(e.args[0], env)
    case _ => false
  }

  predicate AllTyped(ss: seq<Stmt>, env: Env)
    decreases ss, 0
  {
    ss == [] || (Typed(ss[0], env) && AllTyped(ss[1..], Behind(ss[0], env)))
  }

  /** On integers every operator has an integer value. */
  lemma {:induction false} IntsMean(e: Expr, env: Env, vars: Vars)
    requires OnInts(e, env) && Holds(env, vars)
    ensures ValueOf(e, vars).Some? && ValueOf(e, vars).value.Int?
  {
    if e.Bin? {
      IntsMean(e.left, env, vars);
      IntsMean(e.right, env, vars);
      hide Wrap, Quotient, Remainder;
    }
  }

  /** An ending with a meaning, its known variables still integers. */
  predicate Sound(e: Ending, env: Env) {
    match e
    case Normal(vars, _) => Holds(env, vars)
    case Broke(vars, _) => Holds(env, vars)
    case Undefined => false
    case Unfinished => true
  }

  lemma FewerSound(e: Ending, env: Env, env': Env)
    requires Sound(e, env) && env' <= env
    ensures Sound(e, env')
  {
  }

  /** Well-typed statements do not go wrong: they have a meaning under every bound, and so the machine follows them. */
  lemma {:induction false} TypedMeans(s: Stmt, env: Env, vars: Vars, fuel: nat)
    requires Typed(s, env) && Holds(env, vars)
    ensures Sound(ExecOne(s, vars, fuel), env)
    ensures ExecOne(s, vars, fuel).Normal? ==> Holds(Behind(s, env), ExecOne(s, vars, fuel).vars)
    decreases fuel, 1, s
  {
    match s
    case Declare(_, value) => if value.Some? { IntsMean(value.value, env, vars); }
    case Assign(_, e) => IntsMean(e, env, vars);
    case If(cond, body, els) =>
      IntsMean(cond, env, vars);
      if LetsIn(ValueOf(cond, vars).value) { AllTypedMean(body, env, vars, fuel); }
      else if els.Else? { AllTypedMean(els.body, env, vars, fuel); }
    case While(cond, body) => LoopMeans(cond, body, [], env, vars, fuel);
    case For(first, cond, update, body) =>
      TypedMeans(first, env, vars, fuel);
      var begun := ExecOne(first, vars, fuel);
      if begun.Normal? {
        LoopMeans(cond, body, [update], Behind(first, env), begun.vars, fuel);
        FewerSound(Loop(cond, body, [update], begun.vars, fuel), Behind(first, env), env);
      }
    case Break =>
    case Eval(e) => IntsMean(e.args[0], env, vars);
  }

  lemma {:induction false} AllTypedMean(ss: seq<Stmt>, env: Env, vars: Vars, fuel: nat)
    requires AllTyped(ss, env) && Holds(env, vars)
    ensures Sound(ExecAll(ss, vars, fuel), env)
    decreases fuel, 1, ss
  {
    if ss != [] {
      TypedMeans(ss[0], env, vars, fuel);
      var first := ExecOne(ss[0], vars, fuel);
      if first.Normal? {
        AllTypedMean(ss[1..], Behind(ss[0], env), first.vars, fuel);
        FewerSound(ExecAll(ss[1..], first.vars, fuel), Behind(ss[0], env), env);
      }
    }
  }

  lemma {:induction false} LoopMeans(cond: Expr, body: seq<Stmt>, update: seq<Stmt>, env: Env, vars: Vars, fuel: nat)
    requires OnInts(cond, env) && AllTyped(body, env) && AllTyped(update, env) && Holds(env, vars)
    ensures Sound(Loop(cond, body, update, vars, fuel), env)
    decreases fuel, 0
  {
    if fuel > 0 {
      IntsMean(cond, env, vars);
      if LetsIn(ValueOf(cond, vars).value) {
        AllTypedMean(body, env, vars, fuel - 1);
        var turn := ExecAll(body, vars, fuel - 1);
        if turn.Normal? {
          AllTypedMean(update, env, turn.vars, fuel - 1);
          var step := ExecAll(update, turn.vars, fuel - 1);
          if step.Normal? { LoopMeans(cond, body, update, env, step.vars, fuel - 1); }
        }
      }
    }
  }

  lemma {:induction false} OnIntsPure(e: Expr, env: Env)
    requires OnInts(e, env)
    ensures StmtProof.Pure(e)
  {
    if e.Bin? {
      OnIntsPure(e.left, env);
      OnIntsPure(e.right, env);
    }
  }

  lemma {:induction false} TypedCallFree(s: Stmt, env: Env)
    requires Typed(s, env)
    ensures StmtProof.CallFree(s)
    decreases s, 1
  {
    match s
    case Declare(_, value) => if value.Some? { OnIntsPure(value.value, env); }
    case Assign(_, e) => OnIntsPure(e, env);
    case If(cond, body, els) =>
      OnIntsPure(cond, env);
      AllTypedCallFree(body, env);
      if els.Else? { AllTypedCallFree(els.body, env); }
    case While(cond, body) =>
      OnIntsPure(cond, env);
      AllTypedCallFree(body, env);
    case For(first, cond, update, body) =>
      TypedCallFree(first, env);
      OnIntsPure(cond, Behind(first, env));
      AllTypedCallFree(body, Behind(first, env));
      TypedCallFree(update, Behind(first, env));
    case Break =>
    case Eval(e) => OnIntsPure(e.args[0], env);
  }

  lemma {:induction false} AllTypedCallFree(ss: seq<Stmt>, env: Env)
    requires AllTyped(ss, env)
    ensures StmtProof.AllCallFree(ss)
    decreases ss, 0
  {
    if ss != [] {
      TypedCallFree(ss[0], env);
      AllTypedCallFree(ss[1..], Behind(ss[0], env));
    }
  }

  /** A well-typed body without dropped breaks ends exactly when its compiled program halts; nothing else is asked of it. */
  lemma TypedHaltsIffEnds(body: seq<Stmt>, st: Machine.State)
    requires AllTyped(body, {}) && ProgramProof.AllPlaced(body, false, false) && StmtProof.AllArmed(body, false)
    requires ProgramProof.FreshMachine(st) && |st.stack| + StmtProof.NeedAll(body) <= st.capacity
    ensures (exists fuel: nat :: ProgramProof.Ends(body, fuel)) <==> (exists n: nat :: ProgramProof.HaltsAfter(body, st, n))
  {
    AllTypedCallFree(body, {});
    ProgramProof.AllStrippedIsArmed(body, false);
    forall fuel: nat ensures !ExecAll(body, map[], fuel).Undefined? {
      AllTypedMean(body, {}, map[], fuel);
    }
    hide *;
    ProgramProof.HaltsIffEnds(body, st);
  }

  // ---------- sums ----------

  predicate Direct(e: Expr) {
    e.Name? || e.Text?
  }

  /** `+` between two operands that are variables or texts joins texts, and has no meaning on numbers; with any other
      operand it adds numbers, and has no meaning on texts. */
  lemma Sums(l: Expr, r: Expr, vars: Vars, a: Word, b: Word)
    requires ValueOf(l, vars) == Some(a) && ValueOf(r, vars) == Some(b) && !a.Null? && !b.Null?
    ensures var v := ValueOf(Bin(Plus, l, r), vars);
            if Direct(l) && Direct(r) then v == if a.Str? && b.Str? then Some(Str(a.s + " " + b.s)) else None
            else v == if a.Int? && b.Int? then Some(Int(Wrap(a.i + b.i))) else None
  {
    hide Wrap;
  }

  lemma SumOfNamesCode(x: string, y: string)
    ensures var items := CodeGen.GenExpr(Bin(Plus, Name(x), Name(y)));
            && (forall i :: 0 <= i < |items| ==> items[i].Ins?)
            && CodeGen.Instructions(items) == [Machine.GetVar(x), Machine.GetVar(y), Machine.Merge]
  {
  }

  /** So the sum of two integer variables is compiled to an instruction that takes both away and leaves nothing. */
  lemma SumOfVariablesLost(x: string, y: string, st: Machine.State)
    requires Instructions.Ready(st, 2) && x in Machine.Current(st) && y in Machine.Current(st)
    requires Machine.Current(st)[x].Int? && Machine.Current(st)[y].Int?
    ensures var items := CodeGen.GenExpr(Bin(Plus, Name(x), Name(y)));
            (forall i :: 0 <= i < |items| ==> items[i].Ins?) && Instructions.Leaves(CodeGen.Instructions(items), st, [])
  {
    SumOfNamesCode(x, y);
    hide CodeGen.GenExpr, CodeGen.Instructions;
    var code := [Machine.GetVar(x), Machine.GetVar(y), Machine.Merge];
    var p := Instructions.Code(code);
    Instructions.RunThree(p, st);
    var a, b := Machine.Current(st)[x], Machine.Current(st)[y];
    var st1, st2 := st.(ip := 1, stack := st.stack + [a]), st.(ip := 2, stack := st.stack + [a] + [b]);
    assert Machine.Step(p, st) == st1;
    assert Machine.Step(p, st1) == st2;
    assert Machine.Rest(st2.stack) == st.stack + [a] && Machine.Rest(st.stack + [a]) == st.stack == st.stack + [];
  }
}
