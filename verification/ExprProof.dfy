/** Compiled expressions: value, untouched words, height. */
module ExprProof {
  import opened Words
  import opened Nyva
  import opened CodeGen
  import opened Machine

  // ---------- code in place ----------

  ghost predicate ItemAt(p: Program, i: nat, item: Item)
    requires i < |p.instrs|
  {
    match item
    case Lbl(name) => p.instrs[i] == Nop && Target(p, name) == i
    case Ins(instr) => p.instrs[i] == instr
  }

  /** A piece of generated code stands at an address, each of its labels resolving to its own place. */
  ghost predicate CodeAt(p: Program, at: nat, items: seq<Item>) {
    && at + |items| <= |p.instrs|
    && forall k :: 0 <= k < |items| ==> ItemAt(p, at + k, items[k])
  }

  lemma CodeSplits(p: Program, at: nat, a: seq<Item>, b: seq<Item>)
    requires CodeAt(p, at, a + b)
    ensures CodeAt(p, at, a) && CodeAt(p, at + |a|, b)
  {
    forall k | 0 <= k < |a| ensures ItemAt(p, at + k, a[k]) {
      assert (a + b)[k] == a[k];
    }
    forall k | 0 <= k < |b| ensures ItemAt(p, at + |a| + k, b[k]) {
      assert (a + b)[|a| + k] == b[k];
      assert ItemAt(p, at + (|a| + k), b[k]);
    }
  }

  // ---------- heights along a run ----------

  function Max(a: nat, b: nat): nat {
    if a < b then b else a
  }

  /** The greatest stack height in the first n steps. */
  ghost function Peak(p: Program, st: State, n: nat): nat
    decreases n
  {
    if n == 0 then |st.stack| else Max(|st.stack|, Peak(p, Step(p, st), n - 1))
  }

  /** The words of `base` stay at the bottom of the stack throughout the first n steps. */
  ghost predicate Keeps(p: Program, st: State, n: nat, base: seq<Word>)
    decreases n
  {
    base <= st.stack && (n > 0 ==> Keeps(p, Step(p, st), n - 1, base))
  }

  lemma {:induction false} PeakAdds(p: Program, st: State, m: nat, n: nat)
    ensures Peak(p, st, m + n) == Max(Peak(p, st, m), Peak(p, Run(p, st, m), n))
    decreases m
  {
    hide Step;
    if m > 0 {
      PeakAdds(p, Step(p, st), m - 1, n);
    }
  }

  lemma {:induction false} KeepsAdds(p: Program, st: State, m: nat, n: nat, base: seq<Word>)
    requires Keeps(p, st, m, base) && Keeps(p, Run(p, st, m), n, base)
    ensures Keeps(p, st, m + n, base)
    decreases m
  {
    if m > 0 {
      KeepsAdds(p, Step(p, st), m - 1, n, base);
    }
  }

  lemma {:induction false} KeepsLess(p: Program, st: State, n: nat, base: seq<Word>, more: seq<Word>)
    requires Keeps(p, st, n, base + more)
    ensures Keeps(p, st, n, base)
    decreases n
  {
    assert base <= base + more <= st.stack;
    if n > 0 {
      KeepsLess(p, Step(p, st), n - 1, base, more);
    }
  }

  /** n steps lead from one state to another, rise to `peak` and keep `base` at the bottom of the stack. */
  ghost predicate Leads(p: Program, st: State, n: nat, end: State, peak: nat, base: seq<Word>) {
    Run(p, st, n) == end && Peak(p, st, n) == peak && Keeps(p, st, n, base)
  }

  lemma LeadsThen(p: Program, st: State, m: nat, mid: State, peak: nat, n: nat, end: State, peak': nat, base: seq<Word>)
    requires Leads(p, st, m, mid, peak, base) && Leads(p, mid, n, end, peak', base)
    ensures Leads(p, st, m + n, end, Max(peak, peak'), base)
  {
    RunAdds(p, st, m, n);
    PeakAdds(p, st, m, n);
    KeepsAdds(p, st, m, n, base);
  }

  lemma LeadsLess(p: Program, st: State, n: nat, end: State, peak: nat, base: seq<Word>, more: seq<Word>)
    requires Leads(p, st, n, end, peak, base + more)
    ensures Leads(p, st, n, end, peak, base)
  {
    KeepsLess(p, st, n, base, more);
  }

  // ---------- expressions ----------

  /** The stack slots an expression needs. */
  function Need(e: Expr): nat {
    match e
    case Bin(_, l, r) => Max(Need(l), 1 + Need(r))
    case _ => 1
  }

  lemma NeedIsPositive(e: Expr)
    ensures Need(e) >= 1
  {
  }

  /** A running state about to execute at an address. */
  ghost predicate ReadyAt(st: State, at: nat) {
    st.status == Running && st.ip == at && st.scopes != []
  }

  lemma OperatorMeaning(e: Expr, l: Word, r: Word)
    requires e.Bin? && Meaning(e.op, JoinsText(e), l, r).Some?
    ensures JoinsText(e) ==> MergeWords(r, l) == Outcome.Value(Meaning(e.op, true, l, r).value)
    ensures !JoinsText(e) && !e.op.Equals? ==>
              Machine.Apply(AluOf(e.op), r, l) == Outcome.Value(Meaning(e.op, false, l, r).value)
    ensures e.op.Equals? ==>
              && Machine.Apply(Eq, r, l) == Outcome.Value(Flag(l == r))
              && Negate(Flag(l == r)) == Outcome.Value(Meaning(e.op, false, l, r).value)
  {
  }

  /** One step that replaces the words above `base` by one. */
  lemma FoldStep(p: Program, at: nat, st: State, base: seq<Word>, args: seq<Word>, instr: Instr, v: Word)
    requires CodeAt(p, at, [Ins(instr)]) && ReadyAt(st, at)
    requires st.stack == base + args && |args| >= 1 && |st.stack| <= st.capacity
    requires instr.Not? ==> |args| == 1 && Negate(args[0]) == Outcome.Value(v)
    requires instr.Merge? ==> |args| == 2 && MergeWords(args[1], args[0]) == Outcome.Value(v)
    requires instr.Alu? ==> |args| == 2 && Machine.Apply(instr.op, args[1], args[0]) == Outcome.Value(v)
    requires instr.Not? || instr.Merge? || instr.Alu?
    ensures Leads(p, st, 1, st.(ip := at + 1, stack := base + [v]), |st.stack|, base)
  {
    hide Machine.Apply, MergeWords, Negate;
    assert ItemAt(p, at + 0, [Ins(instr)][0]);
    assert Top(st.stack) == args[|args| - 1];
    assert Rest(st.stack) == base + args[..|args| - 1];
    if |args| == 2 {
      assert Top(Rest(st.stack)) == args[0] && Rest(Rest(st.stack)) == base;
    } else {
      assert Rest(st.stack) == base;
    }
    var st1 := Step(p, st);
    assert st1 == st.(ip := at + 1, stack := base + [v]);
    assert Run(p, st, 1) == Run(p, st1, 0) == st1;
    assert Peak(p, st1, 0) == |st1.stack| && Keeps(p, st1, 0, base);
  }

  /** The instructions of an operator, run on its two operands. */
  lemma OperatorRuns(p: Program, at: nat, e: Expr, st: State, base: seq<Word>, l: Word, r: Word) returns (n: nat)
    requires e.Bin? && Meaning(e.op, JoinsText(e), l, r).Some?
    requires CodeAt(p, at, Operator(e)) && ReadyAt(st, at)
    requires st.stack == base + [l, r] && |st.stack| <= st.capacity
    ensures Leads(p, st, n, st.(ip := at + |Operator(e)|,
                                stack := base + [Meaning(e.op, JoinsText(e), l, r).value]), |st.stack|, base)
  {
    hide Step, Run, Leads, CodeAt, Meaning, Machine.Apply, MergeWords, Negate;
    OperatorMeaning(e, l, r);
    var v := Meaning(e.op, JoinsText(e), l, r).value;
    if e.op.Equals? {
      var w := Flag(l == r);
      assert Operator(e) == [Ins(Alu(Eq))] + [Ins(Not)];
      CodeSplits(p, at, [Ins(Alu(Eq))], [Ins(Not)]);
      var st1 := st.(ip := at + 1, stack := base + [w]);
      FoldStep(p, at, st, base, [l, r], Alu(Eq), w);
      FoldStep(p, at + 1, st1, base, [w], Not, v);
      LeadsThen(p, st, 1, st1, |st.stack|, 1, st1.(ip := at + 2, stack := base + [v]), |st1.stack|, base);
      n := 2;
    } else {
      var instr := if JoinsText(e) then Merge else Alu(AluOf(e.op));
      assert Operator(e) == [Ins(instr)];
      FoldStep(p, at, st, base, [l, r], instr, v);
      n := 1;
    }
  }

  /** The state an expression's code ends in. */
  ghost function Evaluated(st: State, at: nat, e: Expr): State
    requires st.scopes != [] && ValueOf(e, Current(st)).Some?
  {
    st.(ip := at + |GenExpr(e)|, stack := st.stack + [ValueOf(e, Current(st)).value])
  }

  /** What an operator's parts give it: its code, its need, and its value. */
  lemma Parts(e: Expr, vars: Vars)
    requires e.Bin? && ValueOf(e, vars).Some?
    ensures GenExpr(e) == GenExpr(e.left) + GenExpr(e.right) + Operator(e)
    ensures Need(e) == Max(Need(e.left), 1 + Need(e.right)) && Need(e.right) >= 1
    ensures ValueOf(e.left, vars).Some? && ValueOf(e.right, vars).Some?
    ensures var a, b := ValueOf(e.left, vars).value, ValueOf(e.right, vars).value;
            Meaning(e.op, JoinsText(e), a, b) == ValueOf(e, vars)
  {
    NeedIsPositive(e.right);
  }

  lemma LeafRuns(p: Program, at: nat, e: Expr, st: State)
    requires CodeAt(p, at, GenExpr(e)) && ReadyAt(st, at) && !e.Bin?
    requires ValueOf(e, Current(st)).Some?
    requires |st.stack| + 1 <= st.capacity
    ensures Leads(p, st, 1, Evaluated(st, at, e), |st.stack| + 1, st.stack)
  {
    assert ItemAt(p, at + 0, GenExpr(e)[0]);
    var st1 := Step(p, st);
    assert Run(p, st, 1) == Run(p, st1, 0) == st1;
    assert Peak(p, st1, 0) == |st1.stack| && Keeps(p, st1, 0, st.stack);
  }

  /** Both operands run, then their operator. */
  lemma OperandsThenOperator(p: Program, at: nat, e: Expr, st: State, n1: nat, n2: nat) returns (n: nat)
    requires e.Bin? && ReadyAt(st, at) && ValueOf(e, Current(st)).Some?
    requires ValueOf(e.left, Current(st)).Some? && ValueOf(e.right, Current(st)).Some?
    requires CodeAt(p, at + |GenExpr(e.left)| + |GenExpr(e.right)|, Operator(e))
    requires |st.stack| + Need(e) <= st.capacity
    requires var st1 := Evaluated(st, at, e.left);
             var mid := at + |GenExpr(e.left)|;
             && Leads(p, st, n1, st1, |st.stack| + Need(e.left), st.stack)
             && Leads(p, st1, n2, Evaluated(st1, mid, e.right), |st1.stack| + Need(e.right), st1.stack)
    ensures n >= n1
    ensures Leads(p, st, n, Evaluated(st, at, e), |st.stack| + Need(e), st.stack)
  {
    hide Step, Run, Leads, CodeAt, GenExpr, ValueOf, Operator, Meaning, Need;
    Parts(e, Current(st));
    var mid, h := at + |GenExpr(e.left)|, |st.stack|;
    var st1 := Evaluated(st, at, e.left);
    var st2 := Evaluated(st1, mid, e.right);
    var a, b := st1.stack[h], st2.stack[h + 1];
    assert st2.stack == st.stack + [a, b];
    LeadsLess(p, st1, n2, st2, h + 1 + Need(e.right), st.stack, [a]);
    LeadsThen(p, st, n1, st1, h + Need(e.left), n2, st2, h + 1 + Need(e.right), st.stack);
    var n3 := OperatorRuns(p, mid + |GenExpr(e.right)|, e, st2, st.stack, a, b);
    LeadsThen(p, st, n1 + n2, st2, h + Need(e), n3, Evaluated(st, at, e), |st2.stack|, st.stack);
    n := n1 + n2 + n3;
  }

  /** A compiled expression leaves its value one word higher, touches no word below, and rises exactly Need(e). */
  lemma {:induction false} ExprRuns(p: Program, at: nat, e: Expr, st: State) returns (n: nat)
    requires CodeAt(p, at, GenExpr(e)) && ReadyAt(st, at)
    requires ValueOf(e, Current(st)).Some?
    requires |st.stack| + Need(e) <= st.capacity
    ensures Leads(p, st, n, Evaluated(st, at, e), |st.stack| + Need(e), st.stack)
    ensures n >= 1
    decreases e
  {
    hide Step, Run, Leads, CodeAt, GenExpr, ValueOf, Operator, Meaning;
    if e.Bin? {
      Parts(e, Current(st));
      var mid := at + |GenExpr(e.left)|;
      CodeSplits(p, at, GenExpr(e.left) + GenExpr(e.right), Operator(e));
      CodeSplits(p, at, GenExpr(e.left), GenExpr(e.right));
      var n1 := ExprRuns(p, at, e.left, st);
      var n2 := ExprRuns(p, mid, e.right, Evaluated(st, at, e.left));
      n := OperandsThenOperator(p, at, e, st, n1, n2);
    } else {
      LeafRuns(p, at, e, st);
      n := 1;
    }
  }
}
