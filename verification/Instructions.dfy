/** What instructions leave behind, told by running small programs. */
module Instructions {
  import opened Words
  import opened Machine

  function Code(instrs: seq<Instr>): Program {
    Program(instrs, [])
  }

  /** A machine about to run its first instruction, with room for some words. */
  ghost predicate Ready(st: State, room: nat) {
    st.status == Running && st.ip == 0 && st.scopes != [] && |st.stack| + room <= st.capacity
  }

  /** A program, run to its end, does nothing but leave some words on the stack. */
  ghost predicate Leaves(instrs: seq<Instr>, st: State, words: seq<Word>) {
    Run(Code(instrs), st, |instrs|) == st.(ip := |instrs|, stack := st.stack + words)
  }

  ghost predicate Faults(instrs: seq<Instr>, st: State) {
    Run(Code(instrs), st, |instrs|).status == Faulted
  }

  function Push(w: Word): Instr
    requires !w.Null?
  {
    if w.Int? then PushInt(w.i) else PushStr(w.s)
  }

  lemma RunTwo(p: Program, st: State)
    ensures Run(p, st, 1) == Step(p, st) && Run(p, st, 2) == Step(p, Step(p, st))
  {
    assert Run(p, st, 1) == Run(p, Step(p, st), 0);
    assert Run(p, st, 2) == Run(p, Step(p, st), 1) == Run(p, Step(p, Step(p, st)), 0);
  }

  lemma RunThree(p: Program, st: State)
    ensures Run(p, st, 3) == Step(p, Step(p, Step(p, st)))
  {
    RunTwo(p, Step(p, st));
    assert Run(p, st, 3) == Run(p, Step(p, st), 2);
  }

  /** The machine in front of an operation whose two words have just been pushed. */
  lemma Operands(v: Word, w: Word, instr: Instr, st: State) returns (st2: State)
    requires Ready(st, 2) && !v.Null? && !w.Null?
    ensures st2 == st.(ip := 2, stack := st.stack + [v, w])
    ensures Run(Code([Push(v), Push(w), instr]), st, 3) == Exec(Code([Push(v), Push(w), instr]), instr, st2)
    ensures Top(st2.stack) == w && Rest(st2.stack) == st.stack + [v]
    ensures Top(Rest(st2.stack)) == v && Rest(Rest(st2.stack)) == st.stack
  {
    var p := Code([Push(v), Push(w), instr]);
    RunThree(p, st);
    st2 := Step(p, Step(p, st));
    assert st.stack + [v] + [w] == st.stack + [v, w];
    assert Rest(st.stack + [v, w]) == st.stack + [v] && Rest(st.stack + [v]) == st.stack;
  }

  /** What an operation does with two words just pushed: it leaves one word, or none, or faults. */
  ghost predicate Does(v: Word, w: Word, op: AluOp, st: State, r: Outcome)
    requires !v.Null? && !w.Null?
  {
    var code := [Push(v), Push(w), Alu(op)];
    if r.Value? then Leaves(code, st, [r.word]) else if r.Nothing? then Leaves(code, st, []) else Faults(code, st)
  }

  lemma Operation(v: Word, w: Word, op: AluOp, st: State)
    requires Ready(st, 2) && !v.Null? && !w.Null?
    ensures Does(v, w, op, st, Apply(op, w, v))
  {
    var st2 := Operands(v, w, Alu(op), st);
    hide Run, Apply, Step, Top, Rest;
    assert st.stack + [] == st.stack;
  }

  // ---------- integers ----------

  function Bool(b: bool): Word {
    Int(if b then 1 else 0)
  }

  /** Comparisons: the word left is 1 exactly when the relation, first operand first, holds, and 0 otherwise. */
  lemma Comparisons(a: Int32, b: Int32, st: State)
    requires Ready(st, 2)
    ensures Does(Int(a), Int(b), Eq, st, Value(Bool(a == b))) && Does(Int(a), Int(b), Ne, st, Value(Bool(a != b)))
    ensures Does(Int(a), Int(b), Lt, st, Value(Bool(a < b))) && Does(Int(a), Int(b), Gt, st, Value(Bool(a > b)))
    ensures Does(Int(a), Int(b), Le, st, Value(Bool(a <= b))) && Does(Int(a), Int(b), Ge, st, Value(Bool(a >= b)))
  {
    Operation(Int(a), Int(b), Eq, st);
    Operation(Int(a), Int(b), Ne, st);
    Operation(Int(a), Int(b), Lt, st);
    Operation(Int(a), Int(b), Gt, st);
    Operation(Int(a), Int(b), Le, st);
    Operation(Int(a), Int(b), Ge, st);
    hide Run;
  }

  /** Sums, differences and products in 32 bits; the difference is the second operand less the first. */
  lemma Arithmetic(a: Int32, b: Int32, st: State)
    requires Ready(st, 2)
    ensures Does(Int(a), Int(b), Add, st, Value(Int(Wrap(a + b))))
    ensures Does(Int(a), Int(b), Sub, st, Value(Int(Wrap(b - a))))
    ensures Does(Int(a), Int(b), Mul, st, Value(Int(Wrap(a * b))))
  {
    Operation(Int(a), Int(b), Add, st);
    Operation(Int(a), Int(b), Sub, st);
    Operation(Int(a), Int(b), Mul, st);
    hide Run, Wrap;
  }

  /** The first operand divided by the second, toward zero. A divisor of 0, and one of INT_MIN, whose bits are those of the
      float -0, take both operands away and leave nothing; a remainder by 0 faults. */
  lemma Divisions(a: Int32, b: Int32, st: State)
    requires Ready(st, 2)
    ensures b == 0 ==> Does(Int(a), Int(b), Div, st, Nothing) && Does(Int(a), Int(b), Mod, st, Fault)
    ensures b == INT_MIN ==> Does(Int(a), Int(b), Div, st, Nothing)
    ensures a == INT_MIN && b == -1 ==> Does(Int(a), Int(b), Div, st, Fault) && Does(Int(a), Int(b), Mod, st, Fault)
    ensures b != 0 && b != INT_MIN && !(a == INT_MIN && b == -1) ==>
              Does(Int(a), Int(b), Div, st, Value(Int(Wrap(Quotient(a, b)))))
    ensures b != 0 && !(a == INT_MIN && b == -1) ==> Does(Int(a), Int(b), Mod, st, Value(Int(Wrap(Remainder(a, b)))))
  {
    Operation(Int(a), Int(b), Div, st);
    Operation(Int(a), Int(b), Mod, st);
    hide Run, Wrap, Quotient, Remainder;
  }

  predicate IsOrder(op: AluOp) {
    op == Lt || op == Gt || op == Le || op == Ge
  }

  predicate IsArithmetic(op: AluOp) {
    op == Add || op == Sub || op == Mul || op == Div || op == Mod
  }

  /** On integers, le is the negation of gt, ge of lt and ne of eq. */
  lemma Opposites(a: Int32, b: Int32, st: State, op: AluOp, op': AluOp, x: Int32, y: Int32)
    requires Ready(st, 2) && (op, op') in {(Le, Gt), (Ge, Lt), (Ne, Eq)}
    requires Does(Int(a), Int(b), op, st, Value(Int(x))) && Does(Int(a), Int(b), op', st, Value(Int(y)))
    ensures (x == 0 && y == 1) || (x == 1 && y == 0)
  {
    Comparisons(a, b, st);
    OneWord(Int(a), Int(b), op, st, Int(x));
    OneWord(Int(a), Int(b), op', st, Int(y));
    hide Run, Apply;
  }

  lemma OneWord(v: Word, w: Word, op: AluOp, st: State, x: Word)
    requires !v.Null? && !w.Null? && Does(v, w, op, st, Value(x))
    ensures forall r :: Does(v, w, op, st, Value(r)) ==> r == x
  {
    hide Run;
    forall r | Does(v, w, op, st, Value(r)) ensures r == x {
      assert (st.stack + [x])[|st.stack|] == (st.stack + [r])[|st.stack|];
    }
  }

  // ---------- strings, and words of two types ----------

  /** Strings are compared for equality alone. */
  lemma Strings(s: string, t: string, st: State)
    requires Ready(st, 2)
    ensures Does(Str(s), Str(t), Eq, st, Value(Bool(s == t))) && Does(Str(s), Str(t), Ne, st, Value(Bool(s != t)))
    ensures forall op :: IsOrder(op) || IsArithmetic(op) ==> Does(Str(s), Str(t), op, st, Fault)
  {
    Operation(Str(s), Str(t), Eq, st);
    Operation(Str(s), Str(t), Ne, st);
    hide Run;
    forall op | IsOrder(op) || IsArithmetic(op) ensures Does(Str(s), Str(t), op, st, Fault) {
      Operation(Str(s), Str(t), op, st);
    }
  }

  function Mixed(op: AluOp): Outcome {
    if op == Ne then Value(Int(1)) else if op == Eq || IsOrder(op) then Value(Int(0)) else Fault
  }

  /** A number and a string are not equal, and neither is below the other; arithmetic on them faults, but for a divisor
      of zero, which is looked at first. */
  lemma MixedTypes(a: Int32, s: string, st: State)
    requires Ready(st, 2)
    ensures forall op :: Does(Int(a), Str(s), op, st, Mixed(op))
    ensures forall op :: Does(Str(s), Int(a), op, st, if op == Div && (a == 0 || a == INT_MIN) then Nothing else Mixed(op))
  {
    hide Run;
    forall op ensures Does(Int(a), Str(s), op, st, Mixed(op)) {
      Operation(Int(a), Str(s), op, st);
    }
    forall op ensures Does(Str(s), Int(a), op, st, if op == Div && (a == 0 || a == INT_MIN) then Nothing else Mixed(op)) {
      Operation(Str(s), Int(a), op, st);
    }
  }

  /** merge puts a space between two strings; of other words it leaves nothing. */
  lemma Merges(v: Word, w: Word, st: State)
    requires Ready(st, 2) && !v.Null? && !w.Null?
    ensures Leaves([Push(v), Push(w), Merge], st, if v.Str? && w.Str? then [Str(v.s + " " + w.s)] else [])
  {
    var st2 := Operands(v, w, Merge, st);
    hide Run, Step, Top, Rest;
    assert st.stack + [] == st.stack;
  }

  /** not leaves 1 of 0 and 0 of another integer. */
  lemma NotLeaves(v: Word, st: State)
    requires Ready(st, 1) && !v.Null?
    ensures v.Int? ==> Leaves([Push(v), Not], st, [Bool(v.i == 0)])
    ensures v.Str? ==> Faults([Push(v), Not], st)
  {
    var p := Code([Push(v), Not]);
    RunTwo(p, st);
    var st1 := Step(p, st);
    assert st1 == st.(ip := 1, stack := st.stack + [v]);
    assert Rest(st.stack + [v]) == st.stack && Top(st.stack + [v]) == v;
  }

  /** From an empty stack come null words: comparing two of them faults, like arithmetic on them; only a null divisor
      stops a division before it. */
  lemma EmptyStack(op: AluOp, st: State)
    requires Ready(st, 0) && st.stack == []
    ensures op == Div ==> Leaves([Alu(op)], st, [])
    ensures op != Div ==> Faults([Alu(op)], st)
    ensures Leaves([Merge], st, []) && Faults([Not], st)
  {
    forall instr ensures Run(Code([instr]), st, 1) == Exec(Code([instr]), instr, st) {
      RunTwo(Code([instr]), st);
    }
    hide Run, Step;
    assert st.stack + [] == st.stack;
  }

  // ---------- the stack ----------

  /** swap exchanges two words; so twice it leaves them as they were. */
  lemma Swaps(below: seq<Word>, v: Word, w: Word, st: State)
    requires Ready(st, 0) && st.stack == below + [v, w]
    ensures Run(Code([Swap]), st, 1) == st.(ip := 1, stack := below + [w, v])
    ensures Leaves([Swap, Swap], st, [])
  {
    var p := Code([Swap, Swap]);
    RunTwo(Code([Swap]), st);
    RunTwo(p, st);
    SwapStep(Code([Swap]), below, v, w, st);
    SwapStep(p, below, v, w, st);
    SwapStep(p, below, w, v, st.(ip := 1, stack := below + [w, v]));
    hide Run, Step;
    assert st.stack + [] == st.stack;
  }

  lemma SwapStep(p: Program, below: seq<Word>, v: Word, w: Word, st: State)
    requires st.status == Running && st.scopes != [] && |st.stack| <= st.capacity && st.stack == below + [v, w]
    requires st.ip < |p.instrs| && p.instrs[st.ip] == Swap
    ensures Step(p, st) == st.(ip := st.ip + 1, stack := below + [w, v])
  {
    assert Rest(st.stack) == below + [v] && Rest(below + [v]) == below;
    assert below + [w] + [v] == below + [w, v];
  }

  /** dup copies the top word; drop takes it away again. */
  lemma Copies(below: seq<Word>, w: Word, st: State)
    requires Ready(st, 1) && st.stack == below + [w]
    ensures Run(Code([Dup]), st, 1) == st.(ip := 1, stack := below + [w, w])
    ensures Leaves([Dup, Drop], st, []) && Run(Code([Drop]), st, 1) == st.(ip := 1, stack := below)
  {
    RunTwo(Code([Dup]), st);
    RunTwo(Code([Drop]), st);
    RunTwo(Code([Dup, Drop]), st);
    assert Top(st.stack) == w && Rest(st.stack) == below && st.stack + [w] == below + [w, w];
    assert Rest(st.stack + [w]) == st.stack && st.stack + [] == st.stack;
  }

  /** drop takes back what a push has put there. */
  lemma PushDrop(w: Word, st: State)
    requires Ready(st, 1) && !w.Null?
    ensures Leaves([Push(w)], st, [w]) && Leaves([Push(w), Drop], st, [])
  {
    RunTwo(Code([Push(w)]), st);
    RunTwo(Code([Push(w), Drop]), st);
    assert Rest(st.stack + [w]) == st.stack && st.stack + [] == st.stack;
  }

  /** On a full stack a push, and what dup would add, is lost. */
  lemma FullStack(w: Word, st: State)
    requires Ready(st, 0) && |st.stack| == st.capacity && !w.Null?
    ensures Leaves([Push(w)], st, []) && Leaves([Dup], st, [])
  {
    RunTwo(Code([Push(w)]), st);
    RunTwo(Code([Dup]), st);
    assert st.stack + [] == st.stack;
  }

  // ---------- output, variables, jumps ----------

  /** print writes the word it takes off the stack. */
  lemma Prints(w: Word, st: State)
    requires Ready(st, 1) && !w.Null?
    ensures Run(Code([Push(w), Print]), st, 2) == st.(ip := 2, out := st.out + [w])
  {
    RunTwo(Code([Push(w), Print]), st);
    assert Rest(st.stack + [w]) == st.stack;
  }

  /** A variable set is read back, in a scope that then holds it and all others as before. */
  lemma SetThenGet(w: Word, x: string, st: State)
    requires Ready(st, 1) && !w.Null?
    ensures var last := Run(Code([Push(w), SetVar(x), GetVar(x)]), st, 3);
            && last.stack == st.stack + [w] && last.ip == 3 && last.status == Running && |last.scopes| == |st.scopes|
            && (forall k :: 0 <= k < |st.scopes| - 1 ==> last.scopes[k] == st.scopes[k])
            && Current(last) == Current(st)[x := w]
  {
    var p := Code([Push(w), SetVar(x), GetVar(x)]);
    RunThree(p, st);
    var st1 := Step(p, st);
    assert st1 == st.(ip := 1, stack := st.stack + [w]) && Rest(st1.stack) == st.stack;
    var scope := Current(st)[x := w];
    var st2 := WithCurrent(st1, scope).(ip := 2, stack := st.stack);
    SetStep(p, st1, st2, x, w);
    hide Run;
    assert Current(st2) == scope && Variable(scope, x) == w;
    assert Step(p, st2) == st2.(ip := 3, stack := st.stack + [w]);
  }

  lemma SetStep(p: Program, st1: State, st2: State, x: string, w: Word)
    requires st1.status == Running && st1.scopes != [] && st1.stack != [] && Top(st1.stack) == w
    requires st1.ip == 1 && |p.instrs| > 1 && p.instrs[1] == SetVar(x)
    requires st2 == WithCurrent(st1, Current(st1)[x := w]).(ip := 2, stack := Rest(st1.stack))
    ensures Step(p, st1) == st2
  {
  }

  /** A variable that is only declared, or not there, leaves nothing; declaring one anew changes no value. */
  lemma Declares(x: string, y: string, st: State)
    requires Ready(st, 1)
    ensures x !in Current(st) ==> Leaves([GetVar(x)], st, [])
    ensures var last := Run(Code([Var(x), GetVar(y)]), st, 2);
            last.stack == st.stack + if y in Current(st) && Current(st)[y] != Null then [Current(st)[y]] else []
  {
    RunTwo(Code([GetVar(x)]), st);
    var p := Code([Var(x), GetVar(y)]);
    RunTwo(p, st);
    assert st.stack + [] == st.stack;
    assert Current(Step(p, st)) == Declared(Current(st), x);
  }

  /** A new scope has no variables, and the old one is kept under it. */
  lemma NewScope(x: string, st: State)
    requires Ready(st, 0)
    ensures var last := Run(Code([ToggleLocalScope, GetVar(x)]), st, 2);
            last == st.(ip := 2, scopes := st.scopes + [map[]])
  {
    var p := Code([ToggleLocalScope, GetVar(x)]);
    RunTwo(p, st);
    var st1 := st.(ip := 1, scopes := st.scopes + [map[]]);
    assert Step(p, st) == st1;
    hide Run;
    assert Current(st1) == map[] && Step(p, st1) == st1.(ip := 2);
  }

  /** jmp goes to its label's address, jmpif only on the integer 1, which it takes off; a name without a label is the
      address 0. */
  lemma Jumps(w: Word, l: string, address: nat, st: State)
    requires Ready(st, 1) && !w.Null? && address < 3
    ensures var p := Program([Nop, Jmp(l), Nop], [Label(l, address)]);
            Run(p, st, 2) == st.(ip := address) && Run(Code([Nop, Jmp(l), Nop]), st, 2) == st.(ip := 0)
    ensures var p := Program([Push(w), JmpIf(l), Nop], [Label(l, address)]);
            Run(p, st, 2) == st.(ip := if w == Int(1) then address else 2)
    ensures var p := Program([Nop, Jmp(l), Nop], [Label(l, address + 3)]); Run(p, st, 2).status == Faulted
  {
    RunTwo(Program([Nop, Jmp(l), Nop], [Label(l, address)]), st);
    RunTwo(Code([Nop, Jmp(l), Nop]), st);
    RunTwo(Program([Push(w), JmpIf(l), Nop], [Label(l, address)]), st);
    RunTwo(Program([Nop, Jmp(l), Nop], [Label(l, address + 3)]), st);
    assert Rest(st.stack + [w]) == st.stack;
  }

  /** call saves its own place and goes to its label, ret goes behind the place saved last. */
  lemma CallsAndReturns(l: string, st: State)
    requires Ready(st, 0) && |st.calls| < CALL_CAPACITY
    ensures var p := Program([Nop, Call(l), Halt, Nop, Ret], [Label(l, 4)]);
            && Run(p, st, 2) == st.(ip := 4, calls := st.calls + [Int(1)])
            && Run(p, st, 3) == st.(ip := 2)
  {
    var p := Program([Nop, Call(l), Halt, Nop, Ret], [Label(l, 4)]);
    CallSteps(p, l, st);
    RunTwo(p, st);
    RunThree(p, st);
    hide Run, Step;
  }

  /** On an empty call stack, ret goes to the address 1; a call without a label faults. */
  lemma NoPlaceToGo(l: string, st: State)
    requires Ready(st, 0)
    ensures st.calls == [] ==> Run(Code([Ret]), st, 1) == st.(ip := 1)
    ensures Run(Code([Call(l)]), st, 1).status == Faulted
  {
    RunTwo(Code([Ret]), st);
    RunTwo(Code([Call(l)]), st);
    assert Lookup(Code([Call(l)]).labels, l) == -1;
    hide Run, Lookup, Wrap;
  }

  lemma CallSteps(p: Program, l: string, st: State)
    requires Ready(st, 0) && |st.calls| < CALL_CAPACITY
    requires |p.instrs| == 5 && p.instrs[0] == Nop && p.instrs[1] == Call(l) && p.instrs[4] == Ret && p.labels == [Label(l, 4)]
    ensures Step(p, st) == st.(ip := 1)
    ensures Step(p, st.(ip := 1)) == st.(ip := 4, calls := st.calls + [Int(1)])
    ensures Step(p, st.(ip := 4, calls := st.calls + [Int(1)])) == st.(ip := 2)
  {
    assert Lookup(p.labels, l) == 4;
    var calls := st.calls + [Int(1)];
    assert Rest(calls) == st.calls && Top(calls) == Int(1);
  }

  /** halt stops the machine, with the exit code given, if one is. */
  lemma Halts(code: int, st: State)
    requires Ready(st, 0)
    ensures Run(Code([Halt]), st, 1) == st.(status := Halted)
    ensures Run(Code([HaltWith(code)]), st, 1) == st.(status := Halted, exitCode := code)
    ensures forall n: nat, p :: Run(p, st.(status := Halted), n) == st.(status := Halted)
  {
    RunTwo(Code([Halt]), st);
    RunTwo(Code([HaltWith(code)]), st);
    forall n: nat, p ensures Run(p, st.(status := Halted), n) == st.(status := Halted) {
      StaysHalted(p, st.(status := Halted), n);
    }
  }

  lemma {:induction false} StaysHalted(p: Program, st: State, n: nat)
    requires st.status == Halted
    ensures Run(p, st, n) == st
    decreases n
  {
    if n > 0 {
      StaysHalted(p, st, n - 1);
    }
  }
}
