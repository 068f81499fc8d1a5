/** Calls and returns over whole runs. */
module Calls {
  import opened Words
  import opened Machine

  /** Programs whose instruction indices fit the int that a call saves. */
  predicate Indexable(p: Program) {
    |p.instrs| <= INT_MAX
  }

  /** Every saved return address is the index of a call instruction, and both stacks are within capacity. */
  ghost predicate CallsSound(p: Program, st: State) {
    && (forall k :: 0 <= k < |st.calls| ==>
          st.calls[k].Int? && 0 <= st.calls[k].i < |p.instrs| && p.instrs[st.calls[k].i].Call?)
    && |st.calls| <= CALL_CAPACITY
    && |st.stack| <= st.capacity
  }

  /** How one step changes the call stack. */
  lemma StepCalls(p: Program, st: State)
    ensures Step(p, st).calls == st.calls
         || (st.ip < |p.instrs| && p.instrs[st.ip].Call? && |st.calls| < CALL_CAPACITY
             && Step(p, st).calls == st.calls + [Int(Wrap(st.ip))])
         || (st.ip < |p.instrs| && p.instrs[st.ip].Ret? && Step(p, st).calls == Rest(st.calls))
    ensures |st.stack| <= st.capacity ==> |Step(p, st).stack| <= Step(p, st).capacity == st.capacity
  {
    if st.status == Running && st.ip < |p.instrs| && st.scopes != [] {
      var instr := p.instrs[st.ip];
      if instr.Call? || instr.Ret? { CallOrRet(p, instr, st); } else { OtherKeepsCalls(p, instr, st); }
      if st.ip < |p.instrs| && |st.stack| <= st.capacity { StackFits(p, instr, st); }
    }
    hide Exec, Pushed, Rest;
  }

  lemma CallOrRet(p: Program, instr: Instr, st: State)
    requires st.scopes != [] && (instr.Call? || instr.Ret?)
    ensures instr.Call? ==>
              || Exec(p, instr, st).calls == st.calls
              || (|st.calls| < CALL_CAPACITY && Exec(p, instr, st).calls == st.calls + [Int(Wrap(st.ip))])
    ensures instr.Ret? ==> Exec(p, instr, st).calls == Rest(st.calls)
  {
    hide Lookup;
  }

  lemma OtherKeepsCalls(p: Program, instr: Instr, st: State)
    requires st.scopes != [] && !instr.Call? && !instr.Ret?
    ensures Exec(p, instr, st).calls == st.calls
  {
    hide Apply, MergeWords, Negate, Lookup, Target, Machine.Variable, Declared, Pushed, Top, Rest;
  }

  lemma StackFits(p: Program, instr: Instr, st: State)
    requires st.scopes != [] && |st.stack| <= st.capacity
    ensures |Exec(p, instr, st).stack| <= Exec(p, instr, st).capacity == st.capacity
  {
    hide Apply, MergeWords, Negate, Lookup, Target, Machine.Variable, Declared;
  }

  lemma StepSound(p: Program, st: State)
    requires Indexable(p) && CallsSound(p, st)
    ensures CallsSound(p, Step(p, st))
  {
    hide Step;
    StepCalls(p, st);
  }

  /** The invariant holds in every state of every run. */
  lemma {:induction false} RunSound(p: Program, st: State, n: nat)
    requires Indexable(p) && CallsSound(p, st)
    ensures CallsSound(p, Run(p, st, n))
    decreases n
  {
    hide Step, CallsSound;
    if n > 0 {
      StepSound(p, st);
      RunSound(p, Step(p, st), n - 1);
    }
  }

  /** The call depth stays at least d through the first n steps. */
  ghost predicate StaysDeep(p: Program, st: State, n: nat, d: nat)
    decreases n
  {
    |st.calls| >= d && (n > 0 ==> StaysDeep(p, Step(p, st), n - 1, d))
  }

  /** While the depth stays at least d, the d oldest frames do not change. */
  lemma {:induction false} FramesKept(p: Program, st: State, n: nat, d: nat)
    requires StaysDeep(p, st, n, d)
    ensures |Run(p, st, n).calls| >= d && Run(p, st, n).calls[..d] == st.calls[..d]
    decreases n
  {
    hide Step;
    if n > 0 {
      var st' := Step(p, st);
      StepCalls(p, st);
      assert st'.calls[..d] == st.calls[..d];
      FramesKept(p, st', n - 1, d);
    }
  }

  /** A call that finds its label and room on the call stack goes there, with its own index saved on top. */
  lemma CallEnters(p: Program, st: State)
    requires Indexable(p) && st.status == Running && st.scopes != [] && st.ip < |p.instrs| && p.instrs[st.ip].Call?
    requires 0 <= Lookup(p.labels, p.instrs[st.ip].target) < |p.instrs|
    ensures Step(p, st).ip == Lookup(p.labels, p.instrs[st.ip].target) && Step(p, st).status == Running
    ensures Step(p, st).calls == if |st.calls| < CALL_CAPACITY then st.calls + [Int(st.ip)] else st.calls
  {
  }

  lemma RetResumes(p: Program, st: State, calls: seq<Word>, i: Int32)
    requires st.status == Running && st.scopes != [] && st.ip < |p.instrs| && p.instrs[st.ip].Ret?
    requires st.calls == calls + [Int(i)] && i >= 0
    ensures Step(p, st) == st.(calls := calls, ip := i + 1)
  {
    assert Rest(st.calls) == calls;
  }

  /** The `ret` that matches a call resumes right after it, with the call stack as it was before the call. */
  lemma MatchingReturn(p: Program, st: State, n: nat)
    requires Indexable(p) && st.status == Running && st.scopes != [] && st.ip < |p.instrs| && p.instrs[st.ip].Call?
    requires 0 <= Lookup(p.labels, p.instrs[st.ip].target) < |p.instrs|
    requires |st.calls| < CALL_CAPACITY
    requires StaysDeep(p, Step(p, st), n, |st.calls| + 1)
    requires var last := Run(p, Step(p, st), n);
             && last.status == Running && last.scopes != [] && last.ip < |p.instrs| && p.instrs[last.ip].Ret?
             && |last.calls| == |st.calls| + 1
    ensures var back := Run(p, st, n + 2);
            back.ip == st.ip + 1 && back.calls == st.calls && back.status == Running
  {
    hide Step, Lookup;
    var d := |st.calls| + 1;
    var st1 := Step(p, st);
    CallEnters(p, st);
    FramesKept(p, st1, n, d);
    var last := Run(p, st1, n);
    assert last.calls == last.calls[..d] == st1.calls[..d] == st.calls + [Int(st.ip)];
    RetResumes(p, last, st.calls, st.ip);
    RunAdds(p, st1, n, 1);
    assert Run(p, last, 1) == Run(p, Step(p, last), 0);
    assert Run(p, st, n + 2) == Run(p, st1, n + 1);
  }

  /** With 1024 frames saved, a call saves nothing, and the `ret` that ends what it called leaves an older frame. */
  lemma FullCallStackForgets(p: Program, st: State, n: nat, older: Int32)
    requires Indexable(p) && st.status == Running && st.scopes != [] && st.ip < |p.instrs| && p.instrs[st.ip].Call?
    requires 0 <= Lookup(p.labels, p.instrs[st.ip].target) < |p.instrs|
    requires |st.calls| == CALL_CAPACITY && st.calls[CALL_CAPACITY - 1] == Int(older) && older >= 0
    requires StaysDeep(p, Step(p, st), n, CALL_CAPACITY)
    requires var last := Run(p, Step(p, st), n);
             && last.status == Running && last.scopes != [] && last.ip < |p.instrs| && p.instrs[last.ip].Ret?
             && |last.calls| == CALL_CAPACITY
    ensures var back := Run(p, st, n + 2);
            back.ip == older + 1 && back.calls == st.calls[..CALL_CAPACITY - 1]
  {
    hide Step, Lookup;
    CallEnters(p, st);
    var st1 := Step(p, st);
    FramesKept(p, st1, n, CALL_CAPACITY);
    var last := Run(p, st1, n);
    assert last.calls == last.calls[..CALL_CAPACITY] == st1.calls[..CALL_CAPACITY] == st.calls;
    assert last.calls == st.calls[..CALL_CAPACITY - 1] + [Int(older)];
    RetResumes(p, last, st.calls[..CALL_CAPACITY - 1], older);
    RunAdds(p, st1, n, 1);
    assert Run(p, last, 1) == Run(p, Step(p, last), 0);
    assert Run(p, st, n + 2) == Run(p, st1, n + 1);
  }

  // ---------- a program that gets there ----------

  /** It calls itself as long as the words on the stack are not 1, then returns. */
  const DESCENT := Program([JmpIf("out"), Call("f"), Ret], [Label("f", 0), Label("out", 2)])

  ghost predicate AtStart(st: State) {
    st.status == Running && st.scopes != [] && st.ip == 0 && st.stack != []
  }

  lemma DescentLabels()
    ensures Lookup(DESCENT.labels, "f") == 0 && Lookup(DESCENT.labels, "out") == 2
    ensures Indexable(DESCENT) && |DESCENT.instrs| == 3
  {
    assert DESCENT.labels[1..] == [Label("out", 2)];
  }

  lemma DescentTurn(st: State)
    requires AtStart(st) && Top(st.stack) == Int(0)
    ensures Run(DESCENT, st, 1) == st.(stack := Rest(st.stack), ip := 1)
    ensures Run(DESCENT, st, 2) == st.(stack := Rest(st.stack), calls := Pushed(st.calls, Int(1), CALL_CAPACITY))
  {
    DescentLabels();
    var st1 := Step(DESCENT, st);
    assert st1 == st.(stack := Rest(st.stack), ip := 1);
    assert Run(DESCENT, st, 1) == Run(DESCENT, st1, 0);
    assert Run(DESCENT, st, 2) == Run(DESCENT, st1, 1) == Run(DESCENT, Step(DESCENT, st1), 0);
  }

  function Zeros(k: nat): seq<Word> {
    seq(k, _ => Int(0))
  }

  function Frames(k: nat): seq<Word> {
    seq(k, _ => Int(1))
  }

  /** Each zero taken from the stack is one more frame, as long as there is room. */
  lemma {:induction false} DescentSinks(st: State, below: seq<Word>, k: nat)
    requires AtStart(st) && st.stack == below + Zeros(k) && below != [] && |st.calls| + k <= CALL_CAPACITY
    ensures Run(DESCENT, st, 2 * k) == st.(stack := below, calls := st.calls + Frames(k))
    decreases k
  {
    if k > 0 {
      DescentTurn(st);
      hide Step, AtStart;
      var st2 := Run(DESCENT, st, 2);
      assert Rest(st.stack) == below + Zeros(k - 1);
      DescentStarts(st, below + Zeros(k - 1), st.calls + [Int(1)]);
      DescentSinks(st2, below, k - 1);
      RunAdds(DESCENT, st, 2, 2 * (k - 1));
      assert [Int(1)] + Frames(k - 1) == Frames(k);
      assert st.calls + [Int(1)] + Frames(k - 1) == st.calls + ([Int(1)] + Frames(k - 1));
    } else {
      assert below + Zeros(0) == below && st.calls + Frames(0) == st.calls;
    }
  }

  lemma DescentStarts(st: State, stack: seq<Word>, calls: seq<Word>)
    requires AtStart(st) && stack != []
    ensures AtStart(st.(stack := stack, calls := calls))
  {
  }

  /** 1025 nested calls leave 1024 frames, so the first `ret` leaves the 1024th call's frame although it ends the
      1025th call. */
  lemma DescentForgets(st: State)
    requires AtStart(st) && st.calls == [] && st.stack == [Int(1)] + Zeros(CALL_CAPACITY + 1)
    ensures var full := Run(DESCENT, st, 2 * CALL_CAPACITY + 1);
            full.calls == Frames(CALL_CAPACITY) && full.ip == 1 && DESCENT.instrs[full.ip].Call? && full.status == Running
    ensures var back := Run(DESCENT, st, 2 * CALL_CAPACITY + 4);
            back.calls == Frames(CALL_CAPACITY - 1) && back.ip == 2 && back.status == Running
  {
    var deep := st.(stack := [Int(1), Int(0)], calls := Frames(CALL_CAPACITY));
    DescentFills(st, deep);
    hide Run, Step, Frames, Zeros;
    RunAdds(DESCENT, st, 2 * CALL_CAPACITY, 1);
    RunAdds(DESCENT, st, 2 * CALL_CAPACITY, 4);
    OneZeroLeft();
    DescentTurn(deep);
    DescentEnds(deep);
  }

  lemma DescentFills(st: State, deep: State)
    requires AtStart(st) && st.calls == [] && st.stack == [Int(1)] + Zeros(CALL_CAPACITY + 1)
    requires deep == st.(stack := [Int(1), Int(0)], calls := Frames(CALL_CAPACITY))
    ensures AtStart(deep) && Run(DESCENT, st, 2 * CALL_CAPACITY) == deep
  {
    OneZeroLeft();
    hide Run, Frames, Zeros;
    DescentSinks(st, [Int(1), Int(0)], CALL_CAPACITY);
  }

  lemma OneZeroLeft()
    ensures [Int(1)] + Zeros(CALL_CAPACITY + 1) == [Int(1), Int(0)] + Zeros(CALL_CAPACITY)
    ensures [] + Frames(CALL_CAPACITY) == Frames(CALL_CAPACITY) && Top([Int(1), Int(0)]) == Int(0)
  {
  }

  lemma DescentEnds(deep: State)
    requires AtStart(deep) && deep.calls == Frames(CALL_CAPACITY) && deep.stack == [Int(1), Int(0)]
    ensures var back := Run(DESCENT, deep, 4);
            back.calls == Frames(CALL_CAPACITY - 1) && back.ip == 2 && back.status == Running
  {
    DescentTurn(deep);
    DescentLabels();
    var st2 := Run(DESCENT, deep, 2);
    assert st2.stack == [Int(1)] && st2.calls == deep.calls;
    var st3 := Step(DESCENT, st2);
    assert st3.ip == 2 && st3.calls == deep.calls && st3.status == Running && st3.scopes == deep.scopes;
    assert Rest(deep.calls) == Frames(CALL_CAPACITY - 1) && Top(deep.calls) == Int(1);
    RunAdds(DESCENT, deep, 2, 2);
    assert Run(DESCENT, st2, 2) == Run(DESCENT, st3, 1) == Run(DESCENT, Step(DESCENT, st3), 0);
  }
}
