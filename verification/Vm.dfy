/** The interpreter: stacks of fixed capacity, variable vectors, and one method per group of instructions. */
module Vm {
  import opened Common
  import opened Words
  import opened Machine

  /** XStack: a fixed buffer and a count. */
  class XStack {
    const data: array<Word>
    var count: nat

    ghost predicate Valid()
      reads this
    {
      count <= data.Length
    }

    ghost function Contents(): seq<Word>
      reads this, data
      requires Valid()
    {
      data[..count]
    }

    constructor (capacity: nat)
      ensures Valid() && fresh(data) && data.Length == capacity && Contents() == []
    {
      data := new Word[capacity](_ => Null);
      count := 0;
    }

    /** Reports false, and drops the word, on a full stack. */
    method Push(w: Word) returns (ok: bool)
      requires Valid()
      modifies this, data
      ensures Valid() && ok == (old(count) < data.Length)
      ensures Contents() == Pushed(old(Contents()), w, data.Length)
    {
      ok := count < data.Length;
      if ok {
        data[count] := w;
        count := count + 1;
      }
    }

    /** Gives the null pointer, and changes nothing, on an empty stack. */
    method Pop() returns (w: Word)
      requires Valid()
      modifies this
      ensures Valid() && w == Top(old(Contents())) && Contents() == Rest(old(Contents()))
    {
      if count == 0 {
        w := Null;
      } else {
        count := count - 1;
        w := data[count];
      }
    }

    method Peek(offset: nat) returns (w: Word)
      requires Valid()
      ensures w == if offset < |Contents()| then Contents()[|Contents()| - 1 - offset] else Null
    {
      w := if offset >= count then Null else data[count - 1 - offset];
    }
  }

  datatype Variable = Variable(name: string, value: Word)

  /** The scope a vector of variables stands for: lookups take the first entry of a name. */
  function ScopeOf(vars: seq<Variable>): Scope {
    if vars == [] then map[] else ScopeOf(vars[1..])[vars[0].name := vars[0].value]
  }

  function ScopesOf(scopes: seq<seq<Variable>>): seq<Scope> {
    seq(|scopes|, i requires 0 <= i < |scopes| => ScopeOf(scopes[i]))
  }

  /** Where the search of a scope stops: the first entry of the name, or the end. */
  ghost predicate FirstAt(vars: seq<Variable>, name: string, i: nat) {
    && i <= |vars|
    && (forall k :: 0 <= k < i ==> vars[k].name != name)
    && (i < |vars| ==> vars[i].name == name)
  }

  lemma {:induction false} FirstEntryCounts(vars: seq<Variable>, name: string, i: nat)
    requires FirstAt(vars, name, i)
    ensures i == |vars| ==> name !in ScopeOf(vars)
    ensures i < |vars| ==> name in ScopeOf(vars) && ScopeOf(vars)[name] == vars[i].value
  {
    if i > 0 {
      FirstEntryCounts(vars[1..], name, i - 1);
    }
  }

  lemma {:induction false} FirstEntryStores(vars: seq<Variable>, name: string, i: nat, w: Word)
    requires FirstAt(vars, name, i) && i < |vars|
    ensures ScopeOf(vars[i := Variable(name, w)]) == ScopeOf(vars)[name := w]
  {
    var vars' := vars[i := Variable(name, w)];
    if i == 0 {
      assert vars'[1..] == vars[1..];
    } else {
      assert vars'[1..] == vars[1..][i - 1 := Variable(name, w)];
      FirstEntryStores(vars[1..], name, i - 1, w);
    }
  }

  lemma {:induction false} NewEntryStores(vars: seq<Variable>, name: string, w: Word)
    ensures ScopeOf(vars + [Variable(name, w)])
         == if name in ScopeOf(vars) then ScopeOf(vars) else ScopeOf(vars)[name := w]
  {
    var vars' := vars + [Variable(name, w)];
    if vars == [] {
      assert vars'[1..] == [];
    } else {
      assert vars'[1..] == vars[1..] + [Variable(name, w)];
      NewEntryStores(vars[1..], name, w);
    }
  }

  /** A pair of states that a caller cannot tell apart: once the interpreter has exited, nothing is left to see. */
  ghost predicate Agree(a: State, b: State) {
    a == b || (a.status == Faulted && b.status == Faulted)
  }

  /** A state just before the shared advance of the instruction pointer, given the state after it. */
  ghost predicate Poised(v: State, want: State) {
    if v.status == Running then v.(ip := (v.ip + 1) % WORD64) == want
    else v == want || (v.status == Faulted && want.status == Faulted)
  }

  lemma OneMoreStep(p: Program, st: State, i: nat)
    ensures Run(p, st, i + 1) == Step(p, Run(p, st, i))
  {
    hide Step;
    RunAdds(p, st, i, 1);
    assert Run(p, Run(p, st, i), 1) == Run(p, Step(p, Run(p, st, i)), 0);
  }

  lemma StepExecutes(p: Program, st: State)
    requires st.status == Running && st.ip < |p.instrs| && st.scopes != []
    ensures Step(p, st) == Exec(p, p.instrs[st.ip], st)
  {
  }

  /** When the loop has stopped early, the remaining steps change nothing. */
  lemma {:induction false} StaysStopped(p: Program, st: State, i: nat, n: nat, v: State)
    requires i <= n && Agree(v, Run(p, st, i))
    requires i == n || v.status != Running || v.ip >= |p.instrs|
    ensures Agree(v, Run(p, st, n))
    decreases n - i
  {
    if i < n {
      OneMoreStep(p, st, i);
      StaysStopped(p, st, i + 1, n, v);
    }
  }

  /** A state in which the loop of execute_program ends. */
  ghost predicate Stopped(p: Program, st: State) {
    st.status != Running || st.ip >= |p.instrs|
  }

  class OrtaVM {
    const program: Program
    const stack: XStack
    const calls: XStack
    var ip: nat
    /** Every variable vector made so far, the current one last. */
    var scopes: seq<seq<Variable>>
    var out: seq<Word>
    var exitCode: int
    var status: Status

    ghost predicate Valid()
      reads this, stack, calls
    {
      && stack != calls && stack.data != calls.data
      && stack.Valid() && calls.Valid()
      && calls.data.Length == CALL_CAPACITY
      && |program.instrs| < WORD64 && ip < WORD64
      && scopes != []
    }

    ghost function View(): State
      reads this, stack, stack.data, calls, calls.data
      requires Valid()
    {
      State(stack.data.Length, ip, stack.Contents(), calls.Contents(), ScopesOf(scopes), out, exitCode, status)
    }

    constructor (p: Program, capacity: nat)
      requires |p.instrs| < WORD64
      ensures Valid() && fresh(stack) && fresh(calls) && fresh(stack.data) && fresh(calls.data) && program == p
      ensures View() == State(capacity, 0, [], [], [map[]], [], 0, Running)
    {
      program := p;
      stack := new XStack(capacity);
      calls := new XStack(CALL_CAPACITY);
      ip := 0;
      scopes := [[]];
      out := [];
      exitCode := 0;
      status := Running;
    }

    /** find_label: the first label of the name, -1 without one. */
    method FindLabel(name: string) returns (address: int)
      ensures address == Lookup(program.labels, name)
    {
      var i := 0;
      while i < |program.labels|
        invariant 0 <= i <= |program.labels|
        invariant Lookup(program.labels, name) == Lookup(program.labels[i..], name)
      {
        if program.labels[i].name == name {
          return program.labels[i].address;
        }
        assert program.labels[i..][1..] == program.labels[i + 1..];
        i := i + 1;
      }
      return -1;
    }

    /** The search that getvar, setvar and is_variable share, in the current scope. */
    method FindVariable(name: string) returns (i: nat)
      requires scopes != []
      ensures FirstAt(scopes[|scopes| - 1], name, i)
    {
      var vars := scopes[|scopes| - 1];
      i := 0;
      while i < |vars| && vars[i].name != name
        invariant 0 <= i <= |vars|
        invariant forall k :: 0 <= k < i ==> vars[k].name != name
      {
        i := i + 1;
      }
    }

    /** getvar in the current scope. */
    method GetVariable(name: string) returns (w: Word)
      requires Valid()
      ensures w == Machine.Variable(Current(View()), name)
    {
      var i := FindVariable(name);
      var vars := scopes[|scopes| - 1];
      FirstEntryCounts(vars, name, i);
      w := if i < |vars| then vars[i].value else Null;
    }

    /** setvar in the current scope: the first entry of the name, or a new one at the end. */
    method SetVariable(name: string, w: Word)
      requires Valid()
      modifies this`scopes
      ensures Valid() && View() == WithCurrent(old(View()), Current(old(View()))[name := w])
    {
      var i := FindVariable(name);
      var vars := scopes[|scopes| - 1];
      FirstEntryCounts(vars, name, i);
      if i < |vars| {
        FirstEntryStores(vars, name, i, w);
        vars := vars[i := Variable(name, w)];
      } else {
        NewEntryStores(vars, name, w);
        vars := vars + [Variable(name, w)];
      }
      scopes := scopes[..|scopes| - 1] + [vars];
    }

    method DeclareVariable(name: string)
      requires Valid()
      modifies this`scopes
      ensures Valid() && View() == WithCurrent(old(View()), Declared(Current(old(View())), name))
    {
      var vars := scopes[|scopes| - 1];
      NewEntryStores(vars, name, Null);
      scopes := scopes[..|scopes| - 1] + [vars + [Variable(name, Null)]];
    }

    method PushWord(w: Word)
      requires Valid()
      modifies stack, stack.data
      ensures Valid() && View() == old(View()).(stack := Pushed(old(View()).stack, w, old(View()).capacity))
    {
      var _ := stack.Push(w);
    }

    method PopWord() returns (w: Word)
      requires Valid()
      modifies stack
      ensures Valid() && w == Top(old(View()).stack) && View() == old(View()).(stack := Rest(old(View()).stack))
    {
      w := stack.Pop();
    }

    method PeekWord() returns (w: Word)
      requires Valid()
      ensures w == Top(View().stack)
    {
      w := stack.Peek(0);
    }

    method PrintWord(w: Word)
      requires Valid()
      modifies this`out
      ensures Valid() && View() == old(View()).(out := old(View()).out + [w])
    {
      out := out + [w];
    }

    method Stop(end: Status)
      requires Valid()
      modifies this`status
      ensures Valid() && View() == old(View()).(status := end)
    {
      status := end;
    }

    /** The pushing end of an operation: its value, nothing, or an error exit. */
    method Finish(r: Outcome)
      requires Valid()
      modifies this`status, stack, stack.data
      ensures Valid() && View() == Settle(old(View()), old(View()).stack, r)
    {
      hide View;
      match r
      case Value(w) => PushWord(w);
      case Nothing =>
      case Fault => Stop(Faulted);
    }

    /** A jump: one before the target, since the shared advance follows. */
    method JumpTo(name: string)
      requires Valid()
      modifies this`ip, this`status
      ensures Valid()
      ensures View() == if Target(program, name) < |program.instrs|
                        then old(View()).(ip := (Target(program, name) - 1) % WORD64)
                        else old(View()).(status := Faulted)
    {
      var found := FindLabel(name);
      var target := if found < 0 then 0 else found;
      if target < |program.instrs| {
        ip := (target - 1) % WORD64;
      } else {
        status := Faulted;
      }
    }

    /** The arithmetic, comparison and text cases, without the shared advance. */
    method OperatorCase(instr: Instr)
      requires Valid() && View().status == Running && View().ip < |program.instrs|
      requires instr.Alu? || instr.Not? || instr.Merge?
      modifies this`status, stack, stack.data
      ensures Valid() && Poised(View(), Exec(program, instr, old(View())))
    {
      hide View, Machine.Apply, MergeWords, Negate, Rest, Pushed;
      match instr
      case Alu(op) =>
        var w1 := PopWord();
        var w2 := PopWord();
        Finish(Apply(op, w1, w2));
      case Not =>
        var w := PopWord();
        Finish(Negate(w));
      case Merge =>
        var w1 := PopWord();
        var w2 := PopWord();
        Finish(MergeWords(w1, w2));
    }

    /** The other cases on the operand stack, without the shared advance. */
    method StackCase(instr: Instr)
      requires Valid() && View().status == Running && View().ip < |program.instrs|
      requires instr.Nop? || instr.PushInt? || instr.PushStr? || instr.Dup? || instr.Swap? || instr.Drop? || instr.Print?
      modifies this`out, stack, stack.data
      ensures Valid() && Poised(View(), Exec(program, instr, old(View())))
    {
      hide View, Rest, Pushed;
      match instr
      case Nop =>
      case PushInt(n) => PushWord(Int(n));
      case PushStr(s) => PushWord(Str(s));
      case Dup =>
        var w := PeekWord();
        PushWord(w);
      case Swap =>
        var w1 := PopWord();
        var w2 := PopWord();
        PushWord(w1);
        PushWord(w2);
      case Drop => var _ := PopWord();
      case Print =>
        var w := PopWord();
        PrintWord(w);
    }

    /** The cases on variables, without the shared advance. */
    method ScopeCase(instr: Instr)
      requires Valid() && View().status == Running && View().ip < |program.instrs|
      requires instr.Var? || instr.SetVar? || instr.GetVar? || instr.ToggleLocalScope?
      modifies this`scopes, stack, stack.data
      ensures Valid() && Poised(View(), Exec(program, instr, old(View())))
    {
      hide View, Rest, Pushed, Declared, Machine.Variable;
      match instr
      case Var(name) => DeclareVariable(name);
      case SetVar(name) =>
        var some := NotEmpty();
        if some {
          var w := PopWord();
          SetVariable(name, w);
        }
      case GetVar(name) =>
        var w := GetVariable(name);
        if w != Null {
          PushWord(w);
        }
      case ToggleLocalScope => OpenScope();
    }

    method NotEmpty() returns (b: bool)
      requires Valid()
      ensures b <==> View().stack != []
    {
      b := stack.count != 0;
    }

    method OpenScope()
      requires Valid()
      modifies this`scopes
      ensures Valid() && View() == old(View()).(scopes := old(View()).scopes + [map[]])
    {
      ghost var before := ScopesOf(scopes);
      scopes := scopes + [[]];
      assert ScopesOf(scopes) == before + [map[]];
    }

    /** The jumps, calls and halts, without the shared advance. */
    method ControlCase(instr: Instr)
      requires Valid() && View().status == Running && View().ip < |program.instrs|
      requires instr.Jmp? || instr.JmpIf? || instr.Call? || instr.Ret? || instr.Halt? || instr.HaltWith? || instr.Sprintf?
      modifies this`ip, this`status, this`exitCode, stack, calls, calls.data
      ensures Valid() && Poised(View(), Exec(program, instr, old(View())))
    {
      hide View, Rest, Pushed, Lookup;
      match instr
      case Jmp(target) => JumpTo(target);
      case JmpIf(target) => JumpIfOne(target);
      case Call(target) => CallTo(target);
      case Ret => ReturnToCaller();
      case Halt => Stop(Halted);
      case HaltWith(code) => StopWith(code);
      case Sprintf => Stop(Faulted);
    }

    /** jmpif: the popped word must be the integer 1. */
    method JumpIfOne(name: string)
      requires Valid() && View().status == Running && View().ip < |program.instrs|
      modifies this`ip, this`status, stack
      ensures Valid() && Poised(View(), Exec(program, JmpIf(name), old(View())))
    {
      hide View, Rest, Pushed, Lookup;
      var w := PopWord();
      if w == Int(1) {
        JumpTo(name);
      }
    }

    method StopWith(code: int)
      requires Valid()
      modifies this`exitCode, this`status
      ensures Valid() && View() == old(View()).(exitCode := code, status := Halted)
    {
      exitCode := code;
      status := Halted;
    }

    /** call: the index of the call instruction is saved, an unknown label is an error. */
    method CallTo(name: string)
      requires Valid() && View().status == Running && View().ip < |program.instrs|
      modifies this`ip, this`status, calls, calls.data
      ensures Valid() && Poised(View(), Exec(program, Call(name), old(View())))
    {
      var found := FindLabel(name);
      if found < 0 || found >= |program.instrs| {
        status := Faulted;
      } else {
        var _ := calls.Push(Int(Wrap(ip)));
        ip := (found - 1) % WORD64;
      }
    }

    /** ret: execution goes on after the saved index. */
    method ReturnToCaller()
      requires Valid() && View().status == Running
      modifies this`ip, calls
      ensures Valid() && Poised(View(), Exec(program, Ret, old(View())))
    {
      var ra := calls.Pop();
      ip := AsInt(ra) % WORD64;
    }

    /** execute_instruction. */
    method ExecuteInstruction(instr: Instr)
      requires Valid() && View().status == Running && View().ip < |program.instrs|
      modifies this, stack, stack.data, calls, calls.data
      ensures Valid() && Agree(View(), Exec(program, instr, old(View())))
    {
      hide Exec, ScopesOf;
      if instr.Var? || instr.SetVar? || instr.GetVar? || instr.ToggleLocalScope? {
        ScopeCase(instr);
      } else if instr.Jmp? || instr.JmpIf? || instr.Call? || instr.Ret? || instr.Halt? || instr.HaltWith? || instr.Sprintf? {
        ControlCase(instr);
      } else if instr.Alu? || instr.Not? || instr.Merge? {
        OperatorCase(instr);
      } else {
        StackCase(instr);
      }
      if status == Running {
        ip := (ip + 1) % WORD64;
      }
    }

    /** The loop of execute_program, for at most n instructions. */
    method Execute(n: nat)
      requires Valid()
      modifies this, stack, stack.data, calls, calls.data
      ensures Valid() && Agree(View(), Run(program, old(View()), n))
    {
      hide Exec, Machine.Step;
      var i := 0;
      while i < n && status == Running && ip < |program.instrs|
        invariant 0 <= i <= n && Valid()
        invariant Agree(View(), Run(program, old(View()), i))
        decreases n - i
      {
        ghost var before := View();
        assert before.scopes != [];
        OneMoreStep(program, old(View()), i);
        StepExecutes(program, before);
        ExecuteInstruction(program.instrs[ip]);
        i := i + 1;
      }
      StaysStopped(program, old(View()), i, n, View());
    }

    /** The same loop without a bound of its own, for a program known to stop within some number of instructions. */
    method ExecuteAll(ghost n: nat)
      requires Valid() && Stopped(program, Run(program, View(), n))
      modifies this, stack, stack.data, calls, calls.data
      ensures Valid() && Agree(View(), Run(program, old(View()), n))
    {
      hide Exec, Machine.Step;
      ghost var i := 0;
      while status == Running && ip < |program.instrs|
        invariant 0 <= i <= n && Valid()
        invariant Agree(View(), Run(program, old(View()), i))
        decreases n - i
      {
        ghost var before := View();
        assert i < n;
        assert before.scopes != [];
        OneMoreStep(program, old(View()), i);
        StepExecutes(program, before);
        ExecuteInstruction(program.instrs[ip]);
        i := i + 1;
      }
      StaysStopped(program, old(View()), i, n, View());
    }

    /** execute_program, run to its end. */
    method RunProgram(ghost n: nat)
      requires Valid() && Lookup(program.labels, "__entry") < WORD64
      requires Stopped(program, Run(program, Started(program, View()), n))
      modifies this, stack, stack.data, calls, calls.data
      ensures Valid() && Agree(View(), Run(program, Started(program, old(View())), n))
    {
      var entry := FindLabel("__entry");
      ip := if entry < 0 then 0 else entry;
      ExecuteAll(n);
    }

    /** execute_program: from the entry label, or from 0 without one, for at most n instructions. */
    method ExecuteProgram(n: nat)
      requires Valid() && Lookup(program.labels, "__entry") < WORD64
      modifies this, stack, stack.data, calls, calls.data
      ensures Valid() && Agree(View(), Run(program, Started(program, old(View())), n))
    {
      var entry := FindLabel("__entry");
      ip := if entry < 0 then 0 else entry;
      Execute(n);
    }
  }
}
