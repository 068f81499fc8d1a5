/** The instruction set as a step function on states. */
module Machine {
  import opened Common
  import opened Words

  /** Capacity of the call stack. */
  const CALL_CAPACITY: nat := 1024

  datatype Instr =
    | Nop
    | PushInt(n: Int32) | PushStr(s: string)
    | Alu(op: AluOp) | Not | Merge
    | Dup | Swap | Drop
    | Jmp(target: string) | JmpIf(target: string) | Call(target: string) | Ret
    | Print
    | Var(name: string) | SetVar(name: string) | GetVar(name: string) | ToggleLocalScope
    | Halt | HaltWith(code: int)
    | Sprintf

  datatype AluOp = Add | Sub | Mul | Div | Mod | Eq | Ne | Lt | Gt | Le | Ge

  datatype Label = Label(name: string, address: nat)

  datatype Program = Program(instrs: seq<Instr>, labels: seq<Label>)

  type Scope = map<string, Word>

  /** Faulted: the interpreter reported an error and exited, or trapped. */
  datatype Status = Running | Halted | Faulted

  /** `scopes` lists every variable vector made so far; the last is the current one. */
  datatype State = State(
    capacity: nat,
    ip: nat,
    stack: seq<Word>,
    calls: seq<Word>,
    scopes: seq<Scope>,
    out: seq<Word>,
    exitCode: int,
    status: Status)

  /** What an operation does with the words it popped. */
  datatype Outcome = Value(word: Word) | Nothing | Fault

  function Flag(b: bool): Word {
    Int(if b then 1 else 0)
  }

  /** Two-operand operations, with `top` popped first and `second` next. */
  function Apply(op: AluOp, top: Word, second: Word): Outcome {
    match op
    case Add => if top.Int? && second.Int? then Value(Int(Wrap(top.i + second.i))) else Fault
    case Sub => if top.Int? && second.Int? then Value(Int(Wrap(top.i - second.i))) else Fault
    case Mul => if top.Int? && second.Int? then Value(Int(Wrap(second.i * top.i))) else Fault
    case Div =>
      // The divisor's bits are tested as an int and as a float: 0, -0.0f and the null pointer all stop here.
      if top.Null? || (top.Int? && (top.i == 0 || top.i == INT_MIN)) then Nothing
      else if top.Int? && second.Int? && !(second.i == INT_MIN && top.i == -1) then
        Value(Int(Wrap(Quotient(second.i, top.i))))
      else Fault
    case Mod =>
      if top.Int? && second.Int? && top.i != 0 && !(second.i == INT_MIN && top.i == -1) then
        Value(Int(Wrap(Remainder(second.i, top.i))))
      else Fault
    case Eq => Compare(top, second, true, false, second == top)
    case Ne => Compare(top, second, true, true, second != top)
    case Lt => Compare(top, second, false, false, top.Int? && second.Int? && second.i < top.i)
    case Gt => Compare(top, second, false, false, top.Int? && second.Int? && second.i > top.i)
    case Le => Compare(top, second, false, false, top.Int? && second.Int? && second.i <= top.i)
    case Ge => Compare(top, second, false, false, top.Int? && second.Int? && second.i >= top.i)
  }

  /** Words of different types give the default; null words, and strings where they are not compared, are errors. */
  function Compare(top: Word, second: Word, strings: bool, unlike: bool, verdict: bool): Outcome {
    match (top, second)
    case (Int(_), Int(_)) => Value(Flag(verdict))
    case (Str(_), Str(_)) => if strings then Value(Flag(verdict)) else Fault
    case (Null, Null) => Fault
    case _ => Value(Flag(unlike))
  }

  function MergeWords(top: Word, second: Word): Outcome {
    if top.Str? && second.Str? then Value(Str(second.s + " " + top.s)) else Nothing
  }

  function Negate(w: Word): Outcome {
    if w.Int? then Value(Flag(w.i == 0)) else Fault
  }

  /** The word a pop returns. */
  function Top(stack: seq<Word>): Word {
    if stack == [] then Null else stack[|stack| - 1]
  }

  /** What a pop leaves. */
  function Rest(stack: seq<Word>): seq<Word> {
    if stack == [] then [] else stack[..|stack| - 1]
  }

  /** A push on a full stack is dropped. */
  function Pushed(stack: seq<Word>, w: Word, capacity: nat): seq<Word> {
    if |stack| >= capacity then stack else stack + [w]
  }

  function Settle(st: State, below: seq<Word>, r: Outcome): State {
    match r
    case Value(w) => st.(stack := Pushed(below, w, st.capacity))
    case Nothing => st.(stack := below)
    case Fault => st.(status := Faulted)
  }

  function {:tailrecursion false} Lookup(labels: seq<Label>, name: string): (address: int)
    ensures address >= -1
  {
    if labels == [] then -1
    else if labels[0].name == name then labels[0].address
    else Lookup(labels[1..], name)
  }

  /** Where a jump to a name goes: a name that is not a label leaves the target at 0. */
  function Target(p: Program, name: string): nat {
    var found := Lookup(p.labels, name);
    if found < 0 then 0 else found
  }

  function Current(st: State): Scope
    requires st.scopes != []
  {
    st.scopes[|st.scopes| - 1]
  }

  function WithCurrent(st: State, scope: Scope): State
    requires st.scopes != []
  {
    st.(scopes := st.scopes[..|st.scopes| - 1] + [scope])
  }

  /** `var x` adds an entry that later lookups find only when none was there before. */
  function Declared(scope: Scope, name: string): Scope {
    if name in scope then scope else scope[name := Null]
  }

  function Variable(scope: Scope, name: string): Word {
    if name in scope then scope[name] else Null
  }

  function Jumped(p: Program, st: State, name: string): State {
    var target := Target(p, name);
    if target < |p.instrs| then st.(ip := target) else st.(status := Faulted)
  }

  function Advance(st: State): State {
    st.(ip := st.ip + 1)
  }

  /** The `as_int` of a word taken off the call stack. */
  function AsInt(w: Word): int {
    if w.Int? then w.i else 0
  }

  /** One instruction, the shared advance of the instruction pointer included. */
  function Exec(p: Program, instr: Instr, st: State): State
    requires st.scopes != []
  {
    var w1, rest1 := Top(st.stack), Rest(st.stack);
    var w2, rest2 := Top(rest1), Rest(rest1);
    match instr
    case Nop => Advance(st)
    case PushInt(n) => Advance(st.(stack := Pushed(st.stack, Int(n), st.capacity)))
    case PushStr(s) => Advance(st.(stack := Pushed(st.stack, Str(s), st.capacity)))
    case Alu(op) => Advance(Settle(st, rest2, Apply(op, w1, w2)))
    case Not => Advance(Settle(st, rest1, Negate(w1)))
    case Merge => Advance(Settle(st, rest2, MergeWords(w1, w2)))
    case Dup => Advance(st.(stack := Pushed(st.stack, w1, st.capacity)))
    case Swap => Advance(st.(stack := Pushed(Pushed(rest2, w1, st.capacity), w2, st.capacity)))
    case Drop => Advance(st.(stack := rest1))
    case Jmp(target) => Jumped(p, st, target)
    case JmpIf(target) =>
      var popped := st.(stack := rest1);
      if w1 == Int(1) then Jumped(p, popped, target) else Advance(popped)
    case Call(target) =>
      if Lookup(p.labels, target) < 0 || Lookup(p.labels, target) >= |p.instrs| then st.(status := Faulted)
      else st.(calls := Pushed(st.calls, Int(Wrap(st.ip)), CALL_CAPACITY), ip := Lookup(p.labels, target))
    case Ret => st.(calls := Rest(st.calls), ip := (AsInt(Top(st.calls)) + 1) % WORD64)
    case Print => Advance(st.(stack := rest1, out := st.out + [w1]))
    case Var(name) => Advance(WithCurrent(st, Declared(Current(st), name)))
    case SetVar(name) =>
      if st.stack == [] then Advance(st)
      else Advance(WithCurrent(st.(stack := rest1), Current(st)[name := w1]))
    case GetVar(name) =>
      var w := Variable(Current(st), name);
      Advance(if w == Null then st else st.(stack := Pushed(st.stack, w, st.capacity)))
    case ToggleLocalScope => Advance(st.(scopes := st.scopes + [map[]]))
    case Halt => st.(status := Halted)
    case HaltWith(code) => st.(status := Halted, exitCode := code)
    case Sprintf => st.(status := Faulted)
  }

  /** One turn of the interpreter's loop: nothing happens once it has stopped or run off the code. */
  function Step(p: Program, st: State): State {
    if st.status != Running || st.ip >= |p.instrs| || st.scopes == [] then st
    else Exec(p, p.instrs[st.ip], st)
  }

  function Run(p: Program, st: State, n: nat): State
    decreases n
  {
    if n == 0 then st else Run(p, Step(p, st), n - 1)
  }

  lemma {:induction false} RunAdds(p: Program, st: State, m: nat, n: nat)
    ensures Run(p, st, m + n) == Run(p, Run(p, st, m), n)
    decreases m
  {
    if m > 0 {
      RunAdds(p, Step(p, st), m - 1, n);
    }
  }

  /** Where execute_program starts: at the entry label, or at 0 without one. */
  function Started(p: Program, st: State): State {
    st.(ip := Target(p, "__entry"))
  }
}
