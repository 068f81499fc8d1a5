/** Compiled programs, from labels to halting. */
module ProgramProof {
  import opened Common
  import opened Words
  import opened Nyva
  import opened CodeGen
  import opened Machine
  import opened ExprProof
  import opened StmtProof
  import Text

  // ---------- labels ----------

  ghost predicate Distinct(items: seq<Item>) {
    forall i, j :: 0 <= i < j < |items| && items[i].Lbl? && items[j].Lbl? ==> items[i].name != items[j].name
  }

  /** Every label ends in a digit and its number is one of `numbers`. */
  ghost predicate Numbered(items: seq<Item>, numbers: set<nat>) {
    forall i :: 0 <= i < |items| && items[i].Lbl? ==>
      !Text.EndsInNonDigit(items[i].name) && Text.TrailingNumber(items[i].name) in numbers
  }

  ghost predicate Fresh(items: seq<Item>, numbers: set<nat>) {
    Distinct(items) && Numbered(items, numbers)
  }

  ghost function Range(lo: nat, hi: nat): (r: set<nat>)
    ensures forall k :: k in r <==> lo <= k < hi
    decreases hi - lo
  {
    if lo >= hi then {} else {lo} + Range(lo + 1, hi)
  }

  lemma FreshJoin(a: seq<Item>, s: set<nat>, b: seq<Item>, t: set<nat>)
    requires Fresh(a, s) && Fresh(b, t) && s !! t
    ensures Fresh(a + b, s + t)
  {
    forall i, j | 0 <= i < j < |a + b| && (a + b)[i].Lbl? && (a + b)[j].Lbl?
      ensures (a + b)[i].name != (a + b)[j].name
    {
      if i < |a| <= j {
        assert a[i].Lbl? && b[j - |a|].Lbl?;
      } else if |a| <= i {
        assert b[i - |a|].Lbl? && b[j - |a|].Lbl?;
      }
    }
  }

  lemma FreshMore(a: seq<Item>, s: set<nat>, t: set<nat>)
    requires Fresh(a, s) && s <= t
    ensures Fresh(a, t)
  {
  }

  lemma OneLabel(prefix: string, k: nat)
    ensures Fresh([Lbl(LabelName(prefix, k))], {k})
  {
    var name := "__" + prefix + "_";
    Text.NumeralReadsBack(name, k);
    var s := name + Text.Decimal(k);
    assert s[|s| - 1] == Text.Decimal(k)[|Text.Decimal(k)| - 1];
  }

  lemma {:induction false} NoLabels(e: Expr)
    ensures forall i :: 0 <= i < |GenExpr(e)| ==> GenExpr(e)[i].Ins?
    decreases e, 1
  {
    match e
    case Bin(_, l, r) => NoLabels(l); NoLabels(r);
    case Apply(_, args) =>
      NoLabelsIn(args);
      if |args| == 1 { NoLabels(args[0]); }
    case _ =>
  }

  lemma {:induction false} NoLabelsIn(es: seq<Expr>)
    ensures forall i :: 0 <= i < |GenExprs(es)| ==> GenExprs(es)[i].Ins?
    decreases es, 0
  {
    if es != [] {
      NoLabels(es[0]);
      NoLabelsIn(es[1..]);
    }
  }

  lemma LoopLabels(prefix: string, prefix': string, c: nat, cond: Expr, turn: seq<Item>, numbers: set<nat>)
    requires Fresh(turn, numbers) && c !in numbers && c + 1 !in numbers
    ensures Fresh(LoopCode(LabelName(prefix, c), LabelName(prefix', c + 1), cond, turn), numbers + {c, c + 1})
  {
    hide Fresh, LabelName, GenExpr;
    var start, end := LabelName(prefix, c), LabelName(prefix', c + 1);
    var head := GenExpr(cond) + [Ins(JmpIf(end))];
    HeadLabels(cond, JmpIf(end));
    HeadLabels(Num(0), Jmp(start));
    OneInstruction(Jmp(start));
    OneLabel(prefix, c);
    OneLabel(prefix', c + 1);
    FreshJoin(head, {}, turn, numbers);
    FreshJoin([Ins(Jmp(start))], {}, [Lbl(end)], {c + 1});
    FreshJoin(head + turn, {} + numbers, [Ins(Jmp(start))] + [Lbl(end)], {} + {c + 1});
    FreshJoin([Lbl(start)], {c}, head + turn + ([Ins(Jmp(start))] + [Lbl(end)]), {} + numbers + ({} + {c + 1}));
    assert LoopCode(start, end, cond, turn) == [Lbl(start)] + (head + turn + ([Ins(Jmp(start))] + [Lbl(end)]));
    assert {c} + ({} + numbers + ({} + {c + 1})) == numbers + {c, c + 1};
  }

  lemma OneInstruction(instr: Instr)
    ensures Fresh([Ins(instr)], {})
  {
  }

  lemma HeadLabels(e: Expr, instr: Instr)
    ensures Fresh(GenExpr(e) + [Ins(instr)], {})
  {
    NoLabels(e);
  }

  /** The labels a statement's code defines are pairwise different and numbered with the counter values it took. */
  lemma {:induction false} StmtLabels(s: Stmt, armed: bool, g: Gen)
    requires CallFree(s)
    ensures Fresh(GenStmt(s, armed, g).0, Range(g.counter, GenStmt(s, armed, g).1.counter))
    decreases s, 1
  {
    hide Fresh, LabelName, LoopCode;
    var c := g.counter;
    match s
    case Declare(x, value) =>
      if value.Some? { HeadLabels(value.value, SetVar(x)); } else { OneInstruction(Var(x)); }
      FreshMore(GenStmt(s, armed, g).0, {}, Range(c, c));
    case Assign(x, e) =>
      HeadLabels(e, SetVar(x));
      FreshMore(GenStmt(s, armed, g).0, {}, Range(c, c));
    case If(cond, body, els) =>
      if els.NoElse? {
        var (code, g1) := GenAll(body, true, Checked(g.(counter := c + 1), cond));
        AllLabels(body, true, Checked(g.(counter := c + 1), cond));
        IfParts(cond, code, c, g1.counter);
      } else {
        IfElseLabels(s, armed, g);
      }
    case While(cond, body) =>
      var g0 := Checked(g.(counter := c + 2, brk := Inside(LabelName("while_end", c + 1))), cond);
      var (code, g1) := GenAll(body, true, g0);
      AllLabels(body, true, g0);
      LoopLabels("while_start", "while_end", c, cond, code, Range(c + 2, g1.counter));
      assert Range(c + 2, g1.counter) + {c, c + 1} == Range(c, g1.counter);
    case For(first, cond, update, body) =>
      ForLabels(s, armed, g);
    case Break =>
      if armed && g.brk.Inside? { OneInstruction(Jmp(g.brk.end)); FreshMore([Ins(Jmp(g.brk.end))], {}, Range(c, c)); }
      else { Nothing(Range(c, c)); }
    case Eval(e) =>
      PrintCode(e);
      HeadLabels(e.args[0], Print);
      FreshMore(GenExpr(e), {}, Range(c, c));
  }

  lemma Nothing(numbers: set<nat>)
    ensures Fresh([], numbers)
  {
  }

  lemma {:induction false} AllLabels(ss: seq<Stmt>, armed: bool, g: Gen)
    requires AllCallFree(ss)
    ensures Fresh(GenAll(ss, armed, g).0, Range(g.counter, GenAll(ss, armed, g).1.counter))
    decreases ss, 1
  {
    hide Fresh, GenStmt, CallFree;
    if ss == [] {
      Nothing(Range(g.counter, g.counter));
    } else {
      var (code, g1) := GenStmt(ss[0], armed, g);
      var (code', g2) := GenAll(ss[1..], armed, g1);
      StmtLabels(ss[0], armed, g);
      AllLabels(ss[1..], armed, g1);
      FreshJoin(code, Range(g.counter, g1.counter), code', Range(g1.counter, g2.counter));
      assert Range(g.counter, g1.counter) + Range(g1.counter, g2.counter) == Range(g.counter, g2.counter);
    }
  }

  lemma {:induction false} IfElseLabels(s: Stmt, armed: bool, g: Gen)
    requires CallFree(s) && s.If? && s.els.Else?
    ensures Fresh(GenStmt(s, armed, g).0, Range(g.counter, GenStmt(s, armed, g).1.counter))
    decreases s, 0
  {
    hide Fresh, LabelName, GenAll, GenExpr, Checked;
    var c := g.counter;
    var g0 := Checked(g.(counter := c + 2), s.cond);
    var (code, g1) := GenAll(s.body, true, g0);
    var (code', g2) := GenAll(s.els.body, false, g1);
    AllLabels(s.body, true, g0);
    AllLabels(s.els.body, false, g1);
    CheckedKeepsCounter(g.(counter := c + 2), s.cond);
    IfElseParts(s.cond, code, code', c, g1.counter, g2.counter);
    IfElseCode(s, armed, g);
  }

  lemma IfParts(cond: Expr, code: seq<Item>, c: nat, c1: nat)
    requires c + 1 <= c1 && Fresh(code, Range(c + 1, c1))
    ensures Fresh(GenExpr(cond) + [Ins(JmpIf(LabelName("if_end", c)))] + code + [Lbl(LabelName("if_end", c))], Range(c, c1))
  {
    hide Fresh, LabelName, GenExpr;
    var end := LabelName("if_end", c);
    var head := GenExpr(cond) + [Ins(JmpIf(end))];
    OneLabel("if_end", c);
    HeadLabels(cond, JmpIf(end));
    FreshJoin(head, {}, code, Range(c + 1, c1));
    FreshJoin(head + code, {} + Range(c + 1, c1), [Lbl(end)], {c});
    assert {} + Range(c + 1, c1) + {c} == Range(c, c1);
  }

  lemma CheckedKeepsCounter(g: Gen, cond: Expr)
    ensures Checked(g, cond).counter == g.counter
  {
  }

  /** The pieces of an if with an else-branch, one behind the other. */
  function IfElse(cond: Expr, code: seq<Item>, code': seq<Item>, c: nat): seq<Item> {
    var end, other := LabelName("if_end", c), LabelName("else", c + 1);
    GenExpr(cond) + [Ins(JmpIf(other))] + code + ([Ins(Jmp(end))] + [Lbl(other)]) + code' + [Lbl(end)]
  }

  lemma IfElseCode(s: Stmt, armed: bool, g: Gen)
    requires CallFree(s) && s.If? && s.els.Else?
    ensures var (code, g1) := GenAll(s.body, true, Checked(g.(counter := g.counter + 2), s.cond));
            var (code', g2) := GenAll(s.els.body, false, g1);
            GenStmt(s, armed, g).0 == IfElse(s.cond, code, code', g.counter) && GenStmt(s, armed, g).1.counter == g2.counter
  {
    hide LabelName, GenAll, GenExpr, ExprFails;
  }

  lemma IfElseParts(cond: Expr, code: seq<Item>, code': seq<Item>, c: nat, c1: nat, c2: nat)
    requires c + 2 <= c1 <= c2 && Fresh(code, Range(c + 2, c1)) && Fresh(code', Range(c1, c2))
    ensures Fresh(IfElse(cond, code, code', c), Range(c, c2))
  {
    hide Fresh, LabelName, GenExpr;
    var end, other := LabelName("if_end", c), LabelName("else", c + 1);
    var head := GenExpr(cond) + [Ins(JmpIf(other))];
    var bridge := [Ins(Jmp(end))] + [Lbl(other)];
    OneLabel("if_end", c);
    OneLabel("else", c + 1);
    HeadLabels(cond, JmpIf(other));
    OneInstruction(Jmp(end));
    FreshJoin([Ins(Jmp(end))], {}, [Lbl(other)], {c + 1});
    var s1, s2 := Range(c + 2, c1), Range(c1, c2);
    FreshJoin(head, {}, code, s1);
    FreshJoin(head + code, {} + s1, bridge, {} + {c + 1});
    FreshJoin(head + code + bridge, {} + s1 + ({} + {c + 1}), code', s2);
    FreshJoin(head + code + bridge + code', {} + s1 + ({} + {c + 1}) + s2, [Lbl(end)], {c});
    NumbersJoin(c, c1, c2);
  }

  lemma NumbersJoin(c: nat, c1: nat, c2: nat)
    requires c + 2 <= c1 <= c2
    ensures {} + Range(c + 2, c1) + ({} + {c + 1}) + Range(c1, c2) + {c} == Range(c, c2)
  {
  }

  lemma {:induction false} ForLabels(s: Stmt, armed: bool, g: Gen)
    requires CallFree(s) && s.For?
    ensures Fresh(GenStmt(s, armed, g).0, Range(g.counter, GenStmt(s, armed, g).1.counter))
    decreases s, 0
  {
    hide Fresh, LabelName, GenExpr, LoopCode;
    var c := g.counter;
    var start, end := LabelName("for_start", c), LabelName("for_end", c + 1);
    var (init, g0) := GenStmt(s.first, false, g.(counter := c + 2));
    var gb := Checked(g0.(brk := Inside(end)), s.cond);
    var (code, g1) := GenAll(s.body, true, gb);
    var (code', g2) := GenStmt(s.update, false, g1);
    StmtLabels(s.first, false, g.(counter := c + 2));
    AllLabels(s.body, true, gb);
    StmtLabels(s.update, false, g1);
    var s1, s2, s3 := Range(c + 2, g0.counter), Range(g0.counter, g1.counter), Range(g1.counter, g2.counter);
    FreshJoin(code, s2, code', s3);
    LoopLabels("for_start", "for_end", c, s.cond, code + code', s2 + s3);
    FreshJoin(init, s1, LoopCode(start, end, s.cond, code + code'), s2 + s3 + {c, c + 1});
    assert s1 + (s2 + s3 + {c, c + 1}) == Range(c, g2.counter);
  }

  // ---------- assembling ----------

  lemma {:induction false} LookupFinds(items: seq<Item>, at: nat, i: nat)
    requires Distinct(items) && i < |items| && items[i].Lbl?
    ensures Lookup(Labels(items, at), items[i].name) == at + i
  {
    if i == 0 {
    } else {
      var rest := items[1..];
      assert rest[i - 1] == items[i];
      LookupFinds(rest, at + 1, i - 1);
      if items[0].Lbl? {
        assert Labels(items, at)[1..] == Labels(rest, at + 1);
      } else {
        assert Labels(items, at) == Labels(rest, at + 1);
      }
    }
  }

  /** With distinct labels, assembled code is in place with every label at its own index. */
  lemma AssembledInPlace(items: seq<Item>)
    requires Distinct(items)
    ensures CodeAt(Assemble(items), 0, items)
  {
    var p := Assemble(items);
    forall k | 0 <= k < |items| ensures ItemAt(p, 0 + k, items[k]) {
      if items[k].Lbl? {
        LookupFinds(items, 0, k);
      }
    }
  }

  /** Where the labels of a generated program stand: first, in the body's code, and at the error routine. */
  lemma LabelPlaces(body: seq<Stmt>, i: nat)
    requires AllCallFree(body) && i < |GenProgram(body).0| && GenProgram(body).0[i].Lbl?
    ensures var code, items := GenAll(body, false, Gen(1, Unset, false)).0, GenProgram(body).0;
            || (i == 0 && items[i].name == ENTRY)
            || (2 <= i < |code| + 2 && items[i] == code[i - 2])
            || (i == |code| + 4 && items[i].name == LabelName("error_not_enough_args", 0))
  {
    hide AllCallFree, GenAll, LabelName;
    var code := GenAll(body, false, Gen(1, Unset, false)).0;
    var pre, post := [Lbl(ENTRY), Ins(ToggleLocalScope)], [Ins(ToggleLocalScope), Ins(Halt)];
    var items := GenProgram(body).0;
    assert items == pre + code + post + [Lbl(LabelName("error_not_enough_args", 0))] + items[|code| + 5..];
  }

  /** Every label of a generated program is defined once. */
  lemma ProgramLabels(body: seq<Stmt>)
    requires AllCallFree(body)
    ensures Distinct(GenProgram(body).0)
  {
    var code := GenAll(body, false, Gen(1, Unset, false)).0;
    var items := GenProgram(body).0;
    AllLabels(body, false, Gen(1, Unset, false));
    OutsideNames(code, GenAll(body, false, Gen(1, Unset, false)).1.counter);
    hide AllCallFree, GenAll, GenProgram, LabelName, Fresh;
    forall i, j | 0 <= i < j < |items| && items[i].Lbl? && items[j].Lbl?
      ensures items[i].name != items[j].name
    {
      LabelPlaces(body, i);
      LabelPlaces(body, j);
    }
  }

  /** The names outside a body's code are not among those in it. */
  lemma OutsideNames(code: seq<Item>, last: nat)
    requires Fresh(code, Range(1, last))
    ensures Distinct(code) && ENTRY != LabelName("error_not_enough_args", 0)
    ensures forall i :: 0 <= i < |code| && code[i].Lbl? ==> code[i].name !in {ENTRY, LabelName("error_not_enough_args", 0)}
  {
    OneLabel("error_not_enough_args", 0);
    assert [Lbl(LabelName("error_not_enough_args", 0))][0].name == LabelName("error_not_enough_args", 0);
    assert !Text.IsDigit(ENTRY[|ENTRY| - 1]);
  }

  // ---------- breaks ----------

  predicate HasLoop(s: Stmt) {
    match s
    case If(_, body, els) => AnyLoop(body) || (els.Else? && AnyLoop(els.body))
    case While(_, _) => true
    case For(_, _, _, _) => true
    case _ => false
  }

  predicate AnyLoop(ss: seq<Stmt>) {
    ss != [] && (HasLoop(ss[0]) || AnyLoop(ss[1..]))
  }

  /** Every break that becomes a jump stands in a loop, with no loop finished between that loop's start and it. */
  predicate Placed(s: Stmt, armed: bool, open: bool) {
    match s
    case If(_, body, els) =>
      AllPlaced(body, true, open) && (els.Else? ==> AllPlaced(els.body, false, open && !AnyLoop(body)))
    case While(_, body) => AllPlaced(body, true, true)
    case For(_, _, _, body) => AllPlaced(body, true, true)
    case Break => armed ==> open
    case _ => true
  }

  predicate AllPlaced(ss: seq<Stmt>, armed: bool, open: bool) {
    ss == [] || (Placed(ss[0], armed, open) && AllPlaced(ss[1..], armed, open && !HasLoop(ss[0])))
  }

  lemma {:induction false} PureNeverFails(e: Expr)
    requires Pure(e)
    ensures !ExprFails(e)
  {
    if e.Bin? {
      PureNeverFails(e.left);
      PureNeverFails(e.right);
    }
  }

  /** The generator refuses a call-free statement exactly when one of its breaks is misplaced. */
  lemma {:induction false} RefusesMisplaced(s: Stmt, armed: bool, g: Gen)
    requires CallFree(s)
    ensures GenStmt(s, armed, g).1.failed <==> g.failed || !Placed(s, armed, g.brk.Inside?)
    ensures GenStmt(s, armed, g).1.brk.Inside? <==> g.brk.Inside? && !HasLoop(s)
    decreases s, 1
  {
    match s
    case Declare(_, value) => if value.Some? { PureNeverFails(value.value); }
    case Assign(_, e) => PureNeverFails(e);
    case If(cond, body, els) =>
      PureNeverFails(cond);
      if els.NoElse? {
        AllRefuseMisplaced(body, true, Checked(g.(counter := g.counter + 1), cond));
      } else {
        var g0 := Checked(g.(counter := g.counter + 2), cond);
        AllRefuseMisplaced(body, true, g0);
        AllRefuseMisplaced(els.body, false, GenAll(body, true, g0).1);
      }
    case While(cond, body) =>
      PureNeverFails(cond);
      AllRefuseMisplaced(body, true,
                         Checked(g.(counter := g.counter + 2, brk := Inside(LabelName("while_end", g.counter + 1))), cond));
    case For(first, cond, update, body) =>
      PureNeverFails(cond);
      PureNeverFails(update.e);
      RefusesMisplaced(first, false, g.(counter := g.counter + 2));
      var g0 := GenStmt(first, false, g.(counter := g.counter + 2)).1;
      AllRefuseMisplaced(body, true, Checked(g0.(brk := Inside(LabelName("for_end", g.counter + 1))), cond));
    case Break =>
    case Eval(e) =>
      PureNeverFails(e.args[0]);
  }

  lemma {:induction false} AllRefuseMisplaced(ss: seq<Stmt>, armed: bool, g: Gen)
    requires AllCallFree(ss)
    ensures GenAll(ss, armed, g).1.failed <==> g.failed || !AllPlaced(ss, armed, g.brk.Inside?)
    ensures GenAll(ss, armed, g).1.brk.Inside? <==> g.brk.Inside? && !AnyLoop(ss)
    decreases ss, 0
  {
    if ss != [] {
      RefusesMisplaced(ss[0], armed, g);
      AllRefuseMisplaced(ss[1..], armed, GenStmt(ss[0], armed, g).1);
    }
  }

  /** A statement without the breaks that the generator drops. */
  function Stripped(s: Stmt, armed: bool): seq<Stmt> {
    match s
    case If(cond, body, els) =>
      [If(cond, AllStripped(body, true), if els.Else? then Else(AllStripped(els.body, false)) else NoElse)]
    case While(cond, body) => [While(cond, AllStripped(body, true))]
    case For(first, cond, update, body) => [For(first, cond, update, AllStripped(body, true))]
    case Break => if armed then [s] else []
    case _ => [s]
  }

  function AllStripped(ss: seq<Stmt>, armed: bool): seq<Stmt> {
    if ss == [] then [] else Stripped(ss[0], armed) + AllStripped(ss[1..], armed)
  }

  /** Dropped breaks leave no trace in the code. */
  lemma {:induction false} StrippedSameCode(s: Stmt, armed: bool, g: Gen)
    ensures GenAll(Stripped(s, armed), armed, g) == GenStmt(s, armed, g)
    decreases s, 1
  {
    hide GenExpr, LabelName, LoopCode, ExprFails, GenAll;
    var r := Stripped(s, armed);
    Generated(s, armed, g);
    match s
    case If(cond, body, els) =>
      var g1, g2 := Checked(g.(counter := g.counter + 1), cond), Checked(g.(counter := g.counter + 2), cond);
      AllStrippedSameCode(body, true, g1);
      AllStrippedSameCode(body, true, g2);
      if els.Else? { AllStrippedSameCode(els.body, false, GenAll(body, true, g2).1); }
      OneGenerated(r[0], armed, g);
    case While(cond, body) =>
      AllStrippedSameCode(body, true,
                          Checked(g.(counter := g.counter + 2, brk := Inside(LabelName("while_end", g.counter + 1))), cond));
      OneGenerated(r[0], armed, g);
    case For(first, cond, update, body) =>
      var g0 := GenStmt(first, false, g.(counter := g.counter + 2)).1;
      AllStrippedSameCode(body, true, Checked(g0.(brk := Inside(LabelName("for_end", g.counter + 1))), cond));
      OneGenerated(r[0], armed, g);
    case _ =>
      if r != [] { OneGenerated(s, armed, g); }
  }

  lemma Generated(s: Stmt, armed: bool, g: Gen)
    ensures Stripped(s, armed) == [] ==> GenStmt(s, armed, g) == GenAll([], armed, g)
  {
  }

  lemma OneGenerated(s: Stmt, armed: bool, g: Gen)
    ensures GenAll([s], armed, g) == GenStmt(s, armed, g)
  {
    var (code, g1) := GenStmt(s, armed, g);
    assert GenAll([s][1..], armed, g1) == ([], g1) && code + [] == code;
  }

  lemma {:induction false} GenConcat(a: seq<Stmt>, b: seq<Stmt>, armed: bool, g: Gen)
    ensures var (code, g1) := GenAll(a, armed, g);
            var (code', g2) := GenAll(b, armed, g1);
            GenAll(a + b, armed, g) == (code + code', g2)
  {
    if a == [] {
      assert a + b == b;
      assert [] + GenAll(b, armed, g).0 == GenAll(b, armed, g).0;
    } else {
      hide GenStmt;
      assert (a + b)[1..] == a[1..] + b;
      var (code, g1) := GenStmt(a[0], armed, g);
      GenConcat(a[1..], b, armed, g1);
      var (code', g2) := GenAll(a[1..], armed, g1);
      assert code + (code' + GenAll(b, armed, g2).0) == code + code' + GenAll(b, armed, g2).0;
    }
  }

  lemma {:induction false} AllStrippedSameCode(ss: seq<Stmt>, armed: bool, g: Gen)
    ensures GenAll(AllStripped(ss, armed), armed, g) == GenAll(ss, armed, g)
    decreases ss, 0
  {
    if ss != [] {
      hide GenStmt;
      StrippedSameCode(ss[0], armed, g);
      AllStrippedSameCode(ss[1..], armed, GenStmt(ss[0], armed, g).1);
      GenConcat(Stripped(ss[0], armed), AllStripped(ss[1..], armed), armed, g);
    }
  }

  lemma {:induction false} ConditionsConcat(a: seq<Stmt>, b: seq<Stmt>, armed: bool)
    ensures AllArmed(a + b, armed) <==> AllArmed(a, armed) && AllArmed(b, armed)
    ensures AllCallFree(a + b) <==> AllCallFree(a) && AllCallFree(b)
    ensures NeedAll(a + b) == Max(NeedAll(a), NeedAll(b))
  {
    if a == [] {
      assert a + b == b;
    } else {
      assert (a + b)[1..] == a[1..] + b;
      ConditionsConcat(a[1..], b, armed);
    }
  }

  /** Stripping leaves only breaks that become jumps, and changes nothing when there are no others. */
  lemma {:induction false} StrippedIsArmed(s: Stmt, armed: bool)
    requires CallFree(s)
    ensures AllArmed(Stripped(s, armed), armed) && AllCallFree(Stripped(s, armed))
    ensures NeedAll(Stripped(s, armed)) <= NeedOf(s)
    ensures Stripped(s, armed) == [s] <==> Armed(s, armed)
    decreases s, 1
  {
    match s
    case If(_, body, els) =>
      AllStrippedIsArmed(body, true);
      if els.Else? { AllStrippedIsArmed(els.body, false); }
      OneStatement(Stripped(s, armed)[0], armed);
    case While(_, body) =>
      AllStrippedIsArmed(body, true);
      OneStatement(Stripped(s, armed)[0], armed);
    case For(_, _, _, body) =>
      AllStrippedIsArmed(body, true);
      OneStatement(Stripped(s, armed)[0], armed);
    case _ =>
      OneStatement(s, armed);
  }

  lemma {:induction false} AllStrippedIsArmed(ss: seq<Stmt>, armed: bool)
    requires AllCallFree(ss)
    ensures AllArmed(AllStripped(ss, armed), armed) && AllCallFree(AllStripped(ss, armed))
    ensures NeedAll(AllStripped(ss, armed)) <= NeedAll(ss)
    ensures AllStripped(ss, armed) == ss <==> AllArmed(ss, armed)
    ensures |AllStripped(ss, armed)| <= |ss|
    decreases ss, 0
  {
    if ss != [] {
      var head, tail := Stripped(ss[0], armed), AllStripped(ss[1..], armed);
      StrippedIsArmed(ss[0], armed);
      AllStrippedIsArmed(ss[1..], armed);
      ConditionsConcat(head, tail, armed);
      if head + tail == ss {
        assert |head| == 1;
        assert head == (head + tail)[..1] == [ss[0]] && tail == (head + tail)[1..] == ss[1..];
      }
      assert ss == [ss[0]] + ss[1..];
    }
  }

  // ---------- running a program ----------

  /** A machine as ortavm_create leaves it, up to what is already on its stack and in its scope. */
  ghost predicate FreshMachine(st: State) {
    st.status == Running && st.scopes != []
  }

  /** The machine at the end of a program whose body ended with these variables and this output: its stack is as it
      was, the body's variables are in the scope it opened, and a last empty scope is current. */
  ghost function Finished(st: State, body: seq<Stmt>, vars: Vars, out: seq<Word>): State {
    var code := GenAll(body, false, Gen(1, Unset, false)).0;
    st.(ip := |code| + 3, scopes := st.scopes + [vars, map[]], out := st.out + out, status := Halted)
  }

  /** The body's code in its program, and the two steps before it. */
  lemma EntryRuns(body: seq<Stmt>, st: State)
    requires AllCallFree(body) && FreshMachine(st)
    ensures var p := Assemble(GenProgram(body).0);
            var code := GenAll(body, false, Gen(1, Unset, false)).0;
            && CodeAt(p, 2, code)
            && CodeAt(p, 2 + |code|, [Ins(ToggleLocalScope), Ins(Halt)])
            && Run(p, Started(p, st), 2) == st.(ip := 2, scopes := st.scopes + [map[]])
  {
    hide AllCallFree, GenAll;
    var items := GenProgram(body).0;
    var p := Assemble(items);
    var code := GenAll(body, false, Gen(1, Unset, false)).0;
    ProgramLabels(body);
    AssembledInPlace(items);
    var pre, post := [Lbl(ENTRY), Ins(ToggleLocalScope)], [Ins(ToggleLocalScope), Ins(Halt)];
    assert items == pre + code + post + items[|pre| + |code| + 2..];
    EntrySteps(p, st, pre, code, post, items[|pre| + |code| + 2..]);
  }

  lemma EntrySteps(p: Program, st: State, pre: seq<Item>, code: seq<Item>, post: seq<Item>, rest: seq<Item>)
    requires FreshMachine(st) && pre == [Lbl(ENTRY), Ins(ToggleLocalScope)]
    requires CodeAt(p, 0, pre + code + post + rest)
    ensures CodeAt(p, 2, code) && CodeAt(p, 2 + |code|, post)
    ensures Run(p, Started(p, st), 2) == st.(ip := 2, scopes := st.scopes + [map[]])
  {
    hide CodeAt;
    CodeSplits(p, 0, pre + code + post, rest);
    CodeSplits(p, 0, pre + code, post);
    CodeSplits(p, 0, pre, code);
    assert pre == [Lbl(ENTRY)] + [Ins(ToggleLocalScope)];
    CodeSplits(p, 0, [Lbl(ENTRY)], [Ins(ToggleLocalScope)]);
    LabelHere(p, 0, ENTRY);
    LabelStep(p, 0, ENTRY, Started(p, st));
    ToggleStep(p, 1, Started(p, st).(ip := 1));
    RunAdds(p, Started(p, st), 1, 1);
  }

  lemma ToggleStep(p: Program, at: nat, st: State)
    requires CodeAt(p, at, [Ins(ToggleLocalScope)]) && ReadyAt(st, at)
    ensures Run(p, st, 1) == st.(ip := at + 1, scopes := st.scopes + [map[]])
  {
    assert ItemAt(p, at + 0, [Ins(ToggleLocalScope)][0]);
    assert Run(p, st, 1) == Run(p, Step(p, st), 0);
  }

  lemma HaltStep(p: Program, at: nat, st: State)
    requires CodeAt(p, at, [Ins(Halt)]) && ReadyAt(st, at)
    ensures Run(p, st, 1) == st.(status := Halted)
  {
    assert ItemAt(p, at + 0, [Ins(Halt)][0]);
    assert Run(p, st, 1) == Run(p, Step(p, st), 0);
  }

  /** What the machine has reached n steps after the entry, given how the body ends. */
  ghost predicate Realises(body: seq<Stmt>, st: State, n: nat, e: Ending, fuel: nat) {
    var p := Assemble(GenProgram(body).0);
    match e
    case Normal(vars, out) => Run(p, Started(p, st), n) == Finished(st, body, vars, out)
    case Broke(_, _) => false
    case Unfinished => n >= fuel && Run(p, Started(p, st), n).status == Running && Run(p, Started(p, st), n).ip < |p.instrs|
    case Undefined => true
  }

  /** Compiler correctness. For a call-free body with well placed breaks, the compiled program does what the body
      without its dropped breaks means: if the meaning ends, the machine halts with its variables, its output and
      the stack it started with; while the meaning has not ended, the machine is still running. */
  lemma CompilerCorrect(body: seq<Stmt>, st: State, fuel: nat) returns (n: nat)
    requires AllCallFree(body) && AllPlaced(body, false, false)
    requires FreshMachine(st) && |st.stack| + NeedAll(body) <= st.capacity
    ensures Realises(body, st, n, ExecAll(AllStripped(body, false), map[], fuel), fuel)
  {
    hide AllCallFree, AllPlaced, GenAll, NeedAll, AllStripped, CodeAt, Run, ExecAll, AllArmed, GenProgram, Reaches;
    var g := Gen(1, Unset, false);
    var p := Assemble(GenProgram(body).0);
    var code := GenAll(body, false, g).0;
    var kept := AllStripped(body, false);
    var e := ExecAll(kept, map[], fuel);
    n := 0;
    if !e.Undefined? {
      AllRefuseMisplaced(body, false, g);
      AllStrippedSameCode(body, false, g);
      AllStrippedIsArmed(body, false);
      EntryRuns(body, st);
      var st1 := st.(ip := 2, scopes := st.scopes + [map[]]);
      var m := AllRuns(p, 2, kept, false, g, st1, fuel);
      n := EndsProgram(p, body, st, m, e, fuel);
    }
  }

  /** A body without dropped breaks compiles to what it means itself. */
  lemma ArmedCorrect(body: seq<Stmt>, st: State, fuel: nat) returns (n: nat)
    requires AllCallFree(body) && AllPlaced(body, false, false) && AllArmed(body, false)
    requires FreshMachine(st) && |st.stack| + NeedAll(body) <= st.capacity
    ensures Realises(body, st, n, ExecAll(body, map[], fuel), fuel)
  {
    hide *;
    AllStrippedIsArmed(body, false);
    n := CompilerCorrect(body, st, fuel);
  }

  lemma EndsProgram(p: Program, body: seq<Stmt>, st: State, m: nat, e: Ending, fuel: nat) returns (n: nat)
    requires AllCallFree(body) && FreshMachine(st) && p == Assemble(GenProgram(body).0)
    requires var st1 := st.(ip := 2, scopes := st.scopes + [map[]]);
             Reaches(p, st1, m, 2 + |GenAll(body, false, Gen(1, Unset, false)).0|, Unset, e, fuel)
    ensures Realises(body, st, n, e, fuel)
  {
    hide AllCallFree, GenAll, CodeAt, Run, GenProgram, Assemble;
    EntryRuns(body, st);
    var endAt := 2 + |GenAll(body, false, Gen(1, Unset, false)).0|;
    var st1 := st.(ip := 2, scopes := st.scopes + [map[]]);
    RunAdds(p, Started(p, st), 2, m);
    n := 2 + m;
    if e.Normal? {
      var st2 := Ended(st1, endAt, e.vars, e.out);
      assert [Ins(ToggleLocalScope), Ins(Halt)] == [Ins(ToggleLocalScope)] + [Ins(Halt)];
      CodeSplits(p, endAt, [Ins(ToggleLocalScope)], [Ins(Halt)]);
      ToggleStep(p, endAt, st2);
      HaltStep(p, endAt + 1, st2.(ip := endAt + 1, scopes := st2.scopes + [map[]]));
      RunAdds(p, st2, 1, 1);
      RunAdds(p, Started(p, st), n, 2);
      assert st1.scopes[..|st1.scopes| - 1] == st.scopes;
      assert st.scopes + [e.vars] + [map[]] == st.scopes + [e.vars, map[]];
      n := n + 2;
    }
  }

  // ---------- termination ----------

  lemma {:induction false} StoppedStays(p: Program, st: State, n: nat)
    requires st.status != Running
    ensures Run(p, st, n) == st
  {
    if n > 0 {
      StoppedStays(p, st, n - 1);
    }
  }

  lemma RunningBefore(p: Program, st: State, m: nat, n: nat)
    requires m <= n && Run(p, st, n).status == Running
    ensures Run(p, st, m).status == Running
  {
    hide Run;
    RunAdds(p, st, m, n - m);
    if Run(p, st, m).status != Running {
      StoppedStays(p, Run(p, st, m), n - m);
    }
  }

  ghost predicate Ends(body: seq<Stmt>, fuel: nat) {
    ExecAll(body, map[], fuel).Normal?
  }

  ghost predicate HaltsAfter(body: seq<Stmt>, st: State, n: nat) {
    var p := Assemble(GenProgram(body).0);
    Run(p, Started(p, st), n).status == Halted
  }

  /** A body whose every evaluation, without its dropped breaks, has a meaning ends exactly when its compiled program
      halts. */
  lemma HaltsIffEnds(body: seq<Stmt>, st: State)
    requires AllCallFree(body) && AllPlaced(body, false, false)
    requires FreshMachine(st) && |st.stack| + NeedAll(body) <= st.capacity
    requires forall fuel: nat :: !ExecAll(AllStripped(body, false), map[], fuel).Undefined?
    ensures (exists fuel: nat :: Ends(AllStripped(body, false), fuel)) <==> (exists n: nat :: HaltsAfter(body, st, n))
  {
    hide AllCallFree, AllPlaced, NeedAll, Run, ExecAll, GenProgram, AllStripped;
    var kept := AllStripped(body, false);
    if fuel: nat :| Ends(kept, fuel) {
      var n := CompilerCorrect(body, st, fuel);
      assert HaltsAfter(body, st, n);
    }
    if n: nat :| HaltsAfter(body, st, n) {
      var m := CompilerCorrect(body, st, n);
      if !Ends(kept, n) {
        var p := Assemble(GenProgram(body).0);
        RunningBefore(p, Started(p, st), n, m);
        assert false;
      }
    }
  }

  /** More turns change nothing once a statement has ended. */
  lemma {:induction false} MoreFuel(s: Stmt, vars: Vars, fuel: nat, fuel': nat)
    requires fuel <= fuel' && !ExecOne(s, vars, fuel).Unfinished?
    ensures ExecOne(s, vars, fuel') == ExecOne(s, vars, fuel)
    decreases fuel, 1, s
  {
    match s
    case If(cond, body, els) =>
      if ValueOf(cond, vars).Some? {
        if LetsIn(ValueOf(cond, vars).value) { MoreFuelAll(body, vars, fuel, fuel'); }
        else if els.Else? { MoreFuelAll(els.body, vars, fuel, fuel'); }
      }
    case While(cond, body) => MoreFuelLoop(cond, body, [], vars, fuel, fuel');
    case For(first, cond, update, body) =>
      MoreFuel(first, vars, fuel, fuel');
      var e := ExecOne(first, vars, fuel);
      if e.Normal? { MoreFuelLoop(cond, body, [update], e.vars, fuel, fuel'); }
    case _ =>
  }

  lemma {:induction false} MoreFuelAll(ss: seq<Stmt>, vars: Vars, fuel: nat, fuel': nat)
    requires fuel <= fuel' && !ExecAll(ss, vars, fuel).Unfinished?
    ensures ExecAll(ss, vars, fuel') == ExecAll(ss, vars, fuel)
    decreases fuel, 1, ss
  {
    if ss != [] {
      MoreFuel(ss[0], vars, fuel, fuel');
      var first := ExecOne(ss[0], vars, fuel);
      if first.Normal? { MoreFuelAll(ss[1..], first.vars, fuel, fuel'); }
    }
  }

  lemma {:induction false} MoreFuelLoop(cond: Expr, body: seq<Stmt>, update: seq<Stmt>, vars: Vars, fuel: nat, fuel': nat)
    requires fuel <= fuel' && !Loop(cond, body, update, vars, fuel).Unfinished?
    ensures Loop(cond, body, update, vars, fuel') == Loop(cond, body, update, vars, fuel)
    decreases fuel, 0
  {
    if ValueOf(cond, vars).Some? && LetsIn(ValueOf(cond, vars).value) {
      MoreFuelAll(body, vars, fuel - 1, fuel' - 1);
      var turn := ExecAll(body, vars, fuel - 1);
      if turn.Normal? {
        MoreFuelAll(update, turn.vars, fuel - 1, fuel' - 1);
        var step := ExecAll(update, turn.vars, fuel - 1);
        if step.Normal? { MoreFuelLoop(cond, body, update, step.vars, fuel - 1, fuel' - 1); }
      }
    }
  }

  // ---------- where the code departs from the source ----------

  /** `while (0) { if (1) { } else { break; } }`: the condition 0 lets the body in, and 1 selects the else-branch. */
  const ELSE_BREAK: seq<Stmt> := [While(Num(0), [If(Num(1), [], Else([Break]))])]

  /** The break means to leave the loop at once; the compiled program runs for ever. */
  lemma ElseBreakIsLost(st: State, n: nat)
    requires FreshMachine(st) && |st.stack| + 1 <= st.capacity
    ensures AllCallFree(ELSE_BREAK) && AllPlaced(ELSE_BREAK, false, false)
    ensures ExecAll(ELSE_BREAK, map[], 1) == Normal(map[], [])
    ensures var p := Assemble(GenProgram(ELSE_BREAK).0); Run(p, Started(p, st), n).status == Running
  {
    hide Run, GenProgram;
    var inner := If(Num(1), [], Else([Break]));
    assert ELSE_BREAK[1..] == [] && [inner][1..] == [] && [Break][1..] == [];
    assert ExecOne(inner, map[], 0) == Broke(map[], []) by {
      assert ExecAll([Break], map[], 0) == ExecOne(Break, map[], 0);
    }
    assert ExecAll([inner], map[], 0) == Broke(map[], []);
    assert Loop(Num(0), [inner], [], map[], 1) == Normal(map[], []);
    assert NeedAll([inner]) == 1 && NeedAll(ELSE_BREAK) == 1;
    assert AllPlaced([inner], true, true);
    assert AllCallFree([inner]);
    var idle := If(Num(1), [], Else([]));
    assert AllStripped([Break], false) == [];
    assert Stripped(inner, true) == [idle] && AllStripped([inner], true) == [idle];
    assert AllStripped(ELSE_BREAK, false) == [While(Num(0), [idle])];
    IdleLoop(n + 1);
    assert [While(Num(0), [idle])][1..] == [];
    assert ExecAll([While(Num(0), [idle])], map[], n + 1) == Unfinished;
    var m := CompilerCorrect(ELSE_BREAK, st, n + 1);
    var p := Assemble(GenProgram(ELSE_BREAK).0);
    RunningBefore(p, Started(p, st), n, m);
  }

  lemma {:induction false} IdleLoop(fuel: nat)
    ensures Loop(Num(0), [If(Num(1), [], Else([]))], [], map[], fuel) == Unfinished
  {
    if fuel > 0 {
      var idle := If(Num(1), [], Else([]));
      assert [idle][1..] == [];
      var e: Ending := ExecOne(idle, map[], fuel - 1);
      assert e == ExecAll([], map[], fuel - 1) == Normal(map[], []);
      AfterNothing(e);
      assert ExecAll([idle], map[], fuel - 1) == After(e.out, ExecAll([], map[], fuel - 1));
      AfterNothing(Unfinished);
      IdleLoop(fuel - 1);
    }
  }

  /** What a comparison in a condition lets in: `==` and `!=` what they say, `<` and `>` the opposite. */
  lemma ConditionsMean(l: Expr, r: Expr, vars: Vars, a: Int32, b: Int32)
    requires ValueOf(l, vars) == Some(Int(a)) && ValueOf(r, vars) == Some(Int(b))
    ensures forall op :: op in {Equals, Differs, Less, Greater} ==> ValueOf(Bin(op, l, r), vars).Some?
    ensures LetsIn(ValueOf(Bin(Equals, l, r), vars).value) <==> a == b
    ensures LetsIn(ValueOf(Bin(Differs, l, r), vars).value) <==> a != b
    ensures LetsIn(ValueOf(Bin(Less, l, r), vars).value) <==> !(a < b)
    ensures LetsIn(ValueOf(Bin(Greater, l, r), vars).value) <==> !(a > b)
  {
  }
}
