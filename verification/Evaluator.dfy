/** The evaluator of arithmetic text, as a function. */
module Evaluator {
  import opened Text
  import opened Words
  import opened AsmLexer

  /** The terminators planted for groups stand in a text as this character; its own terminator is its end. */
  const NUL: char := '\0'

  /** Undefined is what C leaves undefined: popping an empty operator stack, pushing on a full one, dividing INT_MIN by
      -1, and a cursor that passes the end of the text. */
  datatype Outcome = Undefined | Value(v: Int32)

  /** One operator's effect: the next value, the whole evaluation ended, or nothing defined. */
  datatype Effect = Next(v: Int32) | EndsWithZero | NotDefined

  function Apply(op: char, acc: Int32, v: Int32): Effect {
    if op == '+' then Next(Wrap(acc + v))
    else if op == '-' then Next(Wrap(acc - v))
    else if op == '*' then Next(Wrap(acc * v))
    else if op == '/' then
      if v == 0 then EndsWithZero
      else if acc == INT_MIN && v == -1 then NotDefined
      else QuotientFits(acc, v); Next(Quotient(acc, v))
    else Next(acc)
  }

  function DigitsOf(s: string): (n: nat)
    ensures n <= |s| && AllDigits(s[..n]) && (n < |s| ==> !IsDigit(s[n]))
  {
    Span(Figures, s, |s|)
  }

  /** The value the digit loop builds, in 32 bits. */
  function Digits(s: string, val: Int32): Int32
    requires AllDigits(s)
  {
    if s == "" then val else Digits(s[1..], Wrap(val * 10 + DigitValue(s[0])))
  }

  function Spaces(s: string): (n: nat)
    ensures n <= |s| && (n < |s| ==> !IsSpace(s[n])) && (forall i :: 0 <= i < n ==> IsSpace(s[i]))
  {
    if s == "" || !IsSpace(s[0]) then 0 else 1 + Spaces(s[1..])
  }

  /** Where the parenthesis stands that closes the `open` ones before the text, its length when none does before a
      terminator. */
  function Closing(s: string, open: nat): (k: nat)
    requires open > 0
    ensures k <= |s| && (k < |s| ==> s[k] == ')')
  {
    if s == "" then 0
    else if s[0] == NUL then |s|
    else if s[0] == '(' then 1 + Closing(s[1..], open + 1)
    else if s[0] == ')' then if open == 1 then 0 else 1 + Closing(s[1..], open - 1)
    else 1 + Closing(s[1..], open)
  }

  /** The rest of an evaluation: the text left, the value so far, and the operators pushed and not yet applied, of which
      there is room for `cap`. A planted terminator ends it, unless blanks lead there: then the cursor steps over it. */
  function Run(t: string, acc: Int32, ops: string, cap: nat): Outcome
    decreases |t|, 1
  {
    if t == "" || t[0] == NUL then Value(acc)
    else
      var p := t[Spaces(t)..];
      if p == "" then Undefined
      else if p[0] == '+' || p[0] == '-' then
        if |ops| >= cap then Undefined else Run(p[1..], acc, ops + [p[0]], cap)
      else if p[0] == '*' || p[0] == '/' then
        if |ops| >= cap then Undefined
        else
          match TakeOperand(p[1..][Spaces(p[1..])..], cap)
          case Unclosed => Value(0)
          case Taken(operand, rest) => Finish(operand, rest, acc, ops + [p[0]], cap, |t|)
      else if IsDigit(p[0]) || p[0] == '(' then
        match TakeOperand(p, cap)
        case Unclosed => Value(0)
        case Taken(operand, rest) => Finish(operand, rest, acc, ops, cap, |t|)
      else Run(p[1..], acc, ops, cap)
  }

  datatype Taken = Unclosed | Taken(value: Outcome, rest: string)

  /** A group, evaluated with a terminator in its parenthesis' place, or the digits there are. */
  function TakeOperand(q: string, cap: nat): (r: Taken)
    ensures r.Taken? ==> |r.rest| <= |q| && (q != "" && (IsDigit(q[0]) || q[0] == '(') ==> |r.rest| < |q|)
    decreases |q|, 0
  {
    if q != "" && q[0] == '(' then
      var k := Closing(q[1..], 1);
      if k == |q[1..]| then Unclosed else Taken(EvalText(q[1..][k := NUL], cap), q[1..][k..])
    else
      var n := DigitsOf(q);
      Taken(Value(Digits(q[..n], 0)), q[n..])
  }

  /** An operand meets the operator on top. */
  function Finish(operand: Outcome, rest: string, acc: Int32, ops: string, cap: nat, ghost bound: nat): Outcome
    requires |rest| < bound
    decreases bound, 0
  {
    if operand.Undefined? || ops == "" then Undefined
    else
      match Apply(ops[|ops| - 1], acc, operand.v)
      case Next(acc') => Run(rest, acc', ops[..|ops| - 1], cap)
      case EndsWithZero => Value(0)
      case NotDefined => Undefined
  }

  /** How an evaluation goes on from an operand taken. */
  function Goes(taken: Taken, acc: Int32, ops: string, cap: nat): Outcome {
    match taken
    case Unclosed => Value(0)
    case Taken(operand, rest) =>
      if operand.Undefined? || ops == "" then Undefined
      else
        match Apply(ops[|ops| - 1], acc, operand.v)
        case Next(acc') => Run(rest, acc', ops[..|ops| - 1], cap)
        case EndsWithZero => Value(0)
        case NotDefined => Undefined
  }

  /** eval of a text: 100 operators fit its stack. */
  function EvalText(t: string, cap: nat): Outcome
    decreases |t|, 2
  {
    if t == "" || t[0] == NUL then Value(0) else if cap == 0 then Undefined else Run(t, 0, "+", cap)
  }

  const OPERATORS: nat := 100

  // ---------- well-formed text ----------

  type Numeral = s: string | s != "" && AllDigits(s) witness "0"

  datatype Operator = Plus | Minus | Times | Over

  /** An operand and what follows it, one after the other. */
  datatype Operand = Num(s: Numeral) | Group(e: Expression)
  datatype Expression = Expression(first: Operand, more: Terms)
  datatype Terms = End | Term(op: Operator, operand: Operand, more: Terms)

  function Symbol(op: Operator): char {
    match op case Plus => '+' case Minus => '-' case Times => '*' case Over => '/'
  }

  function ShowOperand(x: Operand): (s: string)
    ensures s != ""
  {
    match x
    case Num(n) => n
    case Group(e) => "(" + Show(e) + ")"
  }

  function Show(e: Expression): (s: string)
    ensures s != ""
  {
    ShowOperand(e.first) + ShowTerms(e.more)
  }

  function ShowTerms(ts: Terms): string {
    match ts
    case End => ""
    case Term(op, x, more) => [Symbol(op)] + ShowOperand(x) + ShowTerms(more)
  }

  /** How far a list of terms is taken: to its end, or to an operand that has no value or a divisor that is zero. */
  datatype Progress = Complete(v: Int32) | Stopped(o: Outcome)

  function Result(p: Progress): Outcome {
    match p
    case Complete(v) => Value(v)
    case Stopped(o) => o
  }

  /** What the text means: operands from left to right, groups by themselves, no precedence; a divisor of zero makes the
      group it stands in zero. */
  function Meaning(e: Expression): Outcome
    decreases e, 1
  {
    Result(Walk(e))
  }

  function Walk(e: Expression): Progress
    decreases e, 0
  {
    match OperandMeaning(e.first)
    case Undefined => Stopped(Undefined)
    case Value(v) => Fold(v, e.more)
  }

  function OperandMeaning(x: Operand): Outcome
    decreases x
  {
    match x
    case Num(n) => Value(Wrap(TrailingNumber(n)))
    case Group(e) => Meaning(e)
  }

  function Fold(acc: Int32, ts: Terms): Progress
    decreases ts
  {
    match ts
    case End => Complete(acc)
    case Term(op, x, more) =>
      match OperandMeaning(x)
      case Undefined => Stopped(Undefined)
      case Value(v) =>
        match op
        case Plus => Fold(Wrap(acc + v), more)
        case Minus => Fold(Wrap(acc - v), more)
        case Times => Fold(Wrap(acc * v), more)
        case Over =>
          if v == 0 then Stopped(Value(0))
          else if acc == INT_MIN && v == -1 then Stopped(Undefined)
          else QuotientFits(acc, v); Fold(Quotient(acc, v), more)
  }

  // ---------- numerals ----------

  lemma WrapShifted(x: int, k: int)
    ensures Wrap(x + k * 0x1_0000_0000) == Wrap(x)
  {
  }

  lemma WrapInside(a: int, d: int)
    ensures Wrap(Wrap(a) * 10 + d) == Wrap(a * 10 + d)
  {
    var k := (Wrap(a) - a) / 0x1_0000_0000;
    assert Wrap(a) == a + k * 0x1_0000_0000;
    WrapShifted(a * 10 + d, 10 * k);
  }

  lemma {:induction false} DigitsJoin(s: string, c: char, val: Int32)
    requires AllDigits(s) && IsDigit(c)
    ensures AllDigits(s + [c]) && Digits(s + [c], val) == Wrap(Digits(s, val) * 10 + DigitValue(c))
  {
    if s == "" {
      assert (s + [c])[1..] == "";
    } else {
      assert (s + [c])[1..] == s[1..] + [c];
      DigitsJoin(s[1..], c, Wrap(val * 10 + DigitValue(s[0])));
    }
  }

  /** The loop reads a numeral as the number it spells, reduced to 32 bits. */
  lemma {:induction false} NumeralValue(s: string)
    requires AllDigits(s)
    ensures Digits(s, 0) == Wrap(TrailingNumber(s))
  {
    if s != "" {
      var front, last := s[..|s| - 1], s[|s| - 1];
      NumeralValue(front);
      DigitsJoin(front, last, 0);
      assert front + [last] == s;
      WrapInside(TrailingNumber(front), DigitValue(last));
    }
  }

  // ---------- parentheses ----------

  lemma {:induction false} ClosingSkips(s: string, r: string, open: nat)
    requires open > 0 && forall i :: 0 <= i < |s| ==> s[i] != '(' && s[i] != ')' && s[i] != NUL
    ensures Closing(s + r, open) == |s| + Closing(r, open)
  {
    if s == "" {
      assert s + r == r;
    } else {
      assert (s + r)[1..] == s[1..] + r;
      ClosingSkips(s[1..], r, open);
    }
  }

  /** The groups of a well-formed text are closed in it. */
  lemma {:induction false} ClosingExpression(e: Expression, r: string, open: nat)
    requires open > 0
    ensures Closing(Show(e) + r, open) == |Show(e)| + Closing(r, open)
    decreases e
  {
    hide Closing;
    ClosingOperand(e.first, ShowTerms(e.more) + r, open);
    ClosingTerms(e.more, r, open);
    assert Show(e) + r == ShowOperand(e.first) + (ShowTerms(e.more) + r);
  }

  lemma {:induction false} ClosingOperand(x: Operand, r: string, open: nat)
    requires open > 0
    ensures Closing(ShowOperand(x) + r, open) == |ShowOperand(x)| + Closing(r, open)
    decreases x
  {
    hide Closing, Show;
    match x
    case Num(n) => ClosingSkips(n, r, open);
    case Group(e) =>
      ClosingExpression(e, ")" + r, open + 1);
      GroupShown(e, r);
      Opened(Show(e) + (")" + r), open);
      Closed(r, open);
  }

  lemma GroupShown(e: Expression, r: string)
    ensures ShowOperand(Group(e)) + r == "(" + (Show(e) + (")" + r)) && |ShowOperand(Group(e))| == |Show(e)| + 2
  {
    hide Show;
  }

  lemma Opened(s: string, open: nat)
    requires open > 0
    ensures Closing("(" + s, open) == 1 + Closing(s, open + 1)
  {
    assert ("(" + s)[1..] == s;
  }

  lemma Closed(s: string, open: nat)
    requires open > 0
    ensures Closing(")" + s, open + 1) == 1 + Closing(s, open) && Closing(")" + s, 1) == 0
  {
    assert (")" + s)[1..] == s;
  }

  lemma {:induction false} ClosingTerms(ts: Terms, r: string, open: nat)
    requires open > 0
    ensures Closing(ShowTerms(ts) + r, open) == |ShowTerms(ts)| + Closing(r, open)
    decreases ts
  {
    match ts
    case End => assert "" + r == r;
    case Term(op, x, more) =>
      TermWithRest(op, x, more, r);
      hide *;
      ClosingTerms(more, r, open);
      ClosingOperand(x, ShowTerms(more) + r, open);
      SymbolSkipped(op, ShowOperand(x) + (ShowTerms(more) + r), open);
  }

  lemma SymbolSkipped(op: Operator, r: string, open: nat)
    requires open > 0
    ensures Closing([Symbol(op)] + r, open) == 1 + Closing(r, open)
  {
    ClosingSkips([Symbol(op)], r, open);
  }

  lemma TermWithRest(op: Operator, x: Operand, more: Terms, r: string)
    ensures ShowTerms(Term(op, x, more)) + r == [Symbol(op)] + (ShowOperand(x) + (ShowTerms(more) + r))
    ensures |ShowTerms(Term(op, x, more))| == 1 + |ShowOperand(x)| + |ShowTerms(more)|
  {
    hide ShowOperand;
  }

  // ---------- evaluation ----------

  /** An operand of known value meets the only operator on the stack. */
  function Meet(o: Outcome, op: char, acc: Int32, rest: string, cap: nat): Outcome {
    if o.Undefined? then Undefined
    else
      match Apply(op, acc, o.v)
      case Next(acc') => Run(rest, acc', "", cap)
      case EndsWithZero => Value(0)
      case NotDefined => Undefined
  }

  /** No digit follows. */
  predicate Ends(t: string) {
    t == "" || !IsDigit(t[0])
  }

  lemma FinishIs(o: Outcome, op: char, acc: Int32, rest: string, cap: nat, bound: nat)
    requires |rest| < bound
    ensures Finish(o, rest, acc, [op], cap, bound) == Meet(o, op, acc, rest, cap)
  {
    hide Run, Apply;
    assert [op][..0] == "";
  }

  lemma NumeralFacts(n: Numeral, t: string)
    requires Ends(t)
    ensures var p := n + t;
            && p != "" && IsDigit(p[0]) && !IsSpace(p[0]) && Spaces(p) == 0 && p[0..] == p
            && DigitsOf(p) == |n| && p[..|n|] == n && p[|n|..] == t
  {
    var p := n + t;
    forall i | 0 <= i < |n| ensures In(Figures, p[i]) { assert p[i] == n[i]; }
    SpanIs(Figures, p, |p|, |n|);
  }

  lemma NumeralRuns(n: Numeral, op: char, acc: Int32, t: string, cap: nat)
    requires Ends(t)
    ensures Run(n + t, acc, [op], cap) == Meet(Value(Wrap(TrailingNumber(n))), op, acc, t, cap)
  {
    NumeralFacts(n, t);
    NumeralValue(n);
    FinishIs(Value(Wrap(TrailingNumber(n))), op, acc, t, cap, |n + t|);
    hide Finish, Meet, Digits, DigitsOf, Spaces, EvalText;
  }

  lemma GroupFacts(inner: string, t: string)
    requires Closing(inner + (")" + t), 1) == |inner|
    ensures var p := "(" + inner + ")" + t;
            && p != "" && p[0] == '(' && !IsSpace(p[0]) && Spaces(p) == 0 && p[0..] == p && p[1..] == inner + (")" + t)
            && |inner| < |p[1..]| && p[1..][|inner| := NUL] == inner + ([NUL] + t) && p[1..][|inner|..] == ")" + t
  {
    hide Closing;
    var p := "(" + inner + ")" + t;
    assert p == "(" + (inner + (")" + t));
  }

  /** The parenthesis that ends a group is passed over. */
  lemma ParenthesisSkipped(acc: Int32, t: string, cap: nat)
    ensures Run(")" + t, acc, "", cap) == Run(t, acc, "", cap)
  {
    var p := ")" + t;
    assert Spaces(p) == 0 && p[0..] == p && p[1..] == t;
    hide Finish, TakeOperand;
  }

  lemma MeetSkips(o: Outcome, op: char, acc: Int32, t: string, cap: nat)
    ensures Meet(o, op, acc, ")" + t, cap) == Meet(o, op, acc, t, cap)
  {
    hide Run, Apply;
    if o.Value? {
      match Apply(op, acc, o.v)
      case Next(acc') => ParenthesisSkipped(acc', t, cap);
      case _ =>
    }
  }

  /** A group's text with any text in it that it closes, and the value found there. */
  lemma GroupRuns(inner: string, o: Outcome, op: char, acc: Int32, t: string, cap: nat)
    requires Closing(inner + (")" + t), 1) == |inner| && EvalText(inner + ([NUL] + t), cap) == o
    ensures Run("(" + inner + ")" + t, acc, [op], cap) == Meet(o, op, acc, t, cap)
  {
    GroupFacts(inner, t);
    FinishIs(o, op, acc, ")" + t, cap, |"(" + inner + ")" + t|);
    MeetSkips(o, op, acc, t, cap);
    hide Finish, Meet, Digits, DigitsOf, Spaces, EvalText, Closing;
  }

  lemma GroupCloses(e: Expression, t: string)
    ensures Closing(Show(e) + (")" + t), 1) == |Show(e)| && ShowOperand(Group(e)) == "(" + Show(e) + ")"
  {
    ClosingExpression(e, ")" + t, 1);
    Closed(t, 1);
    hide Show, Closing;
  }

  /** A group that is evaluated as it means, whatever stands behind its terminator. */
  ghost predicate Evaluates(x: Operand, t: string, cap: nat) {
    x.Group? ==> EvalText(Show(x.e) + ([NUL] + t), cap) == Meaning(x.e)
  }

  lemma OperandRuns(x: Operand, op: char, acc: Int32, t: string, cap: nat)
    requires Ends(t) && Evaluates(x, t, cap)
    ensures Run(ShowOperand(x) + t, acc, [op], cap) == Meet(OperandMeaning(x), op, acc, t, cap)
  {
    hide Run, Meet, Show, EvalText, Ends, Closing;
    match x
    case Num(n) => NumeralRuns(n, op, acc, t, cap);
    case Group(e) =>
      GroupCloses(e, t);
      GroupRuns(Show(e), Meaning(e), op, acc, t, cap);
  }

  lemma SignPushed(op: char, acc: Int32, t: string, cap: nat)
    requires (op == '+' || op == '-') && cap > 0
    ensures Run([op] + t, acc, "", cap) == Run(t, acc, [op], cap)
  {
    var p := [op] + t;
    assert Spaces(p) == 0 && p[0..] == p && p[1..] == t && "" + [op] == [op];
    hide Finish, TakeOperand;
  }

  lemma NumeralScaled(n: Numeral, op: char, acc: Int32, t: string, cap: nat)
    requires (op == '*' || op == '/') && cap > 0 && Ends(t)
    ensures Run([op] + (n + t), acc, "", cap) == Meet(Value(Wrap(TrailingNumber(n))), op, acc, t, cap)
  {
    var p := [op] + (n + t);
    assert Spaces(p) == 0 && p[0..] == p && p[1..] == n + t && "" + [op] == [op];
    NumeralFacts(n, t);
    NumeralValue(n);
    FinishIs(Value(Wrap(TrailingNumber(n))), op, acc, t, cap, |p|);
    hide Finish, Meet, Digits, DigitsOf, Spaces, EvalText;
  }

  lemma GroupScaled(inner: string, o: Outcome, op: char, acc: Int32, t: string, cap: nat)
    requires (op == '*' || op == '/') && cap > 0
    requires Closing(inner + (")" + t), 1) == |inner| && EvalText(inner + ([NUL] + t), cap) == o
    ensures Run([op] + ("(" + inner + ")" + t), acc, "", cap) == Meet(o, op, acc, t, cap)
  {
    var q := "(" + inner + ")" + t;
    var p := [op] + q;
    assert Spaces(p) == 0 && p[0..] == p && p[1..] == q && "" + [op] == [op];
    GroupFacts(inner, t);
    FinishIs(o, op, acc, ")" + t, cap, |p|);
    MeetSkips(o, op, acc, t, cap);
    hide Finish, Meet, Digits, DigitsOf, Spaces, EvalText, Closing;
  }

  lemma OperatorRuns(op: Operator, x: Operand, acc: Int32, t: string, cap: nat)
    requires cap > 0 && Ends(t) && Evaluates(x, t, cap)
    ensures Run([Symbol(op)] + (ShowOperand(x) + t), acc, "", cap) == Meet(OperandMeaning(x), Symbol(op), acc, t, cap)
  {
    hide Run, Meet, Show, EvalText, Ends, Closing;
    if op == Plus || op == Minus {
      SignPushed(Symbol(op), acc, ShowOperand(x) + t, cap);
      OperandRuns(x, Symbol(op), acc, t, cap);
    } else {
      match x
      case Num(n) => NumeralScaled(n, Symbol(op), acc, t, cap);
      case Group(e) =>
        GroupCloses(e, t);
        GroupScaled(Show(e), Meaning(e), Symbol(op), acc, t, cap);
    }
  }

  lemma TermsEnd(ts: Terms, tail: string)
    requires Ends(tail)
    ensures Ends(ShowTerms(ts) + tail)
  {
    hide ShowOperand;
  }

  /** The evaluation behind some terms goes on with the text there, when they are taken to their end. */
  function Onward(p: Progress, tail: string, cap: nat): Outcome {
    match p
    case Complete(v) => Run(tail, v, "", cap)
    case Stopped(o) => o
  }

  lemma {:induction false} TermsRun(ts: Terms, acc: Int32, tail: string, cap: nat)
    requires cap > 0 && Ends(tail)
    ensures Run(ShowTerms(ts) + tail, acc, "", cap) == Onward(Fold(acc, ts), tail, cap)
    decreases ts
  {
    match ts
    case End => assert "" + tail == tail;
    case Term(op, x, more) =>
      hide *;
      OperandEvaluates(x, ShowTerms(more) + tail, cap);
      TermsEnd(more, tail);
      TermWithRest(op, x, more, tail);
      OperatorRuns(op, x, acc, ShowTerms(more) + tail, cap);
      forall a: Int32 ensures Run(ShowTerms(more) + tail, a, "", cap) == Onward(Fold(a, more), tail, cap) {
        TermsRun(more, a, tail, cap);
      }
      FoldMeets(op, x, acc, more, tail, cap);
  }

  lemma {:induction false} OperandEvaluates(x: Operand, t: string, cap: nat)
    requires cap > 0
    ensures Evaluates(x, t, cap)
    decreases x
  {
    if x.Group? {
      EvalTerminated(x.e, [NUL] + t, cap);
    }
  }

  lemma FoldMeets(op: Operator, x: Operand, acc: Int32, more: Terms, tail: string, cap: nat)
    requires forall a: Int32 :: Run(ShowTerms(more) + tail, a, "", cap) == Onward(Fold(a, more), tail, cap)
    ensures Meet(OperandMeaning(x), Symbol(op), acc, ShowTerms(more) + tail, cap)
         == Onward(Fold(acc, Term(op, x, more)), tail, cap)
  {
    hide Run, ShowTerms, OperandMeaning, EvalText;
  }

  /** Any text behind a well-formed one is where its evaluation goes on. */
  lemma {:induction false} EvalContinues(e: Expression, tail: string, cap: nat)
    requires cap > 0 && Ends(tail)
    ensures EvalText(Show(e) + tail, cap) == Onward(Walk(e), tail, cap)
    decreases e, 0
  {
    var t := ShowTerms(e.more) + tail;
    OperandEvaluates(e.first, t, cap);
    TermsEnd(e.more, tail);
    OperandRuns(e.first, '+', 0, t, cap);
    forall a: Int32 ensures Run(t, a, "", cap) == Onward(Fold(a, e.more), tail, cap) {
      TermsRun(e.more, a, tail, cap);
    }
    StartsRun(e, tail, cap);
    hide Run, ShowTerms, ShowOperand, OperandMeaning, Fold, EvalText;
  }

  lemma StartsRun(e: Expression, tail: string, cap: nat)
    requires cap > 0
    ensures EvalText(Show(e) + tail, cap) == Run(ShowOperand(e.first) + (ShowTerms(e.more) + tail), 0, "+", cap)
  {
    assert Show(e) + tail == ShowOperand(e.first) + (ShowTerms(e.more) + tail);
    assert ShowOperand(e.first)[0] != NUL;
    hide Run, ShowTerms;
  }

  lemma {:induction false} EvalTerminated(e: Expression, tail: string, cap: nat)
    requires cap > 0 && (tail == "" || tail[0] == NUL)
    ensures EvalText(Show(e) + tail, cap) == Meaning(e)
    decreases e, 1
  {
    EvalContinues(e, tail, cap);
    hide EvalText, Show, Walk;
  }

  /** A well-formed text evaluates to what it means, and one place on the operator stack is enough for it: at every
      depth the stack holds no operator or one. */
  lemma EvalShows(e: Expression, cap: nat)
    requires cap > 0
    ensures EvalText(Show(e), cap) == Meaning(e)
  {
    EvalTerminated(e, "", cap);
    assert Show(e) + "" == Show(e);
  }

  // ---------- blanks at the end ----------

  predicate AllBlank(s: string) {
    s != "" && forall i :: 0 <= i < |s| ==> IsSpace(s[i])
  }

  /** Where blanks lead to a terminator: over a planted one, and past the text's own. */
  lemma BlanksRun(blanks: string, rest: string, acc: Int32, cap: nat)
    requires AllBlank(blanks)
    ensures Run(blanks, acc, "", cap) == Undefined
    ensures Run(blanks + ([NUL] + rest), acc, "", cap) == Run(rest, acc, "", cap)
  {
    SpacesAre(blanks, |blanks|);
    var t := blanks + ([NUL] + rest);
    SpacesAre(t, |blanks|);
    assert t[|blanks|..] == [NUL] + rest && ([NUL] + rest)[1..] == rest;
    assert t[0] == blanks[0] != NUL;
    hide Finish, TakeOperand, Spaces;
  }

  lemma {:induction false} SpacesAre(s: string, n: nat)
    requires n <= |s| && (forall i :: 0 <= i < n ==> IsSpace(s[i])) && (n < |s| ==> !IsSpace(s[n]))
    ensures Spaces(s) == n
  {
    if n > 0 {
      SpacesAre(s[1..], n - 1);
    }
  }

  /** A text with blanks at its end has no defined value exactly when it has none without them or when its terms are
      taken to their end, no operand without a value and no zero divisor outside the groups stopping them; else the
      blanks are never reached and change nothing. */
  lemma TrailingBlanks(e: Expression, blanks: string, cap: nat)
    requires cap > 0 && AllBlank(blanks)
    ensures EvalText(Show(e) + blanks, cap) == Undefined <==> Walk(e).Complete? || Meaning(e) == Undefined
    ensures !Walk(e).Complete? ==> EvalText(Show(e) + blanks, cap) == Meaning(e)
  {
    EvalContinues(e, blanks, cap);
    forall v: Int32 ensures Run(blanks, v, "", cap) == Undefined {
      BlanksRun(blanks, "", v, cap);
    }
    hide Run, EvalText, Show, Walk;
  }

  // ---------- precedence ----------

  /** The value of a text with `*` and `/` before `+` and `-`: a sum so far, a sign, and a product in the making. Zero
      divisors and the width of the numbers are treated as the evaluator does. */
  function Conventional(e: Expression): Outcome
    decreases e
  {
    match OperandConventional(e.first)
    case Undefined => Undefined
    case Value(v) => Sum(0, Plus, v, e.more)
  }

  function OperandConventional(x: Operand): Outcome
    decreases x
  {
    match x
    case Num(n) => Value(Wrap(TrailingNumber(n)))
    case Group(e) => Conventional(e)
  }

  function Added(sum: Int32, sign: Operator, product: Int32): Int32 {
    if sign == Minus then Wrap(sum - product) else Wrap(sum + product)
  }

  function Sum(sum: Int32, sign: Operator, product: Int32, ts: Terms): Outcome
    decreases ts
  {
    match ts
    case End => Value(Added(sum, sign, product))
    case Term(op, x, more) =>
      match OperandConventional(x)
      case Undefined => Undefined
      case Value(v) =>
        match op
        case Times => Sum(sum, sign, Wrap(product * v), more)
        case Over =>
          if v == 0 then Value(0)
          else if product == INT_MIN && v == -1 then Undefined
          else QuotientFits(product, v); Sum(sum, sign, Quotient(product, v), more)
        case _ => Sum(Added(sum, sign, product), op, v, more)
  }

  /** At every depth, no `*` or `/` stands behind a `+` or `-`. */
  predicate ProductsFirst(e: Expression)
    decreases e
  {
    OperandProductsFirst(e.first) && TermsProductsFirst(e.more, false)
  }

  predicate OperandProductsFirst(x: Operand)
    decreases x
  {
    x.Group? ==> ProductsFirst(x.e)
  }

  predicate TermsProductsFirst(ts: Terms, signed: bool)
    decreases ts
  {
    match ts
    case End => true
    case Term(op, x, more) =>
      && OperandProductsFirst(x)
      && (signed ==> op == Plus || op == Minus)
      && TermsProductsFirst(more, signed || op == Plus || op == Minus)
  }

  /** The evaluator agrees with the usual precedence on texts that put their products first. */
  lemma {:induction false} AgreesWithPrecedence(e: Expression)
    requires ProductsFirst(e)
    ensures Meaning(e) == Conventional(e)
    decreases e
  {
    OperandAgrees(e.first);
    if OperandMeaning(e.first).Value? {
      TermsAgree(e.more, 0, Plus, OperandMeaning(e.first).v, false);
    }
  }

  lemma {:induction false} OperandAgrees(x: Operand)
    requires OperandProductsFirst(x)
    ensures OperandMeaning(x) == OperandConventional(x)
    decreases x
  {
    if x.Group? { AgreesWithPrecedence(x.e); }
  }

  lemma {:induction false} TermsAgree(ts: Terms, sum: Int32, sign: Operator, product: Int32, signed: bool)
    requires TermsProductsFirst(ts, signed) && (!signed ==> sum == 0 && sign == Plus)
    ensures Result(Fold(Added(sum, sign, product), ts)) == Sum(sum, sign, product, ts)
    decreases ts
  {
    if ts.Term? {
      OperandAgrees(ts.operand);
      var o := OperandMeaning(ts.operand);
      if o.Value? {
        var v := o.v;
        FoldUnfolds(Added(sum, sign, product), ts);
        SumUnfolds(sum, sign, product, ts);
        hide Fold, Sum, Apply, Added, OperandMeaning, OperandConventional, OperandProductsFirst;
        if ts.op == Plus || ts.op == Minus {
          TermsAgree(ts.more, Added(sum, sign, product), ts.op, v, true);
        } else {
          FirstProduct(product);
          var e := Apply(Symbol(ts.op), product, v);
          if e.Next? {
            FirstProduct(e.v);
            TermsAgree(ts.more, sum, sign, e.v, signed);
          }
        }
      }
    }
  }

  lemma FoldUnfolds(acc: Int32, ts: Terms)
    requires ts.Term? && OperandMeaning(ts.operand).Value?
    ensures var v := OperandMeaning(ts.operand).v;
            var e := Apply(Symbol(ts.op), acc, v);
            && Fold(acc, ts) == (if e.Next? then Fold(e.v, ts.more)
                                 else if e.EndsWithZero? then Stopped(Value(0)) else Stopped(Undefined))
            && (ts.op == Plus || ts.op == Minus ==> e == Next(Added(acc, ts.op, v)))
  {
    hide Wrap, Quotient, OperandMeaning;
  }

  lemma SumUnfolds(sum: Int32, sign: Operator, product: Int32, ts: Terms)
    requires ts.Term? && OperandConventional(ts.operand).Value?
    ensures var v := OperandConventional(ts.operand).v;
            var e := Apply(Symbol(ts.op), product, v);
            Sum(sum, sign, product, ts)
            == if ts.op == Plus || ts.op == Minus then Sum(Added(sum, sign, product), ts.op, v, ts.more)
               else if e.Next? then Sum(sum, sign, e.v, ts.more)
               else if e.EndsWithZero? then Value(0) else Undefined
  {
    hide Wrap, Quotient, OperandConventional, Added;
  }

  lemma FirstProduct(product: Int32)
    ensures Added(0, Plus, product) == product
  {
  }

  /** 2 * 3 + 4 puts its product first; 1 + 2 * 3 does not, and comes out as 9. */
  lemma NoPrecedence()
    ensures var e := Expression(Num("1"), Term(Plus, Num("2"), Term(Times, Num("3"), End)));
            Meaning(e) == Value(9) && Conventional(e) == Value(7) && !ProductsFirst(e)
    ensures ProductsFirst(Expression(Num("2"), Term(Times, Num("3"), Term(Plus, Num("4"), End))))
  {
    assert TrailingNumber("1") == 1 && TrailingNumber("2") == 2 && TrailingNumber("3") == 3;
    assert Fold(3, Term(Times, Num("3"), End)) == Fold(9, End);
    assert Sum(1, Plus, 2, Term(Times, Num("3"), End)) == Sum(1, Plus, 6, End);
    ProductsExamples();
    hide TrailingNumber, Fold, Sum;
  }

  lemma ProductsExamples()
    ensures !ProductsFirst(Expression(Num("1"), Term(Plus, Num("2"), Term(Times, Num("3"), End))))
    ensures ProductsFirst(Expression(Num("2"), Term(Times, Num("3"), Term(Plus, Num("4"), End))))
  {
    assert !TermsProductsFirst(Term(Times, Num("3"), End), true);
    assert TermsProductsFirst(Term(Plus, Num("4"), End), false);
  }
}
