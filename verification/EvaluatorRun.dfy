/** The evaluator at work in its buffer, where a terminator is put for a group and taken away again. */
module EvaluatorRun {
  import opened Text
  import opened Words
  import opened AsmLexer
  import opened Evaluator

  /** A text from a place of a buffer to the terminator it came with; others may be planted before that. */
  ghost predicate Terminated(buffer: string, at: nat, end: nat) {
    at <= end < |buffer| && buffer[end] == NUL
  }

  method SkipSpaces(a: array<char>, ghost buffer: string, at: nat, end: nat) returns (p: nat)
    requires a[..] == buffer && Terminated(buffer, at, end)
    ensures at <= p <= end && Terminated(buffer, p, end)
    ensures var s := buffer[at..end]; p == at + Spaces(s) && s[Spaces(s)..] == buffer[p..end]
  {
    p := at;
    while IsSpace(a[p])
      invariant at <= p <= end && forall i :: at <= i < p ==> IsSpace(buffer[i])
      decreases end - p
    {
      p := p + 1;
    }
    ghost var s := buffer[at..end];
    SpacesAre(s, p - at);
  }

  /** The digit loop. */
  method ReadNumber(a: array<char>, ghost buffer: string, at: nat, end: nat) returns (val: Int32, p: nat)
    requires a[..] == buffer && Terminated(buffer, at, end)
    ensures at <= p <= end
    ensures var s := buffer[at..end]; var n := DigitsOf(s);
            p == at + n && val == Digits(s[..n], 0) && s[n..] == buffer[p..end]
  {
    p, val := at, 0;
    ghost var digits := "";
    while IsDigit(a[p])
      invariant at <= p <= end && digits == buffer[at..p]
      invariant AllDigits(digits) && val == Digits(digits, 0)
      decreases end - p
    {
      DigitsJoin(digits, a[p], 0);
      digits := digits + [a[p]];
      val := Wrap(val * 10 + DigitValue(a[p]));
      p := p + 1;
    }
    hide Digits;
    NumberIs(buffer, at, end, p);
  }

  lemma NumberIs(buffer: string, at: nat, end: nat, p: nat)
    requires at <= p <= end < |buffer| && AllDigits(buffer[at..p]) && (p < end ==> !IsDigit(buffer[p]))
    ensures var s := buffer[at..end];
            DigitsOf(s) == p - at && s[..p - at] == buffer[at..p] && s[p - at..] == buffer[p..end]
  {
    var s := buffer[at..end];
    assert s[..p - at] == buffer[at..p];
    forall i | 0 <= i < p - at ensures In(Figures, s[i]) { assert s[i] == buffer[at..p][i]; }
    SpanIs(Figures, s, |s|, p - at);
  }

  /** The loop that looks for the parenthesis closing a group. */
  method FindClosing(a: array<char>, ghost buffer: string, start: nat, end: nat) returns (closed: bool, close: nat)
    requires a[..] == buffer && Terminated(buffer, start, end)
    ensures var s := buffer[start..end]; var k := Closing(s, 1);
            closed == (k < |s|) && (closed ==> close == start + k && start <= close < end)
  {
    hide Closing;
    var p, open := start, 1;
    ghost var k := Closing(buffer[start..end], 1);
    while a[p] != NUL && open > 0
      invariant start <= p <= end && open >= 0
      invariant open > 0 ==> k == p - start + Closing(buffer[p..end], open)
      invariant open == 0 ==> p > start && k == p - 1 - start
      decreases end - p
    {
      ClosingAt(buffer, p, end, open);
      if a[p] == '(' {
        open := open + 1;
      }
      if a[p] == ')' {
        open := open - 1;
      }
      p := p + 1;
    }
    if open > 0 {
      ClosingAt(buffer, p, end, open);
    }
    closed := open == 0;
    close := if closed then p - 1 else 0;
  }

  lemma ClosingAt(buffer: string, p: nat, end: nat, open: nat)
    requires open > 0 && Terminated(buffer, p, end)
    ensures p < end ==>
              Closing(buffer[p..end], open) ==
              if buffer[p] == NUL then end - p
              else if buffer[p] == '(' then 1 + Closing(buffer[p + 1..end], open + 1)
              else if buffer[p] == ')' then if open == 1 then 0 else 1 + Closing(buffer[p + 1..end], open - 1)
              else 1 + Closing(buffer[p + 1..end], open)
    ensures p == end ==> Closing(buffer[p..end], open) == 0
  {
    FirstOf(buffer, p, end);
  }

  /** A group evaluated where it stands. */
  method EvaluateGroup(a: array<char>, ghost buffer: string, start: nat, end: nat)
    returns (closed: bool, value: Outcome, close: nat)
    requires a[..] == buffer && Terminated(buffer, start, end)
    modifies a
    ensures a[..] == buffer
    ensures var s := buffer[start..end]; var k := Closing(s, 1);
            && closed == (k < |s|)
            && (closed ==> close == start + k && start <= close < end && value == EvalText(s[k := NUL], OPERATORS)
                           && s[k..] == buffer[close..end])
    decreases end - start, 4
  {
    value := Undefined;
    closed, close := FindClosing(a, buffer, start, end);
    if closed {
      hide EvalText, Closing;
      ghost var s := buffer[start..end];
      var kept := a[close];
      a[close] := NUL;
      ghost var cut := buffer[close := NUL];
      assert a[..] == cut && cut[start..end] == s[close - start := NUL];
      value := Eval(a, cut, start, end);
      a[close] := kept;
      assert a[..] == buffer && s[close - start..] == buffer[close..end];
    }
  }

  /** The operand behind an operator, or the one the text starts with; `ended` when a group is not closed. */
  method ReadOperand(a: array<char>, ghost buffer: string, at: nat, end: nat)
    returns (ended: bool, value: Outcome, p: nat)
    requires a[..] == buffer && Terminated(buffer, at, end)
    modifies a
    ensures a[..] == buffer
    ensures var taken := TakeOperand(buffer[at..end], OPERATORS);
            && ended == taken.Unclosed?
            && (!ended ==> at <= p <= end && value == taken.value && buffer[p..end] == taken.rest)
    decreases end - at, 0
  {
    ghost var q := buffer[at..end];
    if a[at] == '(' {
      assert q != "" && q[0] == '(' && q[1..] == buffer[at + 1..end];
      hide Closing, EvalText;
      var closed;
      closed, value, p := EvaluateGroup(a, buffer, at + 1, end);
      ended := !closed;
    } else {
      assert q == "" || q[0] != '(';
      hide DigitsOf, Digits;
      var number;
      number, p := ReadNumber(a, buffer, at, end);
      ended, value := false, Value(number);
    }
  }

  /** eval: the value, and the buffer as it was. The C code does not know `end`; a cursor that would pass it makes the
      evaluation undefined. */
  method Eval(a: array<char>, ghost buffer: string, at: nat, end: nat) returns (r: Outcome)
    requires a[..] == buffer && Terminated(buffer, at, end)
    modifies a
    ensures a[..] == buffer && r == EvalText(buffer[at..end], OPERATORS)
    decreases end - at, 3
  {
    if a[at] == NUL {
      return Value(0);
    }
    ghost var text := buffer[at..end];
    var p, acc, ops := at, 0, "+";
    hide TakeOperand, Finish, Spaces;
    while a[p] != NUL
      invariant a[..] == buffer && Terminated(buffer, p, end) && at <= p
      invariant Run(buffer[p..end], acc, ops, OPERATORS) == EvalText(text, OPERATORS)
      decreases end - p
    {
      var ended;
      ended, r, p, acc, ops := Turn(a, buffer, p, end, acc, ops);
      if ended {
        return;
      }
    }
    r := Value(acc);
  }

  /** One turn of the loop. */
  method Turn(a: array<char>, ghost buffer: string, at: nat, end: nat, acc: Int32, ops: string)
    returns (ended: bool, r: Outcome, p: nat, acc': Int32, ops': string)
    requires a[..] == buffer && Terminated(buffer, at, end) && at < end && buffer[at] != NUL
    modifies a
    ensures a[..] == buffer
    ensures ended ==> r == Run(buffer[at..end], acc, ops, OPERATORS)
    ensures !ended ==>
              at < p <= end && Run(buffer[p..end], acc', ops', OPERATORS) == Run(buffer[at..end], acc, ops, OPERATORS)
    decreases end - at, 2
  {
    hide Run, Goes, TakeOperand, Spaces;
    p := SkipSpaces(a, buffer, at, end);
    UnfoldedAt(buffer, at, p, end, acc, ops);
    var c := a[p];
    if p == end {
      ended, r, acc', ops' := true, Undefined, acc, ops;
    } else if c == '+' || c == '-' || c == '*' || c == '/' {
      if |ops| >= OPERATORS {
        return true, Undefined, p, acc, ops;
      }
      if c == '+' || c == '-' {
        return false, Undefined, p + 1, acc, ops + [c];
      }
      p := SkipSpaces(a, buffer, p + 1, end);
      ended, r, p, acc', ops' := Take(a, buffer, p, end, acc, ops + [c]);
    } else if IsDigit(c) || c == '(' {
      ended, r, p, acc', ops' := Take(a, buffer, p, end, acc, ops);
    } else {
      return false, Undefined, p + 1, acc, ops;
    }
  }

  lemma FirstOf(buffer: string, p: nat, end: nat)
    requires Terminated(buffer, p, end)
    ensures buffer[p..end] == "" <==> p == end
    ensures p < end ==> buffer[p..end][0] == buffer[p] && buffer[p..end][1..] == buffer[p + 1..end]
  {
  }

  /** An operand read and used. */
  method Take(a: array<char>, ghost buffer: string, at: nat, end: nat, acc: Int32, ops: string)
    returns (ended: bool, r: Outcome, p: nat, acc': Int32, ops': string)
    requires a[..] == buffer && Terminated(buffer, at, end)
    modifies a
    ensures a[..] == buffer
    ensures ended ==> r == Goes(TakeOperand(buffer[at..end], OPERATORS), acc, ops, OPERATORS)
    ensures !ended ==>
              && at <= p <= end && (IsDigit(buffer[at]) || buffer[at] == '(' ==> at < p)
              && Run(buffer[p..end], acc', ops', OPERATORS) == Goes(TakeOperand(buffer[at..end], OPERATORS), acc, ops, OPERATORS)
    decreases end - at, 1
  {
    hide Run, TakeOperand;
    var unclosed, operand;
    FirstOf(buffer, at, end);
    unclosed, operand, p := ReadOperand(a, buffer, at, end);
    if unclosed {
      return true, Value(0), p, acc, ops;
    }
    ended, r, acc', ops' := Settle(operand, acc, ops);
  }

  /** The switch on the operator popped. */
  method Settle(operand: Outcome, acc: Int32, ops: string)
    returns (ended: bool, r: Outcome, acc': Int32, ops': string)
    ensures ended == (operand.Undefined? || ops == "" || !Apply(ops[|ops| - 1], acc, operand.v).Next?)
    ensures ended ==> r == if operand.Undefined? || ops == "" then Undefined
                           else if Apply(ops[|ops| - 1], acc, operand.v).EndsWithZero? then Value(0) else Undefined
    ensures !ended ==> acc' == Apply(ops[|ops| - 1], acc, operand.v).v && ops' == ops[..|ops| - 1]
  {
    ended, r, acc', ops' := true, Undefined, acc, ops;
    if operand.Undefined? || ops == "" {
      return;
    }
    match Apply(ops[|ops| - 1], acc, operand.v) {
      case Next(v) => ended, acc', ops' := false, v, ops[..|ops| - 1];
      case EndsWithZero => r := Value(0);
      case NotDefined =>
    }
  }

  lemma Unfolded(t: string, p: string, acc: Int32, ops: string)
    requires t != "" && t[0] != NUL && p == t[Spaces(t)..]
    ensures var all := Run(t, acc, ops, OPERATORS);
            if p == "" then all == Undefined
            else if p[0] == '+' || p[0] == '-' then
              all == if |ops| >= OPERATORS then Undefined else Run(p[1..], acc, ops + [p[0]], OPERATORS)
            else if p[0] == '*' || p[0] == '/' then
              all == if |ops| >= OPERATORS then Undefined
                     else Goes(TakeOperand(p[1..][Spaces(p[1..])..], OPERATORS), acc, ops + [p[0]], OPERATORS)
            else if IsDigit(p[0]) || p[0] == '(' then
              all == Goes(TakeOperand(p, OPERATORS), acc, ops, OPERATORS)
            else all == Run(p[1..], acc, ops, OPERATORS)
  {
    hide TakeOperand, Spaces, Apply;
  }

  lemma UnfoldedAt(buffer: string, at: nat, p: nat, end: nat, acc: Int32, ops: string)
    requires Terminated(buffer, at, end) && at < end && buffer[at] != NUL && Terminated(buffer, p, end) && at <= p
    requires buffer[p..end] == buffer[at..end][Spaces(buffer[at..end])..]
    ensures var all, c, next, full := Run(buffer[at..end], acc, ops, OPERATORS), buffer[p], p + 1, |ops| >= OPERATORS;
            && (p == end ==> c == NUL && all == Undefined)
            && (p < end ==> next <= end)
            && (c == '+' || c == '-' ==>
                  all == if full then Undefined else Run(buffer[next..end], acc, ops + [c], OPERATORS))
            && (c == '*' || c == '/' ==>
                  var q := buffer[next..end];
                  all == if full then Undefined
                         else Goes(TakeOperand(q[Spaces(q)..], OPERATORS), acc, ops + [c], OPERATORS))
            && (IsDigit(c) || c == '(' ==> all == Goes(TakeOperand(buffer[p..end], OPERATORS), acc, ops, OPERATORS))
            && (p < end && c !in "+-*/(" && !IsDigit(c) ==> all == Run(buffer[next..end], acc, ops, OPERATORS))
  {
    FirstOf(buffer, p, end);
    FirstOf(buffer, at, end);
    hide Run, Goes, TakeOperand, Spaces;
    Unfolded(buffer[at..end], buffer[p..end], acc, ops);
  }
}
