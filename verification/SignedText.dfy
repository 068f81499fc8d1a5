/** The evaluator on several signs in a row, and on signs where a number is expected. */
module SignedText {
  import opened Text
  import opened Words
  import opened AsmLexer
  import opened Evaluator

  // ---------- operators nobody applies ----------

  /** More room, and operators below on the stack, change no defined value. */
  lemma {:induction false} RoomEnough(t: string, acc: Int32, ops: string, cap: nat, below: string, cap': nat)
    requires Run(t, acc, ops, cap) != Undefined && cap' >= |below| + cap
    ensures Run(t, acc, below + ops, cap') == Run(t, acc, ops, cap)
    decreases |t|, 1
  {
    if t != "" && t[0] != NUL {
      var p := t[Spaces(t)..];
      if p[0] == '+' || p[0] == '-' {
        assert below + (ops + [p[0]]) == below + ops + [p[0]];
        RoomEnough(p[1..], acc, ops + [p[0]], cap, below, cap');
      } else if p[0] == '*' || p[0] == '/' {
        var q := p[1..][Spaces(p[1..])..];
        TakeMore(q, cap, cap');
        assert below + (ops + [p[0]]) == below + ops + [p[0]];
        if TakeOperand(q, cap).Taken? {
          FinishMore(TakeOperand(q, cap).value, TakeOperand(q, cap).rest, acc, ops + [p[0]], cap, below, cap', |t|);
        }
      } else if IsDigit(p[0]) || p[0] == '(' {
        TakeMore(p, cap, cap');
        if TakeOperand(p, cap).Taken? {
          FinishMore(TakeOperand(p, cap).value, TakeOperand(p, cap).rest, acc, ops, cap, below, cap', |t|);
        }
      } else {
        RoomEnough(p[1..], acc, ops, cap, below, cap');
      }
    }
  }

  lemma {:induction false} FinishMore(o: Outcome, rest: string, acc: Int32, ops: string, cap: nat, below: string, cap': nat,
                                      bound: nat)
    requires |rest| < bound && Finish(o, rest, acc, ops, cap, bound) != Undefined && cap' >= |below| + cap
    ensures Finish(o, rest, acc, below + ops, cap', bound) == Finish(o, rest, acc, ops, cap, bound)
    decreases bound, 0
  {
    var all := below + ops;
    assert all[|all| - 1] == ops[|ops| - 1] && all[..|all| - 1] == below + ops[..|ops| - 1];
    var e := Apply(ops[|ops| - 1], acc, o.v);
    if e.Next? {
      RoomEnough(rest, e.v, ops[..|ops| - 1], cap, below, cap');
    }
  }

  lemma {:induction false} TakeMore(q: string, cap: nat, cap': nat)
    requires cap' >= cap && (TakeOperand(q, cap).Taken? ==> TakeOperand(q, cap).value != Undefined)
    ensures TakeOperand(q, cap') == TakeOperand(q, cap)
    decreases |q|, 0
  {
    if q != "" && q[0] == '(' {
      var k := Closing(q[1..], 1);
      if k < |q[1..]| { EvalMore(q[1..][k := NUL], cap, cap'); }
    }
  }

  /** A larger operator stack gives the same values, as long as the smaller one gives one. */
  lemma {:induction false} EvalMore(t: string, cap: nat, cap': nat)
    requires cap' >= cap && EvalText(t, cap) != Undefined
    ensures EvalText(t, cap') == EvalText(t, cap)
    decreases |t|, 2
  {
    if t != "" && t[0] != NUL {
      RoomEnough(t, 0, "+", cap, "", cap');
      assert "" + "+" == "+";
    }
  }

  // ---------- several signs ----------

  predicate AllSigns(s: string) {
    s != "" && forall i :: 0 <= i < |s| ==> s[i] == '+' || s[i] == '-'
  }

  lemma {:induction false} SignsPushed(signs: string, t: string, acc: Int32, ops: string, cap: nat)
    requires AllSigns(signs) && |ops| + |signs| <= cap
    ensures Run(signs + t, acc, ops, cap) == Run(t, acc, ops + signs, cap)
    decreases |signs|
  {
    var p := signs + t;
    OneSign(p, acc, ops, cap);
    assert p[1..] == signs[1..] + t && ops + [signs[0]] + signs[1..] == ops + signs;
    if |signs| > 1 {
      SignsPushed(signs[1..], t, acc, ops + [signs[0]], cap);
    } else {
      assert p[1..] == t && [signs[0]] == signs;
    }
  }

  lemma OneSign(p: string, acc: Int32, ops: string, cap: nat)
    requires p != "" && (p[0] == '+' || p[0] == '-') && |ops| < cap
    ensures Run(p, acc, ops, cap) == Run(p[1..], acc, ops + [p[0]], cap)
  {
    assert Spaces(p) == 0 && p[0..] == p;
    hide Finish, TakeOperand;
  }

  /** Of several signs in a row only the last counts, as long as what follows needs no operator from further down: the
      others stay on the operator stack, where nobody applies them. */
  lemma LastSignCounts(signs: string, t: string, acc: Int32, ops: string, cap: nat)
    requires AllSigns(signs) && cap > 0
    requires Run([signs[|signs| - 1]] + t, acc, "", cap) != Undefined
    ensures Run(signs + t, acc, ops, |ops| + |signs| - 1 + cap) == Run([signs[|signs| - 1]] + t, acc, "", cap)
  {
    var n := |signs| - 1;
    var last := [signs[n]];
    SignsPushed(signs, t, acc, ops, |ops| + n + cap);
    SignsPushed(last, t, acc, "", cap);
    assert "" + last == last && ops + signs == ops + signs[..n] + last;
    hide Run;
    RoomEnough(t, acc, last, cap, ops + signs[..n], |ops| + n + cap);
  }

  /** A text that starts with signs has the value of the last one applied to 0 and what follows. */
  lemma SignsInFront(signs: string, t: string, cap: nat)
    requires AllSigns(signs) && cap > 0
    requires EvalText("0" + ([signs[|signs| - 1]] + t), cap) != Undefined
    ensures EvalText(signs + t, |signs| + cap) == EvalText("0" + ([signs[|signs| - 1]] + t), cap)
  {
    var rest := [signs[|signs| - 1]] + t;
    assert Digits("0", 0) == 0 by { assert "0"[1..] == ""; }
    NumeralRuns("0", '+', 0, rest, cap);
    ZeroFirst(rest, cap);
    hide Run;
    LastSignCounts(signs, t, 0, "+", cap);
  }

  lemma ZeroFirst(t: string, cap: nat)
    requires cap > 0
    ensures EvalText("0" + t, cap) == Run("0" + t, 0, "+", cap)
    ensures Meet(Value(Wrap(TrailingNumber("0"))), '+', 0, t, cap) == Run(t, 0, "", cap)
    ensures forall signs, u :: AllSigns(signs) ==> EvalText(signs + u, cap) == Run(signs + u, 0, "+", cap)
  {
    assert "0"[..0] == "" && TrailingNumber("0") == 0;
    hide Run;
    forall signs, u | AllSigns(signs) ensures EvalText(signs + u, cap) == Run(signs + u, 0, "+", cap) {
      assert (signs + u)[0] == signs[0];
    }
  }

  /** So "-5" is -5, and "+--5" too. */
  lemma Negative(cap: nat)
    requires cap > 2
    ensures EvalText("-5", cap) == Value(-5) && EvalText("+--5", cap + 1) == Value(-5)
  {
    ZeroMinusFive();
    assert AllSigns("-") && AllSigns("+--");
    hide *;
    SignsInFront("-", "5", 1);
    SignsInFront("+--", "5", 1);
    assert "-" + "5" == "-5" && "+--" + "5" == "+--5";
    EvalMore("-5", 2, cap);
    EvalMore("+--5", 4, cap + 1);
  }

  lemma ZeroMinusFive()
    ensures EvalText("0" + ("-" + "5"), 1) == Value(-5)
  {
    assert "5"[..0] == "" && TrailingNumber("5") == 5 && "0"[..0] == "" && TrailingNumber("0") == 0;
    var e := Expression(Num("0"), Term(Minus, Num("5"), End));
    EvalShows(e, 1);
    assert Show(e) == "0" + ("-" + "5");
    hide EvalText;
    assert Meaning(e) == Value(-5) by { assert Fold(0, Term(Minus, Num("5"), End)) == Fold(-5, End); }
  }

  // ---------- a sign where a number is expected ----------

  /** Behind `*` a sign is no part of the number: the product is taken with 0, and the sign begins a new term. Behind `/` it
      ends the evaluation with 0. */
  lemma SignBehindProduct(sign: char, t: string, acc: Int32, cap: nat)
    requires (sign == '+' || sign == '-') && cap > 0
    ensures Run("*" + ([sign] + t), acc, "", cap) == Run([sign] + t, 0, "", cap)
    ensures Run("/" + ([sign] + t), acc, "", cap) == Value(0)
  {
    var q := [sign] + t;
    SignTaken(sign, t, cap);
    hide *;
    NothingTaken('*', q, acc, cap);
    NothingTaken('/', q, acc, cap);
    MetNothing(acc, q, cap);
  }

  lemma NothingTaken(op: char, q: string, acc: Int32, cap: nat)
    requires (op == '*' || op == '/') && cap > 0 && q != "" && !IsSpace(q[0]) && TakeOperand(q, cap) == Taken(Value(0), q)
    ensures Run([op] + q, acc, "", cap) == Meet(Value(0), op, acc, q, cap)
  {
    hide *;
    ProductTaken(op, q, acc, cap);
    FinishIs(Value(0), op, acc, q, cap, |[op] + q|);
  }

  lemma MetNothing(acc: Int32, q: string, cap: nat)
    ensures Meet(Value(0), '*', acc, q, cap) == Run(q, 0, "", cap) && Meet(Value(0), '/', acc, q, cap) == Value(0)
  {
    hide Run;
  }

  lemma SignTaken(sign: char, t: string, cap: nat)
    requires (sign == '+' || sign == '-') && cap > 0
    ensures var q := [sign] + t; q != "" && !IsSpace(q[0]) && TakeOperand(q, cap) == Taken(Value(0), q)
  {
    var q := [sign] + t;
    assert Spaces(q) == 0 && q[0..] == q && DigitsOf(q) == 0 && q[..0] == "";
  }

  lemma ProductTaken(op: char, q: string, acc: Int32, cap: nat)
    requires (op == '*' || op == '/') && cap > 0 && q != "" && !IsSpace(q[0])
    ensures TakeOperand(q, cap).Taken? ==>
              Run([op] + q, acc, "", cap)
              == Finish(TakeOperand(q, cap).value, TakeOperand(q, cap).rest, acc, [op], cap, |[op] + q|)
  {
    var p := [op] + q;
    SpacesAre(p, 0);
    SpacesAre(q, 0);
    assert p[0..] == p && p[1..] == q && q[0..] == q && "" + [op] == [op];
    hide Finish, TakeOperand, Spaces;
  }
}
