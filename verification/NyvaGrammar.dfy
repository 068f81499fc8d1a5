/** The language the Nyva parser accepts: which token lists are expressions, statements and programs. */
module NyvaGrammar {
  import opened Common
  import opened Nyva
  import opened NyvaParser

  // ---------- written expressions ----------

  /** An expression as it is written, with the parentheses it is written with. */
  datatype Written =
    | Number(text: string) | Literal(text: string) | Name(name: string)
    | Call(name: string, args: seq<Written>)
    | Paren(inner: Written)
    | Op(sign: Kind, left: Written, right: Written)

  datatype Level = Factor | Term | Sum

  /** What the grammar lets stand where: products of factors, sums of products, both to the left. */
  predicate Fits(w: Written, level: Level)
    decreases w, level
  {
    match w
    case Call(_, args) => forall i :: 0 <= i < |args| ==> Fits(args[i], Sum)
    case Paren(inner) => Fits(inner, Sum)
    case Op(sign, l, r) =>
      || (level != Factor && IsTermSign(sign) && Fits(l, Term) && Fits(r, Factor))
      || (level == Sum && IsSumSign(sign) && Fits(l, Sum) && Fits(r, Term))
    case _ => true
  }

  predicate AllFit(ws: seq<Written>) {
    forall i :: 0 <= i < |ws| ==> Fits(ws[i], Sum)
  }

  function Sign(k: Kind): seq<Token> {
    [Token(k, "")]
  }

  function Word(k: Kind, s: string): seq<Token> {
    [Token(k, s)]
  }

  function Spell(w: Written): (ts: seq<Token>)
    ensures ts != []
    decreases w, 1
  {
    match w
    case Number(s) => Word(Kind.Number, s)
    case Literal(s) => Word(Kind.Literal, s)
    case Name(x) => Word(Identifier, x)
    case Call(f, args) => Word(Identifier, f) + (Sign(LParen) + (SpellAll(args) + Sign(RParen)))
    case Paren(inner) => Sign(LParen) + (Spell(inner) + Sign(RParen))
    case Op(k, l, r) => Spell(l) + (Sign(k) + Spell(r))
  }

  function SpellAll(ws: seq<Written>): seq<Token>
    decreases ws, 0
  {
    if ws == [] then [] else SpellAll(ws[..|ws| - 1]) + ((if |ws| > 1 then Sign(Comma) else []) + Spell(ws[|ws| - 1]))
  }

  /** The tree of an expression: without its parentheses. */
  function Tree(w: Written): Expr
    requires Fits(w, Sum)
  {
    match w
    case Number(s) => Num(Atoi(s))
    case Literal(s) => Expr.Text(s)
    case Name(x) => Expr.Name(x)
    case Call(f, args) => Apply(f, Trees(args))
    case Paren(inner) => Tree(inner)
    case Op(k, l, r) => assert Fits(l, Sum) && Fits(r, Sum) by { Looser(l); Looser(r); } Bin(OpOf(k), Tree(l), Tree(r))
  }

  function Trees(ws: seq<Written>): (es: seq<Expr>)
    requires AllFit(ws)
    ensures |es| == |ws|
  {
    if ws == [] then [] else Trees(ws[..|ws| - 1]) + [Tree(ws[|ws| - 1])]
  }

  lemma Looser(w: Written)
    ensures Fits(w, Factor) ==> Fits(w, Term)
    ensures Fits(w, Term) ==> Fits(w, Sum)
  {
  }

  // ---------- tokens in a list ----------

  /** The same token: signs and words of the language carry no value. */
  predicate Same(t: Token, u: Token) {
    t.kind == u.kind && (t.kind.Number? || t.kind.Literal? || t.kind.Identifier? ==> t.value == u.value)
  }

  predicate Stands(ts: seq<Token>, pos: nat, piece: seq<Token>) {
    pos + |piece| <= |ts| && forall i :: 0 <= i < |piece| ==> Same(ts[pos + i], piece[i])
  }

  lemma Joins(ts: seq<Token>, pos: nat, a: seq<Token>, b: seq<Token>)
    ensures Stands(ts, pos, a + b) <==> Stands(ts, pos, a) && Stands(ts, pos + |a|, b)
  {
    if Stands(ts, pos, a + b) {
      forall i | 0 <= i < |a| ensures Same(ts[pos + i], a[i]) { assert (a + b)[i] == a[i]; }
      forall i | 0 <= i < |b| ensures Same(ts[pos + |a| + i], b[i]) { assert (a + b)[|a| + i] == b[i]; }
    }
    if Stands(ts, pos, a) && Stands(ts, pos + |a|, b) {
      forall i | 0 <= i < |a + b| ensures Same(ts[pos + i], (a + b)[i]) {
        if i >= |a| { assert Same(ts[pos + |a| + (i - |a|)], b[i - |a|]); }
      }
    }
  }

  lemma One(ts: seq<Token>, pos: nat, t: Token)
    ensures Stands(ts, pos, [t]) <==> pos < |ts| && Same(ts[pos], t)
  {
    if Stands(ts, pos, [t]) { assert Same(ts[pos + 0], [t][0]); }
  }

  /** What a parse of an expression must have found. */
  ghost predicate Found(ts: seq<Token>, pos: nat, w: Written, level: Level, r: Parse<Expr>) {
    && Fits(w, level) && Fits(w, Sum) && Stands(ts, pos, Spell(w))
    && r == Parsed(Tree(w), pos + |Spell(w)|)
  }

  // ---------- what is accepted is written by the grammar ----------

  lemma {:induction false} FactorFound(ts: seq<Token>, pos: nat) returns (w: Written)
    requires Ended(ts) && pos < |ts| && ParseFactor(ts, pos).Parsed?
    ensures Found(ts, pos, w, Factor, ParseFactor(ts, pos))
    decreases |ts| - pos, 0
  {
    var t := ts[pos];
    if t.kind.Identifier? && ts[pos + 1].kind.LParen? {
      hide Stands, Spell, SpellAll, Trees, Tree, Fits, ParseArguments;
      var args := ArgumentsFound(ts, pos + 2);
      w := Call(t.value, args);
      CallStands(ts, pos, t.value, args);
      CallTree(t.value, args);
    } else if t.kind.LParen? {
      hide Stands, Spell, Tree, Fits, ParseExpression;
      var inner := ExpressionFound(ts, pos + 1);
      w := Paren(inner);
      Between(ts, pos, LParen, Spell(inner), RParen);
      ParenTree(inner);
    } else {
      w := if t.kind.Number? then Written.Number(t.value) else if t.kind.Literal? then Written.Literal(t.value)
           else Written.Name(t.value);
    }
  }

  lemma CallTree(name: string, args: seq<Written>)
    requires AllFit(args)
    ensures var w := Call(name, args);
            Fits(w, Factor) && Fits(w, Sum) && Tree(w) == Apply(name, Trees(args)) && |Spell(w)| == |SpellAll(args)| + 3
  {
    hide SpellAll, Trees;
  }

  lemma ParenTree(inner: Written)
    requires Fits(inner, Sum)
    ensures var w := Paren(inner);
            && Fits(w, Factor) && Fits(w, Sum) && Tree(w) == Tree(inner) && |Spell(w)| == |Spell(inner)| + 2
            && Spell(w) == Sign(LParen) + (Spell(inner) + Sign(RParen))
  {
  }

  /** A piece between two signs. */
  lemma Between(ts: seq<Token>, pos: nat, open: Kind, piece: seq<Token>, close: Kind)
    requires pos + 1 + |piece| < |ts| && Stands(ts, pos + 1, piece)
    requires Valueless(open) && Valueless(close) && ts[pos].kind == open && ts[pos + 1 + |piece|].kind == close
    ensures Stands(ts, pos, Sign(open) + (piece + Sign(close)))
  {
    One(ts, pos, Token(open, ""));
    One(ts, pos + 1 + |piece|, Token(close, ""));
    hide Stands;
    Joins(ts, pos + 1, piece, Sign(close));
    Joins(ts, pos, Sign(open), piece + Sign(close));
  }

  predicate Valueless(k: Kind) {
    !k.Number? && !k.Literal? && !k.Identifier?
  }

  lemma CallStands(ts: seq<Token>, pos: nat, name: string, args: seq<Written>)
    requires pos + 2 + |SpellAll(args)| < |ts| && Stands(ts, pos + 2, SpellAll(args))
    requires ts[pos].kind.Identifier? && ts[pos].value == name && ts[pos + 1].kind.LParen?
    requires ts[pos + 2 + |SpellAll(args)|].kind.RParen?
    ensures Stands(ts, pos, Spell(Call(name, args)))
  {
    One(ts, pos, Token(Identifier, name));
    Between(ts, pos + 1, LParen, SpellAll(args), RParen);
    hide Stands;
    Joins(ts, pos, Word(Identifier, name), Sign(LParen) + (SpellAll(args) + Sign(RParen)));
  }

  lemma {:induction false} TermFound(ts: seq<Token>, pos: nat) returns (w: Written)
    requires Ended(ts) && pos < |ts| && ParseTerm(ts, pos).Parsed?
    ensures Found(ts, pos, w, Term, ParseTerm(ts, pos))
    decreases |ts| - pos, 1
  {
    var first := FactorFound(ts, pos);
    Looser(first);
    hide ParseFactor, Stands;
    w := TermRestFound(ts, first, pos, pos + |Spell(first)|);
  }

  lemma {:induction false} TermRestFound(ts: seq<Token>, left: Written, from: nat, pos: nat) returns (w: Written)
    requires Ended(ts) && pos < |ts| && from < pos == from + |Spell(left)| && Stands(ts, from, Spell(left))
    requires Fits(left, Term) && Fits(left, Sum) && TermRest(ts, Tree(left), pos).Parsed?
    ensures Found(ts, from, w, Term, TermRest(ts, Tree(left), pos))
    decreases |ts| - pos, 1
  {
    var k := ts[pos].kind;
    if !IsTermSign(k) {
      w := left;
    } else {
      var right := FactorFound(ts, pos + 1);
      var both := Op(k, left, right);
      Looser(both);
      hide ParseFactor, Stands;
      OpStands(ts, from, left, k, right);
      w := TermRestFound(ts, both, from, pos + 1 + |Spell(right)|);
    }
  }

  lemma OpStands(ts: seq<Token>, from: nat, left: Written, k: Kind, right: Written)
    requires Valueless(k) && Stands(ts, from, Spell(left)) && from + |Spell(left)| < |ts|
    requires ts[from + |Spell(left)|].kind == k && Stands(ts, from + |Spell(left)| + 1, Spell(right))
    ensures Stands(ts, from, Spell(Op(k, left, right))) && |Spell(Op(k, left, right))| == |Spell(left)| + 1 + |Spell(right)|
  {
    One(ts, from + |Spell(left)|, Token(k, ""));
    hide Stands, Spell;
    Joins(ts, from + |Spell(left)|, Sign(k), Spell(right));
    Joins(ts, from, Spell(left), Sign(k) + Spell(right));
    OpSpelt(k, left, right);
  }

  lemma OpSpelt(k: Kind, left: Written, right: Written)
    ensures Spell(Op(k, left, right)) == Spell(left) + (Sign(k) + Spell(right))
    ensures |Spell(Op(k, left, right))| == |Spell(left)| + 1 + |Spell(right)|
  {
  }

  lemma {:induction false} ExpressionFound(ts: seq<Token>, pos: nat) returns (w: Written)
    requires Ended(ts) && pos < |ts| && ParseExpression(ts, pos).Parsed?
    ensures Found(ts, pos, w, Sum, ParseExpression(ts, pos))
    decreases |ts| - pos, 2
  {
    var first := TermFound(ts, pos);
    hide ParseTerm, Stands;
    w := SumRestFound(ts, first, pos, pos + |Spell(first)|);
  }

  lemma {:induction false} SumRestFound(ts: seq<Token>, left: Written, from: nat, pos: nat) returns (w: Written)
    requires Ended(ts) && pos < |ts| && from < pos == from + |Spell(left)| && Stands(ts, from, Spell(left))
    requires Fits(left, Sum) && SumRest(ts, Tree(left), pos).Parsed?
    ensures Found(ts, from, w, Sum, SumRest(ts, Tree(left), pos))
    decreases |ts| - pos, 2
  {
    var k := ts[pos].kind;
    if !IsSumSign(k) {
      w := left;
    } else {
      var right := TermFound(ts, pos + 1);
      var both := Op(k, left, right);
      hide ParseTerm, Stands;
      OpStands(ts, from, left, k, right);
      w := SumRestFound(ts, both, from, pos + 1 + |Spell(right)|);
    }
  }

  lemma {:induction false} ArgumentsFound(ts: seq<Token>, pos: nat) returns (ws: seq<Written>)
    requires Ended(ts) && pos < |ts| && ParseArguments(ts, pos).Parsed?
    ensures AllFit(ws) && Stands(ts, pos, SpellAll(ws))
    ensures ParseArguments(ts, pos) == Parsed(Trees(ws), pos + |SpellAll(ws)|)
    decreases |ts| - pos, 4
  {
    if ts[pos].kind.RParen? {
      ws := [];
    } else {
      var first := ExpressionFound(ts, pos);
      ws := [first];
      assert ws[..0] == [] && SpellAll(ws) == [] + ([] + Spell(first)) == Spell(first) && Trees(ws) == [Tree(first)];
      hide ParseExpression, Stands;
      ws := ArgumentsRestFound(ts, ws, pos, pos + |Spell(first)|);
    }
  }

  lemma {:induction false} ArgumentsRestFound(ts: seq<Token>, sofar: seq<Written>, from: nat, pos: nat)
    returns (ws: seq<Written>)
    requires Ended(ts) && pos < |ts| && from < pos == from + |SpellAll(sofar)| && Stands(ts, from, SpellAll(sofar))
    requires sofar != [] && AllFit(sofar) && ArgumentsRest(ts, Trees(sofar), pos).Parsed?
    ensures AllFit(ws) && Stands(ts, from, SpellAll(ws))
    ensures ArgumentsRest(ts, Trees(sofar), pos) == Parsed(Trees(ws), from + |SpellAll(ws)|)
    decreases |ts| - pos, 3
  {
    if !ts[pos].kind.Comma? {
      ws := sofar;
    } else {
      var next := ExpressionFound(ts, pos + 1);
      var more := sofar + [next];
      OneMore(sofar, next);
      One(ts, pos, Token(Comma, ""));
      hide ParseExpression, Stands, Spell, SpellAll, Tree, Trees;
      Joins(ts, pos, Sign(Comma), Spell(next));
      Joins(ts, from, SpellAll(sofar), Sign(Comma) + Spell(next));
      ws := ArgumentsRestFound(ts, more, from, pos + 1 + |Spell(next)|);
    }
  }

  lemma OneMore(ws: seq<Written>, w: Written)
    requires ws != [] && AllFit(ws) && Fits(w, Sum)
    ensures AllFit(ws + [w]) && Trees(ws + [w]) == Trees(ws) + [Tree(w)]
    ensures SpellAll(ws + [w]) == SpellAll(ws) + (Sign(Comma) + Spell(w))
  {
    assert (ws + [w])[..|ws|] == ws;
  }

  // ---------- what is written by the grammar is accepted ----------

  // One step of each function, told by what it meets.

  lemma FactorLeaf(ts: seq<Token>, pos: nat, w: Written)
    requires Ended(ts) && pos + 1 < |ts| && Fits(w, Sum) && (w.Number? || w.Literal? || w.Name?)
    requires Stands(ts, pos, Spell(w)) && !ts[pos + 1].kind.LParen?
    ensures |Spell(w)| == 1 && ParseFactor(ts, pos) == Parsed(Tree(w), pos + 1)
  {
    assert Same(ts[pos + 0], Spell(w)[0]);
  }

  lemma FactorCall(ts: seq<Token>, pos: nat, args: seq<Expr>, end: nat)
    requires Ended(ts) && pos + 2 < |ts| && pos + 2 <= end < |ts| - 1
    requires ts[pos].kind.Identifier? && ts[pos + 1].kind.LParen? && ts[end].kind.RParen?
    requires ParseArguments(ts, pos + 2) == Parsed(args, end)
    ensures ParseFactor(ts, pos) == Parsed(Apply(ts[pos].value, args), end + 1)
  {
    hide ParseArguments;
  }

  lemma FactorParen(ts: seq<Token>, pos: nat, e: Expr, end: nat)
    requires Ended(ts) && pos + 1 < |ts| && pos + 1 < end < |ts| - 1 && ts[pos].kind.LParen? && ts[end].kind.RParen?
    requires ParseExpression(ts, pos + 1) == Parsed(e, end)
    ensures ParseFactor(ts, pos) == Parsed(e, end + 1)
  {
    hide ParseExpression;
  }

  lemma TermStarts(ts: seq<Token>, pos: nat, e: Expr, end: nat)
    requires Ended(ts) && pos < end < |ts| && ParseFactor(ts, pos) == Parsed(e, end)
    ensures ParseTerm(ts, pos) == TermRest(ts, e, end)
  {
    hide ParseFactor;
  }

  lemma TermStep(ts: seq<Token>, left: Expr, pos: nat, right: Expr, end: nat)
    requires Ended(ts) && pos + 1 < end < |ts| && IsTermSign(ts[pos].kind) && ParseFactor(ts, pos + 1) == Parsed(right, end)
    ensures TermRest(ts, left, pos) == TermRest(ts, Bin(OpOf(ts[pos].kind), left, right), end)
  {
    hide ParseFactor;
  }

  lemma TermEnds(ts: seq<Token>, left: Expr, pos: nat)
    requires Ended(ts) && pos < |ts| && !IsTermSign(ts[pos].kind)
    ensures TermRest(ts, left, pos) == Parsed(left, pos)
  {
  }

  lemma SumStarts(ts: seq<Token>, pos: nat, e: Expr, end: nat)
    requires Ended(ts) && pos < end < |ts| && ParseTerm(ts, pos) == Parsed(e, end)
    ensures ParseExpression(ts, pos) == SumRest(ts, e, end)
  {
    hide ParseTerm;
  }

  lemma SumStep(ts: seq<Token>, left: Expr, pos: nat, right: Expr, end: nat)
    requires Ended(ts) && pos + 1 < end < |ts| && IsSumSign(ts[pos].kind) && ParseTerm(ts, pos + 1) == Parsed(right, end)
    ensures SumRest(ts, left, pos) == SumRest(ts, Bin(OpOf(ts[pos].kind), left, right), end)
  {
    hide ParseTerm;
  }

  lemma SumEnds(ts: seq<Token>, left: Expr, pos: nat)
    requires Ended(ts) && pos < |ts| && !IsSumSign(ts[pos].kind)
    ensures SumRest(ts, left, pos) == Parsed(left, pos)
  {
  }

  lemma ArgumentsFirst(ts: seq<Token>, pos: nat, e: Expr, end: nat)
    requires Ended(ts) && pos < end < |ts| && !ts[pos].kind.RParen? && ParseExpression(ts, pos) == Parsed(e, end)
    ensures ParseArguments(ts, pos) == ArgumentsRest(ts, [e], end)
  {
    hide ParseExpression;
  }

  lemma ArgumentsStep(ts: seq<Token>, sofar: seq<Expr>, pos: nat, e: Expr, end: nat)
    requires Ended(ts) && pos + 1 < end < |ts| && ts[pos].kind.Comma? && ParseExpression(ts, pos + 1) == Parsed(e, end)
    ensures ArgumentsRest(ts, sofar, pos) == ArgumentsRest(ts, sofar + [e], end)
  {
    hide ParseExpression;
  }

  lemma ArgumentsEnd(ts: seq<Token>, sofar: seq<Expr>, pos: nat)
    requires Ended(ts) && pos < |ts| && ts[pos].kind.RParen?
    ensures ParseArguments(ts, pos) == Parsed([], pos) && ArgumentsRest(ts, sofar, pos) == Parsed(sofar, pos)
  {
  }

  /** No sign of an expression. */
  predicate Stops(k: Kind) {
    !k.LParen? && !IsTermSign(k) && !IsSumSign(k)
  }

  lemma StopsAt(k: Kind)
    ensures k.RParen? || k.Comma? || k.Semicolon? || IsComparison(k) ==> Stops(k)
    ensures Stops(k) ==> !k.LParen? && !IsTermSign(k) && !IsSumSign(k)
    ensures IsTermSign(k) ==> !k.LParen? && Valueless(k)
    ensures IsSumSign(k) ==> !k.LParen? && !IsTermSign(k) && Valueless(k)
  {
  }

  lemma OpTree(w: Written)
    requires w.Op? && Fits(w, Sum)
    ensures Fits(w.left, Sum) && Fits(w.right, Sum) && (IsTermSign(w.sign) || IsSumSign(w.sign))
    ensures Tree(w) == Bin(OpOf(w.sign), Tree(w.left), Tree(w.right))
    ensures Fits(w, Term) ==> IsTermSign(w.sign) && Fits(w.left, Term) && Fits(w.right, Factor)
    ensures !Fits(w, Term) ==> IsSumSign(w.sign) && Fits(w.right, Term)
    ensures !Fits(w, Factor)
  {
    Looser(w.left);
    Looser(w.right);
  }

  lemma NotFactor(w: Written)
    requires Fits(w, Sum)
    ensures w.Op? || Fits(w, Factor)
    ensures Fits(w, Factor) ==> Fits(w, Term)
    ensures w.Paren? ==> Fits(w.inner, Sum) && Tree(w) == Tree(w.inner) && |Spell(w)| == |Spell(w.inner)| + 2
                         && Spell(w) == Sign(LParen) + (Spell(w.inner) + Sign(RParen))
    ensures w.Call? ==> AllFit(w.args) && Tree(w) == Apply(w.name, Trees(w.args)) && |Spell(w)| == |SpellAll(w.args)| + 3
    ensures !w.Paren? && !w.Call? && !w.Op? ==> |Spell(w)| == 1
  {
  }

  /** What a parse of a written expression goes on with: the loop behind it, its tree in hand. */
  lemma {:induction false} FactorRuns(ts: seq<Token>, pos: nat, w: Written)
    requires Ended(ts) && Fits(w, Factor) && Fits(w, Sum) && Stands(ts, pos, Spell(w))
    requires pos + |Spell(w)| < |ts| && !ts[pos + |Spell(w)|].kind.LParen?
    ensures ParseFactor(ts, pos) == Parsed(Tree(w), pos + |Spell(w)|)
    decreases w, 0
  {
    hide *;
    NotFactor(w);
    match w
    case Call(f, args) =>
      CallSplits(ts, pos, f, args);
      ArgumentsRun(ts, pos + 2, args);
      FactorCall(ts, pos, Trees(args), pos + 2 + |SpellAll(args)|);
    case Paren(inner) =>
      BetweenSplits(ts, pos, LParen, Spell(inner), RParen);
      StopsAt(RParen);
      SumRuns(ts, pos + 1, inner);
      FactorParen(ts, pos, Tree(inner), pos + 1 + |Spell(inner)|);
    case Op(_, _, _) => OpTree(w);
    case _ => FactorLeaf(ts, pos, w);
  }

  lemma BetweenSplits(ts: seq<Token>, pos: nat, open: Kind, piece: seq<Token>, close: Kind)
    requires Stands(ts, pos, Sign(open) + (piece + Sign(close)))
    ensures pos + 1 + |piece| < |ts| && ts[pos].kind == open && ts[pos + 1 + |piece|].kind == close
    ensures Stands(ts, pos + 1, piece)
  {
    hide Stands;
    Joins(ts, pos, Sign(open), piece + Sign(close));
    Joins(ts, pos + 1, piece, Sign(close));
    One(ts, pos, Token(open, ""));
    One(ts, pos + 1 + |piece|, Token(close, ""));
  }

  lemma CallSplits(ts: seq<Token>, pos: nat, name: string, args: seq<Written>)
    requires Stands(ts, pos, Spell(Call(name, args)))
    ensures pos + 2 + |SpellAll(args)| < |ts| && Stands(ts, pos + 2, SpellAll(args))
    ensures ts[pos].kind.Identifier? && ts[pos].value == name && ts[pos + 1].kind.LParen?
    ensures ts[pos + 2 + |SpellAll(args)|].kind.RParen?
  {
    hide Stands;
    Joins(ts, pos, Word(Identifier, name), Sign(LParen) + (SpellAll(args) + Sign(RParen)));
    One(ts, pos, Token(Identifier, name));
    BetweenSplits(ts, pos + 1, LParen, SpellAll(args), RParen);
  }

  lemma OpSplits(ts: seq<Token>, from: nat, left: Written, k: Kind, right: Written)
    requires Stands(ts, from, Spell(Op(k, left, right)))
    ensures Stands(ts, from, Spell(left)) && from + |Spell(left)| < |ts| && ts[from + |Spell(left)|].kind == k
    ensures Stands(ts, from + |Spell(left)| + 1, Spell(right))
    ensures |Spell(Op(k, left, right))| == |Spell(left)| + 1 + |Spell(right)|
  {
    hide Stands;
    Joins(ts, from, Spell(left), Sign(k) + Spell(right));
    Joins(ts, from + |Spell(left)|, Sign(k), Spell(right));
    One(ts, from + |Spell(left)|, Token(k, ""));
  }

  lemma {:induction false} TermRuns(ts: seq<Token>, pos: nat, w: Written)
    requires Ended(ts) && Fits(w, Term) && Fits(w, Sum) && Stands(ts, pos, Spell(w))
    requires pos + |Spell(w)| < |ts| && !ts[pos + |Spell(w)|].kind.LParen?
    ensures ParseTerm(ts, pos) == TermRest(ts, Tree(w), pos + |Spell(w)|)
    decreases w, 1
  {
    hide *;
    NotFactor(w);
    if Fits(w, Factor) {
      FactorRuns(ts, pos, w);
      TermStarts(ts, pos, Tree(w), pos + |Spell(w)|);
    } else {
      var l, k, r := w.left, w.sign, w.right;
      OpTree(w);
      OpSplits(ts, pos, l, k, r);
      StopsAt(k);
      TermRuns(ts, pos, l);
      FactorRuns(ts, pos + |Spell(l)| + 1, r);
      TermStep(ts, Tree(l), pos + |Spell(l)|, Tree(r), pos + |Spell(w)|);
    }
  }

  lemma {:induction false} SumRuns(ts: seq<Token>, pos: nat, w: Written)
    requires Ended(ts) && Fits(w, Sum) && Stands(ts, pos, Spell(w))
    requires pos + |Spell(w)| < |ts| && !ts[pos + |Spell(w)|].kind.LParen? && !IsTermSign(ts[pos + |Spell(w)|].kind)
    ensures ParseExpression(ts, pos) == SumRest(ts, Tree(w), pos + |Spell(w)|)
    ensures !IsSumSign(ts[pos + |Spell(w)|].kind) ==> ParseExpression(ts, pos) == Parsed(Tree(w), pos + |Spell(w)|)
    decreases w, 2
  {
    hide *;
    var end := pos + |Spell(w)|;
    NotFactor(w);
    if Fits(w, Term) {
      TermRuns(ts, pos, w);
      TermEnds(ts, Tree(w), end);
      SumStarts(ts, pos, Tree(w), end);
    } else {
      var l, k, r := w.left, w.sign, w.right;
      OpTree(w);
      OpSplits(ts, pos, l, k, r);
      StopsAt(k);
      SumRuns(ts, pos, l);
      TermRuns(ts, pos + |Spell(l)| + 1, r);
      TermEnds(ts, Tree(r), end);
      SumStep(ts, Tree(l), pos + |Spell(l)|, Tree(r), end);
    }
    if !IsSumSign(ts[end].kind) { SumEnds(ts, Tree(w), end); }
  }

  lemma {:induction false} ArgumentsRun(ts: seq<Token>, pos: nat, ws: seq<Written>)
    requires Ended(ts) && AllFit(ws) && Stands(ts, pos, SpellAll(ws)) && pos + |SpellAll(ws)| < |ts|
    requires ts[pos + |SpellAll(ws)|].kind.RParen?
    ensures ParseArguments(ts, pos) == Parsed(Trees(ws), pos + |SpellAll(ws)|)
    decreases ws, 5
  {
    NoneSpelt();
    hide *;
    ArgumentsEnd(ts, Trees(ws), pos + |SpellAll(ws)|);
    if ws != [] { ArgumentsReach(ts, pos, ws); }
  }

  lemma NoneSpelt()
    ensures SpellAll([]) == [] && Trees([]) == []
  {
  }

  lemma {:induction false} ArgumentsReach(ts: seq<Token>, pos: nat, ws: seq<Written>)
    requires Ended(ts) && AllFit(ws) && ws != [] && Stands(ts, pos, SpellAll(ws)) && pos + |SpellAll(ws)| < |ts|
    requires ts[pos + |SpellAll(ws)|].kind.RParen? || ts[pos + |SpellAll(ws)|].kind.Comma?
    ensures ParseArguments(ts, pos) == ArgumentsRest(ts, Trees(ws), pos + |SpellAll(ws)|)
    decreases ws, 4
  {
    hide *;
    var n := |ws| - 1;
    var w, end := ws[n], pos + |SpellAll(ws)|;
    LastSpelt(ws);
    StopsAt(ts[end].kind);
    if n == 0 {
      FirstStands(ts, pos, w);
      SumRuns(ts, pos, w);
      ArgumentsFirst(ts, pos, Tree(w), end);
    } else {
      CommaSplits(ts, pos, SpellAll(ws[..n]), Spell(w));
      var mid := pos + |SpellAll(ws[..n])|;
      ArgumentsReach(ts, pos, ws[..n]);
      SumRuns(ts, mid + 1, w);
      ArgumentsStep(ts, Trees(ws[..n]), mid, Tree(w), end);
    }
  }

  lemma LastSpelt(ws: seq<Written>)
    requires AllFit(ws) && ws != []
    ensures var n := |ws| - 1;
            && AllFit(ws[..n]) && Fits(ws[n], Sum)
            && (n == 0 ==> SpellAll(ws) == Spell(ws[0]) && Trees(ws) == [Tree(ws[0])])
            && (n > 0 ==> SpellAll(ws) == SpellAll(ws[..n]) + (Sign(Comma) + Spell(ws[n]))
                          && |SpellAll(ws)| == |SpellAll(ws[..n])| + 1 + |Spell(ws[n])|
                          && Trees(ws) == Trees(ws[..n]) + [Tree(ws[n])])
  {
    var n := |ws| - 1;
    if n == 0 { assert ws[..0] == []; }
  }

  lemma CommaSplits(ts: seq<Token>, pos: nat, a: seq<Token>, b: seq<Token>)
    requires Stands(ts, pos, a + (Sign(Comma) + b))
    ensures pos + |a| < |ts| && Stands(ts, pos, a) && ts[pos + |a|].kind.Comma? && Stands(ts, pos + |a| + 1, b)
  {
    hide Stands;
    Joins(ts, pos, a, Sign(Comma) + b);
    Joins(ts, pos + |a|, Sign(Comma), b);
    One(ts, pos + |a|, Token(Comma, ""));
  }

  lemma FirstStands(ts: seq<Token>, pos: nat, w: Written)
    requires Fits(w, Sum) && Stands(ts, pos, Spell(w))
    ensures pos < |ts| && (ts[pos].kind.Number? || ts[pos].kind.Literal? || ts[pos].kind.Identifier? || ts[pos].kind.LParen?)
  {
    FirstSign(w);
    assert Same(ts[pos + 0], Spell(w)[0]);
  }

  /** An expression begins with a number, a text, a name or an opening parenthesis. */
  lemma {:induction false} FirstSign(w: Written)
    requires Fits(w, Sum)
    ensures var k := Spell(w)[0].kind; k.Number? || k.Literal? || k.Identifier? || k.LParen?
  {
    if w.Op? {
      Looser(w.left);
      FirstSign(w.left);
    }
  }
}
