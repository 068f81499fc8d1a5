/** Printing trees, and parsing them back. */
module NyvaPrinter {
  import opened Nyva
  import opened NyvaParser
  import Words
  import Text

  // ---------- printing expressions ----------

  function Sign(k: Kind): seq<Token> {
    [Token(k, "")]
  }

  function Ident(name: string): seq<Token> {
    [Token(Identifier, name)]
  }

  function SignOf(op: BinOp): Kind {
    match op
    case Plus => PlusSign
    case Minus => MinusSign
    case Times => TimesSign
    case Over => OverSign
    case Modulo => OtherSign
    case Greater => GreaterSign
    case Less => LessSign
    case Equals => EqualsSign
    case Differs => DiffersSign
  }

  /** Where an expression stands: alone, as an operand of a sum, or as an operand of a product. */
  datatype Place = AsSum | AsTerm | AsFactor

  /** Sums and differences need parentheses in products and as right operands, products as right operands of products. */
  function Show(e: Expr, place: Place): (r: seq<Token>)
    ensures |r| > 0
    decreases e, 1
  {
    match e
    case Num(n) => [Token(Number, Text.SignedDecimal(n))]
    case Text(s) => [Token(Literal, s)]
    case Name(x) => Ident(x)
    case Apply(f, args) => Ident(f) + Sign(LParen) + ShowAll(args) + Sign(RParen)
    case Bin(op, l, r) =>
      if IsTermSign(SignOf(op)) then
        var body := Show(l, AsTerm) + Sign(SignOf(op)) + Show(r, AsFactor);
        if place.AsFactor? then Sign(LParen) + body + Sign(RParen) else body
      else
        var body := Show(l, AsSum) + Sign(SignOf(op)) + Show(r, AsTerm);
        if place.AsSum? then body else Sign(LParen) + body + Sign(RParen)
  }

  function ShowAll(es: seq<Expr>): seq<Token>
    decreases es, 0
  {
    if es == [] then [] else Show(es[0], AsSum) + ShowMore(es[1..])
  }

  /** Arguments after the first, each behind its comma. */
  function ShowMore(es: seq<Expr>): seq<Token>
    decreases es, 0
  {
    if es == [] then [] else Sign(Comma) + Show(es[0], AsSum) + ShowMore(es[1..])
  }

  /** Expressions the grammar has outside conditions: sums, differences, products, quotients and calls. */
  predicate Printable(e: Expr) {
    match e
    case Apply(_, args) => forall i :: 0 <= i < |args| ==> Printable(args[i])
    case Bin(op, l, r) => (op.Plus? || op.Minus? || op.Times? || op.Over?) && Printable(l) && Printable(r)
    case _ => true
  }

  // ---------- expressions ----------

  /** Some tokens standing at a position, with one more after them. */
  predicate At(ts: seq<Token>, pos: nat, piece: seq<Token>) {
    pos + |piece| < |ts| && ts[pos..pos + |piece|] == piece
  }

  lemma AtSplits(ts: seq<Token>, pos: nat, a: seq<Token>, b: seq<Token>)
    requires At(ts, pos, a + b)
    ensures At(ts, pos, a) && At(ts, pos + |a|, b)
    ensures b != [] ==> ts[pos + |a|] == b[0]
    ensures a != [] ==> ts[pos] == a[0]
  {
    assert ts[pos..pos + |a|] == (a + b)[..|a|];
    assert ts[pos + |a|..pos + |a| + |b|] == (a + b)[|a|..];
    if b != [] { assert (a + b)[|a|] == ts[pos..pos + |a + b|][|a|]; }
    if a != [] { assert (a + b)[0] == ts[pos..pos + |a + b|][0]; }
  }

  lemma OneToken(ts: seq<Token>, pos: nat, t: Token)
    requires At(ts, pos, [t])
    ensures ts[pos] == t && pos + 1 < |ts|
  {
    assert ts[pos..pos + 1][0] == t;
  }

  lemma NumbersReadBack(n: Words.Int32)
    ensures Atoi(Text.SignedDecimal(n)) == n
  {
    var m := if n < 0 then 0 - n else n;
    if n < 0 {
      Text.NumeralReadsBack("-", m);
    } else {
      Text.DecimalReadsBack(m);
    }
  }

  /** How the printed forms of an expression at its three places relate. */
  lemma Shapes(e: Expr)
    requires Printable(e)
    ensures e.Bin? && IsTermSign(SignOf(e.op)) ==>
              && Show(e, AsTerm) == Show(e.left, AsTerm) + Sign(SignOf(e.op)) + Show(e.right, AsFactor)
              && Show(e, AsSum) == Show(e, AsTerm)
              && Show(e, AsFactor) == Sign(LParen) + Show(e, AsSum) + Sign(RParen)
    ensures e.Bin? && !IsTermSign(SignOf(e.op)) ==>
              && IsSumSign(SignOf(e.op))
              && Show(e, AsSum) == Show(e.left, AsSum) + Sign(SignOf(e.op)) + Show(e.right, AsTerm)
              && Show(e, AsTerm) == Show(e, AsFactor) == Sign(LParen) + Show(e, AsSum) + Sign(RParen)
    ensures !e.Bin? ==> Show(e, AsSum) == Show(e, AsTerm) == Show(e, AsFactor)
    ensures e.Bin? ==> OpOf(SignOf(e.op)) == e.op && Printable(e.left) && Printable(e.right)
  {
  }

  lemma LeafParses(ts: seq<Token>, pos: nat, e: Expr)
    requires Ended(ts) && (e.Num? || e.Text? || e.Name?) && At(ts, pos, Show(e, AsFactor))
    requires !ts[pos + |Show(e, AsFactor)|].kind.LParen?
    ensures ParseFactor(ts, pos) == Parsed(e, pos + |Show(e, AsFactor)|)
  {
    hide At;
    OneToken(ts, pos, Show(e, AsFactor)[0]);
    if e.Num? { NumbersReadBack(e.n); }
  }

  /** A factor is parsed as itself. */
  lemma {:induction false} FactorParses(ts: seq<Token>, pos: nat, e: Expr)
    requires Ended(ts) && Printable(e) && At(ts, pos, Show(e, AsFactor))
    requires !ts[pos + |Show(e, AsFactor)|].kind.LParen?
    ensures ParseFactor(ts, pos) == Parsed(e, pos + |Show(e, AsFactor)|)
    decreases e, 5
  {
    hide At, Show, Printable, ParseExpression, ParseArguments, Atoi;
    if e.Bin? {
      Shapes(e);
      var body := Show(e, AsSum);
      AtSplits(ts, pos, Sign(LParen) + body, Sign(RParen));
      AtSplits(ts, pos, Sign(LParen), body);
      InnerContinues(ts, pos + 1, e);
      ParenthesesParse(ts, pos, e, pos + 1 + |body|);
    } else if e.Apply? {
      CallParses(ts, pos, e);
    } else {
      LeafParses(ts, pos, e);
    }
  }

  lemma ParenthesesParse(ts: seq<Token>, pos: nat, e: Expr, close: nat)
    requires Ended(ts) && close < |ts| - 1 && pos < close
    requires ts[pos].kind.LParen? && ParseExpression(ts, pos + 1) == Parsed(e, close) && ts[close].kind.RParen?
    ensures ParseFactor(ts, pos) == Parsed(e, close + 1)
  {
    hide ParseExpression;
  }

  lemma {:induction false} CallParses(ts: seq<Token>, pos: nat, e: Expr)
    requires Ended(ts) && Printable(e) && e.Apply? && At(ts, pos, Show(e, AsFactor))
    ensures ParseFactor(ts, pos) == Parsed(e, pos + |Show(e, AsFactor)|)
    decreases e, 0
  {
    hide At, ShowAll, ParseArguments;
    var args := ShowAll(e.args);
    assert Show(e, AsFactor) == Ident(e.name) + Sign(LParen) + args + Sign(RParen);
    AtSplits(ts, pos, Ident(e.name) + Sign(LParen) + args, Sign(RParen));
    AtSplits(ts, pos, Ident(e.name) + Sign(LParen), args);
    AtSplits(ts, pos, Ident(e.name), Sign(LParen));
    ArgumentsParse(ts, pos + 2, e.args);
  }

  /** What an expression can start with. */
  lemma {:induction false} FirstToken(e: Expr, place: Place)
    ensures var k := Show(e, place)[0].kind; k.Number? || k.Literal? || k.Identifier? || k.LParen?
    decreases e
  {
    if e.Bin? {
      if IsTermSign(SignOf(e.op)) {
        FirstToken(e.left, AsTerm);
      } else {
        FirstToken(e.left, AsSum);
      }
    }
  }

  lemma {:induction false} ArgumentsParse(ts: seq<Token>, pos: nat, es: seq<Expr>)
    requires Ended(ts) && (forall i :: 0 <= i < |es| ==> Printable(es[i]))
    requires At(ts, pos, ShowAll(es)) && ts[pos + |ShowAll(es)|].kind.RParen?
    ensures ParseArguments(ts, pos) == Parsed(es, pos + |ShowAll(es)|)
    decreases es, 6
  {
    hide At, Show, Printable, ParseExpression, ShowMore, ArgumentsRest;
    if es != [] {
      var first := Show(es[0], AsSum);
      AtSplits(ts, pos, first, ShowMore(es[1..]));
      MoreStart(es[1..]);
      ExpressionParses(ts, pos, es[0]);
      FirstToken(es[0], AsSum);
      MoreArgumentsParse(ts, pos + |first|, [es[0]], es[1..]);
      assert [es[0]] + es[1..] == es;
    }
  }

  lemma MoreStart(es: seq<Expr>)
    ensures es != [] ==> ShowMore(es) != [] && ShowMore(es)[0].kind.Comma?
    ensures es == [] ==> ShowMore(es) == []
  {
  }

  lemma {:induction false} MoreArgumentsParse(ts: seq<Token>, pos: nat, sofar: seq<Expr>, es: seq<Expr>)
    requires Ended(ts) && (forall i :: 0 <= i < |es| ==> Printable(es[i]))
    requires At(ts, pos, ShowMore(es)) && ts[pos + |ShowMore(es)|].kind.RParen?
    ensures ArgumentsRest(ts, sofar, pos) == Parsed(sofar + es, pos + |ShowMore(es)|)
    decreases es, 6
  {
    hide At, Show, Printable, ParseExpression;
    if es == [] {
      assert sofar + es == sofar;
    } else {
      var first := Show(es[0], AsSum);
      AtSplits(ts, pos, Sign(Comma) + first, ShowMore(es[1..]));
      AtSplits(ts, pos, Sign(Comma), first);
      MoreStart(es[1..]);
      ExpressionParses(ts, pos + 1, es[0]);
      MoreArgumentsParse(ts, pos + 1 + |first|, sofar + [es[0]], es[1..]);
      assert sofar + [es[0]] + es[1..] == sofar + es;
    }
  }

  /** Where the parts of a printed sum or product stand. */
  lemma Operands(ts: seq<Token>, pos: nat, e: Expr, left: Place, right: Place)
    requires e.Bin? && At(ts, pos, Show(e.left, left) + Sign(SignOf(e.op)) + Show(e.right, right))
    ensures var mid := pos + |Show(e.left, left)|;
            && At(ts, pos, Show(e.left, left)) && At(ts, mid + 1, Show(e.right, right))
            && mid + 1 + |Show(e.right, right)| < |ts|
            && ts[mid].kind == SignOf(e.op)
  {
    hide Show;
    AtSplits(ts, pos, Show(e.left, left) + Sign(SignOf(e.op)), Show(e.right, right));
    AtSplits(ts, pos, Show(e.left, left), Sign(SignOf(e.op)));
  }

  /** Parsing a printed product leaves the loop of parser_parse_term holding it: products associate to the left. */
  lemma {:induction false} ProductContinues(ts: seq<Token>, pos: nat, e: Expr)
    requires Ended(ts) && Printable(e) && At(ts, pos, Show(e, AsTerm)) && e.Bin? && IsTermSign(SignOf(e.op))
    requires !ts[pos + |Show(e, AsTerm)|].kind.LParen?
    ensures ParseTerm(ts, pos) == TermRest(ts, e, pos + |Show(e, AsTerm)|)
    decreases e, 1
  {
    hide At, ParseFactor, Show, Printable;
    Shapes(e);
    Operands(ts, pos, e, AsTerm, AsFactor);
    TermContinues(ts, pos, e.left);
    FactorParses(ts, pos + |Show(e.left, AsTerm)| + 1, e.right);
  }

  /** Parsing a printed term leaves the loop of parser_parse_term holding that term. */
  lemma {:induction false} TermContinues(ts: seq<Token>, pos: nat, e: Expr)
    requires Ended(ts) && Printable(e) && At(ts, pos, Show(e, AsTerm))
    requires !ts[pos + |Show(e, AsTerm)|].kind.LParen?
    ensures ParseTerm(ts, pos) == TermRest(ts, e, pos + |Show(e, AsTerm)|)
    decreases e, 6
  {
    hide At, ParseFactor, Show, Printable;
    Shapes(e);
    if e.Bin? && IsTermSign(SignOf(e.op)) {
      ProductContinues(ts, pos, e);
    } else {
      FactorParses(ts, pos, e);
    }
  }

  /** One turn of the loop of parser_parse_expression. */
  lemma SumTurn(ts: seq<Token>, left: Expr, pos: nat, right: Expr, next: nat)
    requires Ended(ts) && pos < |ts| - 1 && pos < next < |ts| && IsSumSign(ts[pos].kind)
    requires ParseTerm(ts, pos + 1) == TermRest(ts, right, next) && !IsTermSign(ts[next].kind)
    ensures SumRest(ts, left, pos) == SumRest(ts, Bin(OpOf(ts[pos].kind), left, right), next)
  {
    hide ParseTerm;
  }

  /** The loop starts with the first term. */
  lemma SumStart(ts: seq<Token>, pos: nat, e: Expr, next: nat)
    requires Ended(ts) && pos < next < |ts|
    requires ParseTerm(ts, pos) == TermRest(ts, e, next) && !IsTermSign(ts[next].kind)
    ensures ParseExpression(ts, pos) == SumRest(ts, e, next)
  {
    hide ParseTerm, SumRest;
  }

  /** Parsing a printed sum or difference leaves the loop of parser_parse_expression holding it. */
  lemma {:induction false} SumContinues(ts: seq<Token>, pos: nat, e: Expr)
    requires Ended(ts) && Printable(e) && At(ts, pos, Show(e, AsSum)) && e.Bin? && !IsTermSign(SignOf(e.op))
    requires var k := ts[pos + |Show(e, AsSum)|].kind; !k.LParen? && !IsTermSign(k)
    ensures ParseExpression(ts, pos) == SumRest(ts, e, pos + |Show(e, AsSum)|)
    decreases e, 1
  {
    hide At, ParseTerm, Show, Printable, SumRest, TermRest, ParseExpression;
    Shapes(e);
    Operands(ts, pos, e, AsSum, AsTerm);
    var mid := pos + |Show(e.left, AsSum)|;
    ExpressionContinues(ts, pos, e.left);
    TermContinues(ts, mid + 1, e.right);
    SumTurn(ts, e.left, mid, e.right, mid + 1 + |Show(e.right, AsTerm)|);
  }

  /** Parsing a printed expression leaves the loop of parser_parse_expression holding that expression. */
  lemma {:induction false} ExpressionContinues(ts: seq<Token>, pos: nat, e: Expr)
    requires Ended(ts) && Printable(e) && At(ts, pos, Show(e, AsSum))
    requires var k := ts[pos + |Show(e, AsSum)|].kind; !k.LParen? && !IsTermSign(k)
    ensures ParseExpression(ts, pos) == SumRest(ts, e, pos + |Show(e, AsSum)|)
    decreases e, 7
  {
    var end := pos + |Show(e, AsSum)|;
    assert end < |ts| && Show(e, AsSum) != [];
    hide *;
    if e.Bin? && !IsTermSign(SignOf(e.op)) {
      SumContinues(ts, pos, e);
    } else {
      Shapes(e);
      TermContinues(ts, pos, e);
      SumStart(ts, pos, e, end);
    }
  }

  /** The same for what stands between parentheses. */
  lemma {:induction false} InnerContinues(ts: seq<Token>, pos: nat, e: Expr)
    requires Ended(ts) && Printable(e) && At(ts, pos, Show(e, AsSum)) && e.Bin?
    requires ts[pos + |Show(e, AsSum)|].kind.RParen?
    ensures ParseExpression(ts, pos) == SumRest(ts, e, pos + |Show(e, AsSum)|)
    decreases e, 2
  {
    assert pos + |Show(e, AsSum)| < |ts|;
    hide At, ParseTerm, Show, Printable, SumRest, TermRest, ParseExpression;
    Shapes(e);
    if !IsTermSign(SignOf(e.op)) {
      SumContinues(ts, pos, e);
    } else {
      ProductContinues(ts, pos, e);
      SumStart(ts, pos, e, pos + |Show(e, AsSum)|);
    }
  }

  /** An expression that is followed by neither an operator nor an opening parenthesis is parsed as itself. */
  lemma {:induction false} ExpressionParses(ts: seq<Token>, pos: nat, e: Expr)
    requires Ended(ts) && Printable(e) && At(ts, pos, Show(e, AsSum))
    requires var k := ts[pos + |Show(e, AsSum)|].kind; !k.LParen? && !IsTermSign(k) && !IsSumSign(k)
    ensures ParseExpression(ts, pos) == Parsed(e, pos + |Show(e, AsSum)|)
    decreases e, 8
  {
    hide At, ParseTerm, Show, Printable, ParseExpression;
    ExpressionContinues(ts, pos, e);
  }
}
