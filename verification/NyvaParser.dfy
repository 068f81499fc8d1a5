/** The Nyva parser as functions on a token list. */
module NyvaParser {
  import opened Common
  import opened Nyva
  import Words
  import Text

  datatype Kind =
    | EndOfFile | Identifier | Number | Literal | VarWord | IfWord | ElseWord | EqualSign | PlusSign | MinusSign
    | TimesSign | OverSign | GreaterSign | LessSign | EqualsSign | DiffersSign | LParen | RParen | LBrace | RBrace
    | Comma | Semicolon | FnWord | ReturnWord | ForWord | WhileWord | ImportWord | BreakWord
    | OtherSign

  datatype Token = Token(kind: Kind, value: string)

  /** Token lists end in their one end-of-file token. */
  predicate Ended(ts: seq<Token>) {
    && |ts| > 0 && ts[|ts| - 1].kind.EndOfFile?
    && forall i :: 0 <= i < |ts| - 1 ==> !ts[i].kind.EndOfFile?
  }

  /** A tree and the position after it; Failed where the parser prints an error and exits. */
  datatype Parse<T> = Parsed(tree: T, pos: nat) | Failed

  /** A parse that moved on and still has a token to look at. */
  predicate Advanced<T>(ts: seq<Token>, pos: nat, r: Parse<T>) {
    r.Parsed? ==> pos < r.pos < |ts|
  }

  /** parser_expect: the next position, or the end of the list when the token is another one. */
  function Expect(ts: seq<Token>, pos: nat, kind: Kind): (r: Parse<string>)
    requires Ended(ts) && pos < |ts| && !kind.EndOfFile?
    ensures Advanced(ts, pos, r) && (r.Parsed? ==> r.pos == pos + 1)
  {
    if ts[pos].kind == kind then Parsed(ts[pos].value, pos + 1) else Failed
  }

  /** atoi on a number token. */
  function Atoi(s: string): Words.Int32 {
    var n := Text.TrailingNumber(s);
    Words.Wrap(if s != [] && s[0] == '-' then 0 - n else n)
  }

  // ---------- expressions ----------

  function ParseFactor(ts: seq<Token>, pos: nat): (r: Parse<Expr>)
    requires Ended(ts) && pos < |ts|
    ensures Advanced(ts, pos, r)
    decreases |ts| - pos, 0
  {
    match ts[pos].kind
    case Number => Parsed(Num(Atoi(ts[pos].value)), pos + 1)
    case Literal => Parsed(Expr.Text(ts[pos].value), pos + 1)
    case Identifier =>
      if ts[pos + 1].kind.LParen? then
        var args := ParseArguments(ts, pos + 2);
        if args.Failed? then Failed
        else
          var close := Expect(ts, args.pos, RParen);
          if close.Failed? then Failed else Parsed(Apply(ts[pos].value, args.tree), close.pos)
      else Parsed(Name(ts[pos].value), pos + 1)
    case LParen =>
      var e := ParseExpression(ts, pos + 1);
      if e.Failed? then Failed
      else
        var close := Expect(ts, e.pos, RParen);
        if close.Failed? then Failed else Parsed(e.tree, close.pos)
    case _ => Failed
  }

  predicate IsTermSign(k: Kind) {
    k.TimesSign? || k.OverSign?
  }

  predicate IsSumSign(k: Kind) {
    k.PlusSign? || k.MinusSign?
  }

  predicate IsComparison(k: Kind) {
    k.GreaterSign? || k.LessSign? || k.EqualsSign? || k.DiffersSign?
  }

  function OpOf(k: Kind): BinOp
    requires IsTermSign(k) || IsSumSign(k) || IsComparison(k)
  {
    match k
    case TimesSign => Times
    case OverSign => Over
    case PlusSign => Plus
    case MinusSign => Minus
    case GreaterSign => Greater
    case LessSign => Less
    case EqualsSign => Equals
    case DiffersSign => Differs
  }

  /** The loop of parser_parse_term, with what it has so far. */
  function TermRest(ts: seq<Token>, left: Expr, pos: nat): (r: Parse<Expr>)
    requires Ended(ts) && pos < |ts|
    ensures r.Parsed? ==> pos <= r.pos < |ts|
    decreases |ts| - pos, 1
  {
    if !IsTermSign(ts[pos].kind) then Parsed(left, pos)
    else
      var right := ParseFactor(ts, pos + 1);
      if right.Failed? then Failed else TermRest(ts, Bin(OpOf(ts[pos].kind), left, right.tree), right.pos)
  }

  function ParseTerm(ts: seq<Token>, pos: nat): (r: Parse<Expr>)
    requires Ended(ts) && pos < |ts|
    ensures Advanced(ts, pos, r)
    decreases |ts| - pos, 1
  {
    var left := ParseFactor(ts, pos);
    if left.Failed? then Failed else TermRest(ts, left.tree, left.pos)
  }

  /** The loop of parser_parse_expression, with what it has so far. */
  function SumRest(ts: seq<Token>, left: Expr, pos: nat): (r: Parse<Expr>)
    requires Ended(ts) && pos < |ts|
    ensures r.Parsed? ==> pos <= r.pos < |ts|
    decreases |ts| - pos, 2
  {
    if !IsSumSign(ts[pos].kind) then Parsed(left, pos)
    else
      var right := ParseTerm(ts, pos + 1);
      if right.Failed? then Failed else SumRest(ts, Bin(OpOf(ts[pos].kind), left, right.tree), right.pos)
  }

  function ParseExpression(ts: seq<Token>, pos: nat): (r: Parse<Expr>)
    requires Ended(ts) && pos < |ts|
    ensures Advanced(ts, pos, r)
    decreases |ts| - pos, 2
  {
    var left := ParseTerm(ts, pos);
    if left.Failed? then Failed else SumRest(ts, left.tree, left.pos)
  }

  function ParseArguments(ts: seq<Token>, pos: nat): (r: Parse<seq<Expr>>)
    requires Ended(ts) && pos < |ts|
    ensures r.Parsed? ==> pos <= r.pos < |ts|
    decreases |ts| - pos, 4
  {
    if ts[pos].kind.RParen? then Parsed([], pos)
    else
      var first := ParseExpression(ts, pos);
      if first.Failed? then Failed else ArgumentsRest(ts, [first.tree], first.pos)
  }

  function ArgumentsRest(ts: seq<Token>, sofar: seq<Expr>, pos: nat): (r: Parse<seq<Expr>>)
    requires Ended(ts) && pos < |ts|
    ensures r.Parsed? ==> pos <= r.pos < |ts|
    decreases |ts| - pos, 3
  {
    if !ts[pos].kind.Comma? then Parsed(sofar, pos)
    else
      var next := ParseExpression(ts, pos + 1);
      if next.Failed? then Failed else ArgumentsRest(ts, sofar + [next.tree], next.pos)
  }

  function ParseCondition(ts: seq<Token>, pos: nat): (r: Parse<Expr>)
    requires Ended(ts) && pos < |ts|
    ensures Advanced(ts, pos, r)
  {
    var left := ParseExpression(ts, pos);
    if left.Failed? || !IsComparison(ts[left.pos].kind) then left
    else
      var right := ParseExpression(ts, left.pos + 1);
      if right.Failed? then Failed else Parsed(Bin(OpOf(ts[left.pos].kind), left.tree, right.tree), right.pos)
  }

  // ---------- statements ----------

  function ParseDeclaration(ts: seq<Token>, pos: nat): (r: Parse<Stmt>)
    requires Ended(ts) && pos < |ts|
    ensures Advanced(ts, pos, r)
  {
    var word := Expect(ts, pos, VarWord);
    if word.Failed? then Failed
    else
      var name := Expect(ts, word.pos, Identifier);
      if name.Failed? then Failed
      else if ts[name.pos].kind.EqualSign? then
        var e := ParseExpression(ts, name.pos + 1);
        if e.Failed? then Failed
        else
          var end := Expect(ts, e.pos, Semicolon);
          if end.Failed? then Failed else Parsed(Declare(name.tree, Some(e.tree)), end.pos)
      else
        var end := Expect(ts, name.pos, Semicolon);
        if end.Failed? then Failed else Parsed(Declare(name.tree, None), end.pos)
  }

  function ParseAssignment(ts: seq<Token>, pos: nat): (r: Parse<Stmt>)
    requires Ended(ts) && pos < |ts|
    ensures Advanced(ts, pos, r)
  {
    var name := Expect(ts, pos, Identifier);
    if name.Failed? then Failed
    else
      var sign := Expect(ts, name.pos, EqualSign);
      if sign.Failed? then Failed
      else
        var e := ParseExpression(ts, sign.pos);
        if e.Failed? then Failed
        else
          var end := Expect(ts, e.pos, Semicolon);
          if end.Failed? then Failed else Parsed(Assign(name.tree, e.tree), end.pos)
  }

  /** `( condition )`, the head of `if` and `while`. */
  function ParseHead(ts: seq<Token>, pos: nat): (r: Parse<Expr>)
    requires Ended(ts) && pos < |ts|
    ensures Advanced(ts, pos, r)
  {
    var open := Expect(ts, pos, LParen);
    if open.Failed? then Failed
    else
      var cond := ParseCondition(ts, open.pos);
      if cond.Failed? then Failed
      else
        var close := Expect(ts, cond.pos, RParen);
        if close.Failed? then Failed else Parsed(cond.tree, close.pos)
  }

  function ParseParameters(ts: seq<Token>, pos: nat): (r: Parse<seq<string>>)
    requires Ended(ts) && pos < |ts|
    ensures r.Parsed? ==> pos <= r.pos < |ts|
  {
    if ts[pos].kind.RParen? then Parsed([], pos)
    else
      var first := Expect(ts, pos, Identifier);
      if first.Failed? then Failed else ParametersRest(ts, [first.tree], first.pos)
  }

  function ParametersRest(ts: seq<Token>, sofar: seq<string>, pos: nat): (r: Parse<seq<string>>)
    requires Ended(ts) && pos < |ts|
    ensures r.Parsed? ==> pos <= r.pos < |ts|
    decreases |ts| - pos
  {
    if !ts[pos].kind.Comma? then Parsed(sofar, pos)
    else
      var next := Expect(ts, pos + 1, Identifier);
      if next.Failed? then Failed else ParametersRest(ts, sofar + [next.tree], next.pos)
  }

  /** Statements up to a closing brace or the end of the list. */
  function ParseStatements(ts: seq<Token>, pos: nat): (r: Parse<seq<Stmt>>)
    requires Ended(ts) && pos < |ts|
    ensures r.Parsed? ==> pos <= r.pos < |ts|
    decreases |ts| - pos, 3
  {
    if ts[pos].kind.RBrace? || ts[pos].kind.EndOfFile? then Parsed([], pos)
    else
      var first := ParseStatement(ts, pos);
      if first.Failed? then Failed
      else
        var rest := ParseStatements(ts, first.pos);
        if rest.Failed? then Failed else Parsed([first.tree] + rest.tree, rest.pos)
  }

  /** `{ statements }`. */
  function ParseBody(ts: seq<Token>, pos: nat): (r: Parse<seq<Stmt>>)
    requires Ended(ts) && pos < |ts|
    ensures Advanced(ts, pos, r)
    decreases |ts| - pos, 0
  {
    var open := Expect(ts, pos, LBrace);
    if open.Failed? then Failed
    else
      var body := ParseStatements(ts, open.pos);
      if body.Failed? then Failed
      else
        var close := Expect(ts, body.pos, RBrace);
        if close.Failed? then Failed else Parsed(body.tree, close.pos)
  }

  function ParseIf(ts: seq<Token>, pos: nat): (r: Parse<Stmt>)
    requires Ended(ts) && pos < |ts| && ts[pos].kind.IfWord?
    ensures Advanced(ts, pos, r)
    decreases |ts| - pos, 1
  {
    var cond := ParseHead(ts, pos + 1);
    if cond.Failed? then Failed
    else
      var body := ParseBody(ts, cond.pos);
      if body.Failed? then Failed
      else if !ts[body.pos].kind.ElseWord? then Parsed(If(cond.tree, body.tree, NoElse), body.pos)
      else
        var other := ParseBody(ts, body.pos + 1);
        if other.Failed? then Failed else Parsed(If(cond.tree, body.tree, Else(other.tree)), other.pos)
  }

  function ParseWhile(ts: seq<Token>, pos: nat): (r: Parse<Stmt>)
    requires Ended(ts) && pos < |ts| && ts[pos].kind.WhileWord?
    ensures Advanced(ts, pos, r)
    decreases |ts| - pos, 1
  {
    var cond := ParseHead(ts, pos + 1);
    if cond.Failed? then Failed
    else
      var body := ParseBody(ts, cond.pos);
      if body.Failed? then Failed else Parsed(While(cond.tree, body.tree), body.pos)
  }

  /** The parts of a `for` head after its opening parenthesis: an assignment or declaration, a condition, an assignment. */
  function ParseForHead(ts: seq<Token>, pos: nat): (r: Parse<(Stmt, Expr, Stmt)>)
    requires Ended(ts) && pos < |ts|
    ensures Advanced(ts, pos, r)
  {
    var first := if ts[pos].kind.VarWord? then ParseDeclaration(ts, pos) else ParseAssignment(ts, pos);
    if first.Failed? then Failed
    else
      var cond := ParseCondition(ts, first.pos);
      if cond.Failed? then Failed
      else
        var end := Expect(ts, cond.pos, Semicolon);
        if end.Failed? then Failed
        else
          var update := ParseAssignment(ts, end.pos);
          if update.Failed? then Failed else Parsed((first.tree, cond.tree, update.tree), update.pos)
  }

  function ParseFor(ts: seq<Token>, pos: nat): (r: Parse<Stmt>)
    requires Ended(ts) && pos < |ts| && ts[pos].kind.ForWord?
    ensures Advanced(ts, pos, r)
    decreases |ts| - pos, 1
  {
    var open := Expect(ts, pos + 1, LParen);
    if open.Failed? then Failed
    else
      var head := ParseForHead(ts, open.pos);
      if head.Failed? then Failed
      else
        var close := Expect(ts, head.pos, RParen);
        if close.Failed? then Failed
        else
          var body := ParseBody(ts, close.pos);
          if body.Failed? then Failed else Parsed(For(head.tree.0, head.tree.1, head.tree.2, body.tree), body.pos)
  }

  function ParseFunction(ts: seq<Token>, pos: nat): (r: Parse<Stmt>)
    requires Ended(ts) && pos < |ts| && ts[pos].kind.FnWord?
    ensures Advanced(ts, pos, r)
    decreases |ts| - pos, 1
  {
    var name := Expect(ts, pos + 1, Identifier);
    if name.Failed? then Failed
    else
      var open := Expect(ts, name.pos, LParen);
      if open.Failed? then Failed
      else
        var params := ParseParameters(ts, open.pos);
        if params.Failed? then Failed
        else
          var close := Expect(ts, params.pos, RParen);
          if close.Failed? then Failed
          else
            var body := ParseBody(ts, close.pos);
            if body.Failed? then Failed else Parsed(Function(name.tree, params.tree, body.tree), body.pos)
  }

  /** return, import and break. */
  function ParseShort(ts: seq<Token>, pos: nat): (r: Parse<Stmt>)
    requires Ended(ts) && pos < |ts|
    requires ts[pos].kind.ReturnWord? || ts[pos].kind.ImportWord? || ts[pos].kind.BreakWord?
    ensures Advanced(ts, pos, r)
  {
    if ts[pos].kind.BreakWord? then
      var end := Expect(ts, pos + 1, Semicolon);
      if end.Failed? then Failed else Parsed(Break, end.pos)
    else if ts[pos].kind.ReturnWord? then
      if ts[pos + 1].kind.Semicolon? then Parsed(Return(None), pos + 2)
      else
        var e := ParseExpression(ts, pos + 1);
        if e.Failed? then Failed
        else
          var end := Expect(ts, e.pos, Semicolon);
          if end.Failed? then Failed else Parsed(Return(Some(e.tree)), end.pos)
    else
      var open := Expect(ts, pos + 1, LParen);
      if open.Failed? then Failed
      else
        var file := Expect(ts, open.pos, Literal);
        if file.Failed? then Failed
        else
          var close := Expect(ts, file.pos, RParen);
          if close.Failed? then Failed
          else
            var end := Expect(ts, close.pos, Semicolon);
            if end.Failed? then Failed else Parsed(Import(file.tree), end.pos)
  }

  function ParseStatement(ts: seq<Token>, pos: nat): (r: Parse<Stmt>)
    requires Ended(ts) && pos < |ts|
    ensures Advanced(ts, pos, r)
    decreases |ts| - pos, 2
  {
    match ts[pos].kind
    case VarWord => ParseDeclaration(ts, pos)
    case IfWord => ParseIf(ts, pos)
    case FnWord => ParseFunction(ts, pos)
    case ForWord => ParseFor(ts, pos)
    case WhileWord => ParseWhile(ts, pos)
    case ReturnWord => ParseShort(ts, pos)
    case ImportWord => ParseShort(ts, pos)
    case BreakWord => ParseShort(ts, pos)
    case Identifier =>
      if ts[pos + 1].kind.EqualSign? then ParseAssignment(ts, pos)
      else
        var e := ParseExpression(ts, pos);
        if e.Failed? then Failed
        else
          var end := Expect(ts, e.pos, Semicolon);
          if end.Failed? then Failed else Parsed(Eval(e.tree), end.pos)
    case _ => Failed
  }

  /** A whole program: statements up to the end of the list. */
  function ParseProgram(ts: seq<Token>, pos: nat): (r: Parse<seq<Stmt>>)
    requires Ended(ts) && pos < |ts|
    ensures r.Parsed? ==> r.pos == |ts| - 1
    decreases |ts| - pos
  {
    if ts[pos].kind.EndOfFile? then Parsed([], pos)
    else
      var first := ParseStatement(ts, pos);
      if first.Failed? then Failed
      else
        var rest := ParseProgram(ts, first.pos);
        if rest.Failed? then Failed else Parsed([first.tree] + rest.tree, rest.pos)
  }
}
