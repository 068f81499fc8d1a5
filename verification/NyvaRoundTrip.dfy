/** Printing programs, and parsing them back. */
module NyvaRoundTrip {
  import opened Common
  import opened Nyva
  import opened NyvaParser
  import opened NyvaPrinter

  // ---------- printing statements ----------

  predicate Compares(e: Expr) {
    e.Bin? && (e.op.Greater? || e.op.Less? || e.op.Equals? || e.op.Differs?)
  }

  function ShowCondition(e: Expr): (r: seq<Token>)
    ensures |r| > 0
  {
    if Compares(e) then Show(e.left, AsSum) + (Sign(SignOf(e.op)) + Show(e.right, AsSum)) else Show(e, AsSum)
  }

  /** `name = value ;` */
  function ShowAssignment(name: string, e: Expr): seq<Token> {
    Ident(name) + (Sign(EqualSign) + (Show(e, AsSum) + Sign(Semicolon)))
  }

  function ShowDeclaration(name: string, value: Option<Expr>): seq<Token> {
    Sign(VarWord) + (Ident(name) +
      (if value.Some? then Sign(EqualSign) + (Show(value.value, AsSum) + Sign(Semicolon)) else Sign(Semicolon)))
  }

  function ShowHead(cond: Expr): seq<Token> {
    Sign(LParen) + (ShowCondition(cond) + Sign(RParen))
  }

  function ShowMoreNames(names: seq<string>): seq<Token> {
    if names == [] then [] else Sign(Comma) + (Ident(names[0]) + ShowMoreNames(names[1..]))
  }

  function ShowNames(names: seq<string>): seq<Token> {
    if names == [] then [] else Ident(names[0]) + ShowMoreNames(names[1..])
  }

  function ShowInit(first: Stmt): seq<Token> {
    match first
    case Declare(x, value) => ShowDeclaration(x, value)
    case Assign(x, e) => ShowAssignment(x, e)
    case _ => []
  }

  function ShowForHead(first: Stmt, cond: Expr, update: Stmt): seq<Token> {
    ShowInit(first) + (ShowCondition(cond) + (Sign(Semicolon) + ShowInit(update)))
  }

  function ShowStatement(s: Stmt): seq<Token>
    decreases s, 1
  {
    match s
    case Declare(x, value) => ShowDeclaration(x, value)
    case Assign(x, e) => ShowAssignment(x, e)
    case If(cond, body, els) =>
      Sign(IfWord) + (ShowHead(cond) + (ShowBody(body) +
        (if els.Else? then Sign(ElseWord) + ShowBody(els.body) else [])))
    case While(cond, body) => Sign(WhileWord) + (ShowHead(cond) + ShowBody(body))
    case For(first, cond, update, body) =>
      Sign(ForWord) + (Sign(LParen) + (ShowForHead(first, cond, update) + (Sign(RParen) + ShowBody(body))))
    case Break => Sign(BreakWord) + Sign(Semicolon)
    case Eval(e) => Show(e, AsSum) + Sign(Semicolon)
    case Function(name, params, body) =>
      Sign(FnWord) + (Ident(name) + (Sign(LParen) + (ShowNames(params) + (Sign(RParen) + ShowBody(body)))))
    case Return(result) =>
      Sign(ReturnWord) + (if result.Some? then Show(result.value, AsSum) + Sign(Semicolon) else Sign(Semicolon))
    case Import(file) =>
      Sign(ImportWord) + (Sign(LParen) + ([Token(Literal, file)] + (Sign(RParen) + Sign(Semicolon))))
  }

  function ShowStatements(ss: seq<Stmt>): seq<Token>
    decreases ss, 0
  {
    if ss == [] then [] else ShowStatement(ss[0]) + ShowStatements(ss[1..])
  }

  /** `{ statements }` */
  function ShowBody(ss: seq<Stmt>): seq<Token>
    decreases ss, 1
  {
    Sign(LBrace) + (ShowStatements(ss) + Sign(RBrace))
  }

  // ---------- grammar-shaped trees ----------

  predicate ConditionShaped(e: Expr) {
    if Compares(e) then Printable(e.left) && Printable(e.right) else Printable(e)
  }

  predicate InitShaped(s: Stmt) {
    match s
    case Declare(_, value) => value.Some? ==> Printable(value.value)
    case Assign(_, e) => Printable(e)
    case _ => false
  }

  /** Trees the grammar has: an expression statement starts with a name. */
  predicate Shaped(s: Stmt) {
    match s
    case Declare(_, _) => InitShaped(s)
    case Assign(_, _) => InitShaped(s)
    case If(cond, body, els) => ConditionShaped(cond) && AllShaped(body) && (els.Else? ==> AllShaped(els.body))
    case While(cond, body) => ConditionShaped(cond) && AllShaped(body)
    case For(first, cond, update, body) =>
      InitShaped(first) && ConditionShaped(cond) && update.Assign? && InitShaped(update) && AllShaped(body)
    case Eval(e) => Printable(e) && Show(e, AsSum)[0].kind.Identifier?
    case Function(_, _, body) => AllShaped(body)
    case Return(result) => result.Some? ==> Printable(result.value)
    case _ => true
  }

  predicate AllShaped(ss: seq<Stmt>) {
    ss == [] || (Shaped(ss[0]) && AllShaped(ss[1..]))
  }

  // ---------- parts ----------

  /** A first token, and what follows it. */
  lemma Step(ts: seq<Token>, pos: nat, t: Token, rest: seq<Token>)
    requires At(ts, pos, [t] + rest)
    ensures At(ts, pos + 1, rest) && ts[pos] == t && pos + 1 < |ts|
    ensures rest != [] ==> ts[pos + 1] == rest[0]
  {
    hide At;
    AtSplits(ts, pos, [t], rest);
    OneToken(ts, pos, t);
  }

  /** An expression with its end known to be neither an operator nor an opening parenthesis. */
  lemma Part(ts: seq<Token>, pos: nat, e: Expr, rest: seq<Token>)
    requires Ended(ts) && Printable(e) && At(ts, pos, Show(e, AsSum) + rest)
    requires rest != [] && !rest[0].kind.LParen? && !IsTermSign(rest[0].kind) && !IsSumSign(rest[0].kind)
    ensures var end := pos + |Show(e, AsSum)|;
            ParseExpression(ts, pos) == Parsed(e, end) && end < |ts| && At(ts, end, rest) && ts[end] == rest[0]
    ensures ts[pos] == Show(e, AsSum)[0]
  {
    assert pos + |Show(e, AsSum)| < |ts|;
    hide At, Show, Printable, ParseExpression;
    AtSplits(ts, pos, Show(e, AsSum), rest);
    ExpressionParses(ts, pos, e);
  }

  lemma ComparisonParses(ts: seq<Token>, pos: nat, e: Expr, rest: seq<Token>)
    requires Ended(ts) && Compares(e) && Printable(e.left) && Printable(e.right)
    requires At(ts, pos, Show(e.left, AsSum) + (Sign(SignOf(e.op)) + (Show(e.right, AsSum) + rest)))
    requires rest != [] && (rest[0].kind.RParen? || rest[0].kind.Semicolon?)
    ensures var end := pos + |Show(e.left, AsSum)| + 1 + |Show(e.right, AsSum)|;
            ParseCondition(ts, pos) == Parsed(e, end) && end < |ts| && At(ts, end, rest) && ts[end] == rest[0]
  {
    hide At, Show, Printable, ParseExpression, Ended;
    var more := Sign(SignOf(e.op)) + (Show(e.right, AsSum) + rest);
    Part(ts, pos, e.left, more);
    var mid := pos + |Show(e.left, AsSum)|;
    Step(ts, mid, Token(SignOf(e.op), ""), Show(e.right, AsSum) + rest);
    Part(ts, mid + 1, e.right, rest);
  }

  lemma ConditionParses(ts: seq<Token>, pos: nat, e: Expr, rest: seq<Token>)
    requires Ended(ts) && ConditionShaped(e) && At(ts, pos, ShowCondition(e) + rest)
    requires rest != [] && (rest[0].kind.RParen? || rest[0].kind.Semicolon?)
    ensures var end := pos + |ShowCondition(e)|;
            ParseCondition(ts, pos) == Parsed(e, end) && end < |ts| && At(ts, end, rest) && ts[end] == rest[0]
  {
    hide At, Show, Printable, ParseExpression, Ended;
    if Compares(e) {
      hide ParseCondition;
      assert ShowCondition(e) + rest == Show(e.left, AsSum) + (Sign(SignOf(e.op)) + (Show(e.right, AsSum) + rest));
      ComparisonParses(ts, pos, e, rest);
    } else {
      Part(ts, pos, e, rest);
    }
  }

  lemma AssignmentParses(ts: seq<Token>, pos: nat, x: string, e: Expr, rest: seq<Token>)
    requires Ended(ts) && Printable(e) && At(ts, pos, ShowAssignment(x, e) + rest)
    ensures var end := pos + |ShowAssignment(x, e)|;
            ParseAssignment(ts, pos) == Parsed(Assign(x, e), end) && end < |ts| && At(ts, end, rest)
    ensures ts[pos].kind.Identifier? && ts[pos + 1].kind.EqualSign?
  {
    hide At, Show, Printable, ParseExpression, Ended;
    var value := Show(e, AsSum) + (Sign(Semicolon) + rest);
    assert ShowAssignment(x, e) + rest == Ident(x) + (Sign(EqualSign) + value);
    Step(ts, pos, Token(Identifier, x), Sign(EqualSign) + value);
    Step(ts, pos + 1, Token(EqualSign, ""), value);
    Part(ts, pos + 2, e, Sign(Semicolon) + rest);
    Step(ts, pos + 2 + |Show(e, AsSum)|, Token(Semicolon, ""), rest);
  }

  lemma DeclarationParses(ts: seq<Token>, pos: nat, x: string, value: Option<Expr>, rest: seq<Token>)
    requires Ended(ts) && (value.Some? ==> Printable(value.value)) && At(ts, pos, ShowDeclaration(x, value) + rest)
    ensures var end := pos + |ShowDeclaration(x, value)|;
            ParseDeclaration(ts, pos) == Parsed(Declare(x, value), end) && end < |ts| && At(ts, end, rest)
    ensures ts[pos].kind.VarWord?
  {
    hide At, Show, Printable, ParseExpression, Ended;
    if value.Some? {
      var e := value.value;
      var shown := Show(e, AsSum) + (Sign(Semicolon) + rest);
      assert ShowDeclaration(x, value) + rest == Sign(VarWord) + (Ident(x) + (Sign(EqualSign) + shown));
      Step(ts, pos, Token(VarWord, ""), Ident(x) + (Sign(EqualSign) + shown));
      Step(ts, pos + 1, Token(Identifier, x), Sign(EqualSign) + shown);
      Step(ts, pos + 2, Token(EqualSign, ""), shown);
      Part(ts, pos + 3, e, Sign(Semicolon) + rest);
      Step(ts, pos + 3 + |Show(e, AsSum)|, Token(Semicolon, ""), rest);
    } else {
      assert ShowDeclaration(x, value) + rest == Sign(VarWord) + (Ident(x) + (Sign(Semicolon) + rest));
      Step(ts, pos, Token(VarWord, ""), Ident(x) + (Sign(Semicolon) + rest));
      Step(ts, pos + 1, Token(Identifier, x), Sign(Semicolon) + rest);
      Step(ts, pos + 2, Token(Semicolon, ""), rest);
    }
  }

  lemma HeadParses(ts: seq<Token>, pos: nat, e: Expr, rest: seq<Token>)
    requires Ended(ts) && ConditionShaped(e) && At(ts, pos, ShowHead(e) + rest)
    ensures var end := pos + |ShowHead(e)|;
            ParseHead(ts, pos) == Parsed(e, end) && end < |ts| && At(ts, end, rest)
  {
    hide At, ShowCondition, ConditionShaped, ParseCondition, Ended;
    assert ShowHead(e) + rest == Sign(LParen) + (ShowCondition(e) + (Sign(RParen) + rest));
    Step(ts, pos, Token(LParen, ""), ShowCondition(e) + (Sign(RParen) + rest));
    ConditionParses(ts, pos + 1, e, Sign(RParen) + rest);
    Step(ts, pos + 1 + |ShowCondition(e)|, Token(RParen, ""), rest);
  }

  lemma ForHeadParses(ts: seq<Token>, pos: nat, first: Stmt, cond: Expr, update: Stmt, rest: seq<Token>)
    requires Ended(ts) && InitShaped(first) && ConditionShaped(cond) && update.Assign? && InitShaped(update)
    requires At(ts, pos, ShowForHead(first, cond, update) + rest)
    ensures var end := pos + |ShowForHead(first, cond, update)|;
            ParseForHead(ts, pos) == Parsed((first, cond, update), end) && end < |ts| && At(ts, end, rest)
  {
    hide At, ShowCondition, ConditionShaped, ParseCondition, Ended, ShowAssignment, ShowDeclaration, ParseAssignment,
         ParseDeclaration;
    var tail := ShowCondition(cond) + (Sign(Semicolon) + (ShowInit(update) + rest));
    assert ShowForHead(first, cond, update) + rest == ShowInit(first) + tail;
    if first.Assign? {
      AssignmentParses(ts, pos, first.name, first.e, tail);
    } else {
      DeclarationParses(ts, pos, first.name, first.value, tail);
    }
    var condAt := pos + |ShowInit(first)|;
    ConditionParses(ts, condAt, cond, Sign(Semicolon) + (ShowInit(update) + rest));
    var endAt := condAt + |ShowCondition(cond)|;
    Step(ts, endAt, Token(Semicolon, ""), ShowInit(update) + rest);
    AssignmentParses(ts, endAt + 1, update.name, update.e, rest);
  }

  lemma {:induction false} MoreNamesParse(ts: seq<Token>, pos: nat, sofar: seq<string>, names: seq<string>, rest: seq<Token>)
    requires Ended(ts) && At(ts, pos, ShowMoreNames(names) + (Sign(RParen) + rest))
    ensures var end := pos + |ShowMoreNames(names)|;
            ParametersRest(ts, sofar, pos) == Parsed(sofar + names, end) && At(ts, end, Sign(RParen) + rest)
    decreases names
  {
    hide At, Ended;
    var close := Sign(RParen) + rest;
    if names == [] {
      assert ShowMoreNames(names) + close == close && sofar + names == sofar;
      Step(ts, pos, Token(RParen, ""), rest);
    } else {
      var tail := ShowMoreNames(names[1..]) + close;
      assert ShowMoreNames(names) + close == Sign(Comma) + (Ident(names[0]) + tail);
      Step(ts, pos, Token(Comma, ""), Ident(names[0]) + tail);
      Step(ts, pos + 1, Token(Identifier, names[0]), tail);
      MoreNamesParse(ts, pos + 2, sofar + [names[0]], names[1..], rest);
      assert sofar + [names[0]] + names[1..] == sofar + names;
    }
  }

  lemma NamesParse(ts: seq<Token>, pos: nat, names: seq<string>, rest: seq<Token>)
    requires Ended(ts) && At(ts, pos, ShowNames(names) + (Sign(RParen) + rest))
    ensures var end := pos + |ShowNames(names)|;
            ParseParameters(ts, pos) == Parsed(names, end) && At(ts, end, Sign(RParen) + rest)
  {
    hide At, Ended, ShowMoreNames, ParametersRest;
    var close := Sign(RParen) + rest;
    if names == [] {
      assert ShowNames(names) + close == close;
      Step(ts, pos, Token(RParen, ""), rest);
    } else {
      var tail := ShowMoreNames(names[1..]) + close;
      assert ShowNames(names) + close == Ident(names[0]) + tail;
      Step(ts, pos, Token(Identifier, names[0]), tail);
      MoreNamesParse(ts, pos + 1, [names[0]], names[1..], rest);
      assert [names[0]] + names[1..] == names;
    }
  }

  // ---------- statements ----------

  /** What a statement's parse must give: itself, and the place where what follows it stands. */
  ghost predicate Gives(ts: seq<Token>, pos: nat, s: Stmt, rest: seq<Token>) {
    Ended(ts) && pos < |ts| &&
    var end := pos + |ShowStatement(s)|;
    ParseStatement(ts, pos) == Parsed(s, end) && end < |ts| && At(ts, end, rest)
  }

  /** Tokens with neither an assignment sign nor an end of file among them. */
  predicate Ordinary(ts: seq<Token>) {
    forall k :: 0 <= k < |ts| ==> !ts[k].kind.EqualSign? && !ts[k].kind.EndOfFile?
  }

  lemma OrdinaryJoin(a: seq<Token>, b: seq<Token>)
    ensures Ordinary(a + b) <==> Ordinary(a) && Ordinary(b)
  {
    if Ordinary(a + b) {
      assert forall k :: 0 <= k < |a| ==> a[k] == (a + b)[k];
      assert forall k :: 0 <= k < |b| ==> b[k] == (a + b)[|a| + k];
    }
  }

  /** Three pieces, as an operation or its parenthesised form has. */
  lemma OrdinaryThree(a: seq<Token>, b: seq<Token>, c: seq<Token>)
    ensures Ordinary(a) && Ordinary(b) && Ordinary(c) ==> Ordinary(a + b + c)
  {
    hide Ordinary;
    OrdinaryJoin(a, b);
    OrdinaryJoin(a + b, c);
  }

  lemma {:induction false} OrdinaryExpression(e: Expr, place: Place)
    ensures Ordinary(Show(e, place))
    decreases e, 1
  {
    match e
    case Apply(f, args) =>
      hide ShowAll;
      OrdinaryArguments(args);
      OrdinaryThree(Ident(f) + Sign(LParen), ShowAll(args), Sign(RParen));
    case Bin(op, l, r) =>
      OrdinaryExpression(l, if IsTermSign(SignOf(op)) then AsTerm else AsSum);
      OrdinaryExpression(r, if IsTermSign(SignOf(op)) then AsFactor else AsTerm);
      hide *;
      OrdinaryOperation(e, place);
    case _ =>
  }

  lemma OrdinaryOperation(e: Expr, place: Place)
    requires e.Bin?
    requires Ordinary(Show(e.left, if IsTermSign(SignOf(e.op)) then AsTerm else AsSum))
    requires Ordinary(Show(e.right, if IsTermSign(SignOf(e.op)) then AsFactor else AsTerm))
    ensures Ordinary(Show(e, place))
  {
    var first := Show(e.left, if IsTermSign(SignOf(e.op)) then AsTerm else AsSum);
    var second := Show(e.right, if IsTermSign(SignOf(e.op)) then AsFactor else AsTerm);
    var body := first + Sign(SignOf(e.op)) + second;
    assert Show(e, place) == body || Show(e, place) == Sign(LParen) + body + Sign(RParen);
    OrdinarySigns(e.op);
    hide Ordinary, Show;
    OrdinaryThree(first, Sign(SignOf(e.op)), second);
    OrdinaryThree(Sign(LParen), body, Sign(RParen));
  }

  lemma OrdinarySigns(op: BinOp)
    ensures Ordinary(Sign(SignOf(op))) && Ordinary(Sign(LParen)) && Ordinary(Sign(RParen))
  {
  }

  lemma {:induction false} OrdinaryArguments(es: seq<Expr>)
    ensures Ordinary(ShowAll(es)) && Ordinary(ShowMore(es))
    decreases es, 0
  {
    if es != [] {
      OrdinaryExpression(es[0], AsSum);
      OrdinaryArguments(es[1..]);
      OrdinaryJoin(Show(es[0], AsSum), ShowMore(es[1..]));
      OrdinaryThree(Sign(Comma), Show(es[0], AsSum), ShowMore(es[1..]));
    }
  }

  lemma EvalParses(ts: seq<Token>, pos: nat, e: Expr, rest: seq<Token>)
    requires Ended(ts) && Shaped(Eval(e)) && At(ts, pos, ShowStatement(Eval(e)) + rest)
    ensures Gives(ts, pos, Eval(e), rest)
  {
    hide At, Show, Printable, ParseExpression, ParseAssignment;
    var shown, end := Show(e, AsSum), pos + |Show(e, AsSum)|;
    assert ShowStatement(Eval(e)) + rest == shown + (Sign(Semicolon) + rest);
    Part(ts, pos, e, Sign(Semicolon) + rest);
    Step(ts, end, Token(Semicolon, ""), rest);
    OrdinaryExpression(e, AsSum);
    if |shown| > 1 {
      AtSplits(ts, pos, [shown[0]], shown[1..] + (Sign(Semicolon) + rest)) by {
        assert [shown[0]] + (shown[1..] + (Sign(Semicolon) + rest)) == shown + (Sign(Semicolon) + rest);
      }
      assert ts[pos + 1] == shown[1];
    } else {
      assert ts[pos + 1] == ts[end];
    }
  }

  lemma BreakParses(ts: seq<Token>, pos: nat, rest: seq<Token>)
    requires Ended(ts) && At(ts, pos, ShowStatement(Break) + rest)
    ensures Gives(ts, pos, Break, rest)
  {
    hide At, Ended;
    assert ShowStatement(Break) + rest == Sign(BreakWord) + (Sign(Semicolon) + rest);
    Step(ts, pos, Token(BreakWord, ""), Sign(Semicolon) + rest);
    Step(ts, pos + 1, Token(Semicolon, ""), rest);
  }

  lemma ReturnParses(ts: seq<Token>, pos: nat, result: Option<Expr>, rest: seq<Token>)
    requires Ended(ts) && Shaped(Return(result)) && At(ts, pos, ShowStatement(Return(result)) + rest)
    ensures Gives(ts, pos, Return(result), rest)
  {
    hide At, Show, Printable, ParseExpression, Ended;
    var semi := Sign(Semicolon) + rest;
    if result.Some? {
      var shown := Show(result.value, AsSum);
      assert ShowStatement(Return(result)) + rest == Sign(ReturnWord) + (shown + semi);
      Step(ts, pos, Token(ReturnWord, ""), shown + semi);
      Part(ts, pos + 1, result.value, semi);
      FirstToken(result.value, AsSum);
      Step(ts, pos + 1 + |shown|, Token(Semicolon, ""), rest);
    } else {
      assert ShowStatement(Return(result)) + rest == Sign(ReturnWord) + semi;
      Step(ts, pos, Token(ReturnWord, ""), semi);
      Step(ts, pos + 1, Token(Semicolon, ""), rest);
    }
  }

  lemma ImportParses(ts: seq<Token>, pos: nat, file: string, rest: seq<Token>)
    requires Ended(ts) && At(ts, pos, ShowStatement(Import(file)) + rest)
    ensures Gives(ts, pos, Import(file), rest)
  {
    ImportTokens(ts, pos, file, rest);
    hide At, Ended;
    ImportRead(ts, pos, file);
  }

  lemma ImportTokens(ts: seq<Token>, pos: nat, file: string, rest: seq<Token>)
    requires At(ts, pos, ShowStatement(Import(file)) + rest)
    ensures pos + 5 < |ts| && At(ts, pos + 5, rest)
    ensures ts[pos].kind.ImportWord? && ts[pos + 1].kind.LParen? && ts[pos + 2] == Token(Literal, file)
    ensures ts[pos + 3].kind.RParen? && ts[pos + 4].kind.Semicolon?
    ensures |ShowStatement(Import(file))| == 5
  {
    hide At;
    var semi := Sign(Semicolon) + rest;
    var name := [Token(Literal, file)];
    assert ShowStatement(Import(file)) + rest == Sign(ImportWord) + (Sign(LParen) + (name + (Sign(RParen) + semi)));
    Step(ts, pos, Token(ImportWord, ""), Sign(LParen) + (name + (Sign(RParen) + semi)));
    Step(ts, pos + 1, Token(LParen, ""), name + (Sign(RParen) + semi));
    Step(ts, pos + 2, Token(Literal, file), Sign(RParen) + semi);
    Step(ts, pos + 3, Token(RParen, ""), semi);
    Step(ts, pos + 4, Token(Semicolon, ""), rest);
  }

  lemma ImportRead(ts: seq<Token>, pos: nat, file: string)
    requires Ended(ts) && pos + 5 < |ts|
    requires ts[pos].kind.ImportWord? && ts[pos + 1].kind.LParen? && ts[pos + 2] == Token(Literal, file)
    requires ts[pos + 3].kind.RParen? && ts[pos + 4].kind.Semicolon?
    ensures ParseStatement(ts, pos) == Parsed(Import(file), pos + 5)
  {
    hide ParseExpression;
  }

  // ---------- the induction ----------

  /** What can follow a statement: another one, a closing brace or the end of the list, never `else`. */
  predicate Follows(ts: seq<Token>, pos: nat) {
    pos < |ts| && !ts[pos].kind.ElseWord?
  }

  lemma {:induction false} StatementParses(ts: seq<Token>, pos: nat, s: Stmt, rest: seq<Token>)
    requires Ended(ts) && Shaped(s) && At(ts, pos, ShowStatement(s) + rest)
    requires Follows(ts, pos + |ShowStatement(s)|)
    ensures Gives(ts, pos, s, rest)
    decreases s, 1
  {
    match s
    case Declare(x, value) =>
      hide At, ShowDeclaration, ParseDeclaration;
      DeclarationParses(ts, pos, x, value, rest);
    case Assign(x, e) =>
      hide At, ShowAssignment, ParseAssignment;
      AssignmentParses(ts, pos, x, e, rest);
    case If(_, _, _) => hide *; IfParses(ts, pos, s, rest);
    case While(_, _) => hide *; WhileParses(ts, pos, s, rest);
    case For(_, _, _, _) => hide *; ForParses(ts, pos, s, rest);
    case Function(_, _, _) => hide *; FunctionParses(ts, pos, s, rest);
    case Eval(e) => hide *; EvalParses(ts, pos, e, rest);
    case Break => hide *; BreakParses(ts, pos, rest);
    case Return(result) => hide *; ReturnParses(ts, pos, result, rest);
    case Import(file) => hide *; ImportParses(ts, pos, file, rest);
  }

  /** The first token of a statement. */
  lemma StatementStarts(s: Stmt)
    requires Shaped(s)
    ensures |ShowStatement(s)| > 0
    ensures var k := ShowStatement(s)[0].kind; !k.RBrace? && !k.EndOfFile? && !k.ElseWord?
  {
    hide Show, ShowHead, ShowBody, ShowForHead, ShowNames;
  }

  lemma {:induction false} StatementsParse(ts: seq<Token>, pos: nat, ss: seq<Stmt>, rest: seq<Token>)
    requires Ended(ts) && AllShaped(ss) && At(ts, pos, ShowStatements(ss) + rest)
    requires var end := pos + |ShowStatements(ss)|; end < |ts| && (ts[end].kind.RBrace? || ts[end].kind.EndOfFile?)
    ensures var end := pos + |ShowStatements(ss)|;
            ParseStatements(ts, pos) == Parsed(ss, end) && At(ts, end, rest)
    decreases ss, 2
  {
    hide At, Shaped, ShowStatement, ParseStatement;
    if ss == [] {
      assert ShowStatements(ss) + rest == rest;
    } else {
      var tail := ShowStatements(ss[1..]) + rest;
      assert ShowStatements(ss) + rest == ShowStatement(ss[0]) + tail;
      var next := pos + |ShowStatement(ss[0])|;
      StatementStarts(ss[0]);
      AtSplits(ts, pos, ShowStatement(ss[0]), tail);
      if |ss| > 1 {
        StatementStarts(ss[1]);
        AtSplits(ts, next, ShowStatements(ss[1..]), rest);
      } else {
        assert ShowStatements(ss[1..]) == [];
      }
      StatementParses(ts, pos, ss[0], tail);
      StatementsParse(ts, next, ss[1..], rest);
      assert [ss[0]] + ss[1..] == ss;
    }
  }

  lemma {:induction false} BodyParses(ts: seq<Token>, pos: nat, ss: seq<Stmt>, rest: seq<Token>)
    requires Ended(ts) && AllShaped(ss) && At(ts, pos, ShowBody(ss) + rest)
    ensures var end := pos + |ShowBody(ss)|;
            ParseBody(ts, pos) == Parsed(ss, end) && end < |ts| && At(ts, end, rest)
    decreases ss, 3
  {
    hide At, Ended, AllShaped, ShowStatements, ParseStatements;
    var tail := ShowStatements(ss) + (Sign(RBrace) + rest);
    assert ShowBody(ss) + rest == Sign(LBrace) + tail;
    Step(ts, pos, Token(LBrace, ""), tail);
    AtSplits(ts, pos + 1, ShowStatements(ss), Sign(RBrace) + rest);
    Step(ts, pos + 1 + |ShowStatements(ss)|, Token(RBrace, ""), rest);
    StatementsParse(ts, pos + 1, ss, Sign(RBrace) + rest);
  }

  lemma {:induction false} IfParses(ts: seq<Token>, pos: nat, s: Stmt, rest: seq<Token>)
    requires Ended(ts) && Shaped(s) && s.If? && At(ts, pos, ShowStatement(s) + rest)
    requires Follows(ts, pos + |ShowStatement(s)|)
    ensures Gives(ts, pos, s, rest)
    decreases s, 0
  {
    hide At, Ended, AllShaped, ConditionShaped, ShowHead, ShowBody, ParseHead, ParseBody;
    var other := if s.els.Else? then Sign(ElseWord) + ShowBody(s.els.body) else [];
    var tail := ShowBody(s.body) + (other + rest);
    assert ShowStatement(s) + rest == Sign(IfWord) + (ShowHead(s.cond) + tail);
    Step(ts, pos, Token(IfWord, ""), ShowHead(s.cond) + tail);
    HeadParses(ts, pos + 1, s.cond, tail);
    var bodyAt := pos + 1 + |ShowHead(s.cond)|;
    BodyParses(ts, bodyAt, s.body, other + rest);
    var next := bodyAt + |ShowBody(s.body)|;
    if s.els.Else? {
      assert other + rest == Sign(ElseWord) + (ShowBody(s.els.body) + rest);
      Step(ts, next, Token(ElseWord, ""), ShowBody(s.els.body) + rest);
      BodyParses(ts, next + 1, s.els.body, rest);
    } else {
      assert other + rest == rest;
    }
    assert ParseIf(ts, pos).Parsed?;
  }

  lemma {:induction false} WhileParses(ts: seq<Token>, pos: nat, s: Stmt, rest: seq<Token>)
    requires Ended(ts) && Shaped(s) && s.While? && At(ts, pos, ShowStatement(s) + rest)
    ensures Gives(ts, pos, s, rest)
    decreases s, 0
  {
    hide At, Ended, AllShaped, ConditionShaped, ShowHead, ShowBody, ParseHead, ParseBody;
    var tail := ShowBody(s.body) + rest;
    assert ShowStatement(s) + rest == Sign(WhileWord) + (ShowHead(s.cond) + tail);
    Step(ts, pos, Token(WhileWord, ""), ShowHead(s.cond) + tail);
    HeadParses(ts, pos + 1, s.cond, tail);
    BodyParses(ts, pos + 1 + |ShowHead(s.cond)|, s.body, rest);
    assert ParseWhile(ts, pos).Parsed?;
  }

  lemma {:induction false} ForParses(ts: seq<Token>, pos: nat, s: Stmt, rest: seq<Token>)
    requires Ended(ts) && Shaped(s) && s.For? && At(ts, pos, ShowStatement(s) + rest)
    ensures Gives(ts, pos, s, rest)
    decreases s, 0
  {
    hide At, Ended, AllShaped, ConditionShaped, InitShaped, ShowForHead, ShowBody, ParseForHead, ParseBody;
    var head := ShowForHead(s.first, s.cond, s.update);
    var tail := Sign(RParen) + (ShowBody(s.body) + rest);
    assert ShowStatement(s) + rest == Sign(ForWord) + (Sign(LParen) + (head + tail));
    Step(ts, pos, Token(ForWord, ""), Sign(LParen) + (head + tail));
    Step(ts, pos + 1, Token(LParen, ""), head + tail);
    ForHeadParses(ts, pos + 2, s.first, s.cond, s.update, tail);
    var closeAt := pos + 2 + |head|;
    Step(ts, closeAt, Token(RParen, ""), ShowBody(s.body) + rest);
    BodyParses(ts, closeAt + 1, s.body, rest);
    assert ParseFor(ts, pos).Parsed?;
  }

  lemma {:induction false} FunctionParses(ts: seq<Token>, pos: nat, s: Stmt, rest: seq<Token>)
    requires Ended(ts) && Shaped(s) && s.Function? && At(ts, pos, ShowStatement(s) + rest)
    ensures Gives(ts, pos, s, rest)
    decreases s, 0
  {
    hide At, Ended, AllShaped, ShowNames, ShowBody, ParseParameters, ParseBody;
    var tail := Sign(RParen) + (ShowBody(s.body) + rest);
    var params := ShowNames(s.params);
    assert ShowStatement(s) + rest == Sign(FnWord) + (Ident(s.name) + (Sign(LParen) + (params + tail)));
    Step(ts, pos, Token(FnWord, ""), Ident(s.name) + (Sign(LParen) + (params + tail)));
    Step(ts, pos + 1, Token(Identifier, s.name), Sign(LParen) + (params + tail));
    Step(ts, pos + 2, Token(LParen, ""), params + tail);
    NamesParse(ts, pos + 3, s.params, ShowBody(s.body) + rest);
    var closeAt := pos + 3 + |params|;
    Step(ts, closeAt, Token(RParen, ""), ShowBody(s.body) + rest);
    BodyParses(ts, closeAt + 1, s.body, rest);
    assert ParseFunction(ts, pos).Parsed?;
  }

  // ---------- programs ----------

  /** Printed statements have no end-of-file token. */
  predicate Plain(ts: seq<Token>) {
    forall k :: 0 <= k < |ts| ==> !ts[k].kind.EndOfFile?
  }

  lemma PlainJoin(a: seq<Token>, b: seq<Token>)
    requires Plain(a) && Plain(b)
    ensures Plain(a + b)
  {
  }

  /** A piece between two single tokens. */
  lemma PlainBetween(t: Token, a: seq<Token>, u: Token)
    requires Plain(a) && !t.kind.EndOfFile? && !u.kind.EndOfFile?
    ensures Plain([t] + (a + [u])) && Plain([t] + a) && Plain(a + [u])
  {
  }

  lemma PlainExpression(e: Expr, place: Place)
    ensures Plain(Show(e, place))
  {
    OrdinaryExpression(e, place);
  }

  lemma {:induction false} PlainNames(names: seq<string>)
    ensures Plain(ShowMoreNames(names)) && Plain(ShowNames(names))
  {
    if names != [] {
      PlainNames(names[1..]);
    }
  }

  lemma PlainCondition(e: Expr)
    ensures Plain(ShowCondition(e)) && Plain(ShowHead(e))
  {
    hide Show, Plain;
    PlainExpression(e, AsSum);
    if Compares(e) {
      PlainExpression(e.left, AsSum);
      PlainExpression(e.right, AsSum);
      PlainBetween(Token(SignOf(e.op), ""), Show(e.right, AsSum), Token(RParen, ""));
      PlainJoin(Show(e.left, AsSum), Sign(SignOf(e.op)) + Show(e.right, AsSum));
    }
    PlainBetween(Token(LParen, ""), ShowCondition(e), Token(RParen, ""));
  }

  lemma PlainInit(s: Stmt)
    ensures Plain(ShowInit(s))
  {
    hide Show;
    match s
    case Declare(_, value) => if value.Some? { PlainExpression(value.value, AsSum); }
    case Assign(_, e) => PlainExpression(e, AsSum);
    case _ =>
  }

  lemma {:induction false} PlainBody(ss: seq<Stmt>)
    ensures Plain(ShowBody(ss)) && Plain(Sign(ElseWord) + ShowBody(ss)) && Plain(Sign(RParen) + ShowBody(ss))
    decreases ss, 1
  {
    hide ShowStatements;
    PlainStatements(ss);
    PlainBetween(Token(LBrace, ""), ShowStatements(ss), Token(RBrace, ""));
  }

  lemma {:induction false} PlainStatement(s: Stmt)
    ensures Plain(ShowStatement(s))
    decreases s, 1
  {
    match s
    case Declare(_, _) => hide ShowDeclaration; PlainInit(s);
    case Assign(_, _) => hide ShowAssignment; PlainInit(s);
    case If(_, _, _) => PlainIf(s);
    case While(cond, body) =>
      hide ShowHead, ShowBody;
      PlainCondition(cond);
      PlainBody(body);
    case For(_, _, _, _) => PlainFor(s);
    case Eval(e) => hide Show; PlainExpression(e, AsSum);
    case Function(name, params, body) =>
      hide ShowNames, ShowBody;
      PlainNames(params);
      PlainBody(body);
      PlainJoin(ShowNames(params), Sign(RParen) + ShowBody(body));
    case Return(result) => hide Show; if result.Some? { PlainExpression(result.value, AsSum); }
    case _ =>
  }

  lemma {:induction false} PlainIf(s: Stmt)
    requires s.If?
    ensures Plain(ShowStatement(s))
    decreases s, 0
  {
    hide ShowHead, ShowBody;
    PlainCondition(s.cond);
    PlainBody(s.body);
    if s.els.Else? { PlainBody(s.els.body); }
    var other := if s.els.Else? then Sign(ElseWord) + ShowBody(s.els.body) else [];
    PlainJoin(ShowBody(s.body), other);
    PlainJoin(ShowHead(s.cond), ShowBody(s.body) + other);
  }

  lemma {:induction false} PlainFor(s: Stmt)
    requires s.For?
    ensures Plain(ShowStatement(s))
    decreases s, 0
  {
    hide ShowCondition, ShowInit, ShowBody;
    PlainInit(s.first);
    PlainCondition(s.cond);
    PlainInit(s.update);
    PlainBody(s.body);
    PlainJoin(ShowCondition(s.cond), Sign(Semicolon) + ShowInit(s.update));
    PlainJoin(ShowInit(s.first), ShowCondition(s.cond) + (Sign(Semicolon) + ShowInit(s.update)));
    PlainJoin(ShowForHead(s.first, s.cond, s.update), Sign(RParen) + ShowBody(s.body));
  }

  lemma {:induction false} PlainStatements(ss: seq<Stmt>)
    ensures Plain(ShowStatements(ss))
    decreases ss, 0
  {
    hide ShowStatement;
    if ss != [] {
      PlainStatement(ss[0]);
      PlainStatements(ss[1..]);
    }
  }

  /** A token list that holds a printed program and nothing else. */
  function ShowProgram(ss: seq<Stmt>): seq<Token> {
    ShowStatements(ss) + Sign(EndOfFile)
  }

  lemma {:induction false} ProgramParsesFrom(ts: seq<Token>, pos: nat, ss: seq<Stmt>)
    requires Ended(ts) && AllShaped(ss) && At(ts, pos, ShowStatements(ss)) && pos + |ShowStatements(ss)| == |ts| - 1
    ensures ParseProgram(ts, pos) == Parsed(ss, |ts| - 1)
    decreases ss
  {
    hide At, Shaped, ShowStatement, ParseStatement;
    if ss != [] {
      var tail := ShowStatements(ss[1..]);
      StatementStarts(ss[0]);
      AtSplits(ts, pos, ShowStatement(ss[0]), tail);
      if |ss| > 1 { StatementStarts(ss[1]); }
      StatementParses(ts, pos, ss[0], tail);
      ProgramParsesFrom(ts, pos + |ShowStatement(ss[0])|, ss[1..]);
      assert [ss[0]] + ss[1..] == ss;
    }
  }

  /** Parsing the tokens of any grammar-shaped program gives that program back, with precedence and association kept. */
  lemma ProgramRoundTrip(ss: seq<Stmt>)
    requires AllShaped(ss)
    ensures Ended(ShowProgram(ss)) && ParseProgram(ShowProgram(ss), 0) == Parsed(ss, |ShowProgram(ss)| - 1)
  {
    hide ShowStatements, AllShaped, ParseProgram;
    PlainStatements(ss);
    var ts := ShowProgram(ss);
    assert ts[0..|ShowStatements(ss)|] == ShowStatements(ss);
    ProgramParsesFrom(ts, 0, ss);
  }
}
