/** The parser as it runs: a token list, a position that moves over it, and loops over signs and bodies. */
module ParserRun {
  import opened Common
  import opened Nyva
  import opened NyvaParser

  class Parser {
    const tokens: seq<Token>
    var position: nat

    constructor (ts: seq<Token>)
      requires Ended(ts)
      ensures Ready() && tokens == ts && position == 0
    {
      tokens, position := ts, 0;
    }

    /** There is a token to look at: the end-of-file token is never passed. */
    predicate Ready()
      reads this
    {
      Ended(tokens) && position < |tokens|
    }

    function Kind(): Kind
      reads this
      requires Ready()
    {
      tokens[position].kind
    }

    /** A method's result is what the specification gives, or both fail. */
    ghost predicate Did<T>(ok: bool, tree: T, r: Parse<T>)
      reads this
    {
      Ready() && ok == r.Parsed? && (ok ==> r == Parsed(tree, position))
    }

    method Take(kind: Kind) returns (ok: bool, value: string)
      requires Ready() && !kind.EndOfFile?
      modifies this
      ensures Did(ok, value, Expect(tokens, old(position), kind))
    {
      ok, value := Kind() == kind, tokens[position].value;
      if ok {
        position := position + 1;
      }
    }

    method Factor() returns (ok: bool, e: Expr)
      requires Ready()
      modifies this
      ensures Did(ok, e, ParseFactor(tokens, old(position)))
      decreases |tokens| - position, 0
    {
      hide ParseExpression, ParseArguments, Atoi;
      ok, e := true, Num(0);
      var token := tokens[position];
      match token.kind {
        case Number =>
          position := position + 1;
          e := Num(Atoi(token.value));
        case Literal =>
          position := position + 1;
          e := Expr.Text(token.value);
        case Identifier =>
          position := position + 1;
          if Kind().LParen? {
            position := position + 1;
            var args, skip;
            ok, args := ArgumentList();
            if !ok { return; }
            ok, skip := Take(RParen);
            e := Apply(token.value, args);
          } else {
            e := Name(token.value);
          }
        case LParen =>
          position := position + 1;
          var skip;
          ok, e := Expression();
          if !ok { return; }
          ok, skip := Take(RParen);
        case _ =>
          ok := false;
      }
    }

    /** The loop over products and quotients. */
    method Term() returns (ok: bool, left: Expr)
      requires Ready()
      modifies this
      ensures Did(ok, left, ParseTerm(tokens, old(position)))
      decreases |tokens| - position, 1
    {
      hide ParseFactor;
      var start := position;
      ok, left := Factor();
      while ok && IsTermSign(Kind())
        invariant Ready() && (ok ==> position > start)
        invariant ParseTerm(tokens, start) == if ok then TermRest(tokens, left, position) else Failed
        decreases ok, |tokens| - position
      {
        var op := OpOf(Kind());
        position := position + 1;
        var right;
        ok, right := Factor();
        left := Bin(op, left, right);
      }
    }

    /** The loop over sums and differences. */
    method Expression() returns (ok: bool, left: Expr)
      requires Ready()
      modifies this
      ensures Did(ok, left, ParseExpression(tokens, old(position)))
      decreases |tokens| - position, 2
    {
      hide ParseTerm;
      var start := position;
      ok, left := Term();
      while ok && IsSumSign(Kind())
        invariant Ready() && (ok ==> position > start)
        invariant ParseExpression(tokens, start) == if ok then SumRest(tokens, left, position) else Failed
        decreases ok, |tokens| - position
      {
        var op := OpOf(Kind());
        position := position + 1;
        var right;
        ok, right := Term();
        left := Bin(op, left, right);
      }
    }

    method ArgumentList() returns (ok: bool, args: seq<Expr>)
      requires Ready()
      modifies this
      ensures Did(ok, args, ParseArguments(tokens, old(position)))
      decreases |tokens| - position, 3
    {
      hide ParseExpression;
      var start := position;
      ok, args := true, [];
      if Kind().RParen? {
        return;
      }
      var e;
      ok, e := Expression();
      args := [e];
      while ok && Kind().Comma?
        invariant Ready() && (ok ==> position > start)
        invariant ParseArguments(tokens, start) == if ok then ArgumentsRest(tokens, args, position) else Failed
        decreases ok, |tokens| - position
      {
        position := position + 1;
        ok, e := Expression();
        args := args + [e];
      }
    }

    method Condition() returns (ok: bool, e: Expr)
      requires Ready()
      modifies this
      ensures Did(ok, e, ParseCondition(tokens, old(position)))
    {
      hide ParseExpression;
      ok, e := Expression();
      if ok && IsComparison(Kind()) {
        var op := OpOf(Kind());
        position := position + 1;
        var right;
        ok, right := Expression();
        e := Bin(op, e, right);
      }
    }

    method Declaration() returns (ok: bool, s: Stmt)
      requires Ready()
      modifies this
      ensures Did(ok, s, ParseDeclaration(tokens, old(position)))
    {
      hide ParseExpression;
      s := Break;
      var word, name, e, skip;
      ok, word := Take(VarWord);
      if !ok { return; }
      ok, name := Take(Identifier);
      if !ok { return; }
      s := Declare(name, None);
      if Kind().EqualSign? {
        position := position + 1;
        ok, e := Expression();
        if !ok { return; }
        s := Declare(name, Some(e));
      }
      ok, skip := Take(Semicolon);
    }

    method Assignment() returns (ok: bool, s: Stmt)
      requires Ready()
      modifies this
      ensures Did(ok, s, ParseAssignment(tokens, old(position)))
    {
      hide ParseExpression;
      s := Break;
      var name, skip, e;
      ok, name := Take(Identifier);
      if !ok { return; }
      ok, skip := Take(EqualSign);
      if !ok { return; }
      ok, e := Expression();
      if !ok { return; }
      s := Assign(name, e);
      ok, skip := Take(Semicolon);
    }

    method Head() returns (ok: bool, e: Expr)
      requires Ready()
      modifies this
      ensures Did(ok, e, ParseHead(tokens, old(position)))
    {
      hide ParseCondition;
      e := Num(0);
      var skip;
      ok, skip := Take(LParen);
      if !ok { return; }
      ok, e := Condition();
      if !ok { return; }
      ok, skip := Take(RParen);
    }

    method Parameters() returns (ok: bool, names: seq<string>)
      requires Ready()
      modifies this
      ensures Did(ok, names, ParseParameters(tokens, old(position)))
    {
      var start := position;
      ok, names := true, [];
      if Kind().RParen? {
        return;
      }
      var name;
      ok, name := Take(Identifier);
      names := [name];
      while ok && Kind().Comma?
        invariant Ready() && (ok ==> position > start)
        invariant ParseParameters(tokens, start) == if ok then ParametersRest(tokens, names, position) else Failed
        decreases ok, |tokens| - position
      {
        position := position + 1;
        ok, name := Take(Identifier);
        names := names + [name];
      }
    }

    /** The loop over the statements of a body, and the braces around it. */
    method Body() returns (ok: bool, body: seq<Stmt>)
      requires Ready()
      modifies this
      ensures Did(ok, body, ParseBody(tokens, old(position)))
      decreases |tokens| - position, 0
    {
      hide ParseStatement;
      body := [];
      var skip;
      ok, skip := Take(LBrace);
      if !ok { return; }
      var start := position;
      BehindNothing(ParseStatements(tokens, start));
      while ok && !Kind().RBrace? && !Kind().EndOfFile?
        invariant Ready() && (ok ==> position >= start)
        invariant ParseStatements(tokens, start) == if ok then Behind(body, ParseStatements(tokens, position)) else Failed
        decreases ok, |tokens| - position
      {
        var s;
        ok, s := Statement();
        if ok { BehindOne(body, s, ParseStatements(tokens, position)); }
        body := body + [s];
      }
      if ok {
        assert body + [] == body;
        ok, skip := Take(RBrace);
      }
    }

    method IfStatement() returns (ok: bool, s: Stmt)
      requires Ready() && Kind().IfWord?
      modifies this
      ensures Did(ok, s, ParseIf(tokens, old(position)))
      decreases |tokens| - position, 1
    {
      hide ParseHead, ParseBody;
      s := Break;
      position := position + 1;
      var cond, body, other;
      ok, cond := Head();
      if !ok { return; }
      ok, body := Body();
      if !ok { return; }
      s := If(cond, body, NoElse);
      if Kind().ElseWord? {
        position := position + 1;
        ok, other := Body();
        s := If(cond, body, Else(other));
      }
    }

    method WhileStatement() returns (ok: bool, s: Stmt)
      requires Ready() && Kind().WhileWord?
      modifies this
      ensures Did(ok, s, ParseWhile(tokens, old(position)))
      decreases |tokens| - position, 1
    {
      hide ParseHead, ParseBody;
      s := Break;
      position := position + 1;
      var cond, body;
      ok, cond := Head();
      if !ok { return; }
      ok, body := Body();
      s := While(cond, body);
    }

    method ForHead() returns (ok: bool, head: (Stmt, Expr, Stmt))
      requires Ready()
      modifies this
      ensures Did(ok, head, ParseForHead(tokens, old(position)))
    {
      hide ParseDeclaration, ParseAssignment, ParseCondition;
      head := (Break, Num(0), Break);
      var first, cond, update, skip;
      if Kind().VarWord? {
        ok, first := Declaration();
      } else {
        ok, first := Assignment();
      }
      if !ok { return; }
      ok, cond := Condition();
      if !ok { return; }
      ok, skip := Take(Semicolon);
      if !ok { return; }
      ok, update := Assignment();
      head := (first, cond, update);
    }

    method ForStatement() returns (ok: bool, s: Stmt)
      requires Ready() && Kind().ForWord?
      modifies this
      ensures Did(ok, s, ParseFor(tokens, old(position)))
      decreases |tokens| - position, 1
    {
      hide ParseForHead, ParseBody;
      s := Break;
      position := position + 1;
      var head, body, skip;
      ok, skip := Take(LParen);
      if !ok { return; }
      ok, head := ForHead();
      if !ok { return; }
      ok, skip := Take(RParen);
      if !ok { return; }
      ok, body := Body();
      s := For(head.0, head.1, head.2, body);
    }

    method FunctionDefinition() returns (ok: bool, s: Stmt)
      requires Ready() && Kind().FnWord?
      modifies this
      ensures Did(ok, s, ParseFunction(tokens, old(position)))
      decreases |tokens| - position, 1
    {
      hide ParseParameters, ParseBody;
      s := Break;
      position := position + 1;
      var name, params, body, skip;
      ok, name := Take(Identifier);
      if !ok { return; }
      ok, skip := Take(LParen);
      if !ok { return; }
      ok, params := Parameters();
      if !ok { return; }
      ok, skip := Take(RParen);
      if !ok { return; }
      ok, body := Body();
      s := Function(name, params, body);
    }

    /** return, import and break. */
    method ShortStatement() returns (ok: bool, s: Stmt)
      requires Ready() && (Kind().ReturnWord? || Kind().ImportWord? || Kind().BreakWord?)
      modifies this
      ensures Did(ok, s, ParseShort(tokens, old(position)))
    {
      hide ParseExpression;
      ok, s := true, Break;
      var word, skip := Kind(), "";
      position := position + 1;
      if word.ReturnWord? {
        s := Return(None);
        if !Kind().Semicolon? {
          var e;
          ok, e := Expression();
          s := Return(Some(e));
        }
      } else if word.ImportWord? {
        ok, skip := Take(LParen);
        if !ok { return; }
        var file;
        ok, file := Take(Literal);
        if !ok { return; }
        ok, skip := Take(RParen);
        s := Import(file);
      }
      if ok {
        ok, skip := Take(Semicolon);
      }
    }

    method Statement() returns (ok: bool, s: Stmt)
      requires Ready()
      modifies this
      ensures Did(ok, s, ParseStatement(tokens, old(position)))
      decreases |tokens| - position, 2
    {
      hide ParseDeclaration, ParseAssignment, ParseIf, ParseFunction, ParseFor, ParseWhile, ParseShort, ParseExpression;
      ok, s := false, Break;
      match Kind() {
        case VarWord => ok, s := Declaration();
        case IfWord => ok, s := IfStatement();
        case FnWord => ok, s := FunctionDefinition();
        case ForWord => ok, s := ForStatement();
        case WhileWord => ok, s := WhileStatement();
        case ReturnWord => ok, s := ShortStatement();
        case ImportWord => ok, s := ShortStatement();
        case BreakWord => ok, s := ShortStatement();
        case Identifier =>
          if tokens[position + 1].kind.EqualSign? {
            ok, s := Assignment();
          } else {
            var e, skip;
            ok, e := Expression();
            if !ok { return; }
            s := Eval(e);
            ok, skip := Take(Semicolon);
          }
        case _ =>
      }
    }

    /** parser_parse_program: it ends on every token list, on the end-of-file token or with an error. */
    method Program() returns (ok: bool, program: seq<Stmt>)
      requires Ready()
      modifies this
      ensures Did(ok, program, ParseProgram(tokens, old(position)))
    {
      hide ParseStatement;
      ok, program := true, [];
      var start := position;
      BehindNothing(ParseProgram(tokens, start));
      while ok && !Kind().EndOfFile?
        invariant Ready()
        invariant ParseProgram(tokens, start) == if ok then Behind(program, ParseProgram(tokens, position)) else Failed
        decreases ok, |tokens| - position
      {
        var s;
        ok, s := Statement();
        if ok { BehindOne(program, s, ParseProgram(tokens, position)); }
        program := program + [s];
      }
      assert program + [] == program;
    }
  }

  /** Statements parsed so far, before those still to be parsed. */
  function Behind(done: seq<Stmt>, r: Parse<seq<Stmt>>): Parse<seq<Stmt>> {
    if r.Parsed? then Parsed(done + r.tree, r.pos) else Failed
  }

  lemma BehindNothing(r: Parse<seq<Stmt>>)
    ensures Behind([], r) == r
  {
    if r.Parsed? {
      assert [] + r.tree == r.tree;
    }
  }

  lemma BehindOne(done: seq<Stmt>, s: Stmt, r: Parse<seq<Stmt>>)
    ensures Behind(done, if r.Parsed? then Parsed([s] + r.tree, r.pos) else Failed) == Behind(done + [s], r)
  {
    if r.Parsed? {
      assert done + ([s] + r.tree) == done + [s] + r.tree;
    }
  }
}
