/** The statements and programs the Nyva parser accepts. */
module NyvaSentences {
  import opened Common
  import opened Nyva
  import opened NyvaParser
  import opened NyvaGrammar

  // ---------- written statements ----------

  datatype Condition = Plain(w: Written) | Compared(sign: Kind, left: Written, right: Written)

  datatype Sentence =
    | Declaring(x: string, value: Option<Written>)
    | Assigning(x: string, w: Written)
    | Branching(cond: Condition, body: seq<Sentence>, others: Others)
    | Repeating(cond: Condition, body: seq<Sentence>)
    | Counting(first: Sentence, cond: Condition, update: Sentence, body: seq<Sentence>)
    | Breaking
    | Evaluating(w: Written)
    | Defining(name: string, params: seq<string>, body: seq<Sentence>)
    | Returning(result: Option<Written>)
    | Importing(file: string)

  datatype Others = NoOthers | Others(body: seq<Sentence>)

  predicate CondFits(c: Condition) {
    match c
    case Plain(w) => Fits(w, Sum)
    case Compared(k, l, r) => IsComparison(k) && Fits(l, Sum) && Fits(r, Sum)
  }

  /** A statement that is an expression begins with a name. */
  predicate Formed(s: Sentence)
    decreases s, 1
  {
    match s
    case Declaring(_, value) => value.Some? ==> Fits(value.value, Sum)
    case Assigning(_, w) => Fits(w, Sum)
    case Branching(c, body, others) => CondFits(c) && AllFormed(body) && (others.Others? ==> AllFormed(others.body))
    case Repeating(c, body) => CondFits(c) && AllFormed(body)
    case Counting(first, c, update, body) =>
      (first.Declaring? || first.Assigning?) && Formed(first) && CondFits(c) && update.Assigning? && Formed(update)
      && AllFormed(body)
    case Evaluating(w) => Fits(w, Sum) && Spell(w)[0].kind.Identifier?
    case Defining(_, _, body) => AllFormed(body)
    case Returning(result) => result.Some? ==> Fits(result.value, Sum)
    case _ => true
  }

  predicate AllFormed(ss: seq<Sentence>)
    decreases ss, 0
  {
    ss == [] || (Formed(ss[0]) && AllFormed(ss[1..]))
  }

  function SpellCond(c: Condition): (ts: seq<Token>)
    ensures ts != []
  {
    match c
    case Plain(w) => Spell(w)
    case Compared(k, l, r) => Spell(l) + (Sign(k) + Spell(r))
  }

  function SpellNames(xs: seq<string>): seq<Token> {
    if xs == [] then []
    else SpellNames(xs[..|xs| - 1]) + ((if |xs| > 1 then Sign(Comma) else []) + Word(Identifier, xs[|xs| - 1]))
  }

  /** `( condition )` */
  function SpellHead(c: Condition): seq<Token> {
    Sign(LParen) + (SpellCond(c) + Sign(RParen))
  }

  /** `= expression`, or nothing. */
  function SpellValue(value: Option<Written>): seq<Token> {
    if value.Some? then Sign(EqualSign) + Spell(value.value) else []
  }

  /** An assignment without its semicolon is one in the head of a `for`; the parser wants the semicolon there, too. */
  function SpellOne(s: Sentence): (ts: seq<Token>)
    ensures ts != []
    decreases s, 1
  {
    match s
    case Declaring(x, value) => Sign(VarWord) + (Word(Identifier, x) + (SpellValue(value) + Sign(Semicolon)))
    case Assigning(x, w) => Word(Identifier, x) + (Sign(EqualSign) + (Spell(w) + Sign(Semicolon)))
    case Branching(c, body, others) =>
      Sign(IfWord) + (SpellHead(c) + (SpellBody(body) +
        (if others.Others? then Sign(ElseWord) + SpellBody(others.body) else [])))
    case Repeating(c, body) => Sign(WhileWord) + (SpellHead(c) + SpellBody(body))
    case Counting(first, c, update, body) =>
      Sign(ForWord) + (Sign(LParen) + (SpellOne(first) + (SpellCond(c) + (Sign(Semicolon) + (SpellOne(update)
        + (Sign(RParen) + SpellBody(body)))))))
    case Breaking => Sign(BreakWord) + Sign(Semicolon)
    case Evaluating(w) => Spell(w) + Sign(Semicolon)
    case Defining(name, params, body) =>
      Sign(FnWord) + (Word(Identifier, name) + (Sign(LParen) + (SpellNames(params) + (Sign(RParen) + SpellBody(body)))))
    case Returning(result) =>
      Sign(ReturnWord) + ((if result.Some? then Spell(result.value) else []) + Sign(Semicolon))
    case Importing(file) =>
      Sign(ImportWord) + (Sign(LParen) + (Word(Kind.Literal, file) + (Sign(RParen) + Sign(Semicolon))))
  }

  function SpellEach(ss: seq<Sentence>): seq<Token>
    decreases ss, 0
  {
    if ss == [] then [] else SpellOne(ss[0]) + SpellEach(ss[1..])
  }

  /** `{ statements }` */
  function SpellBody(ss: seq<Sentence>): seq<Token>
    decreases ss, 1
  {
    Sign(LBrace) + (SpellEach(ss) + Sign(RBrace))
  }

  function CondTree(c: Condition): Expr
    requires CondFits(c)
  {
    match c
    case Plain(w) => Tree(w)
    case Compared(k, l, r) => Bin(OpOf(k), Tree(l), Tree(r))
  }

  function TreeOne(s: Sentence): Stmt
    requires Formed(s)
    decreases s, 1
  {
    match s
    case Declaring(x, value) => Declare(x, if value.Some? then Some(Tree(value.value)) else None)
    case Assigning(x, w) => Assign(x, Tree(w))
    case Branching(c, body, others) =>
      If(CondTree(c), TreeEach(body), if others.Others? then Else(TreeEach(others.body)) else NoElse)
    case Repeating(c, body) => While(CondTree(c), TreeEach(body))
    case Counting(first, c, update, body) => For(TreeOne(first), CondTree(c), TreeOne(update), TreeEach(body))
    case Breaking => Break
    case Evaluating(w) => Eval(Tree(w))
    case Defining(name, params, body) => Function(name, params, TreeEach(body))
    case Returning(result) => Return(if result.Some? then Some(Tree(result.value)) else None)
    case Importing(file) => Import(file)
  }

  function TreeEach(ss: seq<Sentence>): seq<Stmt>
    requires AllFormed(ss)
    decreases ss, 0
  {
    if ss == [] then [] else [TreeOne(ss[0])] + TreeEach(ss[1..])
  }

  // ---------- what is accepted ----------

  lemma Chain(ts: seq<Token>, pos: nat, a: seq<Token>, b: seq<Token>)
    requires Stands(ts, pos, a) && Stands(ts, pos + |a|, b)
    ensures Stands(ts, pos, a + b)
  {
    hide Stands;
    Joins(ts, pos, a, b);
  }

  lemma SignStands(ts: seq<Token>, pos: nat, k: Kind)
    requires pos < |ts| && ts[pos].kind == k && Valueless(k)
    ensures Stands(ts, pos, Sign(k))
  {
  }

  lemma WordStands(ts: seq<Token>, pos: nat, k: Kind)
    requires pos < |ts| && ts[pos].kind == k
    ensures Stands(ts, pos, Word(k, ts[pos].value))
  {
  }

  ghost predicate CondFound(ts: seq<Token>, pos: nat, c: Condition, r: Parse<Expr>) {
    CondFits(c) && Stands(ts, pos, SpellCond(c)) && r == Parsed(CondTree(c), pos + |SpellCond(c)|)
  }

  lemma ConditionFound(ts: seq<Token>, pos: nat) returns (c: Condition)
    requires Ended(ts) && pos < |ts| && ParseCondition(ts, pos).Parsed?
    ensures CondFound(ts, pos, c, ParseCondition(ts, pos))
  {
    var l := ExpressionFound(ts, pos);
    var mid := pos + |Spell(l)|;
    if IsComparison(ts[mid].kind) {
      var r := ExpressionFound(ts, mid + 1);
      hide Stands, Spell, Tree, Fits, ParseExpression;
      c := Compared(ts[mid].kind, l, r);
      SignStands(ts, mid, ts[mid].kind);
      Chain(ts, mid, Sign(ts[mid].kind), Spell(r));
      Chain(ts, pos, Spell(l), Sign(ts[mid].kind) + Spell(r));
    } else {
      c := Plain(l);
    }
  }

  lemma HeadFound(ts: seq<Token>, pos: nat) returns (c: Condition)
    requires Ended(ts) && pos < |ts| && ParseHead(ts, pos).Parsed?
    ensures CondFits(c) && Stands(ts, pos, SpellHead(c)) && ParseHead(ts, pos) == Parsed(CondTree(c), pos + |SpellHead(c)|)
  {
    c := ConditionFound(ts, pos + 1);
    hide Stands, SpellCond, CondTree, CondFits, ParseCondition;
    Between(ts, pos, LParen, SpellCond(c), RParen);
  }

  /** What a parse of a statement must have found. */
  ghost predicate OneFound(ts: seq<Token>, pos: nat, s: Sentence, r: Parse<Stmt>) {
    Formed(s) && Stands(ts, pos, SpellOne(s)) && r == Parsed(TreeOne(s), pos + |SpellOne(s)|)
  }

  lemma AssignmentFound(ts: seq<Token>, pos: nat) returns (s: Sentence)
    requires Ended(ts) && pos < |ts| && ParseAssignment(ts, pos).Parsed?
    ensures s.Assigning? && OneFound(ts, pos, s, ParseAssignment(ts, pos))
  {
    var w := ExpressionFound(ts, pos + 2);
    var end := pos + 2 + |Spell(w)|;
    hide Stands, Spell, Tree, Fits, ParseExpression;
    s := Assigning(ts[pos].value, w);
    SignStands(ts, end, Semicolon);
    SignStands(ts, pos + 1, EqualSign);
    WordStands(ts, pos, Identifier);
    Chain(ts, pos + 2, Spell(w), Sign(Semicolon));
    Chain(ts, pos + 1, Sign(EqualSign), Spell(w) + Sign(Semicolon));
    Chain(ts, pos, Word(Identifier, ts[pos].value), Sign(EqualSign) + (Spell(w) + Sign(Semicolon)));
  }

  ghost predicate ValueAt(ts: seq<Token>, pos: nat, value: Option<Written>) {
    (value.Some? ==> Fits(value.value, Sum)) && Stands(ts, pos, SpellValue(value))
  }

  function ValueTree(value: Option<Written>): Option<Expr>
    requires value.Some? ==> Fits(value.value, Sum)
  {
    if value.Some? then Some(Tree(value.value)) else None
  }

  lemma ValueStands(ts: seq<Token>, pos: nat, w: Written)
    requires pos < |ts| && ts[pos].kind.EqualSign? && Fits(w, Sum) && Stands(ts, pos + 1, Spell(w))
    ensures ValueAt(ts, pos, Some(w)) && |SpellValue(Some(w))| == 1 + |Spell(w)|
  {
    SignStands(ts, pos, EqualSign);
    hide Stands, Spell, Fits;
    Chain(ts, pos, Sign(EqualSign), Spell(w));
  }

  lemma NoValueStands(ts: seq<Token>, pos: nat)
    requires pos < |ts|
    ensures ValueAt(ts, pos, None) && |SpellValue(None)| == 0
  {
  }

  lemma DeclareStands(ts: seq<Token>, pos: nat, value: Option<Written>)
    requires pos + 1 < |ts| && ts[pos].kind.VarWord? && ts[pos + 1].kind.Identifier? && ValueAt(ts, pos + 2, value)
    requires pos + 2 + |SpellValue(value)| < |ts| && ts[pos + 2 + |SpellValue(value)|].kind.Semicolon?
    ensures OneFound(ts, pos, Declaring(ts[pos + 1].value, value),
                     Parsed(Declare(ts[pos + 1].value, ValueTree(value)), pos + 3 + |SpellValue(value)|))
  {
    var name, shown := Word(Identifier, ts[pos + 1].value), SpellValue(value);
    SignStands(ts, pos, VarWord);
    WordStands(ts, pos + 1, Identifier);
    SignStands(ts, pos + 2 + |shown|, Semicolon);
    hide Stands, SpellValue, Tree, Fits;
    Chain(ts, pos + 2, shown, Sign(Semicolon));
    Chain(ts, pos + 1, name, shown + Sign(Semicolon));
    Chain(ts, pos, Sign(VarWord), name + (shown + Sign(Semicolon)));
  }

  lemma DeclarationFound(ts: seq<Token>, pos: nat) returns (s: Sentence)
    requires Ended(ts) && pos < |ts| && ParseDeclaration(ts, pos).Parsed?
    ensures s.Declaring? && OneFound(ts, pos, s, ParseDeclaration(ts, pos))
  {
    hide OneFound, ValueAt, Stands, ParseExpression, SpellValue, Spell, Tree;
    if ts[pos + 2].kind.EqualSign? {
      var w := ExpressionFound(ts, pos + 3);
      s := Declaring(ts[pos + 1].value, Some(w));
      ValueStands(ts, pos + 2, w);
      DeclareStands(ts, pos, Some(w));
    } else {
      s := Declaring(ts[pos + 1].value, None);
      NoValueStands(ts, pos + 2);
      DeclareStands(ts, pos, None);
    }
  }

  lemma {:induction false} NamesFound(ts: seq<Token>, pos: nat) returns (xs: seq<string>)
    requires Ended(ts) && pos < |ts| && ParseParameters(ts, pos).Parsed?
    ensures Stands(ts, pos, SpellNames(xs)) && ParseParameters(ts, pos) == Parsed(xs, pos + |SpellNames(xs)|)
  {
    if ts[pos].kind.RParen? {
      xs := [];
    } else {
      var first := [ts[pos].value];
      assert first[..0] == [] && SpellNames(first) == Word(Identifier, first[0]);
      WordStands(ts, pos, Identifier);
      hide Stands, SpellNames;
      xs := MoreNamesFound(ts, first, pos, pos + 1);
    }
  }

  lemma {:induction false} MoreNamesFound(ts: seq<Token>, sofar: seq<string>, from: nat, pos: nat) returns (xs: seq<string>)
    requires Ended(ts) && pos < |ts| && pos == from + |SpellNames(sofar)| && Stands(ts, from, SpellNames(sofar)) && sofar != []
    requires ParametersRest(ts, sofar, pos).Parsed?
    ensures Stands(ts, from, SpellNames(xs)) && ParametersRest(ts, sofar, pos) == Parsed(xs, from + |SpellNames(xs)|)
    decreases |ts| - pos
  {
    if !ts[pos].kind.Comma? {
      xs := sofar;
    } else {
      var more := sofar + [ts[pos + 1].value];
      assert more[..|sofar|] == sofar;
      assert SpellNames(more) == SpellNames(sofar) + (Sign(Comma) + Word(Identifier, ts[pos + 1].value));
      hide Stands, SpellNames;
      SignStands(ts, pos, Comma);
      WordStands(ts, pos + 1, Identifier);
      Chain(ts, pos, Sign(Comma), Word(Identifier, ts[pos + 1].value));
      Chain(ts, from, SpellNames(sofar), Sign(Comma) + Word(Identifier, ts[pos + 1].value));
      xs := MoreNamesFound(ts, more, from, pos + 2);
    }
  }

  lemma ShortFound(ts: seq<Token>, pos: nat) returns (s: Sentence)
    requires Ended(ts) && pos < |ts| && (ts[pos].kind.ReturnWord? || ts[pos].kind.ImportWord? || ts[pos].kind.BreakWord?)
    requires ParseShort(ts, pos).Parsed?
    ensures OneFound(ts, pos, s, ParseShort(ts, pos))
  {
    hide OneFound, ParseExpression;
    if ts[pos].kind.BreakWord? {
      s := Breaking;
      BreakStands(ts, pos);
    } else if ts[pos].kind.ReturnWord? {
      if ts[pos + 1].kind.Semicolon? {
        s := Returning(None);
        ReturnStands(ts, pos);
      } else {
        var w := ExpressionFound(ts, pos + 1);
        s := Returning(Some(w));
        ResultStands(ts, pos, w);
      }
    } else {
      s := Importing(ts[pos + 2].value);
      ImportStands(ts, pos);
    }
  }

  lemma BreakStands(ts: seq<Token>, pos: nat)
    requires pos + 1 < |ts| && ts[pos].kind.BreakWord? && ts[pos + 1].kind.Semicolon?
    ensures OneFound(ts, pos, Breaking, Parsed(Break, pos + 2))
  {
    SignStands(ts, pos, BreakWord);
    SignStands(ts, pos + 1, Semicolon);
    hide Stands;
    Chain(ts, pos, Sign(BreakWord), Sign(Semicolon));
  }

  lemma ReturnStands(ts: seq<Token>, pos: nat)
    requires pos + 1 < |ts| && ts[pos].kind.ReturnWord? && ts[pos + 1].kind.Semicolon?
    ensures OneFound(ts, pos, Returning(None), Parsed(Return(None), pos + 2))
  {
    SignStands(ts, pos, ReturnWord);
    SignStands(ts, pos + 1, Semicolon);
    assert [] + Sign(Semicolon) == Sign(Semicolon);
    hide Stands;
    Chain(ts, pos, Sign(ReturnWord), Sign(Semicolon));
  }

  lemma ResultStands(ts: seq<Token>, pos: nat, w: Written)
    requires Fits(w, Sum) && Stands(ts, pos + 1, Spell(w)) && pos + 1 + |Spell(w)| < |ts|
    requires ts[pos].kind.ReturnWord? && ts[pos + 1 + |Spell(w)|].kind.Semicolon?
    ensures OneFound(ts, pos, Returning(Some(w)), Parsed(Return(Some(Tree(w))), pos + 2 + |Spell(w)|))
  {
    hide Stands, Spell, Tree, Fits;
    SignStands(ts, pos, ReturnWord);
    SignStands(ts, pos + 1 + |Spell(w)|, Semicolon);
    Chain(ts, pos + 1, Spell(w), Sign(Semicolon));
    Chain(ts, pos, Sign(ReturnWord), Spell(w) + Sign(Semicolon));
  }

  lemma ImportStands(ts: seq<Token>, pos: nat)
    requires pos + 4 < |ts| && ts[pos].kind.ImportWord? && ts[pos + 1].kind.LParen? && ts[pos + 2].kind.Literal?
    requires ts[pos + 3].kind.RParen? && ts[pos + 4].kind.Semicolon?
    ensures OneFound(ts, pos, Importing(ts[pos + 2].value), Parsed(Import(ts[pos + 2].value), pos + 5))
  {
    SignStands(ts, pos, ImportWord);
    SignStands(ts, pos + 1, LParen);
    WordStands(ts, pos + 2, Kind.Literal);
    SignStands(ts, pos + 3, RParen);
    SignStands(ts, pos + 4, Semicolon);
    hide Stands;
    var file := Word(Kind.Literal, ts[pos + 2].value);
    Chain(ts, pos + 3, Sign(RParen), Sign(Semicolon));
    Chain(ts, pos + 2, file, Sign(RParen) + Sign(Semicolon));
    Chain(ts, pos + 1, Sign(LParen), file + (Sign(RParen) + Sign(Semicolon)));
    Chain(ts, pos, Sign(ImportWord), Sign(LParen) + (file + (Sign(RParen) + Sign(Semicolon))));
  }

  ghost predicate EachFound(ts: seq<Token>, pos: nat, ss: seq<Sentence>, r: Parse<seq<Stmt>>) {
    AllFormed(ss) && Stands(ts, pos, SpellEach(ss)) && r == Parsed(TreeEach(ss), pos + |SpellEach(ss)|)
  }

  ghost predicate BodyFound(ts: seq<Token>, pos: nat, ss: seq<Sentence>, r: Parse<seq<Stmt>>) {
    AllFormed(ss) && Stands(ts, pos, SpellBody(ss)) && r == Parsed(TreeEach(ss), pos + |SpellBody(ss)|)
  }

  lemma {:induction false} BlockFound(ts: seq<Token>, pos: nat) returns (ss: seq<Sentence>)
    requires Ended(ts) && pos < |ts| && ParseBody(ts, pos).Parsed?
    ensures BodyFound(ts, pos, ss, ParseBody(ts, pos))
    decreases |ts| - pos, 0
  {
    ss := StatementsFound(ts, pos + 1);
    hide Stands, SpellEach, TreeEach, AllFormed, ParseStatements;
    Between(ts, pos, LBrace, SpellEach(ss), RBrace);
  }

  lemma {:induction false} StatementsFound(ts: seq<Token>, pos: nat) returns (ss: seq<Sentence>)
    requires Ended(ts) && pos < |ts| && ParseStatements(ts, pos).Parsed?
    ensures EachFound(ts, pos, ss, ParseStatements(ts, pos))
    decreases |ts| - pos, 3
  {
    hide *;
    NoneRun(ts, pos);
    if ts[pos].kind.RBrace? || ts[pos].kind.EndOfFile? {
      ss := [];
      NoneFound(ts, pos);
    } else {
      StatementsNeed(ts, pos);
      var first := StatementFound(ts, pos);
      OneFoundFacts(ts, pos, first);
      var mid := pos + |SpellOne(first)|;
      var rest := StatementsFound(ts, mid);
      ss := [first] + rest;
      EachFoundJoins(ts, pos, first, rest);
    }
  }

  lemma NoneFound(ts: seq<Token>, pos: nat)
    requires pos < |ts|
    ensures EachFound(ts, pos, [], Parsed([], pos))
  {
  }

  lemma StatementsNeed(ts: seq<Token>, pos: nat)
    requires Ended(ts) && pos < |ts| && ParseStatements(ts, pos).Parsed? && !ts[pos].kind.RBrace? && !ts[pos].kind.EndOfFile?
    ensures var first := ParseStatement(ts, pos);
            && first.Parsed? && pos < first.pos < |ts| && ParseStatements(ts, first.pos).Parsed?
            && ParseStatements(ts, pos)
               == Parsed([first.tree] + ParseStatements(ts, first.pos).tree, ParseStatements(ts, first.pos).pos)
  {
    hide ParseStatement;
  }

  lemma OneFoundFacts(ts: seq<Token>, pos: nat, s: Sentence)
    requires Ended(ts) && pos < |ts| && OneFound(ts, pos, s, ParseStatement(ts, pos))
    ensures Formed(s) && Stands(ts, pos, SpellOne(s)) && ParseStatement(ts, pos) == Parsed(TreeOne(s), pos + |SpellOne(s)|)
  {
    hide ParseStatement, Formed, Stands, SpellOne, TreeOne;
  }

  lemma EachFoundJoins(ts: seq<Token>, pos: nat, s: Sentence, rest: seq<Sentence>)
    requires Ended(ts) && pos < |ts| && Formed(s) && Stands(ts, pos, SpellOne(s)) && pos + |SpellOne(s)| < |ts|
    requires EachFound(ts, pos + |SpellOne(s)|, rest, ParseStatements(ts, pos + |SpellOne(s)|))
    ensures EachFound(ts, pos, [s] + rest, Parsed([TreeOne(s)] + TreeEach(rest), ParseStatements(ts, pos + |SpellOne(s)|).pos))
    ensures ParseStatements(ts, pos + |SpellOne(s)|).tree == TreeEach(rest)
  {
    hide Stands, SpellOne, SpellEach, TreeOne, TreeEach, Formed, AllFormed, ParseStatements;
    Chain(ts, pos, SpellOne(s), SpellEach(rest));
    Cons(s, rest);
  }

  lemma Cons(s: Sentence, ss: seq<Sentence>)
    requires Formed(s) && AllFormed(ss)
    ensures AllFormed([s] + ss) && SpellEach([s] + ss) == SpellOne(s) + SpellEach(ss)
    ensures TreeEach([s] + ss) == [TreeOne(s)] + TreeEach(ss)
  {
    assert ([s] + ss)[1..] == ss;
  }

  ghost predicate HeadAt(ts: seq<Token>, pos: nat, c: Condition) {
    CondFits(c) && Stands(ts, pos, SpellHead(c))
  }

  ghost predicate BodyAt(ts: seq<Token>, pos: nat, ss: seq<Sentence>) {
    AllFormed(ss) && Stands(ts, pos, SpellBody(ss))
  }

  lemma IfStands(ts: seq<Token>, pos: nat, c: Condition, body: seq<Sentence>)
    requires pos < |ts| && ts[pos].kind.IfWord? && HeadAt(ts, pos + 1, c) && BodyAt(ts, pos + 1 + |SpellHead(c)|, body)
    ensures OneFound(ts, pos, Branching(c, body, NoOthers),
                     Parsed(If(CondTree(c), TreeEach(body), NoElse), pos + 1 + |SpellHead(c)| + |SpellBody(body)|))
  {
    SignStands(ts, pos, IfWord);
    hide Stands, SpellHead, SpellBody, TreeEach, AllFormed, CondFits, CondTree;
    assert SpellBody(body) + [] == SpellBody(body);
    Chain(ts, pos + 1, SpellHead(c), SpellBody(body));
    Chain(ts, pos, Sign(IfWord), SpellHead(c) + SpellBody(body));
  }

  lemma IfElseStands(ts: seq<Token>, pos: nat, c: Condition, body: seq<Sentence>, others: seq<Sentence>)
    requires pos < |ts| && ts[pos].kind.IfWord? && HeadAt(ts, pos + 1, c) && BodyAt(ts, pos + 1 + |SpellHead(c)|, body)
    requires var end := pos + 1 + |SpellHead(c)| + |SpellBody(body)|;
             end < |ts| && ts[end].kind.ElseWord? && BodyAt(ts, end + 1, others)
    ensures var s := Branching(c, body, Others(others));
            Stands(ts, pos, SpellOne(s)) && |SpellOne(s)| == 2 + |SpellHead(c)| + |SpellBody(body)| + |SpellBody(others)|
  {
    hide *;
    PartsOfBody(ts, pos + 1 + |SpellHead(c)|, body);
    PartsOfHead(ts, pos + 1, c);
    PartsOfBody(ts, pos + 1 + |SpellHead(c)| + |SpellBody(body)| + 1, others);
    IfElseSpelt(c, body, others);
    IfElsePieces(ts, pos, SpellHead(c), SpellBody(body), SpellBody(others));
  }

  lemma PartsOfBody(ts: seq<Token>, pos: nat, ss: seq<Sentence>)
    requires BodyAt(ts, pos, ss)
    ensures Stands(ts, pos, SpellBody(ss))
  {
  }

  lemma PartsOfHead(ts: seq<Token>, pos: nat, c: Condition)
    requires HeadAt(ts, pos, c)
    ensures Stands(ts, pos, SpellHead(c))
  {
  }

  lemma IfElseSpelt(c: Condition, body: seq<Sentence>, others: seq<Sentence>)
    ensures SpellOne(Branching(c, body, Others(others)))
            == Sign(IfWord) + (SpellHead(c) + (SpellBody(body) + (Sign(ElseWord) + SpellBody(others))))
    ensures |SpellOne(Branching(c, body, Others(others)))|
            == 2 + |SpellHead(c)| + |SpellBody(body)| + |SpellBody(others)|
  {
    hide SpellHead, SpellBody;
  }

  lemma IfElsePieces(ts: seq<Token>, pos: nat, head: seq<Token>, a: seq<Token>, b: seq<Token>)
    requires pos < |ts| && ts[pos].kind.IfWord? && Stands(ts, pos + 1, head) && Stands(ts, pos + 1 + |head|, a)
    requires var end := pos + 1 + |head| + |a|; end < |ts| && ts[end].kind.ElseWord? && Stands(ts, end + 1, b)
    ensures Stands(ts, pos, Sign(IfWord) + (head + (a + (Sign(ElseWord) + b))))
  {
    var end := pos + 1 + |head| + |a|;
    SignStands(ts, pos, IfWord);
    SignStands(ts, end, ElseWord);
    hide Stands;
    Chain(ts, end, Sign(ElseWord), b);
    Chain(ts, pos + 1 + |head|, a, Sign(ElseWord) + b);
    Chain(ts, pos + 1, head, a + (Sign(ElseWord) + b));
    Chain(ts, pos, Sign(IfWord), head + (a + (Sign(ElseWord) + b)));
  }

  lemma IfElseTree(c: Condition, body: seq<Sentence>, others: seq<Sentence>)
    requires CondFits(c) && AllFormed(body) && AllFormed(others)
    ensures var s := Branching(c, body, Others(others));
            Formed(s) && TreeOne(s) == If(CondTree(c), TreeEach(body), Else(TreeEach(others)))
  {
    hide CondTree, TreeEach, CondFits, AllFormed;
  }

  lemma {:induction false} IfFound(ts: seq<Token>, pos: nat) returns (s: Sentence)
    requires Ended(ts) && pos < |ts| && ts[pos].kind.IfWord? && ParseIf(ts, pos).Parsed?
    ensures OneFound(ts, pos, s, ParseIf(ts, pos))
    decreases |ts| - pos, 1
  {
    hide ParseHead, ParseBody, Stands, SpellHead, SpellBody, CondTree, TreeEach, CondFits, AllFormed;
    var c := HeadFound(ts, pos + 1);
    var at := pos + 1 + |SpellHead(c)|;
    var body := BlockFound(ts, at);
    var end := at + |SpellBody(body)|;
    if ts[end].kind.ElseWord? {
      var others := BlockFound(ts, end + 1);
      s := Branching(c, body, Others(others));
      IfElseTree(c, body, others);
      IfElseStands(ts, pos, c, body, others);
      hide SpellOne, TreeOne, Formed;
    } else {
      s := Branching(c, body, NoOthers);
      hide OneFound;
      IfStands(ts, pos, c, body);
    }
  }

  lemma WhileStands(ts: seq<Token>, pos: nat, c: Condition, body: seq<Sentence>)
    requires pos < |ts| && ts[pos].kind.WhileWord? && HeadAt(ts, pos + 1, c) && BodyAt(ts, pos + 1 + |SpellHead(c)|, body)
    ensures OneFound(ts, pos, Repeating(c, body),
                     Parsed(While(CondTree(c), TreeEach(body)), pos + 1 + |SpellHead(c)| + |SpellBody(body)|))
  {
    SignStands(ts, pos, WhileWord);
    hide Stands, SpellHead, SpellBody, TreeEach, AllFormed, CondFits, CondTree;
    Chain(ts, pos + 1, SpellHead(c), SpellBody(body));
    Chain(ts, pos, Sign(WhileWord), SpellHead(c) + SpellBody(body));
  }

  lemma {:induction false} WhileFound(ts: seq<Token>, pos: nat) returns (s: Sentence)
    requires Ended(ts) && pos < |ts| && ts[pos].kind.WhileWord? && ParseWhile(ts, pos).Parsed?
    ensures OneFound(ts, pos, s, ParseWhile(ts, pos))
    decreases |ts| - pos, 1
  {
    hide OneFound, ParseHead, ParseBody, Stands, SpellHead, SpellBody, CondTree, TreeEach, CondFits, AllFormed;
    var c := HeadFound(ts, pos + 1);
    var body := BlockFound(ts, pos + 1 + |SpellHead(c)|);
    s := Repeating(c, body);
    WhileStands(ts, pos, c, body);
  }

  /** The head of a `for`: first statement, condition, update. */
  function SpellForHead(first: Sentence, c: Condition, update: Sentence): seq<Token> {
    SpellOne(first) + (SpellCond(c) + (Sign(Semicolon) + SpellOne(update)))
  }

  ghost predicate ForHeadAt(ts: seq<Token>, pos: nat, first: Sentence, c: Condition, update: Sentence) {
    && (first.Declaring? || first.Assigning?) && Formed(first) && CondFits(c) && update.Assigning? && Formed(update)
    && Stands(ts, pos, SpellForHead(first, c, update))
  }

  lemma ForHeadStands(ts: seq<Token>, pos: nat, first: Sentence, c: Condition, update: Sentence)
    requires (first.Declaring? || first.Assigning?) && Formed(first) && CondFits(c) && update.Assigning? && Formed(update)
    requires Stands(ts, pos, SpellOne(first)) && Stands(ts, pos + |SpellOne(first)|, SpellCond(c))
    requires var semi := pos + |SpellOne(first)| + |SpellCond(c)|;
             semi < |ts| && ts[semi].kind.Semicolon? && Stands(ts, semi + 1, SpellOne(update))
    ensures ForHeadAt(ts, pos, first, c, update)
    ensures |SpellForHead(first, c, update)| == |SpellOne(first)| + |SpellCond(c)| + 1 + |SpellOne(update)|
  {
    hide Stands, SpellOne, SpellCond, CondFits, Formed;
    PartsStand(ts, pos, SpellOne(first), SpellCond(c), SpellOne(update));
  }

  lemma PartsStand(ts: seq<Token>, pos: nat, a: seq<Token>, b: seq<Token>, d: seq<Token>)
    requires Stands(ts, pos, a) && Stands(ts, pos + |a|, b) && pos + |a| + |b| < |ts| && ts[pos + |a| + |b|].kind.Semicolon?
    requires Stands(ts, pos + |a| + |b| + 1, d)
    ensures Stands(ts, pos, a + (b + (Sign(Semicolon) + d)))
  {
    SignStands(ts, pos + |a| + |b|, Semicolon);
    hide Stands;
    Chain(ts, pos + |a| + |b|, Sign(Semicolon), d);
    Chain(ts, pos + |a|, b, Sign(Semicolon) + d);
    Chain(ts, pos, a, b + (Sign(Semicolon) + d));
  }

  lemma InitFound(ts: seq<Token>, pos: nat) returns (s: Sentence)
    requires Ended(ts) && pos < |ts|
    requires if ts[pos].kind.VarWord? then ParseDeclaration(ts, pos).Parsed? else ParseAssignment(ts, pos).Parsed?
    ensures s.Declaring? || s.Assigning?
    ensures OneFound(ts, pos, s, if ts[pos].kind.VarWord? then ParseDeclaration(ts, pos) else ParseAssignment(ts, pos))
  {
    hide OneFound, ParseDeclaration, ParseAssignment;
    if ts[pos].kind.VarWord? {
      s := DeclarationFound(ts, pos);
    } else {
      s := AssignmentFound(ts, pos);
    }
  }

  lemma ForHeadFound(ts: seq<Token>, pos: nat) returns (first: Sentence, c: Condition, update: Sentence)
    requires Ended(ts) && pos < |ts| && ParseForHead(ts, pos).Parsed?
    ensures ForHeadAt(ts, pos, first, c, update)
    ensures ParseForHead(ts, pos)
            == Parsed((TreeOne(first), CondTree(c), TreeOne(update)), pos + |SpellForHead(first, c, update)|)
  {
    hide Stands, SpellOne, SpellCond, SpellForHead, TreeOne, CondTree, CondFits, Formed, ParseDeclaration, ParseAssignment,
         ParseCondition;
    first := InitFound(ts, pos);
    var at := pos + |SpellOne(first)|;
    c := ConditionFound(ts, at);
    var semi := at + |SpellCond(c)|;
    update := AssignmentFound(ts, semi + 1);
    ForHeadStands(ts, pos, first, c, update);
  }

  lemma ForStands(ts: seq<Token>, pos: nat, first: Sentence, c: Condition, update: Sentence, body: seq<Sentence>)
    requires pos + 1 < |ts| && ts[pos].kind.ForWord? && ts[pos + 1].kind.LParen? && ForHeadAt(ts, pos + 2, first, c, update)
    requires var close := pos + 2 + |SpellForHead(first, c, update)|;
             close < |ts| && ts[close].kind.RParen? && BodyAt(ts, close + 1, body)
    ensures var s := Counting(first, c, update, body);
            Stands(ts, pos, SpellOne(s)) && |SpellOne(s)| == 3 + |SpellForHead(first, c, update)| + |SpellBody(body)|
  {
    hide Stands, SpellCond, SpellBody, SpellForHead, SpellOne, CondFits, AllFormed;
    ForSpelt(first, c, update, body);
    LoopStands(ts, pos, SpellForHead(first, c, update), SpellBody(body));
  }

  lemma LoopStands(ts: seq<Token>, pos: nat, head: seq<Token>, block: seq<Token>)
    requires pos + 1 < |ts| && ts[pos].kind.ForWord? && ts[pos + 1].kind.LParen? && Stands(ts, pos + 2, head)
    requires pos + 2 + |head| < |ts| && ts[pos + 2 + |head|].kind.RParen? && Stands(ts, pos + 3 + |head|, block)
    ensures var all := Sign(ForWord) + (Sign(LParen) + (head + (Sign(RParen) + block)));
            Stands(ts, pos, all) && |all| == 3 + |head| + |block|
  {
    var tail := Sign(RParen) + block;
    SignStands(ts, pos, ForWord);
    SignStands(ts, pos + 1, LParen);
    SignStands(ts, pos + 2 + |head|, RParen);
    hide Stands;
    Chain(ts, pos + 2 + |head|, Sign(RParen), block);
    Chain(ts, pos + 2, head, tail);
    Chain(ts, pos + 1, Sign(LParen), head + tail);
    Chain(ts, pos, Sign(ForWord), Sign(LParen) + (head + tail));
  }

  lemma ForTree(ts: seq<Token>, pos: nat, first: Sentence, c: Condition, update: Sentence, body: seq<Sentence>)
    requires ForHeadAt(ts, pos, first, c, update) && AllFormed(body)
    ensures Formed(first) && Formed(update) && CondFits(c)
    ensures Formed(Counting(first, c, update, body))
    ensures TreeOne(Counting(first, c, update, body)) == For(TreeOne(first), CondTree(c), TreeOne(update), TreeEach(body))
  {
  }

  lemma ForSpelt(first: Sentence, c: Condition, update: Sentence, body: seq<Sentence>)
    ensures SpellOne(Counting(first, c, update, body))
            == Sign(ForWord) + (Sign(LParen) + (SpellForHead(first, c, update) + (Sign(RParen) + SpellBody(body))))
  {
    var a, b, d, tail := SpellOne(first), SpellCond(c), SpellOne(update), Sign(RParen) + SpellBody(body);
    hide SpellCond, SpellBody;
    assert a + (b + (Sign(Semicolon) + d)) + tail == a + (b + (Sign(Semicolon) + (d + tail)));
  }

  lemma {:induction false} ForFound(ts: seq<Token>, pos: nat) returns (s: Sentence)
    requires Ended(ts) && pos < |ts| && ts[pos].kind.ForWord? && ParseFor(ts, pos).Parsed?
    ensures OneFound(ts, pos, s, ParseFor(ts, pos))
    decreases |ts| - pos, 1
  {
    hide ForHeadAt, ParseForHead, ParseBody, Stands, SpellForHead, SpellBody, SpellOne, CondTree, TreeEach, TreeOne, AllFormed,
         Formed, CondFits;
    var first, c, update := ForHeadFound(ts, pos + 2);
    var close := pos + 2 + |SpellForHead(first, c, update)|;
    var body := BlockFound(ts, close + 1);
    s := Counting(first, c, update, body);
    ForTree(ts, pos + 2, first, c, update, body);
    ForStands(ts, pos, first, c, update, body);
  }

  lemma FunctionStands(ts: seq<Token>, pos: nat, xs: seq<string>, body: seq<Sentence>)
    requires pos + 2 < |ts| && ts[pos].kind.FnWord? && ts[pos + 1].kind.Identifier? && ts[pos + 2].kind.LParen?
    requires Stands(ts, pos + 3, SpellNames(xs))
    requires var close := pos + 3 + |SpellNames(xs)|; close < |ts| && ts[close].kind.RParen? && BodyAt(ts, close + 1, body)
    ensures OneFound(ts, pos, Defining(ts[pos + 1].value, xs, body),
                     Parsed(Function(ts[pos + 1].value, xs, TreeEach(body)), pos + 4 + |SpellNames(xs)| + |SpellBody(body)|))
  {
    var close := pos + 3 + |SpellNames(xs)|;
    hide Stands, SpellNames, SpellBody, TreeEach, AllFormed;
    FunctionPieces(ts, pos, SpellNames(xs), SpellBody(body));
  }

  lemma FunctionPieces(ts: seq<Token>, pos: nat, names: seq<Token>, block: seq<Token>)
    requires pos + 2 < |ts| && ts[pos].kind.FnWord? && ts[pos + 1].kind.Identifier? && ts[pos + 2].kind.LParen?
    requires Stands(ts, pos + 3, names)
    requires var close := pos + 3 + |names|; close < |ts| && ts[close].kind.RParen? && Stands(ts, close + 1, block)
    ensures var name := Word(Identifier, ts[pos + 1].value);
            Stands(ts, pos, Sign(FnWord) + (name + (Sign(LParen) + (names + (Sign(RParen) + block)))))
  {
    var name, tail := Word(Identifier, ts[pos + 1].value), Sign(RParen) + block;
    SignStands(ts, pos, FnWord);
    WordStands(ts, pos + 1, Identifier);
    SignStands(ts, pos + 2, LParen);
    SignStands(ts, pos + 3 + |names|, RParen);
    hide Stands;
    Chain(ts, pos + 3 + |names|, Sign(RParen), block);
    Chain(ts, pos + 3, names, tail);
    Chain(ts, pos + 2, Sign(LParen), names + tail);
    Chain(ts, pos + 1, name, Sign(LParen) + (names + tail));
    Chain(ts, pos, Sign(FnWord), name + (Sign(LParen) + (names + tail)));
  }

  lemma {:induction false} FunctionFound(ts: seq<Token>, pos: nat) returns (s: Sentence)
    requires Ended(ts) && pos < |ts| && ts[pos].kind.FnWord? && ParseFunction(ts, pos).Parsed?
    ensures OneFound(ts, pos, s, ParseFunction(ts, pos))
    decreases |ts| - pos, 1
  {
    hide OneFound, ParseParameters, ParseBody, Stands, SpellNames, SpellBody, TreeEach, AllFormed;
    var xs := NamesFound(ts, pos + 3);
    var close := pos + 3 + |SpellNames(xs)|;
    var body := BlockFound(ts, close + 1);
    s := Defining(ts[pos + 1].value, xs, body);
    FunctionStands(ts, pos, xs, body);
  }

  lemma {:induction false} StatementFound(ts: seq<Token>, pos: nat) returns (s: Sentence)
    requires Ended(ts) && pos < |ts| && ParseStatement(ts, pos).Parsed?
    ensures OneFound(ts, pos, s, ParseStatement(ts, pos))
    decreases |ts| - pos, 2
  {
    hide ParseDeclaration, ParseAssignment, ParseIf, ParseFunction, ParseFor, ParseWhile, ParseShort, ParseExpression, OneFound;
    match ts[pos].kind
    case VarWord => s := DeclarationFound(ts, pos);
    case IfWord => s := IfFound(ts, pos);
    case FnWord => s := FunctionFound(ts, pos);
    case ForWord => s := ForFound(ts, pos);
    case WhileWord => s := WhileFound(ts, pos);
    case ReturnWord => s := ShortFound(ts, pos);
    case ImportWord => s := ShortFound(ts, pos);
    case BreakWord => s := ShortFound(ts, pos);
    case Identifier =>
      if ts[pos + 1].kind.EqualSign? {
        s := AssignmentFound(ts, pos);
      } else {
        var w := ExpressionFound(ts, pos);
        s := Evaluating(w);
        EvalFound(ts, pos, w);
      }
  }

  lemma EvalFound(ts: seq<Token>, pos: nat, w: Written)
    requires Ended(ts) && pos < |ts| && ts[pos].kind.Identifier? && Found(ts, pos, w, Sum, ParseExpression(ts, pos))
    requires pos + |Spell(w)| < |ts| - 1 && ts[pos + |Spell(w)|].kind.Semicolon?
    ensures OneFound(ts, pos, Evaluating(w), Parsed(Eval(Tree(w)), pos + |Spell(w)| + 1))
  {
    assert Same(ts[pos + 0], Spell(w)[0]);
    hide Stands, Spell, Tree, ParseExpression;
    SignStands(ts, pos + |Spell(w)|, Semicolon);
    Chain(ts, pos, Spell(w), Sign(Semicolon));
  }

  lemma {:induction false} WholeFound(ts: seq<Token>, pos: nat) returns (ss: seq<Sentence>)
    requires Ended(ts) && pos < |ts| && ParseProgram(ts, pos).Parsed?
    ensures EachFound(ts, pos, ss, ParseProgram(ts, pos))
    decreases |ts| - pos
  {
    if ts[pos].kind.EndOfFile? {
      ss := [];
    } else {
      var first := StatementFound(ts, pos);
      var mid := pos + |SpellOne(first)|;
      var rest := WholeFound(ts, mid);
      ss := [first] + rest;
      hide Stands, SpellOne, SpellEach, TreeOne, TreeEach, Formed, AllFormed, ParseStatement;
      Chain(ts, pos, SpellOne(first), SpellEach(rest));
      Cons(first, rest);
    }
  }

  // ---------- what is written is accepted ----------

  lemma Unchain(ts: seq<Token>, pos: nat, a: seq<Token>, b: seq<Token>)
    requires Stands(ts, pos, a + b)
    ensures Stands(ts, pos, a) && Stands(ts, pos + |a|, b)
  {
    hide Stands;
    Joins(ts, pos, a, b);
  }

  lemma FirstOf(ts: seq<Token>, pos: nat, t: Token, rest: seq<Token>)
    requires Stands(ts, pos, [t] + rest)
    ensures pos < |ts| && Same(ts[pos], t) && ts[pos].kind == t.kind && Stands(ts, pos + 1, rest)
  {
    One(ts, pos, t);
    hide Stands;
    Joins(ts, pos, [t], rest);
  }

  lemma LastOf(ts: seq<Token>, pos: nat, a: seq<Token>, k: Kind)
    requires Stands(ts, pos, a + Sign(k))
    ensures Stands(ts, pos, a) && pos + |a| < |ts| && ts[pos + |a|].kind == k
  {
    One(ts, pos + |a|, Token(k, ""));
    hide Stands;
    Joins(ts, pos, a, Sign(k));
  }

  lemma ConditionRuns(ts: seq<Token>, pos: nat, c: Condition)
    requires Ended(ts) && CondFits(c) && Stands(ts, pos, SpellCond(c)) && pos + |SpellCond(c)| < |ts|
    requires ts[pos + |SpellCond(c)|].kind.RParen? || ts[pos + |SpellCond(c)|].kind.Semicolon?
    ensures ParseCondition(ts, pos) == Parsed(CondTree(c), pos + |SpellCond(c)|)
  {
    StopsAt(ts[pos + |SpellCond(c)|].kind);
    if c.Plain? {
      hide Stands, ParseExpression, Spell, Tree, Fits;
      SumRuns(ts, pos, c.w);
    } else {
      hide *;
      ComparisonRuns(ts, pos, c);
    }
  }

  lemma ComparisonRuns(ts: seq<Token>, pos: nat, c: Condition)
    requires Ended(ts) && c.Compared? && CondFits(c) && Stands(ts, pos, SpellCond(c)) && pos + |SpellCond(c)| < |ts|
    requires Stops(ts[pos + |SpellCond(c)|].kind)
    ensures ParseCondition(ts, pos) == Parsed(CondTree(c), pos + |SpellCond(c)|)
  {
    var k, l, r := c.sign, c.left, c.right;
    var mid, end := pos + |Spell(l)|, pos + |SpellCond(c)|;
    ComparedFacts(c);
    hide *;
    Unchain(ts, pos, Spell(l), Sign(k) + Spell(r));
    FirstOf(ts, mid, Token(k, ""), Spell(r));
    StopsAt(k);
    StopsAt(ts[end].kind);
    SumRuns(ts, pos, l);
    SumRuns(ts, mid + 1, r);
    ConditionReads(ts, pos, Tree(l), mid, Tree(r), end);
  }

  lemma ComparedFacts(c: Condition)
    requires c.Compared? && CondFits(c)
    ensures Fits(c.left, Sum) && Fits(c.right, Sum) && IsComparison(c.sign)
    ensures SpellCond(c) == Spell(c.left) + (Sign(c.sign) + Spell(c.right))
    ensures |SpellCond(c)| == |Spell(c.left)| + 1 + |Spell(c.right)|
    ensures CondTree(c) == Bin(OpOf(c.sign), Tree(c.left), Tree(c.right))
  {
  }

  lemma ConditionReads(ts: seq<Token>, pos: nat, l: Expr, mid: nat, r: Expr, end: nat)
    requires Ended(ts) && pos < mid < mid + 1 < end < |ts| && IsComparison(ts[mid].kind)
    requires ParseExpression(ts, pos) == Parsed(l, mid) && ParseExpression(ts, mid + 1) == Parsed(r, end)
    ensures ParseCondition(ts, pos) == Parsed(Bin(OpOf(ts[mid].kind), l, r), end)
  {
    hide ParseExpression;
  }

  lemma HeadRuns(ts: seq<Token>, pos: nat, c: Condition)
    requires Ended(ts) && HeadAt(ts, pos, c) && pos + |SpellHead(c)| < |ts|
    ensures ParseHead(ts, pos) == Parsed(CondTree(c), pos + |SpellHead(c)|)
  {
    hide Stands, ParseCondition, SpellCond, CondTree, CondFits;
    BetweenSplits(ts, pos, LParen, SpellCond(c), RParen);
    ConditionRuns(ts, pos + 1, c);
  }

  lemma AssignmentRuns(ts: seq<Token>, pos: nat, s: Sentence)
    requires Ended(ts) && s.Assigning? && Formed(s) && Stands(ts, pos, SpellOne(s)) && pos + |SpellOne(s)| < |ts|
    ensures ParseAssignment(ts, pos) == Parsed(TreeOne(s), pos + |SpellOne(s)|)
    ensures ts[pos].kind.Identifier? && ts[pos + 1].kind.EqualSign?
  {
    var shown := Spell(s.w);
    var end := pos + 2 + |shown|;
    hide Stands, ParseExpression, Spell, Tree, Fits;
    FirstOf(ts, pos, Token(Identifier, s.x), Sign(EqualSign) + (shown + Sign(Semicolon)));
    FirstOf(ts, pos + 1, Token(EqualSign, ""), shown + Sign(Semicolon));
    LastOf(ts, pos + 2, shown, Semicolon);
    StopsAt(Semicolon);
    SumRuns(ts, pos + 2, s.w);
  }

  lemma DeclarationRuns(ts: seq<Token>, pos: nat, s: Sentence)
    requires Ended(ts) && s.Declaring? && Formed(s) && Stands(ts, pos, SpellOne(s)) && pos + |SpellOne(s)| < |ts|
    ensures ParseDeclaration(ts, pos) == Parsed(TreeOne(s), pos + |SpellOne(s)|)
    ensures ts[pos].kind.VarWord?
  {
    var shown := SpellValue(s.value);
    var end := pos + 2 + |shown|;
    hide Stands, ParseExpression, Spell, Tree, Fits;
    FirstOf(ts, pos, Token(VarWord, ""), Word(Identifier, s.x) + (shown + Sign(Semicolon)));
    FirstOf(ts, pos + 1, Token(Identifier, s.x), shown + Sign(Semicolon));
    LastOf(ts, pos + 2, shown, Semicolon);
    if s.value.Some? {
      FirstOf(ts, pos + 2, Token(EqualSign, ""), Spell(s.value.value));
      StopsAt(Semicolon);
      SumRuns(ts, pos + 3, s.value.value);
    }
  }

  lemma {:induction false} NamesReach(ts: seq<Token>, pos: nat, xs: seq<string>)
    requires Ended(ts) && xs != [] && Stands(ts, pos, SpellNames(xs)) && pos + |SpellNames(xs)| < |ts|
    ensures ParseParameters(ts, pos) == ParametersRest(ts, xs, pos + |SpellNames(xs)|)
    decreases xs
  {
    var n := |xs| - 1;
    if n == 0 {
      assert xs[..0] == [] && SpellNames(xs) == Word(Identifier, xs[0]) + [];
      FirstOf(ts, pos, Token(Identifier, xs[0]), []);
      assert xs == [ts[pos].value];
      hide Stands, SpellNames;
    } else {
      var front := SpellNames(xs[..n]);
      assert xs == xs[..n] + [xs[n]];
      hide Stands, SpellNames, ParseParameters;
      assert SpellNames(xs) == front + (Sign(Comma) + Word(Identifier, xs[n])) by { NamesSpelt(xs); }
      Unchain(ts, pos, front, Sign(Comma) + Word(Identifier, xs[n]));
      FirstOf(ts, pos + |front|, Token(Comma, ""), Word(Identifier, xs[n]));
      One(ts, pos + |front| + 1, Token(Identifier, xs[n]));
      NamesReach(ts, pos, xs[..n]);
    }
  }

  lemma NamesSpelt(xs: seq<string>)
    requires |xs| > 1
    ensures SpellNames(xs) == SpellNames(xs[..|xs| - 1]) + (Sign(Comma) + Word(Identifier, xs[|xs| - 1]))
  {
  }

  lemma NamesRun(ts: seq<Token>, pos: nat, xs: seq<string>)
    requires Ended(ts) && Stands(ts, pos, SpellNames(xs)) && pos + |SpellNames(xs)| < |ts|
    requires ts[pos + |SpellNames(xs)|].kind.RParen?
    ensures ParseParameters(ts, pos) == Parsed(xs, pos + |SpellNames(xs)|)
  {
    if xs != [] {
      hide Stands, SpellNames;
      NamesReach(ts, pos, xs);
    }
  }

  lemma ShortRuns(ts: seq<Token>, pos: nat, s: Sentence)
    requires Ended(ts) && Formed(s) && (s.Breaking? || s.Returning? || s.Importing?)
    requires Stands(ts, pos, SpellOne(s)) && pos + |SpellOne(s)| < |ts|
    ensures ts[pos].kind.ReturnWord? || ts[pos].kind.ImportWord? || ts[pos].kind.BreakWord?
    ensures ParseShort(ts, pos) == Parsed(TreeOne(s), pos + |SpellOne(s)|)
  {
    hide Stands, ParseExpression, Spell, Tree, Fits;
    match s
    case Breaking =>
      FirstOf(ts, pos, Token(BreakWord, ""), Sign(Semicolon));
      One(ts, pos + 1, Token(Semicolon, ""));
    case Importing(file) => ImportRuns(ts, pos, file);
    case Returning(result) => ReturnRuns(ts, pos, result);
  }

  lemma ImportRuns(ts: seq<Token>, pos: nat, file: string)
    requires Ended(ts) && Stands(ts, pos, SpellOne(Importing(file))) && pos + |SpellOne(Importing(file))| < |ts|
    ensures ts[pos].kind.ImportWord? && |SpellOne(Importing(file))| == 5
    ensures ParseShort(ts, pos) == Parsed(Import(file), pos + 5)
  {
    FirstOf(ts, pos, Token(ImportWord, ""), Sign(LParen) + (Word(Kind.Literal, file) + (Sign(RParen) + Sign(Semicolon))));
    FirstOf(ts, pos + 1, Token(LParen, ""), Word(Kind.Literal, file) + (Sign(RParen) + Sign(Semicolon)));
    FirstOf(ts, pos + 2, Token(Kind.Literal, file), Sign(RParen) + Sign(Semicolon));
    FirstOf(ts, pos + 3, Token(RParen, ""), Sign(Semicolon));
    One(ts, pos + 4, Token(Semicolon, ""));
    hide Stands, ParseExpression;
  }

  lemma ReturnRuns(ts: seq<Token>, pos: nat, result: Option<Written>)
    requires Ended(ts) && (result.Some? ==> Fits(result.value, Sum))
    requires Stands(ts, pos, SpellOne(Returning(result))) && pos + |SpellOne(Returning(result))| < |ts|
    ensures ts[pos].kind.ReturnWord?
    ensures ParseShort(ts, pos) == Parsed(TreeOne(Returning(result)), pos + |SpellOne(Returning(result))|)
  {
    hide Stands, ParseExpression, ParseShort, Spell, Tree, Fits, Stops;
    var shown := if result.Some? then Spell(result.value) else [];
    FirstOf(ts, pos, Token(ReturnWord, ""), shown + Sign(Semicolon));
    LastOf(ts, pos + 1, shown, Semicolon);
    if result.Some? {
      FirstStands(ts, pos + 1, result.value);
      StopsAt(Semicolon);
      SumRuns(ts, pos + 1, result.value);
      ReturnReads(ts, pos, Tree(result.value), pos + 1 + |shown|);
    } else {
      ReturnReadsNone(ts, pos);
    }
  }

  lemma ReturnReads(ts: seq<Token>, pos: nat, e: Expr, end: nat)
    requires Ended(ts) && pos + 1 < end < |ts| - 1 && ts[pos].kind.ReturnWord? && !ts[pos + 1].kind.Semicolon?
    requires ParseExpression(ts, pos + 1) == Parsed(e, end) && ts[end].kind.Semicolon?
    ensures ParseShort(ts, pos) == Parsed(Return(Some(e)), end + 1)
  {
    hide ParseExpression;
  }

  lemma ReturnReadsNone(ts: seq<Token>, pos: nat)
    requires Ended(ts) && pos + 2 < |ts| && ts[pos].kind.ReturnWord? && ts[pos + 1].kind.Semicolon?
    ensures ParseShort(ts, pos) == Parsed(Return(None), pos + 2)
  {
  }

  // One step of each function, told by what it meets.

  lemma BodyReads(ts: seq<Token>, pos: nat, trees: seq<Stmt>, end: nat)
    requires Ended(ts) && pos + 1 <= end < |ts| - 1 && ts[pos].kind.LBrace? && ts[end].kind.RBrace?
    requires ParseStatements(ts, pos + 1) == Parsed(trees, end)
    ensures ParseBody(ts, pos) == Parsed(trees, end + 1)
  {
    hide ParseStatements;
  }

  lemma StatementsRead(ts: seq<Token>, pos: nat, tree: Stmt, mid: nat, trees: seq<Stmt>, end: nat)
    requires Ended(ts) && pos < mid <= end < |ts| && !ts[pos].kind.RBrace? && !ts[pos].kind.EndOfFile?
    requires ParseStatement(ts, pos) == Parsed(tree, mid) && ParseStatements(ts, mid) == Parsed(trees, end)
    ensures ParseStatements(ts, pos) == Parsed([tree] + trees, end)
  {
    hide ParseStatement;
  }

  lemma IfReads(ts: seq<Token>, pos: nat, cond: Expr, at: nat, body: seq<Stmt>, end: nat)
    requires Ended(ts) && pos + 1 < at < end < |ts| && ts[pos].kind.IfWord?
    requires ParseHead(ts, pos + 1) == Parsed(cond, at) && ParseBody(ts, at) == Parsed(body, end)
    ensures !ts[end].kind.ElseWord? ==> ParseStatement(ts, pos) == Parsed(If(cond, body, NoElse), end)
    ensures ts[end].kind.ElseWord? ==>
              forall others, last: nat :: end + 1 < last < |ts| && ParseBody(ts, end + 1) == Parsed(others, last)
                ==> ParseStatement(ts, pos) == Parsed(If(cond, body, Else(others)), last)
  {
    hide ParseHead, ParseBody;
  }

  lemma WhileReads(ts: seq<Token>, pos: nat, cond: Expr, at: nat, body: seq<Stmt>, end: nat)
    requires Ended(ts) && pos + 1 < at < end < |ts| && ts[pos].kind.WhileWord?
    requires ParseHead(ts, pos + 1) == Parsed(cond, at) && ParseBody(ts, at) == Parsed(body, end)
    ensures ParseStatement(ts, pos) == Parsed(While(cond, body), end)
  {
    hide ParseHead, ParseBody;
  }

  lemma ForReads(ts: seq<Token>, pos: nat, head: (Stmt, Expr, Stmt), close: nat, body: seq<Stmt>, end: nat)
    requires Ended(ts) && pos + 2 < close < close + 1 < end < |ts|
    requires ts[pos].kind.ForWord? && ts[pos + 1].kind.LParen? && ts[close].kind.RParen?
    requires ParseForHead(ts, pos + 2) == Parsed(head, close) && ParseBody(ts, close + 1) == Parsed(body, end)
    ensures ParseStatement(ts, pos) == Parsed(For(head.0, head.1, head.2, body), end)
  {
    hide ParseForHead, ParseBody;
  }

  lemma ForHeadReads(ts: seq<Token>, pos: nat, first: Stmt, at: nat, cond: Expr, semi: nat, update: Stmt, end: nat)
    requires Ended(ts) && pos < at < semi < semi + 1 < end < |ts| && ts[semi].kind.Semicolon?
    requires (if ts[pos].kind.VarWord? then ParseDeclaration(ts, pos) else ParseAssignment(ts, pos)) == Parsed(first, at)
    requires ParseCondition(ts, at) == Parsed(cond, semi) && ParseAssignment(ts, semi + 1) == Parsed(update, end)
    ensures ParseForHead(ts, pos) == Parsed((first, cond, update), end)
  {
    hide ParseDeclaration, ParseAssignment, ParseCondition;
  }

  lemma FunctionReads(ts: seq<Token>, pos: nat, params: seq<string>, close: nat, body: seq<Stmt>, end: nat)
    requires Ended(ts) && pos + 3 <= close < close + 1 < end < |ts| && ts[pos].kind.FnWord? && ts[pos + 1].kind.Identifier?
    requires ts[pos + 2].kind.LParen? && ts[close].kind.RParen?
    requires ParseParameters(ts, pos + 3) == Parsed(params, close) && ParseBody(ts, close + 1) == Parsed(body, end)
    ensures ParseStatement(ts, pos) == Parsed(Function(ts[pos + 1].value, params, body), end)
  {
    hide ParseParameters, ParseBody;
  }

  lemma SimpleReads(ts: seq<Token>, pos: nat)
    requires Ended(ts) && pos + 1 < |ts|
    ensures ts[pos].kind.VarWord? ==> ParseStatement(ts, pos) == ParseDeclaration(ts, pos)
    ensures ts[pos].kind.Identifier? && ts[pos + 1].kind.EqualSign? ==> ParseStatement(ts, pos) == ParseAssignment(ts, pos)
    ensures ts[pos].kind.ReturnWord? || ts[pos].kind.ImportWord? || ts[pos].kind.BreakWord? ==>
              ParseStatement(ts, pos) == ParseShort(ts, pos)
    ensures forall e, end: nat :: ts[pos].kind.Identifier? && !ts[pos + 1].kind.EqualSign? && pos < end < |ts| - 1
              && ts[end].kind.Semicolon? && ParseExpression(ts, pos) == Parsed(e, end)
              ==> ParseStatement(ts, pos) == Parsed(Eval(e), end + 1)
  {
    hide ParseDeclaration, ParseAssignment, ParseShort, ParseExpression;
  }

  /** Behind an `if` without else-branch no `else` may stand. */
  predicate MayFollow(s: Sentence, k: Kind) {
    s.Branching? && s.others.NoOthers? ==> !k.ElseWord?
  }

  lemma {:induction false} BlockRuns(ts: seq<Token>, pos: nat, ss: seq<Sentence>)
    requires Ended(ts) && BodyAt(ts, pos, ss) && pos + |SpellBody(ss)| < |ts|
    ensures ParseBody(ts, pos) == Parsed(TreeEach(ss), pos + |SpellBody(ss)|)
    decreases ss, 2
  {
    hide *;
    BlockSplits(ts, pos, ss);
    EachRuns(ts, pos + 1, ss);
    BodyReads(ts, pos, TreeEach(ss), pos + 1 + |SpellEach(ss)|);
  }

  lemma BlockSplits(ts: seq<Token>, pos: nat, ss: seq<Sentence>)
    requires BodyAt(ts, pos, ss)
    ensures AllFormed(ss) && Stands(ts, pos + 1, SpellEach(ss)) && |SpellBody(ss)| == |SpellEach(ss)| + 2
    ensures pos + 1 + |SpellEach(ss)| < |ts| && ts[pos].kind.LBrace? && ts[pos + 1 + |SpellEach(ss)|].kind.RBrace?
  {
    hide Stands, SpellEach, AllFormed;
    BetweenSplits(ts, pos, LBrace, SpellEach(ss), RBrace);
  }

  lemma {:induction false} EachRuns(ts: seq<Token>, pos: nat, ss: seq<Sentence>)
    requires Ended(ts) && AllFormed(ss) && Stands(ts, pos, SpellEach(ss)) && pos + |SpellEach(ss)| < |ts|
    requires ts[pos + |SpellEach(ss)|].kind.RBrace? || ts[pos + |SpellEach(ss)|].kind.EndOfFile?
    ensures ParseStatements(ts, pos) == Parsed(TreeEach(ss), pos + |SpellEach(ss)|)
    decreases ss, 1
  {
    hide *;
    if ss == [] {
      NoneRun(ts, pos);
    } else {
      EachSplits(ts, pos, ss);
      EachTree(ss);
      var mid := pos + |SpellOne(ss[0])|;
      StatementRuns(ts, pos, ss[0]);
      EachRuns(ts, mid, ss[1..]);
      StatementsRead(ts, pos, TreeOne(ss[0]), mid, TreeEach(ss[1..]), pos + |SpellEach(ss)|);
    }
  }

  lemma NoneRun(ts: seq<Token>, pos: nat)
    ensures SpellEach([]) == [] && TreeEach([]) == []
    ensures Ended(ts) && pos < |ts| && (ts[pos].kind.RBrace? || ts[pos].kind.EndOfFile?) ==>
              ParseStatements(ts, pos) == Parsed([], pos)
    ensures Ended(ts) && pos == |ts| - 1 ==> ParseProgram(ts, pos) == Parsed([], pos)
  {
  }

  lemma TailEnds(ts: seq<Token>, pos: nat, ss: seq<Sentence>)
    requires Ended(ts) && pos + |SpellEach(ss)| == |ts| - 1
    ensures ts[pos + |SpellEach(ss)|].kind.EndOfFile?
  {
  }

  lemma Follows(s: Sentence, k: Kind)
    ensures !k.ElseWord? ==> MayFollow(s, k)
  {
  }

  lemma EachTree(ss: seq<Sentence>)
    requires ss != [] && AllFormed(ss)
    ensures Formed(ss[0]) && AllFormed(ss[1..]) && TreeEach(ss) == [TreeOne(ss[0])] + TreeEach(ss[1..])
    ensures SpellEach(ss) == SpellOne(ss[0]) + SpellEach(ss[1..])
    ensures |SpellEach(ss)| == |SpellOne(ss[0])| + |SpellEach(ss[1..])|
  {
  }

  lemma EachSplits(ts: seq<Token>, pos: nat, ss: seq<Sentence>)
    requires ss != [] && AllFormed(ss) && Stands(ts, pos, SpellEach(ss)) && pos + |SpellEach(ss)| < |ts|
    requires ts[pos + |SpellEach(ss)|].kind.RBrace? || ts[pos + |SpellEach(ss)|].kind.EndOfFile?
    ensures var mid := pos + |SpellOne(ss[0])|;
            && mid < |ts| && Stands(ts, pos, SpellOne(ss[0])) && Stands(ts, mid, SpellEach(ss[1..]))
            && MayFollow(ss[0], ts[mid].kind) && !ts[pos].kind.RBrace? && !ts[pos].kind.EndOfFile?
  {
    hide *;
    EachTree(ss);
    Unchain(ts, pos, SpellOne(ss[0]), SpellEach(ss[1..]));
    StartsStatement(ts, pos, ss[0]);
    if ss[1..] != [] {
      NextStarts(ts, pos + |SpellOne(ss[0])|, ss[1..]);
    } else {
      NoneRun(ts, pos);
    }
    Follows(ss[0], ts[pos + |SpellOne(ss[0])|].kind);
  }

  lemma ProgramReads(ts: seq<Token>, pos: nat, tree: Stmt, mid: nat, trees: seq<Stmt>)
    requires Ended(ts) && pos < mid < |ts| && !ts[pos].kind.EndOfFile? && ParseStatement(ts, pos) == Parsed(tree, mid)
    requires ParseProgram(ts, mid) == Parsed(trees, |ts| - 1)
    ensures ParseProgram(ts, pos) == Parsed([tree] + trees, |ts| - 1)
  {
    hide ParseStatement;
  }

  lemma NextStarts(ts: seq<Token>, pos: nat, ss: seq<Sentence>)
    requires ss != [] && AllFormed(ss) && Stands(ts, pos, SpellEach(ss))
    ensures pos < |ts| && !ts[pos].kind.RBrace? && !ts[pos].kind.EndOfFile? && !ts[pos].kind.ElseWord?
  {
    Unchain(ts, pos, SpellOne(ss[0]), SpellEach(ss[1..]));
    hide Stands;
    StartsStatement(ts, pos, ss[0]);
  }

  lemma StartsStatement(ts: seq<Token>, pos: nat, s: Sentence)
    requires Formed(s) && Stands(ts, pos, SpellOne(s))
    ensures pos < |ts| && !ts[pos].kind.RBrace? && !ts[pos].kind.EndOfFile? && !ts[pos].kind.ElseWord?
  {
    assert Same(ts[pos + 0], SpellOne(s)[0]);
    StartKind(s);
    hide SpellOne, Stands;
  }

  lemma StartKind(s: Sentence)
    requires Formed(s)
    ensures var k := SpellOne(s)[0].kind; !k.RBrace? && !k.EndOfFile? && !k.ElseWord?
  {
    hide SpellHead, SpellBody, SpellCond, SpellNames, SpellValue;
    if s.Evaluating? { assert SpellOne(s)[0] == Spell(s.w)[0]; }
    hide Spell;
  }

  lemma EvalRuns(ts: seq<Token>, pos: nat, w: Written)
    requires Ended(ts) && Formed(Evaluating(w)) && Stands(ts, pos, Spell(w) + Sign(Semicolon))
    requires pos + |Spell(w)| + 1 < |ts|
    ensures ParseStatement(ts, pos) == Parsed(Eval(Tree(w)), pos + |Spell(w)| + 1)
  {
    LastOf(ts, pos, Spell(w), Semicolon);
    SecondToken(ts, pos, w);
    SimpleReads(ts, pos);
    StopsAt(Semicolon);
    hide Stands, Spell, Tree, Fits, ParseExpression, ParseStatement;
    SumRuns(ts, pos, w);
  }

  /** No equals sign stands in an expression or behind it. */
  lemma SecondToken(ts: seq<Token>, pos: nat, w: Written)
    requires Fits(w, Sum) && Stands(ts, pos, Spell(w)) && Spell(w)[0].kind.Identifier?
    requires pos + |Spell(w)| < |ts| && ts[pos + |Spell(w)|].kind.Semicolon?
    ensures ts[pos].kind.Identifier? && !ts[pos + 1].kind.EqualSign?
  {
    assert Same(ts[pos + 0], Spell(w)[0]);
    NoEquals(w);
    if |Spell(w)| > 1 { assert Same(ts[pos + 1], Spell(w)[1]); }
    hide Spell;
  }

  lemma {:induction false} NoEquals(w: Written)
    requires Fits(w, Sum)
    ensures forall i :: 0 <= i < |Spell(w)| ==> !Spell(w)[i].kind.EqualSign?
    decreases w, 1
  {
    match w
    case Call(_, args) => NoEqualsIn(args);
    case Paren(inner) => NoEquals(inner);
    case Op(k, l, r) =>
      Looser(l);
      Looser(r);
      NoEquals(l);
      NoEquals(r);
    case _ =>
  }

  lemma {:induction false} NoEqualsIn(ws: seq<Written>)
    requires AllFit(ws)
    ensures forall i :: 0 <= i < |SpellAll(ws)| ==> !SpellAll(ws)[i].kind.EqualSign?
    decreases ws, 0
  {
    if ws != [] {
      var n := |ws| - 1;
      assert ws[n] in ws;
      NoEqualsIn(ws[..n]);
      NoEquals(ws[n]);
      hide Spell;
    }
  }

  lemma {:induction false} StatementRuns(ts: seq<Token>, pos: nat, s: Sentence)
    requires Ended(ts) && Formed(s) && Stands(ts, pos, SpellOne(s)) && pos + |SpellOne(s)| < |ts|
    requires MayFollow(s, ts[pos + |SpellOne(s)|].kind)
    ensures ParseStatement(ts, pos) == Parsed(TreeOne(s), pos + |SpellOne(s)|)
    decreases s, 3
  {
    hide Stands, SpellHead, SpellBody, SpellCond, SpellNames, SpellValue, CondTree, TreeEach, CondFits, AllFormed, ParseStatement,
         ParseHead, ParseBody, Spell, Tree, Fits;
    match s
    case Declaring(_, _) =>
      DeclarationRuns(ts, pos, s);
      SimpleReads(ts, pos);
    case Assigning(_, _) =>
      AssignmentRuns(ts, pos, s);
      SimpleReads(ts, pos);
    case Branching(c, body, others) => BranchRuns(ts, pos, s);
    case Repeating(c, body) =>
      var at := pos + 1 + |SpellHead(c)|;
      FirstOf(ts, pos, Token(WhileWord, ""), SpellHead(c) + SpellBody(body));
      Unchain(ts, pos + 1, SpellHead(c), SpellBody(body));
      HeadRuns(ts, pos + 1, c);
      BlockRuns(ts, at, body);
      WhileReads(ts, pos, CondTree(c), at, TreeEach(body), at + |SpellBody(body)|);
    case Counting(_, _, _, _) => CountRuns(ts, pos, s);
    case Evaluating(w) => EvalRuns(ts, pos, w);
    case Defining(name, xs, body) => DefineRuns(ts, pos, s);
    case _ =>
      ShortRuns(ts, pos, s);
      SimpleReads(ts, pos);
  }

  lemma {:induction false} BranchRuns(ts: seq<Token>, pos: nat, s: Sentence)
    requires Ended(ts) && s.Branching? && Formed(s) && Stands(ts, pos, SpellOne(s)) && pos + |SpellOne(s)| < |ts|
    requires MayFollow(s, ts[pos + |SpellOne(s)|].kind)
    ensures ParseStatement(ts, pos) == Parsed(TreeOne(s), pos + |SpellOne(s)|)
    decreases s, 2
  {
    hide Stands, SpellHead, SpellBody, CondTree, TreeEach, CondFits, AllFormed, ParseStatement, ParseHead, ParseBody;
    var c, body := s.cond, s.body;
    var at := pos + 1 + |SpellHead(c)|;
    var end := at + |SpellBody(body)|;
    var tail := if s.others.Others? then Sign(ElseWord) + SpellBody(s.others.body) else [];
    FirstOf(ts, pos, Token(IfWord, ""), SpellHead(c) + (SpellBody(body) + tail));
    Unchain(ts, pos + 1, SpellHead(c), SpellBody(body) + tail);
    Unchain(ts, at, SpellBody(body), tail);
    HeadRuns(ts, pos + 1, c);
    if s.others.Others? {
      FirstOf(ts, end, Token(ElseWord, ""), SpellBody(s.others.body));
      BlockRuns(ts, at, body);
      BlockRuns(ts, end + 1, s.others.body);
    } else {
      BlockRuns(ts, at, body);
    }
    IfReads(ts, pos, CondTree(c), at, TreeEach(body), end);
  }

  ghost predicate CountAt(ts: seq<Token>, pos: nat, s: Sentence, close: nat, end: nat)
    requires s.Counting?
  {
    && pos + 2 < close < close + 1 < end < |ts|
    && ts[pos].kind.ForWord? && ts[pos + 1].kind.LParen? && ts[close].kind.RParen?
    && close == pos + 2 + |SpellForHead(s.first, s.cond, s.update)| && end == close + 1 + |SpellBody(s.body)|
    && Stands(ts, pos + 2, SpellForHead(s.first, s.cond, s.update)) && BodyAt(ts, close + 1, s.body)
  }

  lemma CountAtFacts(ts: seq<Token>, pos: nat, s: Sentence, close: nat, end: nat)
    requires s.Counting? && CountAt(ts, pos, s, close, end)
    ensures pos + 2 < close < close + 1 < end < |ts|
    ensures ts[pos].kind.ForWord? && ts[pos + 1].kind.LParen? && ts[close].kind.RParen?
    ensures close == pos + 2 + |SpellForHead(s.first, s.cond, s.update)| && end == close + 1 + |SpellBody(s.body)|
    ensures Stands(ts, pos + 2, SpellForHead(s.first, s.cond, s.update)) && BodyAt(ts, close + 1, s.body)
  {
    hide SpellForHead, SpellBody, Stands, BodyAt;
  }

  lemma CountAtIs(ts: seq<Token>, pos: nat, s: Sentence, close: nat, end: nat)
    requires s.Counting? && pos + 2 < close < close + 1 < end < |ts|
    requires ts[pos].kind.ForWord? && ts[pos + 1].kind.LParen? && ts[close].kind.RParen?
    requires close == pos + 2 + |SpellForHead(s.first, s.cond, s.update)| && end == close + 1 + |SpellBody(s.body)|
    requires Stands(ts, pos + 2, SpellForHead(s.first, s.cond, s.update))
    requires AllFormed(s.body) && Stands(ts, close + 1, SpellBody(s.body))
    ensures CountAt(ts, pos, s, close, end)
  {
    hide SpellForHead, SpellBody, Stands, AllFormed;
  }

  lemma LoopSplits(ts: seq<Token>, pos: nat, head: seq<Token>, block: seq<Token>)
    requires Stands(ts, pos, Sign(ForWord) + (Sign(LParen) + (head + (Sign(RParen) + block))))
    ensures pos + 2 + |head| < |ts| && ts[pos].kind.ForWord? && ts[pos + 1].kind.LParen?
    ensures ts[pos + 2 + |head|].kind.RParen? && Stands(ts, pos + 2, head) && Stands(ts, pos + 3 + |head|, block)
  {
    hide Stands;
    FirstOf(ts, pos, Token(ForWord, ""), Sign(LParen) + (head + (Sign(RParen) + block)));
    FirstOf(ts, pos + 1, Token(LParen, ""), head + (Sign(RParen) + block));
    Unchain(ts, pos + 2, head, Sign(RParen) + block);
    FirstOf(ts, pos + 2 + |head|, Token(RParen, ""), block);
  }

  lemma CountSplits(ts: seq<Token>, pos: nat, s: Sentence) returns (close: nat, end: nat)
    requires s.Counting? && Formed(s) && Stands(ts, pos, SpellOne(s)) && pos + |SpellOne(s)| < |ts|
    ensures CountAt(ts, pos, s, close, end) && end == pos + |SpellOne(s)|
  {
    hide *;
    CountFacts(s);
    var head, block := SpellForHead(s.first, s.cond, s.update), SpellBody(s.body);
    close := pos + 2 + |head|;
    end := close + 1 + |block|;
    LoopSplits(ts, pos, head, block);
    CountAtIs(ts, pos, s, close, end);
  }

  lemma {:induction false} CountRuns(ts: seq<Token>, pos: nat, s: Sentence)
    requires Ended(ts) && s.Counting? && Formed(s) && Stands(ts, pos, SpellOne(s)) && pos + |SpellOne(s)| < |ts|
    ensures ParseStatement(ts, pos) == Parsed(TreeOne(s), pos + |SpellOne(s)|)
    decreases s, 2
  {
    hide *;
    CountFacts(s);
    var close, end := CountSplits(ts, pos, s);
    CountAtFacts(ts, pos, s, close, end);
    ForHeadRuns(ts, pos + 2, s);
    BlockRuns(ts, close + 1, s.body);
    ForReads(ts, pos, (TreeOne(s.first), CondTree(s.cond), TreeOne(s.update)), close, TreeEach(s.body), end);
  }

  lemma CountFacts(s: Sentence)
    requires s.Counting? && Formed(s)
    ensures var head, block := SpellForHead(s.first, s.cond, s.update), SpellBody(s.body);
            && SpellOne(s) == Sign(ForWord) + (Sign(LParen) + (head + (Sign(RParen) + block)))
            && |SpellOne(s)| == 3 + |head| + |block| && |head| > 0 && |block| > 0
    ensures AllFormed(s.body) && Formed(s.first) && Formed(s.update) && CondFits(s.cond)
    ensures TreeOne(s) == For(TreeOne(s.first), CondTree(s.cond), TreeOne(s.update), TreeEach(s.body))
  {
    ForSpelt(s.first, s.cond, s.update, s.body);
    hide SpellCond, CondTree, TreeEach, CondFits, AllFormed;
  }

  lemma ForHeadFacts(s: Sentence)
    requires s.Counting? && Formed(s)
    ensures (s.first.Declaring? || s.first.Assigning?) && Formed(s.first) && CondFits(s.cond)
    ensures s.update.Assigning? && Formed(s.update)
    ensures var a, b, d := SpellOne(s.first), SpellCond(s.cond), SpellOne(s.update);
            SpellForHead(s.first, s.cond, s.update) == a + (b + (Sign(Semicolon) + d))
            && |SpellForHead(s.first, s.cond, s.update)| == |a| + |b| + 1 + |d|
  {
    hide SpellOne, SpellCond;
  }

  lemma ForHeadSplits(ts: seq<Token>, pos: nat, a: seq<Token>, b: seq<Token>, d: seq<Token>)
    requires Stands(ts, pos, a + (b + (Sign(Semicolon) + d)))
    ensures Stands(ts, pos, a) && Stands(ts, pos + |a|, b) && pos + |a| + |b| < |ts| && ts[pos + |a| + |b|].kind.Semicolon?
    ensures Stands(ts, pos + |a| + |b| + 1, d)
  {
    hide Stands;
    Unchain(ts, pos, a, b + (Sign(Semicolon) + d));
    Unchain(ts, pos + |a|, b, Sign(Semicolon) + d);
    FirstOf(ts, pos + |a| + |b|, Token(Semicolon, ""), d);
  }

  lemma InitRuns(ts: seq<Token>, pos: nat, s: Sentence)
    requires Ended(ts) && (s.Declaring? || s.Assigning?) && Formed(s)
    requires Stands(ts, pos, SpellOne(s)) && pos + |SpellOne(s)| < |ts|
    ensures (if ts[pos].kind.VarWord? then ParseDeclaration(ts, pos) else ParseAssignment(ts, pos))
            == Parsed(TreeOne(s), pos + |SpellOne(s)|)
  {
    hide *;
    if s.Declaring? { DeclarationRuns(ts, pos, s); } else { AssignmentRuns(ts, pos, s); }
  }

  lemma ForHeadRuns(ts: seq<Token>, pos: nat, s: Sentence)
    requires Ended(ts) && s.Counting? && Formed(s) && Stands(ts, pos, SpellForHead(s.first, s.cond, s.update))
    requires pos + |SpellForHead(s.first, s.cond, s.update)| < |ts| && |SpellForHead(s.first, s.cond, s.update)| > 0
    ensures ParseForHead(ts, pos) == Parsed((TreeOne(s.first), CondTree(s.cond), TreeOne(s.update)),
                                            pos + |SpellForHead(s.first, s.cond, s.update)|)
  {
    hide *;
    ForHeadFacts(s);
    var at := pos + |SpellOne(s.first)|;
    var semi := at + |SpellCond(s.cond)|;
    ForHeadSplits(ts, pos, SpellOne(s.first), SpellCond(s.cond), SpellOne(s.update));
    InitRuns(ts, pos, s.first);
    ConditionRuns(ts, at, s.cond);
    AssignmentRuns(ts, semi + 1, s.update);
    ForHeadReads(ts, pos, TreeOne(s.first), at, CondTree(s.cond), semi, TreeOne(s.update), semi + 1 + |SpellOne(s.update)|);
  }

  lemma {:induction false} DefineRuns(ts: seq<Token>, pos: nat, s: Sentence)
    requires Ended(ts) && s.Defining? && Formed(s) && Stands(ts, pos, SpellOne(s)) && pos + |SpellOne(s)| < |ts|
    ensures ParseStatement(ts, pos) == Parsed(TreeOne(s), pos + |SpellOne(s)|)
    decreases s, 2
  {
    hide Stands, SpellNames, SpellBody, TreeEach, AllFormed, ParseStatement, ParseBody, ParseParameters;
    var names, block := SpellNames(s.params), SpellBody(s.body);
    var close := pos + 3 + |names|;
    FirstOf(ts, pos, Token(FnWord, ""), Word(Identifier, s.name) + (Sign(LParen) + (names + (Sign(RParen) + block))));
    FirstOf(ts, pos + 1, Token(Identifier, s.name), Sign(LParen) + (names + (Sign(RParen) + block)));
    FirstOf(ts, pos + 2, Token(LParen, ""), names + (Sign(RParen) + block));
    Unchain(ts, pos + 3, names, Sign(RParen) + block);
    FirstOf(ts, close, Token(RParen, ""), block);
    NamesRun(ts, pos + 3, s.params);
    BlockRuns(ts, close + 1, s.body);
    FunctionReads(ts, pos, s.params, close, TreeEach(s.body), close + 1 + |block|);
  }

  lemma {:induction false} WholeRuns(ts: seq<Token>, pos: nat, ss: seq<Sentence>)
    requires Ended(ts) && AllFormed(ss) && Stands(ts, pos, SpellEach(ss)) && pos + |SpellEach(ss)| == |ts| - 1
    ensures ParseProgram(ts, pos) == Parsed(TreeEach(ss), |ts| - 1)
    decreases |ss|
  {
    hide *;
    if ss == [] {
      NoneRun(ts, pos);
    } else {
      TailEnds(ts, pos, ss);
      EachSplits(ts, pos, ss);
      EachTree(ss);
      var mid := pos + |SpellOne(ss[0])|;
      StatementRuns(ts, pos, ss[0]);
      WholeRuns(ts, mid, ss[1..]);
      ProgramReads(ts, pos, TreeOne(ss[0]), mid, TreeEach(ss[1..]));
    }
  }

  // ---------- the language ----------

  /** A token list spells a program: sentences, then the end. */
  ghost predicate Spells(ts: seq<Token>, ss: seq<Sentence>) {
    AllFormed(ss) && |ts| == |SpellEach(ss)| + 1 && Stands(ts, 0, SpellEach(ss))
  }

  /** The parser accepts exactly the token lists that the grammar spells, and gives the tree of what is spelt; it fails on
      every other one. */
  lemma LanguageAccepted(ts: seq<Token>)
    requires Ended(ts)
    ensures ParseProgram(ts, 0).Parsed? <==> exists ss :: Spells(ts, ss)
    ensures forall ss :: Spells(ts, ss) ==> ParseProgram(ts, 0) == Parsed(TreeEach(ss), |ts| - 1)
  {
    if ParseProgram(ts, 0).Parsed? {
      var ss := WholeFound(ts, 0);
      hide ParseProgram, SpellEach, Stands, TreeEach, AllFormed;
      assert Spells(ts, ss);
    }
    hide ParseProgram, SpellEach, Stands, TreeEach, AllFormed;
    forall ss | Spells(ts, ss) ensures ParseProgram(ts, 0) == Parsed(TreeEach(ss), |ts| - 1) {
      WholeRuns(ts, 0, ss);
    }
  }
}
