/** The evaluator on well-formed text with blanks in any place. */
module SpacedText {
  import opened Text
  import opened Words
  import opened AsmLexer
  import opened Evaluator

  type Blank = s: string | forall i :: 0 <= i < |s| ==> IsSpace(s[i]) witness ""

  /** Numbers and groups with the blanks in front of them, and in a group those in front of its closing parenthesis. */
  datatype Item = Figure(lead: Blank, n: Numeral) | Paren(lead: Blank, inner: Line, trail: Blank)
  datatype Line = Line(first: Item, more: Rest)
  datatype Rest = Stop | Then(lead: Blank, op: Operator, item: Item, more: Rest)

  /** What stands behind a terminator planted for a group: the rest of the group around it, that one's blanks, and what
      stands behind its own terminator. */
  datatype Behind = TextEnd | Segment(more: Rest, trail: Blank, next: Behind)

  function ShowItem(x: Item): (s: string)
    ensures s != "" && s[0] != NUL
  {
    match x
    case Figure(lead, n) => lead + n
    case Paren(lead, inner, trail) => lead + ("(" + (ShowLine(inner) + trail) + ")")
  }

  function ShowLine(l: Line): (s: string)
    ensures s != "" && s[0] != NUL
  {
    ShowItem(l.first) + ShowRest(l.more)
  }

  function ShowRest(r: Rest): string {
    match r
    case Stop => ""
    case Then(lead, op, x, more) => lead + ([Symbol(op)] + (ShowItem(x) + ShowRest(more)))
  }

  function ShowBehind(b: Behind): string {
    match b
    case TextEnd => ""
    case Segment(more, trail, next) => [NUL] + (ShowRest(more) + (trail + ShowBehind(next)))
  }

  // ---------- what it means ----------

  function ItemSize(x: Item): nat {
    match x
    case Figure(_, _) => 1
    case Paren(_, inner, _) => 1 + LineSize(inner)
  }

  function LineSize(l: Line): nat {
    2 + ItemSize(l.first) + RestSize(l.more)
  }

  function RestSize(r: Rest): nat {
    match r
    case Stop => 1
    case Then(_, _, x, more) => 2 + ItemSize(x) + RestSize(more)
  }

  function BehindSize(b: Behind): nat {
    match b
    case TextEnd => 0
    case Segment(more, _, next) => 1 + RestSize(more) + BehindSize(next)
  }

  /** The value of an operand. That of a group can depend on what stands behind it. */
  function ItemValue(x: Item, b: Behind): Outcome
    decreases ItemSize(x) + BehindSize(b)
  {
    match x
    case Figure(_, n) => Value(Wrap(TrailingNumber(n)))
    case Paren(_, inner, trail) => LineValue(inner, trail, b)
  }

  function LineValue(l: Line, trail: Blank, b: Behind): Outcome
    decreases LineSize(l) + BehindSize(b)
  {
    match ItemValue(l.first, Segment(l.more, trail, b))
    case Undefined => Undefined
    case Value(v) => RestValue(v, l.more, trail, b)
  }

  /** Terms are taken from left to right up to the terminator. With blanks in front of it they go on with the terms behind
      it; behind the last one, they leave the text. */
  function RestValue(acc: Int32, r: Rest, trail: Blank, b: Behind): Outcome
    decreases RestSize(r) + BehindSize(b)
  {
    match r
    case Stop =>
      if trail == "" then Value(acc)
      else if b.TextEnd? then Undefined
      else RestValue(acc, b.more, b.trail, b.next)
    case Then(_, op, x, more) =>
      match ItemValue(x, Segment(more, trail, b))
      case Undefined => Undefined
      case Value(v) =>
        match Apply(Symbol(op), acc, v)
        case Next(acc') => RestValue(acc', more, trail, b)
        case EndsWithZero => Value(0)
        case NotDefined => Undefined
  }

  // ---------- parentheses ----------

  lemma {:induction false} ClosingItem(x: Item, r: string, open: nat)
    requires open > 0
    ensures Closing(ShowItem(x) + r, open) == |ShowItem(x)| + Closing(r, open)
    decreases x
  {
    hide Closing, ShowLine;
    match x
    case Figure(lead, n) =>
      assert ShowItem(x) + r == lead + n + r;
      ClosingSkips(lead + n, r, open);
    case Paren(lead, inner, trail) =>
      var t := ")" + r;
      ParenShown(x, r);
      ClosingSkips(lead, "(" + (ShowLine(inner) + (trail + t)), open);
      Opened(ShowLine(inner) + (trail + t), open);
      ClosingLine(inner, trail + t, open + 1);
      ClosingSkips(trail, t, open + 1);
      Closed(r, open);
  }

  lemma ParenShown(x: Item, r: string)
    requires x.Paren?
    ensures ShowItem(x) + r == x.lead + ("(" + (ShowLine(x.inner) + (x.trail + (")" + r))))
    ensures |ShowItem(x)| == |x.lead| + |ShowLine(x.inner)| + |x.trail| + 2
  {
    hide ShowLine;
  }

  lemma {:induction false} ClosingLine(l: Line, r: string, open: nat)
    requires open > 0
    ensures Closing(ShowLine(l) + r, open) == |ShowLine(l)| + Closing(r, open)
    decreases l
  {
    hide Closing;
    ClosingItem(l.first, ShowRest(l.more) + r, open);
    ClosingRest(l.more, r, open);
    assert ShowLine(l) + r == ShowItem(l.first) + (ShowRest(l.more) + r);
  }

  lemma RestShown(r: Rest, t: string)
    requires r.Then?
    ensures ShowRest(r) + t == r.lead + ([Symbol(r.op)] + (ShowItem(r.item) + (ShowRest(r.more) + t)))
    ensures |ShowRest(r)| == |r.lead| + 1 + |ShowItem(r.item)| + |ShowRest(r.more)|
  {
    hide ShowItem;
  }

  lemma {:induction false} ClosingRest(r: Rest, t: string, open: nat)
    requires open > 0
    ensures Closing(ShowRest(r) + t, open) == |ShowRest(r)| + Closing(t, open)
    decreases r
  {
    if r.Stop? {
      assert "" + t == t;
    } else {
      RestShown(r, t);
      hide Closing, ShowItem, ShowRest, Symbol;
      var t' := ShowRest(r.more) + t;
      ClosingSkips(r.lead, [Symbol(r.op)] + (ShowItem(r.item) + t'), open);
      SymbolSkipped(r.op, ShowItem(r.item) + t', open);
      ClosingItem(r.item, t', open);
      ClosingRest(r.more, t, open);
    }
  }

  /** The closing parenthesis of a group is found behind its blanks. */
  lemma GroupFound(l: Line, trail: Blank, t: string)
    ensures Closing(ShowLine(l) + trail + (")" + t), 1) == |ShowLine(l) + trail|
  {
    hide Closing, ShowLine;
    ClosingLine(l, trail + (")" + t), 1);
    ClosingSkips(trail, ")" + t, 1);
    Closed(t, 1);
    assert ShowLine(l) + trail + (")" + t) == ShowLine(l) + (trail + (")" + t));
  }

  // ---------- evaluation ----------

  /** Blanks in front of a token are skipped. */
  lemma LeadSkipped(lead: Blank, t: string, acc: Int32, ops: string, cap: nat)
    requires t != "" && !IsSpace(t[0]) && t[0] != NUL
    ensures Run(lead + t, acc, ops, cap) == Run(t, acc, ops, cap)
  {
    SpacesAre(lead + t, |lead|);
    SpacesAre(t, 0);
    assert (lead + t)[|lead|..] == t && t[0..] == t;
    assert lead != "" ==> (lead + t)[0] == lead[0];
    hide Finish, TakeOperand, Spaces;
  }

  /** What stands behind an item in its own group, and behind that. */
  function After(r: Rest, trail: Blank, b: Behind): string {
    ShowRest(r) + (trail + ShowBehind(b))
  }

  lemma AfterEnds(r: Rest, trail: Blank, b: Behind)
    ensures Ends(After(r, trail, b))
  {
    hide ShowItem;
    assert trail != "" ==> (trail + ShowBehind(b))[0] == trail[0];
  }

  /** An item's own text, without the blanks in front of it. */
  function Core(x: Item): string {
    match x
    case Figure(_, n) => n
    case Paren(_, inner, trail) => "(" + (ShowLine(inner) + trail) + ")"
  }

  lemma CoreFacts(x: Item, t: string)
    ensures ShowItem(x) + t == x.lead + (Core(x) + t) && Core(x) != "" && !IsSpace(Core(x)[0]) && Core(x)[0] != NUL
    ensures Core(x)[0] == '(' || IsDigit(Core(x)[0])
  {
    hide ShowLine;
  }

  /** An item meets the operator on the stack. */
  lemma ItemMeets(x: Item, op: char, acc: Int32, t: string, cap: nat, o: Outcome)
    requires Ends(t)
    requires if x.Figure? then o == Value(Wrap(TrailingNumber(x.n)))
             else EvalText(ShowLine(x.inner) + x.trail + ([NUL] + t), cap) == o
    ensures Run(ShowItem(x) + t, acc, [op], cap) == Meet(o, op, acc, t, cap)
  {
    hide Run, Meet, ShowLine, EvalText, Ends, Closing;
    CoreFacts(x, t);
    LeadSkipped(x.lead, Core(x) + t, acc, [op], cap);
    match x
    case Figure(_, n) => NumeralRuns(n, op, acc, t, cap);
    case Paren(_, inner, trail) =>
      GroupFound(inner, trail, t);
      GroupRuns(ShowLine(inner) + trail, o, op, acc, t, cap);
  }

  /** The same behind `*` or `/`, whose branch takes the item itself. */
  lemma ItemScales(x: Item, op: char, acc: Int32, t: string, cap: nat, o: Outcome)
    requires Ends(t) && cap > 0 && (op == '*' || op == '/')
    requires if x.Figure? then o == Value(Wrap(TrailingNumber(x.n)))
             else EvalText(ShowLine(x.inner) + x.trail + ([NUL] + t), cap) == o
    ensures Run([op] + (ShowItem(x) + t), acc, "", cap) == Meet(o, op, acc, t, cap)
  {
    hide Run, Meet, ShowLine, EvalText, Ends, Closing;
    CoreFacts(x, t);
    LeadScaled(op, x.lead, Core(x) + t, acc, cap);
    match x
    case Figure(_, n) => NumeralScaled(n, op, acc, t, cap);
    case Paren(_, inner, trail) =>
      GroupFound(inner, trail, t);
      GroupScaled(ShowLine(inner) + trail, o, op, acc, t, cap);
  }

  lemma LeadScaled(op: char, lead: Blank, t: string, acc: Int32, cap: nat)
    requires (op == '*' || op == '/') && cap > 0 && t != "" && !IsSpace(t[0])
    ensures Run([op] + (lead + t), acc, "", cap) == Run([op] + t, acc, "", cap)
  {
    var p, p' := [op] + (lead + t), [op] + t;
    SpacesAre(p, 0);
    SpacesAre(p', 0);
    SpacesAre(lead + t, |lead|);
    SpacesAre(t, 0);
    assert p[0..] == p && p'[0..] == p' && p[1..] == lead + t && p'[1..] == t && (lead + t)[|lead|..] == t && t[0..] == t;
    hide Finish, TakeOperand, Spaces;
  }

  lemma OperatorMeets(op: Operator, x: Item, acc: Int32, t: string, cap: nat, o: Outcome)
    requires Ends(t) && cap > 0
    requires if x.Figure? then o == Value(Wrap(TrailingNumber(x.n)))
             else EvalText(ShowLine(x.inner) + x.trail + ([NUL] + t), cap) == o
    ensures Run([Symbol(op)] + (ShowItem(x) + t), acc, "", cap) == Meet(o, Symbol(op), acc, t, cap)
  {
    hide Run, Meet, ShowLine, ShowItem, EvalText, Ends;
    if op == Plus || op == Minus {
      SignPushed(Symbol(op), acc, ShowItem(x) + t, cap);
      ItemMeets(x, Symbol(op), acc, t, cap, o);
    } else {
      ItemScales(x, Symbol(op), acc, t, cap, o);
    }
  }

  /** The inner text of a group, followed by what it can see. */
  lemma {:induction false} ItemEvaluates(x: Item, b: Behind, cap: nat)
    requires cap > 0 && x.Paren?
    ensures EvalText(ShowLine(x.inner) + x.trail + ShowBehind(b), cap) == ItemValue(x, b)
    decreases ItemSize(x) + BehindSize(b)
  {
    LineEvaluates(x.inner, x.trail, b, cap);
    hide EvalText, ShowLine;
    assert ShowLine(x.inner) + x.trail + ShowBehind(b) == ShowLine(x.inner) + (x.trail + ShowBehind(b));
  }

  lemma StartsLine(l: Line, trail: Blank, b: Behind, cap: nat)
    requires cap > 0
    ensures EvalText(ShowLine(l) + (trail + ShowBehind(b)), cap) == Run(ShowItem(l.first) + After(l.more, trail, b), 0, "+", cap)
  {
    hide Run, ShowItem, ShowRest, ShowBehind;
    assert ShowLine(l) + (trail + ShowBehind(b)) == ShowItem(l.first) + After(l.more, trail, b);
  }

  /** Every well-formed text has the value it means, wherever its blanks stand. */
  lemma {:induction false} LineEvaluates(l: Line, trail: Blank, b: Behind, cap: nat)
    requires cap > 0
    ensures EvalText(ShowLine(l) + (trail + ShowBehind(b)), cap) == LineValue(l, trail, b)
    decreases LineSize(l) + BehindSize(b)
  {
    var behind := Segment(l.more, trail, b);
    var o := ItemValue(l.first, behind);
    if l.first.Paren? { ItemEvaluates(l.first, behind, cap); }
    forall a: Int32 ensures Run(After(l.more, trail, b), a, "", cap) == RestValue(a, l.more, trail, b) {
      RestEvaluates(l.more, trail, b, a, cap);
    }
    AfterEnds(l.more, trail, b);
    FirstEvaluates(l, trail, b, cap, o);
  }

  lemma FirstEvaluates(l: Line, trail: Blank, b: Behind, cap: nat, o: Outcome)
    requires cap > 0 && o == ItemValue(l.first, Segment(l.more, trail, b)) && Ends(After(l.more, trail, b))
    requires l.first.Paren? ==>
               EvalText(ShowLine(l.first.inner) + l.first.trail + ShowBehind(Segment(l.more, trail, b)), cap) == o
    requires forall a: Int32 :: Run(After(l.more, trail, b), a, "", cap) == RestValue(a, l.more, trail, b)
    ensures EvalText(ShowLine(l) + (trail + ShowBehind(b)), cap) == LineValue(l, trail, b)
  {
    StartsLine(l, trail, b, cap);
    BehindShown(l.more, trail, b);
    ItemFigure(l.first, Segment(l.more, trail, b));
    hide Run, ShowItem, ShowRest, ShowLine, ShowBehind, EvalText, ItemValue, Ends, After, RestValue;
    ItemMeets(l.first, '+', 0, After(l.more, trail, b), cap, o);
  }

  lemma BehindShown(r: Rest, trail: Blank, b: Behind)
    ensures ShowBehind(Segment(r, trail, b)) == [NUL] + After(r, trail, b)
  {
  }

  lemma {:induction false} RestEvaluates(r: Rest, trail: Blank, b: Behind, acc: Int32, cap: nat)
    requires cap > 0
    ensures Run(After(r, trail, b), acc, "", cap) == RestValue(acc, r, trail, b)
    decreases RestSize(r) + BehindSize(b)
  {
    match r
    case Stop =>
      if trail != "" && b.Segment? {
        RestEvaluates(b.more, b.trail, b.next, acc, cap);
      }
      StopEvaluates(trail, b, acc, cap);
    case Then(lead, op, x, more) =>
      var behind := Segment(more, trail, b);
      var o := ItemValue(x, behind);
      if x.Paren? { ItemEvaluates(x, behind, cap); }
      forall a: Int32 ensures Run(After(more, trail, b), a, "", cap) == RestValue(a, more, trail, b) {
        RestEvaluates(more, trail, b, a, cap);
      }
      AfterEnds(more, trail, b);
      TermEvaluates(r, trail, b, acc, cap, o);
  }

  lemma TermEvaluates(r: Rest, trail: Blank, b: Behind, acc: Int32, cap: nat, o: Outcome)
    requires cap > 0 && r.Then? && o == ItemValue(r.item, Segment(r.more, trail, b)) && Ends(After(r.more, trail, b))
    requires r.item.Paren? ==>
               EvalText(ShowLine(r.item.inner) + r.item.trail + ShowBehind(Segment(r.more, trail, b)), cap) == o
    requires forall a: Int32 :: Run(After(r.more, trail, b), a, "", cap) == RestValue(a, r.more, trail, b)
    ensures Run(After(r, trail, b), acc, "", cap) == RestValue(acc, r, trail, b)
  {
    var t := After(r.more, trail, b);
    TermShown(r, trail, b);
    ItemFigure(r.item, Segment(r.more, trail, b));
    SymbolSolid(r.op);
    MeetRest(r, trail, b, acc, cap, o);
    hide *;
    LeadSkipped(r.lead, [Symbol(r.op)] + (ShowItem(r.item) + t), acc, "", cap);
    OperatorMeets(r.op, r.item, acc, t, cap, o);
  }

  lemma SymbolSolid(op: Operator)
    ensures !IsSpace(Symbol(op)) && Symbol(op) != NUL
  {
  }

  /** Behind its operand, a term goes on with the terms behind it. */
  lemma MeetRest(r: Rest, trail: Blank, b: Behind, acc: Int32, cap: nat, o: Outcome)
    requires r.Then? && o == ItemValue(r.item, Segment(r.more, trail, b))
    requires forall a: Int32 :: Run(After(r.more, trail, b), a, "", cap) == RestValue(a, r.more, trail, b)
    ensures Meet(o, Symbol(r.op), acc, After(r.more, trail, b), cap) == RestValue(acc, r, trail, b)
  {
    RestUnfolds(acc, r, trail, b);
    hide Run, RestValue, ItemValue, After, Apply, Symbol;
  }

  lemma ItemFigure(x: Item, b: Behind)
    ensures x.Figure? ==> ItemValue(x, b) == Value(Wrap(TrailingNumber(x.n)))
  {
  }

  lemma TermShown(r: Rest, trail: Blank, b: Behind)
    requires r.Then?
    ensures After(r, trail, b) == r.lead + ([Symbol(r.op)] + (ShowItem(r.item) + After(r.more, trail, b)))
    ensures ShowBehind(Segment(r.more, trail, b)) == [NUL] + After(r.more, trail, b)
  {
    hide ShowItem;
    RestShown(r, trail + ShowBehind(b));
    BehindShown(r.more, trail, b);
  }

  lemma StopEvaluates(trail: Blank, b: Behind, acc: Int32, cap: nat)
    requires trail != "" && b.Segment? ==>
               Run(After(b.more, b.trail, b.next), acc, "", cap) == RestValue(acc, b.more, b.trail, b.next)
    ensures Run(After(Stop, trail, b), acc, "", cap) == RestValue(acc, Stop, trail, b)
  {
    assert After(Stop, trail, b) == trail + ShowBehind(b);
    if trail != "" {
      if b.Segment? { BlanksRun(trail, After(b.more, b.trail, b.next), acc, cap); } else { BlanksRun(trail, "", acc, cap); }
    }
    hide Finish, TakeOperand, ShowRest;
  }

  /** A well-formed text, blanks in any place, evaluates to what it means. */
  lemma SpacedShows(l: Line, trail: Blank, cap: nat)
    requires cap > 0
    ensures EvalText(ShowLine(l) + trail, cap) == LineValue(l, trail, TextEnd)
  {
    LineEvaluates(l, trail, TextEnd, cap);
    assert trail + "" == trail;
  }

  // ---------- where blanks change something ----------

  /** No blanks in front of a group's closing parenthesis, at any depth. */
  predicate Tight(l: Line) {
    TightItem(l.first) && TightRest(l.more)
  }

  predicate TightItem(x: Item) {
    x.Paren? ==> x.trail == "" && Tight(x.inner)
  }

  predicate TightRest(r: Rest) {
    r.Then? ==> TightItem(r.item) && TightRest(r.more)
  }

  /** The text without its blanks. */
  function Stripped(l: Line): Expression {
    Expression(StrippedItem(l.first), StrippedRest(l.more))
  }

  function StrippedItem(x: Item): Operand {
    match x
    case Figure(_, n) => Num(n)
    case Paren(_, inner, _) => Group(Stripped(inner))
  }

  function StrippedRest(r: Rest): Terms {
    match r
    case Stop => End
    case Then(_, op, x, more) => Term(op, StrippedItem(x), StrippedRest(more))
  }

  lemma {:induction false} TightItemMeans(x: Item, b: Behind)
    requires TightItem(x)
    ensures ItemValue(x, b) == OperandMeaning(StrippedItem(x))
    decreases x, 0
  {
    if x.Paren? {
      TightMeans(x.inner, "", b);
    }
  }

  /** How an evaluation goes on behind terms, in front of the blanks at their end. */
  function GoesOn(p: Progress, trail: Blank, b: Behind): Outcome {
    match p
    case Complete(v) => RestValue(v, Stop, trail, b)
    case Stopped(o) => o
  }

  lemma {:induction false} TightRestMeans(r: Rest, acc: Int32, trail: Blank, b: Behind)
    requires TightRest(r)
    ensures RestValue(acc, r, trail, b) == GoesOn(Fold(acc, StrippedRest(r)), trail, b)
    decreases r
  {
    match r
    case Stop =>
    case Then(_, op, x, more) =>
      TightItemMeans(x, Segment(more, trail, b));
      forall a: Int32 ensures RestValue(a, more, trail, b) == GoesOn(Fold(a, StrippedRest(more)), trail, b) {
        TightRestMeans(more, a, trail, b);
      }
      TermMeans(r, acc, trail, b);
  }

  lemma TermMeans(r: Rest, acc: Int32, trail: Blank, b: Behind)
    requires r.Then? && ItemValue(r.item, Segment(r.more, trail, b)) == OperandMeaning(StrippedItem(r.item))
    requires forall a: Int32 :: RestValue(a, r.more, trail, b) == GoesOn(Fold(a, StrippedRest(r.more)), trail, b)
    ensures RestValue(acc, r, trail, b) == GoesOn(Fold(acc, StrippedRest(r)), trail, b)
  {
    var ts := StrippedRest(r);
    assert ts == Term(r.op, StrippedItem(r.item), StrippedRest(r.more));
    assert OperandMeaning(ts.operand).Undefined? ==> Fold(acc, ts) == Stopped(Undefined);
    RestUnfolds(acc, r, trail, b);
    if OperandMeaning(ts.operand).Value? { FoldUnfolds(acc, ts); }
    hide RestValue, ItemValue, StrippedRest, StrippedItem, OperandMeaning, Fold, Apply;
  }

  lemma RestUnfolds(acc: Int32, r: Rest, trail: Blank, b: Behind)
    requires r.Then?
    ensures var o := ItemValue(r.item, Segment(r.more, trail, b));
            RestValue(acc, r, trail, b)
            == if o.Undefined? then Undefined
               else
                 var e := Apply(Symbol(r.op), acc, o.v);
                 if e.Next? then RestValue(e.v, r.more, trail, b) else if e.EndsWithZero? then Value(0) else Undefined
  {
    hide Apply, ItemValue;
  }

  lemma {:induction false} TightMeans(l: Line, trail: Blank, b: Behind)
    requires Tight(l)
    ensures LineValue(l, trail, b) == GoesOn(Walk(Stripped(l)), trail, b)
    ensures trail == "" ==> LineValue(l, trail, b) == Meaning(Stripped(l))
    decreases l
  {
    TightItemMeans(l.first, Segment(l.more, trail, b));
    forall a: Int32 ensures RestValue(a, l.more, trail, b) == GoesOn(Fold(a, StrippedRest(l.more)), trail, b) {
      TightRestMeans(l.more, a, trail, b);
    }
    hide ItemValue, StrippedItem, StrippedRest, OperandMeaning, Fold;
  }

  /** Blanks anywhere but in front of a closing parenthesis and at the end of the text change nothing. */
  lemma OtherBlanks(l: Line, cap: nat)
    requires cap > 0 && Tight(l)
    ensures EvalText(ShowLine(l), cap) == EvalText(Show(Stripped(l)), cap) == Meaning(Stripped(l))
  {
    SpacedShows(l, "", cap);
    EvalShows(Stripped(l), cap);
    TightMeans(l, "", TextEnd);
    hide *;
    assert ShowLine(l) + "" == ShowLine(l);
  }

  /** In front of a group's closing parenthesis they let its evaluation run on over the terminator planted there, at
      whatever place the group stands: what is behind the group is taken once inside it, from its value on, and once more
      behind it, unless the group stops before its end. */
  lemma BlanksInGroup(x: Item, more: Rest, trail: Blank, b: Behind)
    requires x.Paren? && x.trail != "" && Tight(x.inner)
    ensures var inside := Walk(Stripped(x.inner));
            ItemValue(x, Segment(more, trail, b))
            == if inside.Complete? then RestValue(inside.v, more, trail, b) else inside.o
  {
    TightMeans(x.inner, x.trail, Segment(more, trail, b));
    hide Walk, Stripped, LineValue;
  }

  /** So "(1 )*2" is 4. */
  lemma TakenTwice(cap: nat)
    requires cap > 0
    ensures EvalText("(1 )*2", cap) == Value(4)
  {
    var l := Line(Paren("", Line(Figure("", "1"), Stop), " "), Then("", Times, Figure("", "2"), Stop));
    SpacedShows(l, "", cap);
    assert TrailingNumber("1") == 1 && TrailingNumber("2") == 2;
    hide EvalText;
    assert ShowLine(l) + "" == "(1 )*2";
  }
}
