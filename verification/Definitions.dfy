/** What a definition's line says, and what it does to the next line. */
module Definitions {
  import opened Common
  import opened Text
  import opened AsmLexer
  import opened Preprocessor
  import opened Expansion
  import opened PreprocessorProof

  // ---------- the line ----------

  predicate All(k: Class, s: string) {
    forall i :: 0 <= i < |s| ==> In(k, s[i])
  }

  /** A name of at most 63 characters without white space. */
  predicate NameLike(name: string) {
    1 <= |name| <= 63 && All(Solid, name)
  }

  /** A value: text to the end of the line that starts with no white space. */
  predicate ValueLike(v: string) {
    v != "" && !IsSpace(v[0]) && All(RestOfLine, v)
  }

  lemma NameCut(g: string, name: string, t: string)
    requires All(Gap, g) && NameLike(name) && (t != "" ==> IsSpace(t[0]))
    ensures var text := g + (name + t);
            && Span(Gap, text, |text|) == |g| && text[|g|..] == name + t && Span(Solid, name + t, 63) == |name|
            && (name + t)[..|name|] == name && (name + t)[|name|..] == t
  {
    var text := g + (name + t);
    assert text[|g|..] == name + t;
    SpanIs(Gap, text, |text|, |g|);
    SpanIs(Solid, name + t, 63, |name|);
  }

  /** What is parsed, from where its parts are found to end. */
  lemma ParseIs(text: string, s: string, n: nat, w: string, v: nat)
    requires s == text[Span(Gap, text, |text|)..] && n == Span(Solid, s, 63) && n > 0
    requires w == s[n..][Span(Gap, s[n..], |s[n..]|)..] && v == Span(RestOfLine, w, 255)
    ensures ParseDefine(text) == Some(Define(s[..n], if v == 0 then "1" else w[..v]))
  {
    hide Span;
  }

  /** Name and value, white space between them, are what a definition's line says; a value is cut at 255 characters. */
  lemma DefinesValue(g: string, name: string, h: string, v: string)
    requires All(Gap, g) && NameLike(name) && All(Gap, h) && h != "" && ValueLike(v)
    ensures ParseDefine(g + (name + (h + v))) == Some(Define(name, Clip(v, 255)))
  {
    NameCut(g, name, h + v);
    var r := h + v;
    SpanIs(Gap, r, |r|, |h|);
    assert r[|h|..] == v;
    var n := if |v| <= 255 then |v| else 255;
    SpanIs(RestOfLine, v, 255, n);
    assert Clip(v, 255) == v[..n];
    hide Span, ParseDefine, In;
    ParseIs(g + (name + r), name + r, |name|, v, n);
  }

  /** A name alone is defined as 1. */
  lemma DefinesOne(g: string, name: string, h: string)
    requires All(Gap, g) && NameLike(name) && All(Gap, h)
    ensures ParseDefine(g + (name + h)) == Some(Define(name, "1"))
  {
    NameCut(g, name, h);
    SpanIs(Gap, h, |h|, |h|);
    assert h[|h|..] == "";
    SpanIs(RestOfLine, "", 255, 0);
    hide Span, ParseDefine, In;
    ParseIs(g + (name + h), name + h, |name|, "", 0);
  }

  /** Without a name nothing is defined. */
  lemma DefinesNothing(g: string)
    requires All(Gap, g)
    ensures ParseDefine(g) == None
  {
    SpanIs(Gap, g, |g|, |g|);
    assert g[|g|..] == "";
    SpanIs(Solid, "", 63, 0);
    hide Span;
  }

  /** A definition is put behind the earlier ones; other directives define nothing. */
  lemma DirectiveDefines(c: Context, text: string, line: nat)
    ensures var d := ParseDefine(text);
            After(c, Token(Directive, "#define" + text, line))
            == if d.Some? then c.(defines := c.defines + [d.value]) else c
    ensures !("#define" <= text) ==> After(c, Token(Directive, text, line)) == c
  {
    hide ParseDefine;
    assert ("#define" + text)[7..] == text;
  }

  // ---------- the next line ----------

  lemma DirectiveCut(d: string, t: string)
    requires d != "" && |d| <= ROOM && d[0] == '#' && forall i :: 0 <= i < |d| ==> d[i] != '\n'
    requires t != "" ==> t[0] == '\n'
    ensures !IsBlank(d[0]) && FirstCut(d + t) == Cut(Directive, |d|, |d|)
  {
    SpanIs(RestOfLine, d + t, ROOM, |d|);
    hide Span, NumberLength, StringLength;
    assert (d + t)[0] == '#';
  }

  lemma DirectiveLexed(d: string, t: string)
    requires d != "" && |d| <= ROOM && d[0] == '#' && forall i :: 0 <= i < |d| ==> d[i] != '\n'
    requires t != "" ==> t[0] == '\n'
    ensures Lex(d + t, 1) == [Token(Directive, d, 1)] + Lex(t, 1)
  {
    hide *;
    NoNewlines(d);
    DirectiveCut(d, t);
    LexStep(d, t, Directive, |d|, 1);
    assert d[..|d|] == d;
  }

  lemma NewlineLexed(t: string, line: nat)
    ensures Lex("\n" + t, line) == [Token(Newline, "\n", line)] + Lex(t, line + 1)
  {
    assert NewlinesIn("\n") == 1;
    hide Lex;
    LexStep("\n", t, Newline, 1, line);
  }

  lemma EndLexed(line: nat)
    ensures Lex("", line) == [Token(Eof, "", line)]
  {
  }

  lemma WordLexed(name: string, line: nat)
    requires IsWord(name) && |name| <= ROOM
    ensures Lex(name, line) == [Token(Identifier, name, line), Token(Eof, "", line)]
  {
    hide Lex, IsWord;
    EndLexed(line);
    WordReads(name, "", line);
    assert name + "" == name;
  }

  /** A directive that fits the lexer's buffer and defines a word. */
  predicate Defining(d: string, name: string, v: string) {
    && "#define" <= d && |d| <= ROOM && NewlinesFree(d)
    && ParseDefine(d[7..]) == Some(Define(name, v))
    && IsWord(name) && |name| <= ROOM && |v| < EXPANSION_ROOM && Closed(v)
  }

  predicate NewlinesFree(d: string) {
    forall i :: 0 <= i < |d| ==> d[i] != '\n'
  }

  function UsedTokens(d: string, name: string): seq<Token> {
    [Token(Directive, d, 1)] + ([Token(Newline, "\n", 1)] + ([Token(Identifier, name, 2)] + [Token(Eof, "", 2)]))
  }

  lemma UsedLexed(d: string, name: string, v: string)
    requires Defining(d, name, v)
    ensures Lex(d + ("\n" + name), 1) == UsedTokens(d, name)
  {
    hide Lex, Closed, IsWord, ParseDefine;
    DirectiveLexed(d, "\n" + name);
    NewlineLexed(name, 1);
    WordLexed(name, 2);
  }

  function Defined(name: string, v: string): Context {
    FRESH.(defines := [Define(name, v)])
  }

  lemma DefinedOne(d: string, name: string, v: string)
    requires Defining(d, name, v)
    ensures var c := Defined(name, v);
            && Plain(c) && Named(c.defines) && After(FRESH, Token(Directive, d, 1)) == c && InWord(name)
            && FirstOf(c.defines, name) == 0 && |c.defines| == 1 && c.defines[0].value == v
            && forall e :: e in c.defines ==> |e.value| < EXPANSION_ROOM
  {
    DefinedPlainly(d, name, v);
    DirectiveDefines(FRESH, d[7..], 1);
    assert d == "#define" + d[7..];
    hide ParseDefine, NewlinesIn, Closed, Plain;
  }

  lemma DefinedPlainly(d: string, name: string, v: string)
    requires Defining(d, name, v)
    ensures Plain(Defined(name, v)) && Named([Define(name, v)]) && InWord(name) && FirstOf([Define(name, v)], name) == 0
  {
    FreshIsPlain();
    ParsedOneLine(d[7..]);
    hide ParseDefine, NewlinesIn, Closed;
  }

  lemma DefinedPlain(d: string, name: string, v: string)
    requires Defining(d, name, v)
    ensures Plain(Defined(name, v)) && Named(Defined(name, v).defines) && Expand(Defined(name, v).defines, name, 0) == v
    ensures After(FRESH, Token(Directive, d, 1)) == Defined(name, v)
  {
    DefinedOne(d, name, v);
    hide *;
    NameExpands(Defined(name, v).defines, name);
  }

  lemma ReplacedName(c: Context, name: string, v: string, line: nat)
    requires Named(c.defines) && IsWord(name) && Expand(c.defines, name, 0) == v && |v| < EXPANSION_ROOM && Closed(v)
    ensures var t := Token(Identifier, name, line);
            && Readable(c, t) && After(c, t) == c && Piece(c, t, true) == v && !NewLineAfter(t, true)
            && (ExpansionSettled(c, t) <==> v == name || Settled(TokensOf(v, line)))
  {
    hide Expand, TokensOf, Closed, LocalName, Settled, ParseDefine;
    assert In(Word, name[0]) && "" + v + "" == v;
  }

  lemma OnNextLine(c: Context, line: nat)
    requires Named(c.defines)
    ensures var t := Token(Newline, "\n", line);
            && Readable(c, t) && After(c, t) == c && Piece(c, t, true) == "\n" && NewLineAfter(t, true)
            && ExpansionSettled(c, t)
    ensures var t := Token(Eof, "", line);
            && Readable(c, t) && After(c, t) == c && Piece(c, t, false) == "" && ExpansionSettled(c, t)
  {
  }

  lemma TameStep(t: Token, ts: seq<Token>, c: Context, newLine: bool)
    requires Named(c.defines) && Named(After(c, t).defines)
    ensures Tame([t] + ts, c)
            <==> Readable(c, t) && (t.kind == Directive ==> EndsLine([t] + ts)) && Tame(ts, After(c, t))
    ensures ExpansionsSettled([t] + ts, c) <==> ExpansionSettled(c, t) && ExpansionsSettled(ts, After(c, t))
    ensures Render([t] + ts, c, newLine) == Piece(c, t, newLine) + Render(ts, After(c, t), NewLineAfter(t, newLine))
  {
    assert ([t] + ts)[1..] == ts;
    hide Readable, ExpansionSettled, Piece, After, NewLineAfter, EndsLine;
  }

  lemma EndStep(line: nat, c: Context)
    requires Named(c.defines)
    ensures var ts := [Token(Eof, "", line)];
            Tame(ts, c) && ExpansionsSettled(ts, c) && Render(ts, c, false) == ""
  {
    OnNextLine(c, line);
    TameStep(Token(Eof, "", line), [], c, false);
    assert [Token(Eof, "", line)] == [Token(Eof, "", line)] + [];
  }

  lemma NameStep(c: Context, name: string, v: string)
    requires Plain(c) && Named(c.defines) && IsWord(name) && Expand(c.defines, name, 0) == v
    requires |v| < EXPANSION_ROOM && Closed(v)
    ensures var ts := [Token(Newline, "\n", 1)] + ([Token(Identifier, name, 2)] + [Token(Eof, "", 2)]);
            && Tame(ts, c) && Render(ts, c, true) == "\n" + v
            && (ExpansionsSettled(ts, c) <==> v == name || Settled(TokensOf(v, 2)))
  {
    hide *;
    var t, e := Token(Identifier, name, 2), [Token(Eof, "", 2)];
    ReplacedName(c, name, v, 2);
    EndStep(2, c);
    TameStep(t, e, c, true);
    Regrouped(v, "", "");
    NotDirective(t);
    NotDirective(Token(Newline, "\n", 1));
    OnNextLine(c, 1);
    TameStep(Token(Newline, "\n", 1), [t] + e, c, true);
  }

  lemma NotDirective(t: Token)
    requires t.kind == Identifier || t.kind == Newline
    ensures t.kind != Directive
  {
  }

  lemma DirectiveFacts(d: string, ts: seq<Token>)
    requires d != "" && ts != [] && ts[0].kind == Newline
    ensures var t := Token(Directive, d, 1);
            && Named(FRESH.defines) && Readable(FRESH, t) && ExpansionSettled(FRESH, t) && EndsLine([t] + ts)
            && Piece(FRESH, t, true) == "" && NewLineAfter(t, true)
  {
  }

  lemma UsedTame(d: string, name: string, v: string)
    requires Defining(d, name, v)
    ensures Named(FRESH.defines) && Tame(UsedTokens(d, name), FRESH) && Render(UsedTokens(d, name), FRESH, true) == "\n" + v
    ensures ExpansionsSettled(UsedTokens(d, name), FRESH) <==> v == name || Settled(TokensOf(v, 2))
  {
    DefiningFacts(d, name, v);
    hide *;
    var ts := [Token(Newline, "\n", 1)] + ([Token(Identifier, name, 2)] + [Token(Eof, "", 2)]);
    DefinedPlain(d, name, v);
    NameStep(Defined(name, v), name, v);
    DirectiveFacts(d, ts);
    TameStep(Token(Directive, d, 1), ts, FRESH, true);
    UsedTokensAre(d, name);
    Regrouped("", "\n" + v, "");
  }

  lemma DefiningFacts(d: string, name: string, v: string)
    requires Defining(d, name, v)
    ensures d != "" && IsWord(name) && |v| < EXPANSION_ROOM && Closed(v)
  {
  }

  lemma UsedTokensAre(d: string, name: string)
    ensures UsedTokens(d, name)
            == [Token(Directive, d, 1)] + ([Token(Newline, "\n", 1)] + ([Token(Identifier, name, 2)] + [Token(Eof, "", 2)]))
  {
  }

  /** The name on the line behind its definition becomes the value. */
  lemma DefinitionUsed(d: string, name: string, v: string)
    requires Defining(d, name, v)
    ensures PreprocessText(d + ("\n" + name)) == "\n" + v
  {
    DefiningFacts(d, name, v);
    ShortResult(v);
    hide *;
    UsedLexed(d, name, v);
    UsedTame(d, name, v);
    RenderedIs(d + ("\n" + name));
    FitsWhole(d + ("\n" + name));
  }

  lemma ValueLexed(v: string)
    requires Closed(v)
    ensures Lex("\n" + v, 1) == [Token(Newline, "\n", 1)] + (TokensOf(v, 2) + [Token(Eof, "", 2 + NewlinesIn(v))])
  {
    hide *;
    NewlineLexed(v, 1);
    ClosedEmpty();
    ClosedReads(v, "", 2);
    Regrouped(v, "", "");
    EndLexed(2 + NewlinesIn(v));
  }

  /** A second pass keeps the tokens of that result exactly when the value's are settled. */
  lemma DefinitionTwice(d: string, name: string, v: string)
    requires Defining(d, name, v) && |Rendered("\n" + v)| < RESULT_ROOM
    ensures Lex(PreprocessText("\n" + v), 1) == Lex("\n" + v, 1) <==> v == name || Settled(TokensOf(v, 2))
  {
    DefiningFacts(d, name, v);
    ShortResult(v);
    hide *;
    DefinitionUsed(d, name, v);
    UsedLexed(d, name, v);
    UsedTame(d, name, v);
    RenderedIs(d + ("\n" + name));
    PreprocessingTwice(d + ("\n" + name));
  }

  lemma ShortResult(v: string)
    requires |v| < EXPANSION_ROOM
    ensures |"\n" + v| < RESULT_ROOM
  {
  }

  lemma ClosedEmpty()
    ensures Separated("")
  {
  }

  // ---------- lines of every name and value ----------

  /** `#define name` makes the name on the next line a 1, which is read as the number. */
  lemma NameAloneIsOne(name: string)
    requires IsWord(name) && |name| <= 63
    ensures PreprocessText("#define" + (" " + name) + ("\n" + name)) == "\n" + "1"
    ensures Lex("\n" + "1", 1) == [Token(Newline, "\n", 1), Token(Number, "1", 2), Token(Eof, "", 2)]
  {
    OneLexed();
    hide *;
    NameLine(name);
    DefinitionUsed("#define" + (" " + name), name, "1");
  }

  lemma OneLexed()
    ensures Lex("\n" + "1", 1) == [Token(Newline, "\n", 1), Token(Number, "1", 2), Token(Eof, "", 2)]
  {
    hide Lex, TokensOf, Closed, NewlinesIn;
    OneIsClosed();
    ValueLexed("1");
  }

  lemma NameLine(name: string)
    requires IsWord(name) && |name| <= 63
    ensures Defining("#define" + (" " + name), name, "1")
  {
    WordIsName(name);
    SpaceAndName(name);
    hide *;
    DefinesOne(" ", name, "");
    Regrouped(name, "", "");
    LineShape(" " + name);
    OneIsClosed();
    LineIsDefining("#define" + (" " + name), name, "1");
  }

  lemma SpaceAndName(name: string)
    requires NameLike(name)
    ensures All(Gap, " ") && All(Gap, "") && |" " + name| <= 64 && 7 + 64 <= ROOM && |"1"| < EXPANSION_ROOM
    ensures NewlinesFree(name) ==> NewlinesFree(" " + name)
  {
  }

  lemma WordIsName(name: string)
    requires IsWord(name) && |name| <= 63
    ensures NameLike(name) && NewlinesFree(name)
  {
  }

  lemma LineShape(x: string)
    ensures var d := "#define" + x;
            && "#define" <= d && d[7..] == x && |d| == 7 + |x| && (NewlinesFree(x) ==> NewlinesFree(d))
  {
  }

  lemma LineIsDefining(d: string, name: string, v: string)
    requires "#define" <= d && ParseDefine(d[7..]) == Some(Define(name, v)) && |d| <= ROOM && NewlinesFree(d)
    requires IsWord(name) && |name| <= 63 && |v| < EXPANSION_ROOM && Closed(v)
    ensures Defining(d, name, v)
  {
    hide Closed, ParseDefine, IsWord;
  }

  lemma OneCut()
    ensures !IsBlank("1"[0]) && FirstCut("1") == Cut(Number, 1, 1)
  {
    SpanIs(Figures, "1", ROOM, 1);
    hide Span;
  }

  lemma OneIsClosed()
    ensures Closed("1") && TokensOf("1", 2) == [Token(Number, "1", 2)] && NewlinesIn("1") == 0
  {
    NoNewlines("1");
    OneCut();
    hide Span, NewlinesIn, FirstCut, Lex, TokensOf;
    TokensUnfold("1", 2);
    assert Rest("1") == "1" && Remainder("1") == "" && "1"[..1] == "1";
    TokensUnfold("", 2);
  }

  /** `#define name value` makes the name on the next line the value. */
  lemma ValueTakesPlace(name: string, v: string)
    requires IsWord(name) && |name| <= 63 && ValueLike(v) && Closed(v) && 9 + |name| + |v| <= ROOM
    ensures PreprocessText("#define" + (" " + (name + (" " + v))) + ("\n" + name)) == "\n" + v
  {
    WordIsName(name);
    ValueLine(name, v);
    hide *;
    DefinesValue(" ", name, " ", v);
    LineShape(" " + (name + (" " + v)));
    LineIsDefining("#define" + (" " + (name + (" " + v))), name, v);
    DefinitionUsed("#define" + (" " + (name + (" " + v))), name, v);
  }

  lemma ValueLine(name: string, v: string)
    requires NameLike(name) && NewlinesFree(name) && ValueLike(v) && 9 + |name| + |v| <= ROOM
    ensures All(Gap, " ") && " " != "" && Clip(v, 255) == v && |v| < EXPANSION_ROOM
    ensures var x := " " + (name + (" " + v)); NewlinesFree(x) && 7 + |x| <= ROOM
  {
  }

  // ---------- a definition that the second pass sees ----------

  lemma DotCut()
    ensures ".f" + "" == ".f" && ".f"[..2] == ".f" && !IsBlank(".f"[0]) && FirstCut(".f") == Cut(Identifier, 2, 2)
  {
    SpanIs(Word, ".f"[1..], ROOM - 1, 1);
    hide Span;
  }

  lemma DotLexed(line: nat)
    ensures Lex(".f", line) == [Token(Identifier, ".f", line), Token(Eof, "", line)]
    ensures Closed(".f") && TokensOf(".f", line) == [Token(Identifier, ".f", line)]
  {
    NoNewlines(".f");
    DotCut();
    hide Lex, Span, FirstCut, NewlinesIn;
    EndLexed(line);
    LexStep(".f", "", Identifier, 2, line);
    assert Rest(".f") == ".f" && Remainder(".f") == "";
  }

  lemma DotUnsettled(line: nat)
    ensures !Settled([Token(Identifier, ".f", line)])
  {
    assert Token(Identifier, ".f", line) in [Token(Identifier, ".f", line)];
  }

  /** After `#define L .f`, the first pass leaves a dot name and the second one resolves it. */
  lemma DottedChanges()
    ensures var text := "#define" + (" " + ("L" + (" " + ".f"))) + ("\n" + "L");
            && PreprocessText(text) == "\n" + ".f"
            && Lex(PreprocessText(PreprocessText(text)), 1) != Lex(PreprocessText(text), 1)
  {
    DotLexed(2);
    DotUnsettled(2);
    SecondFits();
    LetterIsWord();
    DotIsValue();
    hide *;
    ValueTakesPlace("L", ".f");
    WordIsName("L");
    ValueLine("L", ".f");
    DefinesValue(" ", "L", " ", ".f");
    LineShape(" " + ("L" + (" " + ".f")));
    LineIsDefining("#define" + (" " + ("L" + (" " + ".f"))), "L", ".f");
    DefinitionTwice("#define" + (" " + ("L" + (" " + ".f"))), "L", ".f");
  }

  lemma LetterIsWord()
    ensures IsWord("L") && |"L"| <= 63 && ".f" != "L"
  {
    assert ".f"[0] != "L"[0];
  }

  lemma DotIsValue()
    ensures ValueLike(".f") && 9 + |"L"| + |".f"| <= ROOM
  {
  }

  function SecondTokens(): seq<Token> {
    [Token(Newline, "\n", 1), Token(Identifier, ".f", 2), Token(Eof, "", 2)]
  }

  lemma SecondLexed()
    ensures Lex("\n" + ".f", 1) == SecondTokens()
  {
    hide Lex;
    NewlineLexed(".f", 1);
    DotLexed(2);
  }

  lemma DotPrinted(line: nat)
    ensures var dot := Token(Identifier, ".f", line);
            && Named(FRESH.defines) && Named(After(FRESH, dot).defines)
            && |Piece(FRESH, dot, true)| <= GLOBAL_ROOM && !NewLineAfter(dot, true)
  {
    hide LocalName, Expand;
    assert |LocalName(FRESH, ".f")| <= GLOBAL_ROOM by { ShortName(FRESH, ".f"); }
  }

  lemma ShortName(c: Context, name: string)
    ensures |LocalName(c, name)| <= GLOBAL_ROOM
  {
  }

  lemma SecondFits()
    ensures |Rendered("\n" + ".f")| < RESULT_ROOM
  {
    hide Piece, Tame, ExpansionsSettled, Readable, Render, After, NewLineAfter, Lex, Rendered;
    SecondLexed();
    RenderedIs("\n" + ".f");
    var dot := Token(Identifier, ".f", 2);
    DotPrinted(2);
    OnNextLine(FRESH, 1);
    EndStep(2, After(FRESH, dot));
    TameStep(dot, [Token(Eof, "", 2)], FRESH, true);
    TameStep(Token(Newline, "\n", 1), [dot] + [Token(Eof, "", 2)], FRESH, true);
    assert SecondTokens() == [Token(Newline, "\n", 1)] + ([dot] + [Token(Eof, "", 2)]);
  }
}
