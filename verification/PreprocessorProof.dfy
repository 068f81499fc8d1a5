/** Preprocessed text read again: which tokens it has, and when a second pass keeps them all. */
module PreprocessorProof {
  import opened Common
  import opened Text
  import opened AsmLexer
  import opened Preprocessor
  import opened Expansion

  // ---------- one token ----------

  lemma FrontFacts(core: string, t: string, kind: Kind, n: nat, line: nat)
    requires n <= |core| && core != "" && !IsBlank(core[0])
    requires FirstCut(core + t) == Cut(kind, n, |core|)
    ensures var r := core + t;
            && r != "" && !IsBlank(r[0]) && Rest(r) == r && Remainder(r) == t
            && FirstToken(r, line) == Token(kind, core[..n], line) && FirstUsed(r) == core
  {
    hide FirstCut;
    var r := core + t;
    assert r[..n] == core[..n] && r[|core|..] == t && r[..|core|] == core;
    assert r[0] == core[0] && Blanks(r) == 0 && r[0..] == r;
  }

  /** The reading of a text that starts with a token of known length. */
  lemma LexStep(core: string, t: string, kind: Kind, n: nat, line: nat)
    requires n <= |core| && core != "" && !IsBlank(core[0])
    requires FirstCut(core + t) == Cut(kind, n, |core|)
    ensures Lex(core + t, line) == [Token(kind, core[..n], line)] + Lex(t, line + NewlinesIn(core))
  {
    hide *;
    FrontFacts(core, t, kind, n, line);
    LexUnfolds(core + t, line);
  }

  predicate IsWord(s: string) {
    s != "" && IsIdentifierStart(s[0]) && forall i :: 0 <= i < |s| ==> In(Word, s[i])
  }

  lemma WordReads(g: string, t: string, line: nat)
    requires IsWord(g) && |g| <= ROOM
    ensures Separated(t) ==> Lex(g + t, line) == [Token(Identifier, g, line)] + Lex(t, line)
    ensures Lex(g + ":" + t, line) == [Token(Label, g, line)] + Lex(t, line)
  {
    hide Lex;
    NoNewlines(g);
    NoNewlines(g + ":");
    WordAgain(Word, g, ":" + t, ROOM);
    assert g + ":" + t == g + (":" + t);
    assert FirstCut(g + ":" + t) == Cut(Label, |g|, |g| + 1);
    LexStep(g + ":", t, Label, |g|, line);
    assert (g + ":")[..|g|] == g;
    if Separated(t) {
      WordAgain(Word, g, t, ROOM);
      LexStep(g, t, Identifier, |g|, line);
      assert g[..|g|] == g;
    }
  }

  predicate IsPlain(k: Kind) {
    k.Identifier? || k.Label? || k.Number? || k.Str? || k.Comma? || k.LParen? || k.RParen?
  }

  /** What a printed token, not a dot name, is cut from is what it is printed as. */
  lemma CutAgain(r: string, t: string)
    requires r != "" && !IsBlank(r[0]) && IsPlain(FirstCut(r).kind) && r[0] != '.'
    requires Separated(t) && (FirstCut(r).used == |r| ==> t == "")
    ensures var c := FirstCut(r); FirstCut(r[..c.used] + t) == c
  {
    var c := FirstCut(r);
    SignOrOther(r);
    hide FirstCut;
    if r[0] == '"' {
      StringCutAgain(r, t);
    } else if IsDigit(r[0]) {
      NumberCutAgain(r, t);
    } else if IsIdentifierStart(r[0]) {
      WordCutAgain(r, t);
    } else {
      SignCutAgain(r, t);
    }
  }

  lemma SignOrOther(r: string)
    requires r != "" && !IsBlank(r[0]) && IsPlain(FirstCut(r).kind) && r[0] != '.'
    ensures r[0] == '"' || IsDigit(r[0]) || IsIdentifierStart(r[0]) || r[0] in {',', '(', ')'}
  {
    hide Span, NumberLength, StringLength;
  }

  lemma SignCutAgain(r: string, t: string)
    requires r != "" && r[0] in {',', '(', ')'}
    ensures var c := FirstCut(r); r[..c.used] + t != "" && !IsBlank((r[..c.used] + t)[0]) && FirstCut(r[..c.used] + t) == c
  {
    hide Span, NumberLength, StringLength;
    assert FirstCut(r).used == 1;
  }

  lemma StringCutAgain(r: string, t: string)
    requires r != "" && r[0] == '"' && Separated(t) && (FirstCut(r).used == |r| ==> t == "")
    ensures var c := FirstCut(r); r[..c.used] + t != "" && !IsBlank((r[..c.used] + t)[0]) && FirstCut(r[..c.used] + t) == c
  {
    StringAgain(r, t);
    hide StringLength;
    assert (r[..FirstCut(r).used] + t)[0] == r[0];
  }

  lemma NumberCutAgain(r: string, t: string)
    requires r != "" && IsDigit(r[0]) && Separated(t)
    ensures var c := FirstCut(r); r[..c.used] + t != "" && !IsBlank((r[..c.used] + t)[0]) && FirstCut(r[..c.used] + t) == c
  {
    NumberAgain(r, t);
    hide NumberLength;
    assert (r[..FirstCut(r).used] + t)[0] == r[0];
  }

  lemma WordCutAgain(r: string, t: string)
    requires r != "" && IsIdentifierStart(r[0]) && Separated(t)
    ensures var c := FirstCut(r); r[..c.used] + t != "" && !IsBlank((r[..c.used] + t)[0]) && FirstCut(r[..c.used] + t) == c
  {
    var c := FirstCut(r);
    var colon := if c.kind == Label then ":" else "";
    var v := r[..c.used] + t;
    assert r[..c.used] == r[..c.length] + colon;
    assert v == r[..c.length] + (colon + t) && v[0] == r[0];
    WordAgain(Word, r[..c.length], colon + t, ROOM);
    hide Span;
  }

  lemma StringAgain(s: string, t: string)
    requires s != "" && s[0] == '"' && Separated(t) && (StringLength(s) == |s| ==> t == "")
    ensures var n := StringLength(s); s[..n] + t != "" && StringLength(s[..n] + t) == n
  {
    var n := StringLength(s);
    var e := StringBody(s, 1);
    BodyAgain(s, t, n, 1);
    if e < |s| && s[e] == '"' {
      assert (s[..n] + t)[e] == s[e];
    }
  }

  // ---------- one token printed and read ----------

  /** Definitions as directives give them, and a global label that is a word with room for more. */
  predicate Plain(c: Context) {
    Named(c.defines) && OneLine(c.defines) && IsWord(c.global) && |c.global| <= GLOBAL_ROOM
  }

  lemma GlobalNameIsWord(c: Context, n: nat)
    requires Plain(c)
    ensures IsWord(GlobalName(c.global, n)) && |GlobalName(c.global, n)| <= GLOBAL_ROOM
  {
    var full := c.global + "__local_" + Decimal(n);
    forall i | 0 <= i < |full| ensures In(Word, full[i]) {
      if i >= |c.global| + 8 { assert full[i] == Decimal(n)[i - |c.global| - 8]; }
    }
  }

  lemma AfterIsPlain(c: Context, r: string, line: nat)
    requires Plain(c) && r != "" && !IsBlank(r[0])
    ensures Plain(After(c, FirstToken(r, line)))
  {
    var t := FirstToken(r, line);
    if t.kind == Directive {
      DirectiveIsPlain(c, t);
    } else {
      if t.kind == Label { LabelIsWord(r); }
      hide FirstCut, IndexOf, Expand, ParseDefine;
    }
  }

  lemma DirectiveIsPlain(c: Context, t: Token)
    requires Plain(c) && t.kind == Directive
    ensures Plain(After(c, t))
  {
    if "#define" <= t.value { ParsedOneLine(t.value[7..]); }
    hide ParseDefine, NewlinesIn, IsWord;
  }

  function Colon(t: Token): string {
    if t.kind == Label || t.kind == LocalLabel then ":" else ""
  }

  function Spacing(newLine: bool): string {
    if newLine then "" else " "
  }

  lemma PlainPiece(c: Context, t: Token, newLine: bool)
    requires Plain(c) && IsPlain(t.kind) && t.value != "" && t.value[0] != '.'
    ensures Piece(c, t, newLine) == Spacing(newLine) + Expand(c.defines, t.value, 0) + Colon(t)
  {
    hide Expand, LocalName;
  }

  /** Without definitions nothing is expanded. */
  lemma NoExpansion(c: Context, t: Token)
    requires c.defines == [] && |t.value| <= EXPANSION_ROOM
    ensures Named(c.defines) && Expand(c.defines, t.value, 0) == t.value
  {
    ExpandUntouched(c.defines, t.value, 0);
  }

  lemma DotPiece(c: Context, t: Token, newLine: bool)
    requires Plain(c) && IsDot(t) && t.value != ""
    ensures Piece(c, t, newLine) == Spacing(newLine) + LocalName(c, t.value) + Colon(t)
  {
    hide Expand, LocalName;
  }

  /** Reading a token's printed form, cut from `used`, gives back what the preprocessor made of the token. */
  ghost predicate ReadsBack(c: Context, t: Token, used: string, newLine: bool, rest: string)
    requires Named(c.defines)
  {
    Lex(Piece(c, t, newLine) + rest, t.line) == Renamed(c, t) + Lex(rest, t.line + NewlinesIn(used))
  }

  lemma CoreReadsBack(c: Context, t: Token, used: string, newLine: bool, rest: string, core: string, ts: seq<Token>)
    requires Named(c.defines) && (Piece(c, t, newLine) == core || Piece(c, t, newLine) == " " + core)
    requires Renamed(c, t) == ts && Lex(core + rest, t.line) == ts + Lex(rest, t.line + NewlinesIn(used))
    ensures ReadsBack(c, t, used, newLine, rest)
  {
    hide Lex, Piece, Renamed, NewlinesIn, Named;
    SpaceSkipped(core + rest, t.line);
    assert " " + core + rest == " " + (core + rest);
  }

  lemma NewlineFacts(c: Context, line: nat, newLine: bool, rest: string)
    requires Plain(c)
    ensures var t := Token(Newline, "\n", line);
            && Named(c.defines) && Piece(c, t, newLine) == "\n" && Renamed(c, t) == [t] && "\n"[..1] == "\n"
    ensures FirstCut("\n" + rest) == Cut(Newline, 1, 1) && !IsBlank("\n"[0])
  {
  }

  lemma NewlineReadsBack(c: Context, line: nat, newLine: bool, rest: string)
    requires Plain(c)
    ensures Named(c.defines) && ReadsBack(c, Token(Newline, "\n", line), "\n", newLine, rest)
  {
    hide *;
    NewlineFacts(c, line, newLine, rest);
    LexStep("\n", rest, Newline, 1, line);
    CoreReadsBack(c, Token(Newline, "\n", line), "\n", newLine, rest, "\n", [Token(Newline, "\n", line)]);
  }

  lemma NothingReadsBack(c: Context, t: Token, used: string, newLine: bool, rest: string)
    requires Plain(c) && NewlinesIn(used) == 0
    requires t.kind == Comment || t.kind == Directive || (t.kind == Error && t.value == "")
    ensures Named(c.defines) && ReadsBack(c, t, used, newLine, rest)
  {
    hide Lex;
    assert "" + rest == rest;
  }

  lemma DotFacts(c: Context, t: Token)
    requires Plain(c) && IsDot(t) && t.value != ""
    ensures var g := LocalName(c, t.value);
            && Named(c.defines) && IsWord(g) && |g| <= ROOM
            && Renamed(c, t) == [Token(if t.kind == LocalLabel then Label else Identifier, g, t.line)]
            && Colon(t) == (if t.kind == LocalLabel then ":" else "") && g + "" == g
  {
    GlobalNameIsWord(c, IndexOf(c.locals, t.value));
    hide IsWord, GlobalName;
  }

  lemma DotReadsBack(c: Context, t: Token, used: string, newLine: bool, rest: string)
    requires Plain(c) && IsDot(t) && t.value != "" && Separated(rest) && NewlinesIn(used) == 0
    ensures Named(c.defines) && ReadsBack(c, t, used, newLine, rest)
  {
    hide *;
    var g := LocalName(c, t.value);
    DotFacts(c, t);
    DotPiece(c, t, newLine);
    WordReads(g, rest, t.line);
    Regrouped(Spacing(newLine), g, Colon(t));
    SpacedPiece(c, t, newLine, g + Colon(t));
    CoreReadsBack(c, t, used, newLine, rest, g + Colon(t), Renamed(c, t));
  }

  lemma SpacedPiece(c: Context, t: Token, newLine: bool, core: string)
    requires Named(c.defines) && Piece(c, t, newLine) == Spacing(newLine) + core
    ensures Piece(c, t, newLine) == core || Piece(c, t, newLine) == " " + core
  {
    hide Piece;
    assert "" + core == core;
  }

  lemma PlainFacts(c: Context, t: Token)
    requires Plain(c) && IsPlain(t.kind) && t.value != "" && t.value[0] != '.'
    ensures Named(c.defines)
    ensures var e := Expand(c.defines, t.value, 0);
            Renamed(c, t) == if e == t.value then [t]
                             else if t.kind == Label then [Token(Label, e, t.line)] else TokensOf(e, t.line)
    ensures Colon(t) == if t.kind == Label then ":" else ""
  {
    hide Expand, TokensOf, LocalName;
  }

  lemma PlainReadsBack(c: Context, t: Token, newLine: bool, rest: string)
    requires Plain(c) && IsPlain(t.kind) && t.value != "" && t.value[0] != '.'
    requires Expand(c.defines, t.value, 0) == t.value
    requires Lex(t.value + Colon(t) + rest, t.line) == [t] + Lex(rest, t.line + NewlinesIn(t.value + Colon(t)))
    ensures Named(c.defines) && ReadsBack(c, t, t.value + Colon(t), newLine, rest)
  {
    hide *;
    PlainFacts(c, t);
    PlainPiece(c, t, newLine);
    Regrouped(Spacing(newLine), t.value, Colon(t));
    SpacedPiece(c, t, newLine, t.value + Colon(t));
    CoreReadsBack(c, t, t.value + Colon(t), newLine, rest, t.value + Colon(t), [t]);
  }

  // ---------- expanded tokens ----------

  /** A token whose expansion, if it has one, can be told apart from what follows: a word in front of a label's colon, a
      closed text elsewhere, not cut short. */
  predicate Readable(c: Context, t: Token)
    requires Named(c.defines)
  {
    IsPlain(t.kind) && t.value != "" && !IsDot(t) ==>
      var e := Expand(c.defines, t.value, 0);
      e == t.value || if t.kind == Label then IsWord(e) && |e| <= ROOM else |e| < EXPANSION_ROOM && Closed(e)
  }

  lemma ReadableFacts(c: Context, t: Token)
    requires Plain(c) && Readable(c, t) && IsPlain(t.kind) && t.value != "" && t.value[0] != '.'
    ensures var e := Expand(c.defines, t.value, 0);
            e == t.value || if t.kind == Label then IsWord(e) && |e| <= ROOM else |e| < EXPANSION_ROOM && Closed(e)
    ensures Named(c.defines) && OneLine(c.defines)
  {
    hide Expand, Closed, IsWord;
  }

  /** The tokens of the value stand where the name stood. */
  lemma ValueReadsBack(c: Context, t: Token, used: string, newLine: bool, rest: string)
    requires Plain(c) && IsPlain(t.kind) && t.kind != Label && t.value != "" && t.value[0] != '.' && Readable(c, t)
    requires Separated(rest) && used == t.value && Named(c.defines) && Expand(c.defines, t.value, 0) != t.value
    ensures Named(c.defines) && ReadsBack(c, t, used, newLine, rest)
  {
    hide *;
    var e := Expand(c.defines, t.value, 0);
    ReadableFacts(c, t);
    PlainFacts(c, t);
    PlainPiece(c, t, newLine);
    ExpandKeepsLines(c.defines, t.value, 0);
    ClosedReads(e, rest, t.line);
    Regrouped(Spacing(newLine), e, "");
    SpacedPiece(c, t, newLine, e);
    CoreReadsBack(c, t, used, newLine, rest, e, TokensOf(e, t.line));
  }

  lemma LabelReadsBack(c: Context, t: Token, used: string, newLine: bool, rest: string)
    requires Plain(c) && t.kind == Label && t.value != "" && t.value[0] != '.' && Readable(c, t)
    requires NewlinesIn(used) == 0 && Named(c.defines) && Expand(c.defines, t.value, 0) != t.value
    ensures Named(c.defines) && ReadsBack(c, t, used, newLine, rest)
  {
    hide *;
    var e := Expand(c.defines, t.value, 0);
    assert IsPlain(t.kind) by { LabelPrints(t); }
    ReadableFacts(c, t);
    PlainFacts(c, t);
    PlainPiece(c, t, newLine);
    WordReads(e, rest, t.line);
    Regrouped(Spacing(newLine), e, ":");
    SpacedPiece(c, t, newLine, e + ":");
    CoreReadsBack(c, t, used, newLine, rest, e + ":", [Token(Label, e, t.line)]);
  }

  lemma LabelPrints(t: Token)
    requires t.kind == Label
    ensures IsPlain(t.kind)
  {
  }

  lemma ShortValue(r: string)
    requires r != "" && !IsBlank(r[0]) && IsPlain(FirstCut(r).kind) && r[0] != '.'
    ensures var c := FirstCut(r);
            && 0 < c.length <= EXPANSION_ROOM && r[0] == r[..c.length][0]
            && r[..c.used] == r[..c.length] + (if c.kind == Label then ":" else "")
  {
  }

  lemma NoNewlineUsed(r: string)
    requires r != "" && !IsBlank(r[0])
    requires r[0] == '.' || FirstCut(r).kind in {Comment, Error, Directive, Label}
    ensures forall i :: 0 <= i < FirstCut(r).used ==> r[i] != '\n'
    ensures r[0] == '.' ==> var c := FirstCut(r); 0 < c.length && (c.kind == LocalLabel || c.kind == Identifier)
    ensures FirstCut(r).kind == Error ==> FirstCut(r).length == 0
  {
  }

  lemma CutKinds(r: string)
    requires r != "" && !IsBlank(r[0])
    ensures var k := FirstCut(r).kind;
            || IsPlain(k) || k == LocalLabel || k == Newline || k == Comment || k == Directive || k == Error
    ensures FirstCut(r).kind == LocalLabel ==> r[0] == '.'
    ensures FirstCut(r).kind == Newline <==> r[0] == '\n'
    ensures r[0] == '\n' ==> FirstCut(r) == Cut(Newline, 1, 1)
  {
  }

  /** One token's part of the round trip. */
  lemma TokenReadsBack(c: Context, r: string, line: nat, newLine: bool, rest: string)
    requires Plain(c) && r != "" && !IsBlank(r[0]) && Readable(c, FirstToken(r, line))
    requires FirstCut(r).used == |r| ==> rest == ""
    requires !NewLineAfter(FirstToken(r, line), newLine) ==> Separated(rest)
    ensures Named(c.defines) && ReadsBack(c, FirstToken(r, line), FirstUsed(r), newLine, rest)
  {
    hide *;
    CutKinds(r);
    KindFacts(r, line, newLine);
    if r[0] == '\n' {
      NewlineReadsBack(c, line, newLine, rest);
    } else if r[0] == '.' {
      DotReadsBack(c, FirstToken(r, line), FirstUsed(r), newLine, rest);
    } else if FirstCut(r).kind == Comment || FirstCut(r).kind == Error || FirstCut(r).kind == Directive {
      NothingReadsBack(c, FirstToken(r, line), FirstUsed(r), newLine, rest);
    } else {
      PlainCutReadsBack(c, r, line, newLine, rest);
    }
  }

  lemma KindFacts(r: string, line: nat, newLine: bool)
    requires r != "" && !IsBlank(r[0])
    ensures var t := FirstToken(r, line);
            && t.kind == FirstCut(r).kind && t.line == line
            && (r[0] == '\n' ==> t == Token(Newline, "\n", line) && FirstUsed(r) == "\n")
            && (r[0] == '.' ==> IsDot(t) && t.value != "" && NewlinesIn(FirstUsed(r)) == 0)
            && (t.kind in {Comment, Error, Directive, Label} ==> NewlinesIn(FirstUsed(r)) == 0)
            && (t.kind == Error ==> t.value == "")
            && (t.kind !in {Comment, Newline, Directive} ==> !NewLineAfter(t, newLine))
    ensures FirstCut(r).kind in {Comment, Error, Directive, Newline} || r[0] == '.'
            || (IsPlain(FirstCut(r).kind) && r[0] != '.')
  {
    CutKinds(r);
    if r[0] == '.' || FirstCut(r).kind in {Comment, Error, Directive, Label} {
      NoNewlineUsed(r);
      NoNewlines(FirstUsed(r));
    }
  }

  lemma PlainCutFacts(r: string, line: nat)
    requires r != "" && !IsBlank(r[0]) && IsPlain(FirstCut(r).kind) && r[0] != '.'
    ensures var t := FirstToken(r, line);
            && IsPlain(t.kind) && 0 < |t.value| <= EXPANSION_ROOM && t.value[0] != '.' && t.line == line
            && FirstUsed(r) == t.value + Colon(t) == r[..FirstCut(r).used]
            && FirstUsed(r)[..|t.value|] == t.value && |FirstUsed(r)| == FirstCut(r).used && FirstUsed(r)[0] == r[0]
            && t == Token(FirstCut(r).kind, t.value, line) && |t.value| == FirstCut(r).length
  {
    ShortValue(r);
    CutKinds(r);
    hide FirstCut;
  }

  lemma PlainCutReadsBack(c: Context, r: string, line: nat, newLine: bool, rest: string)
    requires Plain(c) && r != "" && !IsBlank(r[0]) && IsPlain(FirstCut(r).kind) && r[0] != '.'
    requires Separated(rest) && (FirstCut(r).used == |r| ==> rest == "") && Readable(c, FirstToken(r, line))
    ensures Named(c.defines) && ReadsBack(c, FirstToken(r, line), FirstUsed(r), newLine, rest)
  {
    hide *;
    PlainCutFacts(r, line);
    var t := FirstToken(r, line);
    PlainFacts(c, t);
    if Expand(c.defines, t.value, 0) == t.value {
      CutAgain(r, rest);
      LexStep(FirstUsed(r), rest, FirstCut(r).kind, FirstCut(r).length, line);
      PlainReadsBack(c, t, newLine, rest);
    } else if t.kind == Label {
      KindFacts(r, line, newLine);
      LabelReadsBack(c, t, FirstUsed(r), newLine, rest);
    } else {
      ValueReadsBack(c, t, FirstUsed(r), newLine, rest);
    }
  }

  // ---------- whole texts ----------

  predicate Undirected(ts: seq<Token>) {
    forall t :: t in ts ==> t.kind != Directive
  }

  predicate Formed(t: Token) {
    && (t.value == "" <==> t.kind == Eof || t.kind == Error)
    && (t.kind == Newline ==> t.value == "\n")
    && (t.kind == Label ==> IsWord(t.value))
    && (t.kind == Comment ==> t.value[0] == ';')
    && (t.value != "" ==> (IsDot(t) <==> t.value[0] == '.'))
    && (|t.value| <= EXPANSION_ROOM)
  }

  predicate AllFormed(ts: seq<Token>) {
    forall t :: t in ts ==> Formed(t)
  }

  lemma CutFormed(r: string, line: nat)
    requires r != "" && !IsBlank(r[0])
    ensures Formed(FirstToken(r, line))
  {
    CutKinds(r);
    if IsPlain(FirstCut(r).kind) && r[0] != '.' { ShortValue(r); }
    if FirstCut(r).kind == Label { LabelIsWord(r); }
  }

  lemma LabelIsWord(r: string)
    requires r != "" && !IsBlank(r[0]) && FirstCut(r).kind == Label
    ensures IsWord(r[..FirstCut(r).length])
  {
    hide NumberLength, StringLength;
  }

  lemma {:induction false} LexFormed(s: string, line: nat)
    ensures AllFormed(Lex(s, line))
    decreases |s|
  {
    hide *;
    LexUnfolds(s, line);
    var r := Rest(s);
    if r != "" {
      CutFormed(r, line);
      LexFormed(Remainder(r), line + NewlinesIn(FirstUsed(r)));
      FormedJoins(FirstToken(r, line), Lex(Remainder(r), line + NewlinesIn(FirstUsed(r))));
    } else {
      FormedJoins(Token(Eof, "", line), []);
    }
  }

  lemma FormedJoins(t: Token, ts: seq<Token>)
    requires t == Token(Eof, "", t.line) || Formed(t)
    requires ts == [] || AllFormed(ts)
    ensures AllFormed([t] + ts) && [t] + [] == [t]
  {
  }

  /** A directive that is the last token of its line, as one that fits the lexer's buffer is. */
  predicate EndsLine(ts: seq<Token>) {
    |ts| > 1 && (ts[1].kind == Newline || (|ts| == 2 && ts[1].kind == Eof))
  }

  /** A token list whose expansions can all be told apart from what follows them. */
  predicate Tame(ts: seq<Token>, c: Context)
    requires Named(c.defines)
  {
    ts == [] || (Readable(c, ts[0]) && (ts[0].kind == Directive ==> EndsLine(ts)) && Tame(ts[1..], After(c, ts[0])))
  }

  lemma {:induction false} StaysSeparated(ts: seq<Token>, c: Context)
    requires Plain(c) && Tame(ts, c) && AllFormed(ts)
    ensures Named(c.defines) && Separated(Render(ts, c, false))
  {
    hide Expand, LocalName, Decimal, Readable, ParseDefine;
    if ts != [] && !Prints(ts[0]) && ts[0].kind != Newline {
      assert ts[0] in ts && Formed(ts[0]);
      if ts[0].kind == Directive {
        assert ts[1] in ts && Formed(ts[1]);
        NextLine(ts[1..], After(c, ts[0]));
      } else {
        StaysSeparated(ts[1..], c);
      }
    }
  }

  lemma NextLine(ts: seq<Token>, c: Context)
    requires Named(c.defines) && ts != [] && Formed(ts[0])
    requires ts[0].kind == Newline || (|ts| == 1 && ts[0].kind == Eof)
    ensures Separated(Render(ts, c, true))
  {
  }

  /** Preprocessing is renaming: reading the unlimited result gives the tokens of the text with dot names resolved,
      defined names replaced by the tokens of their values, and comments, errors and directives gone, on the same lines. */
  lemma {:induction false} RenderReads(s: string, line: nat, c: Context, newLine: bool)
    requires Plain(c) && Tame(Lex(s, line), c)
    ensures Named(c.defines) && Lex(Render(Lex(s, line), c, newLine), line) == Resolved(Lex(s, line), c)
    decreases |s|
  {
    hide *;
    if Rest(s) != "" {
      var r := Rest(s);
      var t := FirstToken(r, line);
      LexHead(s, line, c);
      var s', line' := Remainder(r), line + NewlinesIn(FirstUsed(r));
      HeadReads(c, r, line, newLine, line');
      RenderReads(s', line', After(c, t), NewLineAfter(t, newLine));
      Composed(c, t, FirstUsed(r), newLine, Render(Lex(s', line'), After(c, t), NewLineAfter(t, newLine)), Lex(s', line'));
    } else {
      NothingLeft(s, line, c, newLine);
    }
  }

  lemma LexHead(s: string, line: nat, c: Context)
    requires Plain(c) && Rest(s) != "" && Tame(Lex(s, line), c)
    ensures var r := Rest(s); var t := FirstToken(r, line); var line' := line + NewlinesIn(FirstUsed(r));
            && 0 < FirstCut(r).used <= |r| && t.line == line && Readable(c, t)
            && Lex(s, line) == [t] + Lex(Remainder(r), line')
            && Plain(After(c, t)) && Named(After(c, t).defines) && Tame(Lex(Remainder(r), line'), After(c, t))
  {
    hide *;
    var r := Rest(s);
    var t := FirstToken(r, line);
    LexUnfolds(s, line);
    AfterIsPlain(c, r, line);
    PlainIsNamed(c);
    PlainIsNamed(After(c, t));
    HeadTame(t, Lex(Remainder(r), line + NewlinesIn(FirstUsed(r))), c);
  }

  lemma PlainIsNamed(c: Context)
    requires Plain(c)
    ensures Named(c.defines)
  {
  }

  lemma HeadTame(t: Token, ts: seq<Token>, c: Context)
    requires Named(c.defines) && Tame([t] + ts, c)
    ensures Readable(c, t) && Named(After(c, t).defines) && Tame(ts, After(c, t))
  {
    hide Readable, After;
    assert ([t] + ts)[1..] == ts;
  }

  /** The first token of a text followed by the rendering of the others. */
  lemma HeadReads(c: Context, r: string, line: nat, newLine: bool, line': nat)
    requires Plain(c) && r != "" && !IsBlank(r[0]) && Readable(c, FirstToken(r, line))
    requires Plain(After(c, FirstToken(r, line))) && Named(After(c, FirstToken(r, line)).defines)
    requires Tame(Lex(Remainder(r), line'), After(c, FirstToken(r, line)))
    ensures var t := FirstToken(r, line);
            && Named(c.defines) && Named(After(c, t).defines)
            && ReadsBack(c, t, FirstUsed(r), newLine,
                         Render(Lex(Remainder(r), line'), After(c, t), NewLineAfter(t, newLine)))
  {
    var t := FirstToken(r, line);
    var s' := Remainder(r);
    assert Named(After(c, t).defines) && (FirstCut(r).used == |r| ==> s' == "" && Rest("") == "");
    hide *;
    if !NewLineAfter(t, newLine) {
      LexFormed(s', line');
      StaysSeparated(Lex(s', line'), After(c, t));
    }
    if FirstCut(r).used == |r| {
      NothingLeft(s', line', After(c, t), NewLineAfter(t, newLine));
    }
    TokenReadsBack(c, r, line, newLine, Render(Lex(s', line'), After(c, t), NewLineAfter(t, newLine)));
  }

  lemma NothingLeft(s: string, line: nat, c: Context, newLine: bool)
    requires Plain(c) && Rest(s) == ""
    ensures Named(c.defines) && Render(Lex(s, line), c, newLine) == ""
    ensures Lex("", line) == [Token(Eof, "", line)] == Lex(s, line)
    ensures Resolved(Lex(s, line), c) == Lex(s, line)
  {
  }

  lemma Composed(c: Context, t: Token, used: string, newLine: bool, rest: string, ts: seq<Token>)
    requires Named(c.defines) && ReadsBack(c, t, used, newLine, rest)
    requires Named(After(c, t).defines) && rest == Render(ts, After(c, t), NewLineAfter(t, newLine))
    requires Lex(rest, t.line + NewlinesIn(used)) == Resolved(ts, After(c, t))
    ensures Lex(Render([t] + ts, c, newLine), t.line) == Resolved([t] + ts, c)
  {
    hide Lex, Piece, Renamed, After, NewlinesIn;
    assert ([t] + ts)[1..] == ts;
  }

  // ---------- running the preprocessor on what it wrote ----------

  /** A token that preprocessing leaves as it is. */
  predicate IsSettled(t: Token) {
    t.kind != Comment && t.kind != Error && t.kind != Directive && !IsDot(t)
  }

  predicate Settled(ts: seq<Token>) {
    forall t :: t in ts ==> IsSettled(t)
  }

  lemma RenamedSettles(c: Context, t: Token)
    requires Plain(c) && c.defines == [] && Formed(t) && t.kind != Directive
    ensures Plain(After(c, t)) && After(c, t).defines == []
    ensures AllFormed(Renamed(c, t)) && Settled(Renamed(c, t)) && Undirected(Renamed(c, t))
    ensures |Renamed(c, t)| <= 1 && (Renamed(c, t) == [t] <==> IsSettled(t))
  {
    if IsDot(t) { GlobalNameIsWord(c, IndexOf(c.locals, t.value)); }
    NoExpansion(c, t);
    hide GlobalName, IndexOf, Expand, TokensOf;
  }

  lemma Uncons(t: Token, ts: seq<Token>)
    requires AllFormed([t] + ts) && Undirected([t] + ts)
    ensures Formed(t) && t.kind != Directive && AllFormed(ts) && Undirected(ts)
    ensures Settled([t] + ts) <==> IsSettled(t) && Settled(ts)
  {
    assert ([t] + ts)[0] == t;
    assert forall u :: u in ts ==> u in [t] + ts;
  }

  /** Without directives, nothing that is renamed or dropped is left, and a token list is left alone just when it has no
      such token. */
  lemma {:induction false} ResolvedSettles(ts: seq<Token>, c: Context)
    requires Plain(c) && c.defines == [] && AllFormed(ts) && Undirected(ts)
    ensures Settled(Resolved(ts, c)) && AllFormed(Resolved(ts, c)) && Undirected(Resolved(ts, c))
    ensures |Resolved(ts, c)| <= |ts| && (Resolved(ts, c) == ts <==> Settled(ts))
  {
    if ts != [] {
      assert ts == [ts[0]] + ts[1..];
      Uncons(ts[0], ts[1..]);
      hide Plain, Formed, Renamed, After, IsSettled;
      RenamedSettles(c, ts[0]);
      ResolvedSettles(ts[1..], After(c, ts[0]));
      Joined(Renamed(c, ts[0]), Resolved(ts[1..], After(c, ts[0])), ts);
    }
  }

  lemma Joined(a: seq<Token>, b: seq<Token>, ts: seq<Token>)
    requires ts != [] && |a| <= 1 && |b| <= |ts| - 1
    ensures a + b == ts <==> a == [ts[0]] && b == ts[1..]
  {
    if a + b == ts {
      assert |a| == 1 && (a + b)[0] == a[0] && (a + b)[1..] == b;
    }
    if a == [ts[0]] && b == ts[1..] {
      assert a + b == ts;
    }
  }

  /** A token's second printing is no longer than its first. */
  lemma PieceShrinks(c: Context, c': Context, t: Token, newLine: bool, newLine': bool)
    requires Plain(c) && c.defines == [] && Plain(c') && c'.defines == []
    requires Formed(t) && t.kind != Directive && (newLine ==> newLine')
    ensures forall t' :: t' in Renamed(c, t) ==>
              && |Piece(c', t', newLine')| <= |Piece(c, t, newLine)|
              && (NewLineAfter(t, newLine) ==> NewLineAfter(t', newLine'))
    ensures Renamed(c, t) == [] ==> (NewLineAfter(t, newLine) ==> newLine')
  {
    NoExpansion(c, t);
    NoExpansion(c', t);
    if IsDot(t) {
      DotShrinks(c, c', t, newLine, newLine');
    } else if IsPlain(t.kind) {
      PlainPiece(c, t, newLine);
      PlainPiece(c', t, newLine');
    }
    hide Expand, GlobalName, TokensOf;
  }

  lemma DotShrinks(c: Context, c': Context, t: Token, newLine: bool, newLine': bool)
    requires Plain(c) && Plain(c') && c'.defines == [] && Formed(t) && IsDot(t) && (newLine ==> newLine')
    ensures |Renamed(c, t)| == 1 && |Piece(c', Renamed(c, t)[0], newLine')| <= |Piece(c, t, newLine)|
    ensures !NewLineAfter(t, newLine)
  {
    DotFacts(c, t);
    DotPiece(c, t, newLine);
    hide Expand, GlobalName, Piece, Renamed;
    NoExpansion(c', Renamed(c, t)[0]);
    PlainPiece(c', Renamed(c, t)[0], newLine');
  }

  /** Without directives, a second result is never longer than the first. */
  lemma {:induction false} RenderShrinks(ts: seq<Token>, c: Context, c': Context, newLine: bool, newLine': bool)
    requires Plain(c) && c.defines == [] && Plain(c') && c'.defines == []
    requires AllFormed(ts) && Undirected(ts) && (newLine ==> newLine')
    ensures |Render(Resolved(ts, c), c', newLine')| <= |Render(ts, c, newLine)|
  {
    if ts != [] {
      var t, rest := ts[0], ts[1..];
      assert ts == [t] + rest;
      Uncons(t, rest);
      hide Plain, Formed, Renamed, After, IsSettled, NewLineAfter, Piece;
      RenamedSettles(c, t);
      PieceShrinks(c, c', t, newLine, newLine');
      var r, later := Renamed(c, t), Resolved(rest, After(c, t));
      if r == [] {
        assert r + later == later;
        RenderShrinks(rest, After(c, t), c', NewLineAfter(t, newLine), newLine');
      } else {
        var t' := r[0];
        assert r + later == [t'] + later && (r + later)[1..] == later;
        assert t' in r && Formed(t');
        RenamedSettles(c', t');
        RenderShrinks(rest, After(c, t), After(c', t'), NewLineAfter(t, newLine), NewLineAfter(t', newLine'));
      }
    }
  }

  lemma FreshIsPlain()
    ensures Plain(FRESH) && FRESH.defines == []
  {
  }

  /** Without directives every token list is tame. */
  lemma {:induction false} UndirectedIsTame(ts: seq<Token>, c: Context)
    requires c.defines == [] && AllFormed(ts) && Undirected(ts)
    ensures Tame(ts, c)
  {
    if ts != [] {
      var t, rest := ts[0], ts[1..];
      assert ts == [t] + rest;
      Uncons(t, rest);
      NoExpansion(c, t);
      hide Formed, ParseDefine, IndexOf, Expand, Closed, IsWord;
      UndirectedIsTame(rest, After(c, t));
    }
  }

  // ---------- expansions in the result ----------

  /** An expansion has no comment, no character that is no token and no dot name in it. */
  predicate ExpansionSettled(c: Context, t: Token)
    requires Named(c.defines)
  {
    IsPlain(t.kind) && t.value != "" && !IsDot(t) && t.kind != Label ==>
      var e := Expand(c.defines, t.value, 0);
      e == t.value || Settled(TokensOf(e, t.line))
  }

  predicate ExpansionsSettled(ts: seq<Token>, c: Context)
    requires Named(c.defines)
  {
    ts == [] || (ExpansionSettled(c, ts[0]) && ExpansionsSettled(ts[1..], After(c, ts[0])))
  }

  /** What a token is read back as has no directive in it, and nothing more to do just when its expansion has not. */
  lemma RenamedDone(c: Context, t: Token)
    requires Plain(c) && Formed(t) && Readable(c, t)
    ensures Undirected(Renamed(c, t)) && (Settled(Renamed(c, t)) <==> ExpansionSettled(c, t))
  {
    if IsDot(t) {
      DotFacts(c, t);
      hide Expand, LocalName, TokensOf, Renamed;
    } else if IsPlain(t.kind) && t.value != "" {
      PlainFacts(c, t);
      var e := Expand(c.defines, t.value, 0);
      hide Expand, LocalName, TokensOf, Renamed, Closed;
      if Closed(e) { ClosedUndirected(e, t.line); }
    }
  }

  lemma FormedIsPlain(c: Context, t: Token)
    requires Plain(c) && Formed(t)
    ensures Plain(After(c, t))
  {
    if t.kind == Directive {
      DirectiveIsPlain(c, t);
    }
    hide ParseDefine, IndexOf, NewlinesIn;
  }

  /** The result has no directive, and the preprocessor leaves all of it alone just when all expansions are settled. */
  lemma {:induction false} ResolvedDone(ts: seq<Token>, c: Context)
    requires Plain(c) && AllFormed(ts) && Tame(ts, c)
    ensures Undirected(Resolved(ts, c)) && (Settled(Resolved(ts, c)) <==> ExpansionsSettled(ts, c))
  {
    if ts != [] {
      assert ts[0] in ts;
      hide Plain, Formed, Renamed, After, IsSettled, ExpansionSettled, Readable;
      RenamedDone(c, ts[0]);
      FormedIsPlain(c, ts[0]);
      ResolvedDone(ts[1..], After(c, ts[0]));
    }
  }

  // ---------- texts ----------

  /** The unlimited result of a text. */
  function Rendered(text: string): string {
    Render(Lex(text, 1), FRESH, true)
  }

  lemma FitsWhole(text: string)
    requires |Rendered(text)| < RESULT_ROOM
    ensures PreprocessText(text) == Rendered(text)
  {
    hide Lex, Preprocess, Render;
    NothingDropped(Lex(text, 1), FRESH, true, "");
    assert "" + Rendered(text) == Rendered(text);
  }

  /** The tokens of a preprocessed text that fits its buffer: those of the text, resolved. No directive is left. */
  lemma PreprocessedReads(text: string)
    requires Tame(Lex(text, 1), FRESH) && |Rendered(text)| < RESULT_ROOM
    ensures Lex(PreprocessText(text), 1) == Resolved(Lex(text, 1), FRESH)
    ensures Undirected(Lex(PreprocessText(text), 1))
    ensures Settled(Lex(PreprocessText(text), 1)) <==> ExpansionsSettled(Lex(text, 1), FRESH)
  {
    hide *;
    FreshIsPlain();
    LexFormed(text, 1);
    RenderReads(text, 1, FRESH, true);
    RenderedIs(text);
    FitsWhole(text);
    ResolvedDone(Lex(text, 1), FRESH);
  }

  lemma RenderedIs(text: string)
    ensures Rendered(text) == Render(Lex(text, 1), FRESH, true)
  {
  }

  /** A text without directives needs no second pass: its result is settled and fits again. */
  lemma UndirectedReads(text: string)
    requires Undirected(Lex(text, 1)) && |Rendered(text)| < RESULT_ROOM
    ensures Tame(Lex(text, 1), FRESH)
    ensures Settled(Lex(PreprocessText(text), 1)) && |Rendered(PreprocessText(text))| < RESULT_ROOM
    ensures Lex(PreprocessText(text), 1) == Lex(text, 1) <==> Settled(Lex(text, 1))
  {
    hide *;
    FreshIsPlain();
    LexFormed(text, 1);
    UndirectedIsTame(Lex(text, 1), FRESH);
    PreprocessedReads(text);
    ResolvedSettles(Lex(text, 1), FRESH);
    RenderShrinks(Lex(text, 1), FRESH, FRESH, true, true);
    RenderedIs(text);
    RenderedIs(PreprocessText(text));
  }

  lemma SettledUndirected(ts: seq<Token>)
    ensures Settled(ts) ==> Undirected(ts)
  {
  }

  /** A pass keeps the tokens exactly when the text has no comment, no character that is no token, no dot name and no
      directive. */
  lemma PassKeepsTokens(text: string)
    requires Tame(Lex(text, 1), FRESH) && |Rendered(text)| < RESULT_ROOM
    ensures Lex(PreprocessText(text), 1) == Lex(text, 1) <==> Settled(Lex(text, 1))
  {
    hide *;
    SettledUndirected(Lex(text, 1));
    PreprocessedReads(text);
    if Undirected(Lex(text, 1)) {
      UndirectedReads(text);
    }
  }

  /** Whatever a first pass makes of a text, a second one keeps its tokens exactly when they are settled: as long as it
      finds no directive and the result fits. */
  lemma SecondPassKeepsTokens(text: string)
    requires Undirected(Lex(PreprocessText(text), 1)) && |Rendered(PreprocessText(text))| < RESULT_ROOM
    ensures Lex(PreprocessText(PreprocessText(text)), 1) == Lex(PreprocessText(text), 1)
            <==> Settled(Lex(PreprocessText(text), 1))
  {
    hide *;
    UndirectedReads(PreprocessText(text));
  }

  /** So a file preprocessed ahead of time has the same tokens for the assembler, which preprocesses it again, exactly
      when no definition it uses puts a comment, a dot name or a character that is no token into it. */
  lemma PreprocessingTwice(text: string)
    requires Tame(Lex(text, 1), FRESH) && |Rendered(text)| < RESULT_ROOM
    requires |Rendered(PreprocessText(text))| < RESULT_ROOM
    ensures Lex(PreprocessText(PreprocessText(text)), 1) == Lex(PreprocessText(text), 1)
            <==> ExpansionsSettled(Lex(text, 1), FRESH)
  {
    hide *;
    PreprocessedReads(text);
    SecondPassKeepsTokens(text);
  }

  /** Without directives it always has. */
  lemma UndirectedTwice(text: string)
    requires Undirected(Lex(text, 1)) && |Rendered(text)| < RESULT_ROOM
    ensures Lex(PreprocessText(PreprocessText(text)), 1) == Lex(PreprocessText(text), 1)
  {
    hide *;
    UndirectedReads(text);
    PreprocessedReads(text);
    SecondPassKeepsTokens(text);
  }

  /** A defined name, alone, is read back as the tokens of the value it was first given. */
  lemma DefinedNameReads(c: Context, t: Token)
    requires Plain(c) && t.kind == Identifier && InWord(t.value) && FirstOf(c.defines, t.value) < |c.defines|
    requires forall d :: d in c.defines ==> |d.value| < EXPANSION_ROOM
    ensures var v := c.defines[FirstOf(c.defines, t.value)].value;
            && Renamed(c, t) == (if v == t.value then [t] else TokensOf(v, t.line))
            && (Closed(v) ==> Readable(c, t))
  {
    DefinedFacts(c, t);
    hide *;
    NameExpands(c.defines, t.value);
    PlainFacts(c, t);
    ValueReadable(c, t, c.defines[FirstOf(c.defines, t.value)].value);
  }

  lemma DefinedFacts(c: Context, t: Token)
    requires Plain(c) && t.kind == Identifier && InWord(t.value) && FirstOf(c.defines, t.value) < |c.defines|
    requires forall d :: d in c.defines ==> |d.value| < EXPANSION_ROOM
    ensures Named(c.defines) && IsPlain(t.kind) && t.kind != Label && t.value != "" && t.value[0] != '.'
    ensures |c.defines[FirstOf(c.defines, t.value)].value| < EXPANSION_ROOM
  {
    var d := c.defines[FirstOf(c.defines, t.value)];
    assert d in c.defines && t.value != "" && In(Word, t.value[0]);
  }

  lemma ValueReadable(c: Context, t: Token, v: string)
    requires Named(c.defines) && t.kind != Label && |v| < EXPANSION_ROOM && v == Expand(c.defines, t.value, 0)
    ensures Closed(v) ==> Readable(c, t)
  {
    hide Closed, Expand;
  }
}
