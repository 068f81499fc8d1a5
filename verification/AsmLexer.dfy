/** The assembler's lexer as functions of the text. */
module AsmLexer {
  import opened Text

  /** What the reading loops take: letters, digits and underscore; digits; hexadecimal digits; the rest of a line; and
      sscanf's white space and everything else. */
  datatype Class = Word | Figures | Hexadecimal | RestOfLine | Gap | Solid

  predicate IsAlpha(c: char) {
    'a' <= c <= 'z' || 'A' <= c <= 'Z'
  }

  predicate IsIdentifierStart(c: char) {
    IsAlpha(c) || c == '_'
  }

  predicate IsBlank(c: char) {
    IsSpace(c) && c != '\n'
  }

  predicate In(k: Class, c: char) {
    match k
    case Word => IsAlpha(c) || IsDigit(c) || c == '_'
    case Figures => IsDigit(c)
    case Hexadecimal => IsDigit(c) || 'a' <= c <= 'f' || 'A' <= c <= 'F'
    case RestOfLine => c != '\n'
    case Gap => IsSpace(c)
    case Solid => !IsSpace(c)
  }

  /** How many characters of a class a text starts with, as far as the room for them goes. */
  function Span(k: Class, s: string, room: nat): (n: nat)
    ensures n <= |s| && n <= room
    ensures forall i :: 0 <= i < n ==> In(k, s[i])
    ensures n < room && n < |s| ==> !In(k, s[n])
  {
    if room == 0 || s == [] || !In(k, s[0]) then 0 else 1 + Span(k, s[1..], room - 1)
  }

  function Blanks(s: string): (n: nat)
    ensures n <= |s| && (n < |s| ==> !IsBlank(s[n]))
    ensures forall i :: 0 <= i < n ==> IsBlank(s[i])
  {
    if s == [] || !IsBlank(s[0]) then 0 else 1 + Blanks(s[1..])
  }

  /** TOKEN_INSTRUCTION is never made. */
  datatype Kind = Identifier | Label | LocalLabel | Number | Str | Comma | Newline | Comment | Directive
    | LParen | RParen | Eof | Error

  /** The value "" stands for the null one of the end and of an error. */
  datatype Token = Token(kind: Kind, value: string, line: nat)

  /** The sizes of the readers' buffers, less the terminator. */
  const ROOM: nat := 255
  const STRING_ROOM: nat := 510

  predicate IsHexPrefixed(s: string) {
    |s| > 1 && s[0] == '0' && (s[1] == 'x' || s[1] == 'X')
  }

  function NumberLength(s: string): (n: nat)
    requires s != [] && IsDigit(s[0])
    ensures 0 < n <= |s| && n <= ROOM
  {
    if IsHexPrefixed(s) then 2 + Span(Hexadecimal, s[2..], ROOM - 2)
    else Span(Figures, s, ROOM)
  }

  /** Where the loop over a string's characters ends: a backslash takes the next character along. */
  function StringBody(s: string, i: nat): (e: nat)
    requires i <= |s|
    ensures i <= e <= |s| && (i <= STRING_ROOM + 1 ==> e <= STRING_ROOM + 1)
    ensures e < STRING_ROOM && e < |s| ==> s[e] == '"'
    decreases |s| - i
  {
    if i < |s| && s[i] != '"' && i < STRING_ROOM then
      if s[i] == '\\' && i + 1 < |s| then StringBody(s, i + 2) else StringBody(s, i + 1)
    else i
  }

  function StringLength(s: string): (n: nat)
    requires s != []
    ensures 0 < n <= |s| && n <= STRING_ROOM + 2
  {
    var e := StringBody(s, 1);
    if e < |s| && s[e] == '"' then e + 1 else e
  }

  function NewlinesIn(s: string): nat {
    if s == [] then 0 else (if s[0] == '\n' then 1 else 0) + NewlinesIn(s[1..])
  }

  /** The kind of the token a text starts with, how long its value is, and how many characters are consumed. */
  datatype Cut = Cut(kind: Kind, length: nat, used: nat)

  function FirstCut(s: string): (c: Cut)
    requires s != [] && !IsBlank(s[0])
    ensures c.length <= c.used <= |s| && c.used > 0 && c.kind != Eof
  {
    var c := s[0];
    if c == '\n' then Cut(Newline, 1, 1)
    else if c == ';' then var n := Span(RestOfLine, s, ROOM); Cut(Comment, n, n)
    else if c == '#' then var n := Span(RestOfLine, s, ROOM); Cut(Directive, n, n)
    else if c == '"' then var n := StringLength(s); Cut(Str, n, n)
    else if c == ',' then Cut(Comma, 1, 1)
    else if c == '(' then Cut(LParen, 1, 1)
    else if c == ')' then Cut(RParen, 1, 1)
    else if IsDigit(c) then var n := NumberLength(s); Cut(Number, n, n)
    else if IsIdentifierStart(c) then
      var n := Span(Word, s, ROOM);
      if n < |s| && s[n] == ':' then Cut(Label, n, n + 1) else Cut(Identifier, n, n)
    else if c == '.' then
      var n := 1 + Span(Word, s[1..], ROOM - 1);
      if n < |s| && s[n] == ':' then Cut(LocalLabel, n, n + 1) else Cut(Identifier, n, n)
    else Cut(Error, 0, 1)
  }

  /** A text without the blanks in front. */
  function Rest(s: string): (r: string)
    ensures |r| <= |s| && (r != "" ==> !IsBlank(r[0]))
  {
    s[Blanks(s)..]
  }

  function FirstToken(r: string, line: nat): (t: Token)
    requires r != "" && !IsBlank(r[0])
    ensures t.line == line && t.kind == FirstCut(r).kind && t.kind != Eof
  {
    Token(FirstCut(r).kind, r[..FirstCut(r).length], line)
  }

  /** The characters consumed for it, and those left. */
  function FirstUsed(r: string): (u: string)
    requires r != "" && !IsBlank(r[0])
    ensures |u| == FirstCut(r).used
  {
    r[..FirstCut(r).used]
  }

  function Remainder(r: string): (u: string)
    requires r != "" && !IsBlank(r[0])
    ensures |u| == |r| - FirstCut(r).used < |r|
  {
    r[FirstCut(r).used..]
  }

  /** All the tokens of a text, the end included. */
  function Lex(s: string, line: nat): (ts: seq<Token>)
    ensures |ts| > 0 && ts[|ts| - 1].kind == Eof
    decreases |s|
  {
    var r := Rest(s);
    if r == "" then [Token(Eof, "", line)]
    else [FirstToken(r, line)] + Lex(Remainder(r), line + NewlinesIn(FirstUsed(r)))
  }

  lemma LexUnfolds(s: string, line: nat)
    ensures var r := Rest(s);
            Lex(s, line) == if r == "" then [Token(Eof, "", line)]
                            else [FirstToken(r, line)] + Lex(Remainder(r), line + NewlinesIn(FirstUsed(r)))
  {
    hide FirstToken, FirstUsed, Remainder, NewlinesIn, Rest, FirstCut;
  }

  // ---------- how a token's text decides the token again ----------

  lemma {:induction false} SpanIs(k: Class, s: string, room: nat, n: nat)
    requires n <= |s| && n <= room && forall i :: 0 <= i < n ==> In(k, s[i])
    requires n < room && n < |s| ==> !In(k, s[n])
    ensures Span(k, s, room) == n
  {
    if n > 0 {
      SpanIs(k, s[1..], room - 1, n - 1);
    }
  }

  lemma {:induction false} BlanksAre(s: string, n: nat)
    requires n <= |s| && (forall i :: 0 <= i < n ==> IsBlank(s[i])) && (n < |s| ==> !IsBlank(s[n]))
    ensures Blanks(s) == n
  {
    if n > 0 {
      BlanksAre(s[1..], n - 1);
    }
  }

  lemma OneMoreBlank(s: string)
    ensures Blanks(" " + s) == 1 + Blanks(s)
  {
    assert (" " + s)[1..] == s;
  }

  /** A space in front changes nothing. */
  lemma SpaceSkipped(s: string, line: nat)
    ensures Lex(" " + s, line) == Lex(s, line)
  {
    hide Lex, FirstCut, FirstToken, FirstUsed, Remainder, NewlinesIn;
    OneMoreBlank(s);
    assert Rest(" " + s) == Rest(s);
    LexUnfolds(" " + s, line);
    LexUnfolds(s, line);
  }

  /** What may follow a token so that it does not grow: nothing, a space or the end of the line. */
  predicate Separated(t: string) {
    t == [] || t[0] == ' ' || t[0] == '\n'
  }

  lemma WordAgain(k: Class, v: string, t: string, room: nat)
    requires |v| <= room && (forall i :: 0 <= i < |v| ==> In(k, v[i])) && (k.Word? || k.Figures? || k.Hexadecimal?)
    requires Separated(t) || t[0] == ':'
    ensures Span(k, v + t, room) == |v|
  {
    SpanIs(k, v + t, room, |v|);
  }

  lemma NumberAgain(s: string, t: string)
    requires s != [] && IsDigit(s[0]) && Separated(t)
    ensures var n := NumberLength(s);
            IsDigit((s[..n] + t)[0]) && NumberLength(s[..n] + t) == n
  {
    if IsHexPrefixed(s) {
      HexAgain(s, t);
    } else {
      FiguresAgain(s, t);
    }
  }

  lemma HexAgain(s: string, t: string)
    requires s != [] && IsDigit(s[0]) && Separated(t) && IsHexPrefixed(s)
    ensures var n := NumberLength(s);
            IsDigit((s[..n] + t)[0]) && NumberLength(s[..n] + t) == n
  {
    var n := NumberLength(s);
    assert s[2..][..n - 2] == s[..n][2..];
    WordAgain(Hexadecimal, s[..n][2..], t, ROOM - 2);
    assert (s[..n] + t)[2..] == s[..n][2..] + t;
  }

  lemma FiguresAgain(s: string, t: string)
    requires s != [] && IsDigit(s[0]) && Separated(t) && !IsHexPrefixed(s)
    ensures var n := NumberLength(s);
            IsDigit((s[..n] + t)[0]) && NumberLength(s[..n] + t) == n
  {
    var n := NumberLength(s);
    var v := s[..n] + t;
    WordAgain(Figures, s[..n], t, ROOM);
    assert |v| > 1 ==> v[1] == if n > 1 then s[1] else t[0];
  }

  lemma {:induction false} BodyAgain(s: string, t: string, n: nat, i: nat)
    requires i <= |s| && var e := StringBody(s, i); n == (if e < |s| && s[e] == '"' then e + 1 else e) && (e == |s| ==> t == [])
    ensures i <= |s[..n] + t| && StringBody(s[..n] + t, i) == StringBody(s, i)
    decreases |s| - i
  {
    var v := s[..n] + t;
    if i < |s| && s[i] != '"' && i < STRING_ROOM {
      assert v[i] == s[i];
      if s[i] == '\\' && i + 1 < |s| {
        BodyAgain(s, t, n, i + 2);
      } else {
        BodyAgain(s, t, n, i + 1);
      }
    }
  }
}
