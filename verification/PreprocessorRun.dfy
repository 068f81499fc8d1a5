/** The assembler's lexer and preprocessor as they work: a cursor moving over the text, tables that grow. */
module PreprocessorRun {
  import opened Common
  import opened Text
  import opened AsmLexer
  import P = Preprocessor

  lemma {:induction false} NewlinesJoin(a: string, b: string)
    ensures NewlinesIn(a + b) == NewlinesIn(a) + NewlinesIn(b)
  {
    if a == "" {
      assert a + b == b;
    } else {
      assert (a + b)[1..] == a[1..] + b;
      NewlinesJoin(a[1..], b);
    }
  }

  class Lexer {
    const input: string
    var pos: nat
    var line: nat

    ghost predicate Valid()
      reads this
    {
      pos <= |input|
    }

    /** What is still to be read. */
    ghost function Left(): string
      reads this
      requires Valid()
    {
      input[pos..]
    }

    constructor (text: string)
      ensures Valid() && input == text && Left() == text && line == 1
    {
      input := text;
      pos, line := 0, 1;
    }

    /** lexer_peek at the end gives the terminator, which no reader takes. */
    predicate AtEnd()
      reads this
    {
      pos >= |input|
    }

    /** lexer_advance. */
    method Advance() returns (c: char)
      requires Valid() && !AtEnd()
      modifies this
      ensures Valid() && pos == old(pos) + 1 && c == input[old(pos)] && Left() == old(Left())[1..]
      ensures line == old(line) + NewlinesIn([c])
    {
      c := input[pos];
      pos := pos + 1;
      if c == '\n' {
        line := line + 1;
      }
    }

    /** The loop that lexer_read_identifier, lexer_read_number, lexer_read_comment and lexer_read_directive share: up to
        `room` more characters go into the buffer. */
    method ReadWhile(k: Class, room: nat) returns (buffer: string)
      requires Valid()
      modifies this
      ensures Valid() && var n := Span(k, old(Left()), room);
              buffer == old(Left())[..n] && Left() == old(Left())[n..] && pos == old(pos) + n
      ensures line == old(line) + NewlinesIn(buffer)
    {
      buffer := "";
      ghost var s := Left();
      while pos < |input| && In(k, input[pos]) && |buffer| < room
        invariant Valid() && |buffer| <= room && |buffer| <= |s| && pos == old(pos) + |buffer|
        invariant buffer == s[..|buffer|] && Left() == s[|buffer|..]
        invariant forall i :: 0 <= i < |buffer| ==> In(k, buffer[i])
        invariant line == old(line) + NewlinesIn(buffer)
      {
        var c := Advance();
        NewlinesJoin(buffer, [c]);
        buffer := buffer + [c];
      }
      SpanIs(k, s, room, |buffer|);
    }

    method SkipWhitespace()
      requires Valid()
      modifies this
      ensures Valid() && Left() == Rest(old(Left())) && line == old(line)
    {
      ghost var s := Left();
      ghost var n := 0;
      while pos < |input| && IsSpace(input[pos]) && input[pos] != '\n'
        invariant Valid() && n <= |s| && pos == old(pos) + n && Left() == s[n..] && line == old(line)
        invariant forall i :: 0 <= i < n ==> IsBlank(s[i])
      {
        assert input[pos] == s[n];
        var _ := Advance();
        n := n + 1;
      }
      BlanksAre(s, n);
    }

    /** One more character into the buffer, of what a reader has read so far. */
    method Take(buffer: string, ghost s: string, ghost start: nat) returns (longer: string)
      requires Valid() && !AtEnd()
      requires |buffer| < |s| && buffer == s[..|buffer|] && Left() == s[|buffer|..] && line == start + NewlinesIn(buffer)
      modifies this
      ensures Valid() && |longer| == |buffer| + 1 <= |s| && longer == s[..|longer|] && Left() == s[|longer|..]
      ensures line == start + NewlinesIn(longer) && pos == old(pos) + 1 && longer[|buffer|] == old(input[pos])
    {
      assert input[pos] == Left()[0] == s[|buffer|];
      var c := Advance();
      NewlinesJoin(buffer, [c]);
      longer := buffer + [c];
    }

    method ReadNumber() returns (buffer: string)
      requires Valid() && !AtEnd() && IsDigit(input[pos])
      modifies this
      ensures Valid() && var n := NumberLength(old(Left()));
              buffer == old(Left())[..n] && Left() == old(Left())[n..] && line == old(line) + NewlinesIn(buffer)
    {
      ghost var s := Left();
      if input[pos] == '0' && pos + 1 < |input| && (input[pos + 1] == 'x' || input[pos + 1] == 'X') {
        assert IsHexPrefixed(s);
        HexParts(s);
        hide NewlinesIn, NumberLength;
        assert NewlinesIn("") == 0 by { NewlinesJoin("", ""); }
        var zero := Take("", s, line);
        var prefix := Take(zero, s, old(line));
        var digits := ReadWhile(Hexadecimal, ROOM - 2);
        NewlinesJoin(prefix, digits);
        buffer := prefix + digits;
      } else {
        buffer := ReadWhile(Figures, ROOM);
      }
    }

    lemma HexParts(s: string)
      requires s != "" && IsDigit(s[0]) && IsHexPrefixed(s)
      ensures var n := Span(Hexadecimal, s[2..], ROOM - 2);
              && NumberLength(s) == 2 + n && s[..2 + n] == s[..2] + s[2..][..n] && s[2 + n..] == s[2..][n..]
    {
      hide Span;
    }

    method ReadString() returns (buffer: string)
      requires Valid() && !AtEnd()
      modifies this
      ensures Valid() && var n := StringLength(old(Left()));
              buffer == old(Left())[..n] && Left() == old(Left())[n..] && line == old(line) + NewlinesIn(buffer)
    {
      ghost var s := Left();
      assert NewlinesIn("") == 0;
      hide NewlinesIn;
      buffer := Take("", s, line);
      while pos < |input| && input[pos] != '"' && |buffer| < STRING_ROOM
        invariant Valid() && 0 < |buffer| <= |s| && buffer == s[..|buffer|] && Left() == s[|buffer|..]
        invariant StringBody(s, |buffer|) == StringBody(s, 1)
        invariant line == old(line) + NewlinesIn(buffer)
        decreases |input| - pos
      {
        var backslash := input[pos] == '\\';
        buffer := Take(buffer, s, old(line));
        if backslash && pos < |input| {
          buffer := Take(buffer, s, old(line));
        }
      }
      if pos < |input| && input[pos] == '"' {
        buffer := Take(buffer, s, old(line));
      }
    }

    /** A character of its own. */
    method ReadSingle(kind: Kind) returns (t: Token)
      requires Valid() && !AtEnd()
      modifies this
      ensures Valid() && t == Token(kind, old(Left())[..1], old(line)) && Left() == old(Left())[1..]
      ensures line == old(line) + NewlinesIn(old(Left())[..1])
    {
      ghost var s := Left();
      var start := line;
      var c := Advance();
      assert [c] == s[..1];
      t := Token(kind, [c], start);
    }

    /** The colon that makes a label of a name. */
    method ReadColon(name: string, plain: Kind, labelled: Kind, start: nat) returns (t: Token)
      requires Valid()
      modifies this
      ensures Valid() && line == old(line)
      ensures var colon := old(Left()) != "" && old(Left())[0] == ':';
              && t == Token(if colon then labelled else plain, name, start)
              && Left() == if colon then old(Left())[1..] else old(Left())
    {
      if pos < |input| && input[pos] == ':' {
        var _ := Advance();
        t := Token(labelled, name, start);
      } else {
        t := Token(plain, name, start);
      }
    }

    /** The branch of a name. */
    method ReadName() returns (t: Token)
      requires Valid() && !AtEnd() && IsIdentifierStart(input[pos])
      modifies this
      ensures Valid() && var r := old(Left());
              && t == FirstToken(r, old(line)) && Left() == Remainder(r) && line == old(line) + NewlinesIn(FirstUsed(r))
    {
      ghost var r := Left();
      NameCut(r);
      hide FirstCut, NewlinesIn, Span;
      var start := line;
      var v := ReadWhile(Word, ROOM);
      t := ReadColon(v, Identifier, Label, start);
    }

    /** The branch of a dot. */
    method ReadDotName() returns (t: Token)
      requires Valid() && !AtEnd() && input[pos] == '.'
      modifies this
      ensures Valid() && var r := old(Left());
              && t == FirstToken(r, old(line)) && Left() == Remainder(r) && line == old(line) + NewlinesIn(FirstUsed(r))
    {
      ghost var r := Left();
      DotCut(r);
      hide FirstCut, NewlinesIn, Span;
      var start := line;
      var dot := Advance();
      var v := ReadWhile(Word, ROOM - 1);
      t := ReadColon([dot] + v, Identifier, LocalLabel, start);
    }

    /** The branches of lexer_next_token behind the blanks. */
    method ReadToken() returns (t: Token)
      requires Valid() && !AtEnd() && !IsBlank(input[pos])
      modifies this
      ensures Valid() && var r := old(Left());
              && t == FirstToken(r, old(line)) && Left() == Remainder(r) && line == old(line) + NewlinesIn(FirstUsed(r))
    {
      var c, start := input[pos], line;
      hide NumberLength, StringLength, Span, NewlinesIn;
      if c == '\n' {
        t := ReadSingle(Newline);
      } else if c == ';' {
        var v := ReadWhile(RestOfLine, ROOM);
        t := Token(Comment, v, start);
      } else if c == '#' {
        var v := ReadWhile(RestOfLine, ROOM);
        t := Token(Directive, v, start);
      } else if c == '"' {
        var v := ReadString();
        t := Token(Str, v, start);
      } else if c == ',' {
        t := ReadSingle(Comma);
      } else if c == '(' {
        t := ReadSingle(LParen);
      } else if c == ')' {
        t := ReadSingle(RParen);
      } else if IsDigit(c) {
        var v := ReadNumber();
        t := Token(Number, v, start);
      } else if IsIdentifierStart(c) {
        t := ReadName();
      } else if c == '.' {
        t := ReadDotName();
      } else {
        var bad := ReadSingle(Error);
        t := bad.(value := "");
      }
    }

    lemma NameCut(r: string)
      requires r != "" && IsIdentifierStart(r[0])
      ensures !IsBlank(r[0])
      ensures var n := Span(Word, r, ROOM); var colon := r[n..] != "" && r[n..][0] == ':';
              && FirstCut(r) == Cut(if colon then Label else Identifier, n, if colon then n + 1 else n)
              && NewlinesIn(FirstUsed(r)) == NewlinesIn(r[..n])
              && Remainder(r) == if colon then r[n..][1..] else r[n..]
    {
      hide Span, NewlinesIn, NumberLength, StringLength;
      var n := Span(Word, r, ROOM);
      assert r[n..] != "" ==> r[n..][0] == r[n] && r[n..][1..] == r[n + 1..];
      UsedName(r, r[..n]);
    }

    lemma DotCut(r: string)
      requires r != "" && r[0] == '.'
      ensures !IsBlank(r[0])
      ensures var n := Span(Word, r[1..], ROOM - 1); var rest := r[1..][n..]; var colon := rest != "" && rest[0] == ':';
              && FirstCut(r) == Cut(if colon then LocalLabel else Identifier, 1 + n, if colon then n + 2 else n + 1)
              && r[..1 + n] == ['.'] + r[1..][..n]
              && NewlinesIn(FirstUsed(r)) == NewlinesIn(r[1..][..n]) && NewlinesIn(['.']) == 0
              && Remainder(r) == if colon then rest[1..] else rest
    {
      UsedName(r, r[..FirstCut(r).length]);
      var n := Span(Word, r[1..], ROOM - 1);
      assert r[..1 + n] == ['.'] + r[1..][..n] && r[1..][n..] == r[1 + n..];
      NewlinesJoin(['.'], r[1..][..n]);
      hide Span;
    }

    /** A colon is no newline. */
    lemma UsedName(r: string, v: string)
      requires r != "" && !IsBlank(r[0]) && (IsIdentifierStart(r[0]) || r[0] == '.')
      requires v == r[..FirstCut(r).length]
      ensures NewlinesIn(FirstUsed(r)) == NewlinesIn(v)
    {
      var colon := if FirstCut(r).used > |v| then ":" else "";
      ColonOrNot(r);
      hide FirstCut, NewlinesIn;
      assert FirstUsed(r) == v + colon;
      NewlinesJoin(v, colon);
      ColonIsNone();
    }

    lemma ColonOrNot(r: string)
      requires r != "" && !IsBlank(r[0]) && (IsIdentifierStart(r[0]) || r[0] == '.')
      ensures var c := FirstCut(r); c.used == c.length || (c.used == c.length + 1 && r[c.length] == ':')
    {
      hide Span;
    }

    lemma ColonIsNone()
      ensures NewlinesIn(":") == 0 && NewlinesIn("") == 0
    {
    }

    /** lexer_next_token. */
    method NextToken() returns (t: Token)
      requires Valid()
      modifies this
      ensures Valid() && |Left()| <= |old(Left())|
      ensures t.kind == Eof ==> Lex(old(Left()), old(line)) == [t]
      ensures t.kind != Eof ==> Lex(old(Left()), old(line)) == [t] + Lex(Left(), line) && |Left()| < |old(Left())|
    {
      hide Rest, FirstToken, FirstUsed, Remainder, FirstCut, NewlinesIn, Lex;
      LexUnfolds(Left(), line);
      SkipWhitespace();
      if AtEnd() {
        return Token(Eof, "", line);
      }
      t := ReadToken();
    }
  }

  /** tokenize. */
  method Tokenize(input: string) returns (ts: seq<Token>)
    ensures ts == Lex(input, 1)
  {
    hide *;
    var lexer := new Lexer(input);
    ts := [];
    var t := lexer.NextToken();
    ghost var rest := if t.kind == Eof then [] else Lex(lexer.Left(), lexer.line);
    Regrouped([], [t], rest);
    while t.kind != Eof
      invariant lexer.Valid() && fresh(lexer)
      invariant Lex(input, 1) == ts + [t] + rest
      invariant rest == if t.kind == Eof then [] else Lex(lexer.Left(), lexer.line)
      decreases |lexer.Left()|, if t.kind == Eof then 0 else 1
    {
      ts := ts + [t];
      t := lexer.NextToken();
      rest := if t.kind == Eof then [] else Lex(lexer.Left(), lexer.line);
      Regrouped(ts, [t], rest);
    }
    ts := ts + [t];
  }

  class Preprocessor {
    var defines: seq<P.Define>
    /** The mappings: local names as stored, and the global names made for them. */
    var localNames: seq<string>
    var globalNames: seq<string>
    var currentGlobalLabel: string
    var localCounter: nat

    ghost predicate Valid()
      reads this
    {
      && P.Named(defines)
      && |localNames| == |globalNames| == localCounter
      && forall i :: 0 <= i < localCounter ==> globalNames[i] == P.GlobalName(currentGlobalLabel, i)
    }

    ghost function Context(): P.Context
      reads this
    {
      P.Context(defines, currentGlobalLabel, localNames)
    }

    constructor ()
      ensures Valid() && Context() == P.FRESH
    {
      defines, localNames, globalNames, currentGlobalLabel, localCounter := [], [], [], "__global", 0;
    }

    /** preprocessor_get_local_label_global_name. */
    method GetLocalLabelGlobalName(localName: string) returns (globalName: string)
      requires Valid()
      modifies this
      ensures Valid() && Context() == P.Noted(old(Context()), localName)
      ensures globalName == P.LocalName(old(Context()), localName)
    {
      hide P.GlobalName;
      var i := 0;
      while i < |localNames|
        invariant i <= |localNames| && localName !in localNames[..i]
      {
        if localNames[i] == localName {
          FoundAt(localNames, localName, i);
          return globalNames[i];
        }
        i := i + 1;
      }
      assert localNames[..i] == localNames;
      NotFound(localNames, localName);
      globalName := P.GlobalName(currentGlobalLabel, localCounter);
      localNames := localNames + [P.Clip(localName, P.LOCAL_ROOM)];
      globalNames := globalNames + [globalName];
      localCounter := localCounter + 1;
    }

    /** preprocessor_update_global_context. */
    method UpdateGlobalContext(name: string)
      requires Valid()
      modifies this
      ensures Valid() && Context() == P.Context(old(defines), P.Clip(name, P.GLOBAL_ROOM), [])
    {
      currentGlobalLabel := P.Clip(name, P.GLOBAL_ROOM);
      localNames, globalNames, localCounter := [], [], 0;
    }

    /** The inner loop of preprocessor_expand_defines. */
    method FindDefine(p: string, written: nat) returns (j: nat)
      requires Valid()
      ensures j == P.FirstMatch(defines, 0, p, written)
    {
      j := 0;
      while j < |defines| && !(P.Starts(defines[j], p) && written + |defines[j].value| < P.EXPANSION_ROOM)
        invariant j <= |defines|
        invariant P.FirstMatch(defines, 0, p, written) == P.FirstMatch(defines, j, p, written)
      {
        j := j + 1;
      }
    }

    /** One turn of the loop of preprocessor_expand_defines: what is written, for how much of the text. */
    method ExpandOnce(p: string, written: nat) returns (piece: string, used: nat)
      requires Valid() && p != "" && written < P.EXPANSION_ROOM
      ensures 0 < used <= |p|
      ensures P.Expand(defines, p, written) == piece + P.Expand(defines, p[used..], written + |piece|)
    {
      var j := FindDefine(p, written);
      ExpandAt(defines, p, written, j);
      hide P.Expand, P.FirstMatch, P.Named, P.Starts;
      if j < |defines| {
        piece, used := defines[j].value, |defines[j].name|;
      } else {
        piece, used := [p[0]], 1;
      }
    }

    /** preprocessor_expand_defines. */
    method ExpandDefines(text: string) returns (result: string)
      requires Valid()
      ensures result == P.Expand(defines, text, 0)
    {
      hide P.Expand;
      result := "";
      var p := text;
      Regrouped("", "", P.Expand(defines, text, 0));
      while p != "" && |result| < P.EXPANSION_ROOM
        invariant result + P.Expand(defines, p, |result|) == P.Expand(defines, text, 0)
        decreases |p|
      {
        var piece, used := ExpandOnce(p, |result|);
        Regrouped(result, piece, P.Expand(defines, p[used..], |result| + |piece|));
        result, p := result + piece, p[used..];
      }
      ExpandEnds(defines, p, |result|);
      Regrouped(result, "", "");
    }

    /** A directive line: only definitions are kept. */
    method ReadDirective(t: Token)
      requires Valid() && t.kind == Directive
      modifies this
      ensures Valid() && Context() == P.After(old(Context()), t)
    {
      hide P.ParseDefine;
      if "#define" <= t.value {
        match P.ParseDefine(t.value[7..]) {
          case None =>
          case Some(d) => defines := defines + [d];
        }
      }
    }

    /** One token's turn in preprocess_file: the output buffer goes in and comes out. */
    method Process(t: Token, newLine: bool, out: string) returns (result: string)
      requires Valid()
      modifies this
      ensures Valid() && Context() == P.After(old(Context()), t)
      ensures P.Named(old(defines)) && result == P.Emit(out, old(Context()), t, newLine)
    {
      hide P.Expand, P.GlobalName, P.ParseDefine;
      result := out;
      if t.kind == Directive {
        ReadDirective(t);
        return;
      }
      if t.kind == Comment {
        return;
      }
      if t.kind == Newline {
        result := P.PutChar(result, '\n');
        return;
      }
      if t.kind == Label {
        UpdateGlobalContext(t.value);
      }
      if t.value == "" {
        return;
      }
      if !newLine {
        result := P.PutChar(result, ' ');
      }
      var spelling;
      if t.kind == LocalLabel || (t.kind == Identifier && t.value[0] == '.') {
        spelling := GetLocalLabelGlobalName(t.value);
      } else {
        spelling := ExpandDefines(t.value);
      }
      result := P.PutText(result, spelling);
      if t.kind == Label || t.kind == LocalLabel {
        result := P.PutChar(result, ':');
      }
    }

    /** The loop of preprocess_file. */
    method PreprocessTokens(ts: seq<Token>) returns (result: string)
      requires Valid()
      modifies this
      ensures Valid() && P.Named(old(defines)) && result == P.Preprocess(ts, old(Context()), true, "")
    {
      result := "";
      var newLine := true;
      hide P.Emit, P.After;
      for i := 0 to |ts|
        invariant Valid() && P.Named(old(defines))
        invariant P.Preprocess(ts[i..], Context(), newLine, result) == P.Preprocess(ts, old(Context()), true, "")
      {
        assert ts[i..][1..] == ts[i + 1..];
        result := Process(ts[i], newLine, result);
        newLine := P.NewLineAfter(ts[i], newLine);
      }
    }
  }

  lemma {:induction false} FoundAt(names: seq<string>, name: string, i: nat)
    requires i < |names| && names[i] == name && name !in names[..i]
    ensures P.IndexOf(names, name) == i && name in names
  {
    if i > 0 {
      assert names[0] == names[..i][0];
      assert names[1..][..i - 1] == names[..i][1..];
      FoundAt(names[1..], name, i - 1);
    }
  }

  lemma NotFound(names: seq<string>, name: string)
    requires name !in names
    ensures P.IndexOf(names, name) == |names|
  {
  }

  lemma ExpandAt(defines: seq<P.Define>, p: string, i: nat, j: nat)
    requires P.Named(defines) && p != "" && i < P.EXPANSION_ROOM && j == P.FirstMatch(defines, 0, p, i)
    ensures j < |defines| ==>
              var d := defines[j];
              && 0 < |d.name| <= |p|
              && P.Expand(defines, p, i) == d.value + P.Expand(defines, p[|d.name|..], i + |d.value|)
    ensures j >= |defines| ==> P.Expand(defines, p, i) == [p[0]] + P.Expand(defines, p[1..], i + 1)
  {
    if j < |defines| { assert defines[j] in defines; }
  }

  lemma ExpandEnds(defines: seq<P.Define>, p: string, i: nat)
    requires P.Named(defines) && (p == "" || i >= P.EXPANSION_ROOM)
    ensures P.Expand(defines, p, i) == ""
  {
  }

  /** A file's text preprocessed by a preprocessor of its own. */
  method PreprocessFile(text: string) returns (result: string)
    ensures result == P.PreprocessText(text)
  {
    var tokens := Tokenize(text);
    var preprocessor := new Preprocessor();
    result := preprocessor.PreprocessTokens(tokens);
  }
}
