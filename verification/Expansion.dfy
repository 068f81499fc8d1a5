/** What a definition's value is read as where it is put. */
module Expansion {
  import opened Common
  import opened Text
  import opened AsmLexer
  import opened Preprocessor

  // ---------- texts that end where they end ----------

  /** The first token of a text does not reach for what stands behind the text: no comment or directive, which go on to
      the line's end, and no string without its closing quote. */
  predicate CutClosed(r: string)
    requires r != "" && !IsBlank(r[0])
  {
    var kind := FirstCut(r).kind;
    kind != Comment && kind != Directive && (kind == Str ==> StringBody(r, 1) < |r|)
  }

  /** So for every token of a text. */
  predicate Closed(v: string)
    decreases |v|
  {
    var r := Rest(v);
    r == "" || (CutClosed(r) && Closed(Remainder(r)))
  }

  lemma SpanExtends(k: Class, s: string, t: string, room: nat)
    requires k.Word? || k.Figures? || k.Hexadecimal?
    requires Separated(t)
    ensures Span(k, s + t, room) == Span(k, s, room)
  {
    SpanIs(k, s + t, room, Span(k, s, room));
  }

  lemma NumberExtends(s: string, t: string)
    requires s != "" && IsDigit(s[0]) && Separated(t)
    ensures (s + t)[0] == s[0] && NumberLength(s + t) == NumberLength(s)
  {
    var v := s + t;
    assert |v| > 1 ==> v[1] == if |s| > 1 then s[1] else t[0];
    assert IsHexPrefixed(v) <==> IsHexPrefixed(s);
    if IsHexPrefixed(s) {
      assert v[2..] == s[2..] + t;
      SpanExtends(Hexadecimal, s[2..], t, ROOM - 2);
    } else {
      SpanExtends(Figures, s, t, ROOM);
    }
  }

  lemma {:induction false} BodyExtends(s: string, t: string, i: nat)
    requires i <= |s| && StringBody(s, i) < |s|
    ensures StringBody(s + t, i) == StringBody(s, i)
    decreases |s| - i
  {
    assert i < |s| && (s + t)[i] == s[i];
    if s[i] != '"' && i < STRING_ROOM {
      if s[i] == '\\' && i + 1 < |s| {
        BodyExtends(s, t, i + 2);
      } else {
        BodyExtends(s, t, i + 1);
      }
    }
  }

  lemma StringExtends(s: string, t: string)
    requires s != "" && s[0] == '"' && StringBody(s, 1) < |s|
    ensures (s + t)[0] == s[0] && StringLength(s + t) == StringLength(s)
  {
    BodyExtends(s, t, 1);
    assert (s + t)[StringBody(s, 1)] == s[StringBody(s, 1)];
  }

  lemma WordExtends(s: string, t: string)
    requires s != "" && IsIdentifierStart(s[0]) && Separated(t)
    ensures FirstCut(s + t) == FirstCut(s)
  {
    SpanExtends(Word, s, t, ROOM);
    assert (s + t)[0] == s[0];
    var n := Span(Word, s, ROOM);
    assert n < |s + t| ==> (s + t)[n] == if n < |s| then s[n] else t[0];
    hide Span;
  }

  lemma DotExtends(s: string, t: string)
    requires s != "" && s[0] == '.' && Separated(t)
    ensures FirstCut(s + t) == FirstCut(s)
  {
    assert (s + t)[1..] == s[1..] + t && (s + t)[0] == s[0];
    SpanExtends(Word, s[1..], t, ROOM - 1);
    var n := 1 + Span(Word, s[1..], ROOM - 1);
    assert n < |s + t| ==> (s + t)[n] == if n < |s| then s[n] else t[0];
    hide Span;
  }

  lemma CutExtends(r: string, t: string)
    requires r != "" && !IsBlank(r[0]) && CutClosed(r) && Separated(t)
    ensures !IsBlank((r + t)[0]) && FirstCut(r + t) == FirstCut(r)
  {
    hide Span, NumberLength, StringLength, StringBody, IsBlank;
    assert (r + t)[0] == r[0];
    if r[0] == '"' {
      StringExtends(r, t);
    } else if IsDigit(r[0]) {
      NumberExtends(r, t);
    } else if IsIdentifierStart(r[0]) {
      WordExtends(r, t);
    } else if r[0] == '.' {
      DotExtends(r, t);
    }
  }

  lemma RestExtends(v: string, t: string)
    ensures Rest(v) != "" ==> Rest(v + t) == Rest(v) + t
    ensures Rest(v) == "" ==> Rest(v + t) == Rest(t)
  {
    var n := Blanks(v);
    if n < |v| {
      BlanksAre(v + t, n);
    } else {
      assert forall i :: n <= i < n + Blanks(t) ==> (v + t)[i] == t[i - n];
      BlanksAre(v + t, n + Blanks(t));
    }
  }

  lemma {:induction false} NewlinesAdd(s: string, t: string)
    ensures NewlinesIn(s + t) == NewlinesIn(s) + NewlinesIn(t)
  {
    if s == "" {
      assert s + t == t;
    } else {
      assert (s + t)[1..] == s[1..] + t;
      NewlinesAdd(s[1..], t);
    }
  }

  lemma {:induction false} NoNewlines(s: string)
    requires forall i :: 0 <= i < |s| ==> s[i] != '\n'
    ensures NewlinesIn(s) == 0
  {
    if s != [] {
      NoNewlines(s[1..]);
    }
  }

  /** Where a text's lines are counted: its blanks, its first token and what follows. */
  lemma NewlinesSplit(v: string)
    ensures Rest(v) == "" ==> NewlinesIn(v) == 0
    ensures Rest(v) != "" ==> NewlinesIn(v) == NewlinesIn(FirstUsed(Rest(v))) + NewlinesIn(Remainder(Rest(v)))
  {
    var n := Blanks(v);
    assert v == v[..n] + Rest(v);
    NoNewlines(v[..n]);
    NewlinesAdd(v[..n], Rest(v));
    if Rest(v) != "" {
      hide FirstCut, NewlinesIn;
      var r := Rest(v);
      assert r == FirstUsed(r) + Remainder(r);
      NewlinesAdd(FirstUsed(r), Remainder(r));
    }
  }

  lemma HeadExtends(r: string, t: string, line: nat)
    requires r != "" && !IsBlank(r[0]) && CutClosed(r) && Separated(t)
    ensures r + t != "" && !IsBlank((r + t)[0]) && FirstToken(r + t, line) == FirstToken(r, line)
    ensures FirstUsed(r + t) == FirstUsed(r) && Remainder(r + t) == Remainder(r) + t
  {
    CutExtends(r, t);
    hide FirstCut;
    var n := FirstCut(r).used;
    assert (r + t)[..n] == r[..n] && (r + t)[n..] == r[n..] + t;
    assert (r + t)[..FirstCut(r).length] == r[..FirstCut(r).length];
  }

  lemma TokensUnfold(v: string, line: nat)
    ensures Rest(v) == "" ==> TokensOf(v, line) == []
    ensures var r := Rest(v);
            r != "" ==> TokensOf(v, line) == [FirstToken(r, line)] + TokensOf(Remainder(r), line + NewlinesIn(FirstUsed(r)))
  {
    LexUnfolds(v, line);
    hide Lex, Rest, FirstToken, FirstUsed, Remainder, NewlinesIn;
  }

  lemma ClosedUnfolds(v: string)
    requires Closed(v) && Rest(v) != ""
    ensures CutClosed(Rest(v)) && Closed(Remainder(Rest(v)))
  {
  }

  /** Such a text is read by itself, whatever follows behind a space or on the next line. */
  lemma {:induction false} ClosedReads(v: string, t: string, line: nat)
    requires Closed(v) && Separated(t)
    ensures Lex(v + t, line) == TokensOf(v, line) + Lex(t, line + NewlinesIn(v))
    decreases |v|
  {
    hide *;
    TokensUnfold(v, line);
    NewlinesSplit(v);
    var r := Rest(v);
    if r != "" {
      ClosedUnfolds(v);
      var line' := line + NewlinesIn(FirstUsed(r));
      FirstRead(v, t, line);
      ClosedReads(Remainder(r), t, line');
      Regrouped([FirstToken(r, line)], TokensOf(Remainder(r), line'), Lex(t, line + NewlinesIn(v)));
    } else {
      BlanksRead(v, t, line);
    }
  }

  lemma FirstRead(v: string, t: string, line: nat)
    requires Rest(v) != "" && CutClosed(Rest(v)) && Separated(t)
    ensures var r := Rest(v);
            Lex(v + t, line) == [FirstToken(r, line)] + Lex(Remainder(r) + t, line + NewlinesIn(FirstUsed(r)))
  {
    hide *;
    RestExtends(v, t);
    LexUnfolds(v + t, line);
    HeadExtends(Rest(v), t, line);
  }

  lemma BlanksRead(v: string, t: string, line: nat)
    requires Rest(v) == ""
    ensures Lex(v + t, line) == [] + Lex(t, line + 0)
  {
    hide *;
    RestExtends(v, t);
    LexUnfolds(v + t, line);
    LexUnfolds(t, line);
    Regrouped([], [], Lex(t, line));
  }

  lemma {:induction false} ClosedUndirected(v: string, line: nat)
    requires Closed(v)
    ensures forall t :: t in TokensOf(v, line) ==> t.kind != Directive && t.kind != Comment
    decreases |v|
  {
    hide *;
    TokensUnfold(v, line);
    var r := Rest(v);
    if r != "" {
      ClosedUnfolds(v);
      ClosedFirst(r, line);
      ClosedUndirected(Remainder(r), line + NewlinesIn(FirstUsed(r)));
    }
  }

  lemma ClosedFirst(r: string, line: nat)
    requires r != "" && !IsBlank(r[0]) && CutClosed(r)
    ensures FirstToken(r, line).kind != Directive && FirstToken(r, line).kind != Comment
  {
  }

  // ---------- expansions ----------

  /** Names and values as directives give them, each within a line. */
  predicate OneLine(defines: seq<Define>) {
    forall d :: d in defines ==> NewlinesIn(d.name) == 0 && NewlinesIn(d.value) == 0
  }

  lemma ParsedOneLine(text: string)
    ensures ParseDefine(text).Some? ==> NewlinesIn(ParseDefine(text).value.name) == 0
                                        && NewlinesIn(ParseDefine(text).value.value) == 0
  {
    var s := text[Span(Gap, text, |text|)..];
    var r := s[Span(Solid, s, 63)..];
    SpanOneLine(Solid, s, 63);
    SpanOneLine(RestOfLine, r[Span(Gap, r, |r|)..], 255);
    NoNewlines("1");
    hide Span, NewlinesIn;
  }

  lemma SpanOneLine(k: Class, s: string, room: nat)
    requires k.Solid? || k.RestOfLine?
    ensures NewlinesIn(s[..Span(k, s, room)]) == 0
  {
    NoNewlines(s[..Span(k, s, room)]);
  }

  /** An expansion that is not cut short has the lines of what is expanded. */
  lemma {:induction false} ExpandKeepsLines(defines: seq<Define>, p: string, i: nat)
    requires Named(defines) && OneLine(defines) && i + |Expand(defines, p, i)| < EXPANSION_ROOM
    ensures NewlinesIn(Expand(defines, p, i)) == NewlinesIn(p)
    decreases |p|
  {
    hide *;
    if p != "" {
      var a, b, used := ExpandStep(defines, p, i);
      ExpandKeepsLines(defines, p[used..], i + |a|);
      NewlinesAdd(p[..used], p[used..]);
      NewlinesAdd(a, b);
    } else {
      NothingExpands(defines, i);
    }
  }

  lemma NothingExpands(defines: seq<Define>, i: nat)
    requires Named(defines)
    ensures Expand(defines, "", i) == "" && NewlinesIn("") == 0
  {
  }

  /** The first piece of an expansion, the rest of it, and how much of the text the piece stands for. */
  lemma ExpandStep(defines: seq<Define>, p: string, i: nat) returns (a: string, b: string, used: nat)
    requires Named(defines) && OneLine(defines) && p != "" && i < EXPANSION_ROOM
    ensures 0 < used <= |p| && p == p[..used] + p[used..] && NewlinesIn(a) == NewlinesIn(p[..used])
    ensures Expand(defines, p, i) == a + b && b == Expand(defines, p[used..], i + |a|)
  {
    var j := FirstMatch(defines, 0, p, i);
    if j < |defines| {
      var d := defines[j];
      assert d in defines;
      a, used := d.value, |d.name|;
      assert p[..used] == d.name;
    } else {
      a, used := [p[0]], 1;
      assert p[..1] == [p[0]];
    }
    b := Expand(defines, p[used..], i + |a|);
  }

  /** The first definition of a name, which later ones do not change. */
  function FirstOf(defines: seq<Define>, name: string): (j: nat)
    ensures j <= |defines| && (j < |defines| ==> defines[j].name == name)
    ensures forall k :: 0 <= k < j ==> defines[k].name != name
  {
    if defines == [] || defines[0].name == name then 0 else 1 + FirstOf(defines[1..], name)
  }

  predicate InWord(s: string) {
    forall i :: 0 <= i < |s| ==> In(Word, s[i])
  }

  /** A defined name, standing alone, becomes the value it was first given. */
  lemma NameExpands(defines: seq<Define>, name: string)
    requires Named(defines) && InWord(name) && FirstOf(defines, name) < |defines|
    requires forall d :: d in defines ==> |d.value| < EXPANSION_ROOM
    ensures Expand(defines, name, 0) == defines[FirstOf(defines, name)].value
  {
    var j := FirstOf(defines, name);
    assert defines[j] in defines && name != "";
    FirstMatchOfName(defines, name, 0);
    assert name[|name|..] == "";
    assert Expand(defines, "", |defines[j].value|) == "";
    assert defines[j].value + "" == defines[j].value;
  }

  lemma {:induction false} FirstMatchOfName(defines: seq<Define>, name: string, k: nat)
    requires Named(defines) && InWord(name) && k <= FirstOf(defines, name) < |defines|
    requires forall d :: d in defines ==> |d.value| < EXPANSION_ROOM
    ensures FirstMatch(defines, k, name, 0) == FirstOf(defines, name)
    decreases |defines| - k
  {
    var d := defines[k];
    assert d in defines;
    if Starts(d, name) {
      assert |d.name| == |name| && d.name == name;
    } else {
      FirstMatchOfName(defines, name, k + 1);
    }
  }
}
