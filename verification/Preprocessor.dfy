/** The preprocessor as a function from tokens to text. */
module Preprocessor {
  import opened Common
  import opened Text
  import opened AsmLexer

  datatype Define = Define(name: string, value: string)

  /** The definitions so far, the global label in effect, and the local names met under it. */
  datatype Context = Context(defines: seq<Define>, global: string, locals: seq<string>)

  const FRESH := Context([], "__global", [])

  /** The room for a local name, for a global one, for an expansion and for the result. */
  const LOCAL_ROOM: nat := 63
  const GLOBAL_ROOM: nat := 127
  const EXPANSION_ROOM: nat := 4095
  const RESULT_ROOM: nat := 8191

  function Clip(s: string, room: nat): (r: string)
    ensures |r| <= room && r <= s && (|s| <= room ==> r == s)
  {
    if |s| <= room then s else s[..room]
  }

  // ---------- definitions ----------

  /** A directive's name and value as the two sscanf calls find them; a name alone stands for 1. */
  function ParseDefine(text: string): (d: Option<Define>)
    ensures d.Some? ==> d.value.name != ""
  {
    var s := text[Span(Gap, text, |text|)..];
    var n := Span(Solid, s, 63);
    if n == 0 then None
    else
      var r := s[n..];
      var r' := r[Span(Gap, r, |r|)..];
      var v := Span(RestOfLine, r', 255);
      Some(Define(s[..n], if v == 0 then "1" else r'[..v]))
  }

  predicate Named(defines: seq<Define>) {
    forall d :: d in defines ==> d.name != ""
  }

  /** A name stands at the front of a text, and no longer word does. */
  predicate Starts(d: Define, p: string) {
    d.name <= p && (|d.name| == |p| || !In(Word, p[|d.name|]))
  }

  /** The first definition from the j-th on that applies to the front of a text and whose value fits. */
  function FirstMatch(defines: seq<Define>, j: nat, p: string, i: nat): (r: nat)
    requires j <= |defines|
    ensures j <= r <= |defines|
    ensures r < |defines| ==> Starts(defines[r], p) && i + |defines[r].value| < EXPANSION_ROOM
    decreases |defines| - j
  {
    if j == |defines| || (Starts(defines[j], p) && i + |defines[j].value| < EXPANSION_ROOM) then j
    else FirstMatch(defines, j + 1, p, i)
  }

  /** What a text becomes, `i` characters of the result being written. */
  function Expand(defines: seq<Define>, p: string, i: nat): string
    requires Named(defines)
    decreases |p|
  {
    if p == "" || i >= EXPANSION_ROOM then ""
    else
      var j := FirstMatch(defines, 0, p, i);
      if j < |defines| then
        var d := defines[j];
        d.value + Expand(defines, p[|d.name|..], i + |d.value|)
      else [p[0]] + Expand(defines, p[1..], i + 1)
  }

  /** A text in which no name stands is left alone. */
  lemma {:induction false} ExpandUntouched(defines: seq<Define>, p: string, i: nat)
    requires Named(defines) && i + |p| <= EXPANSION_ROOM
    requires forall k, d :: 0 <= k < |p| && d in defines ==> !Starts(d, p[k..])
    ensures Expand(defines, p, i) == p
  {
    if p != "" {
      assert p[0..] == p && [p[0]] + p[1..] == p;
      forall d | d in defines ensures !Starts(d, p) {
        assert !Starts(d, p[0..]);
      }
      forall k, d | 0 <= k < |p[1..]| && d in defines ensures !Starts(d, p[1..][k..]) {
        assert p[1..][k..] == p[k + 1..];
      }
      ExpandUntouched(defines, p[1..], i + 1);
    }
  }

  // ---------- local labels ----------

  function IndexOf(locals: seq<string>, name: string): (i: nat)
    ensures i <= |locals| && (i < |locals| ==> locals[i] == name) && name !in locals[..i]
  {
    if locals == [] || locals[0] == name then 0 else 1 + IndexOf(locals[1..], name)
  }

  /** The name a local one stands for. */
  function GlobalName(global: string, n: nat): string {
    Clip(global + "__local_" + Decimal(n), GLOBAL_ROOM)
  }

  function LocalName(c: Context, name: string): string {
    GlobalName(c.global, IndexOf(c.locals, name))
  }

  /** A name not met before is remembered, as far as there is room. */
  function Noted(c: Context, name: string): Context {
    if name in c.locals then c else c.(locals := c.locals + [Clip(name, LOCAL_ROOM)])
  }

  // ---------- tokens ----------

  predicate IsDot(t: Token) {
    t.value != "" && (t.kind == LocalLabel || (t.kind == Identifier && t.value[0] == '.'))
  }

  /** What a token does to the context. */
  function After(c: Context, t: Token): (c': Context)
    ensures Named(c.defines) ==> Named(c'.defines)
  {
    if t.kind == Directive then
      if "#define" <= t.value then
        match ParseDefine(t.value[7..])
        case None => c
        case Some(d) => c.(defines := c.defines + [d])
      else c
    else if t.kind == Label then c.(global := Clip(t.value, GLOBAL_ROOM), locals := [])
    else if IsDot(t) then Noted(c, t.value)
    else c
  }

  predicate Prints(t: Token) {
    t.kind != Directive && t.kind != Comment && t.kind != Newline && t.value != ""
  }

  function NewLineAfter(t: Token, newLine: bool): bool {
    t.kind == Directive || t.kind == Newline || (t.kind == Comment && newLine)
  }

  /** A token's own text, before the colon. */
  function Spelling(c: Context, t: Token): string
    requires Named(c.defines)
  {
    if t.kind == Newline then "\n"
    else if !Prints(t) then ""
    else if IsDot(t) then LocalName(c, t.value)
    else Expand(c.defines, t.value, 0)
  }

  function PutChar(out: string, ch: char): string {
    if |out| < RESULT_ROOM then out + [ch] else out
  }

  function PutText(out: string, s: string): string {
    if |out| + |s| < RESULT_ROOM then out + s else out
  }

  /** The result after a token: what does not fit is dropped, piece by piece. */
  function Emit(out: string, c: Context, t: Token, newLine: bool): string
    requires Named(c.defines)
  {
    if t.kind == Newline then PutChar(out, '\n')
    else if !Prints(t) then out
    else
      var spaced := if newLine then out else PutChar(out, ' ');
      var written := PutText(spaced, Spelling(c, t));
      if t.kind == Label || t.kind == LocalLabel then PutChar(written, ':') else written
  }

  function Preprocess(ts: seq<Token>, c: Context, newLine: bool, out: string): string
    requires Named(c.defines)
  {
    if ts == [] then out
    else Preprocess(ts[1..], After(c, ts[0]), NewLineAfter(ts[0], newLine), Emit(out, c, ts[0], newLine))
  }

  /** The preprocessed text of a file that includes no other. */
  function PreprocessText(text: string): string {
    Preprocess(Lex(text, 1), FRESH, true, "")
  }

  // ---------- the result without its limit ----------

  function Piece(c: Context, t: Token, newLine: bool): string
    requires Named(c.defines)
  {
    if !Prints(t) then Spelling(c, t)
    else (if newLine then "" else " ") + Spelling(c, t) + (if t.kind == Label || t.kind == LocalLabel then ":" else "")
  }

  function Render(ts: seq<Token>, c: Context, newLine: bool): string
    requires Named(c.defines)
  {
    if ts == [] then ""
    else Piece(c, ts[0], newLine) + Render(ts[1..], After(c, ts[0]), NewLineAfter(ts[0], newLine))
  }

  lemma PieceFits(out: string, c: Context, t: Token, newLine: bool)
    requires Named(c.defines) && |out| + |Piece(c, t, newLine)| < RESULT_ROOM
    ensures Emit(out, c, t, newLine) == out + Piece(c, t, newLine)
  {
    hide Expand, LocalName;
    if Prints(t) {
      var s := Spelling(c, t);
      assert out + (if newLine then "" else " ") + s == out + ((if newLine then "" else " ") + s);
    }
  }

  lemma {:induction false} NothingDropped(ts: seq<Token>, c: Context, newLine: bool, out: string)
    requires Named(c.defines) && |out| + |Render(ts, c, newLine)| < RESULT_ROOM
    ensures Preprocess(ts, c, newLine, out) == out + Render(ts, c, newLine)
  {
    hide Emit, Piece, After, NewLineAfter;
    if ts != [] {
      var t := ts[0];
      var rest := Render(ts[1..], After(c, t), NewLineAfter(t, newLine));
      PieceFits(out, c, t, newLine);
      NothingDropped(ts[1..], After(c, t), NewLineAfter(t, newLine), out + Piece(c, t, newLine));
      assert out + Piece(c, t, newLine) + rest == out + (Piece(c, t, newLine) + rest);
    }
  }

  // ---------- what preprocessing does to the tokens ----------

  /** A text's tokens without the end. */
  function TokensOf(s: string, line: nat): seq<Token> {
    Lex(s, line)[..|Lex(s, line)| - 1]
  }

  /** The tokens a token is read back as: a dot name becomes a global one, defined names their values, and what prints
      nothing goes. */
  function Renamed(c: Context, t: Token): seq<Token>
    requires Named(c.defines)
  {
    if t.kind == Comment || t.kind == Error || t.kind == Directive then []
    else if t.kind == LocalLabel then [Token(Label, LocalName(c, t.value), t.line)]
    else if IsDot(t) then [Token(Identifier, LocalName(c, t.value), t.line)]
    else if t.kind == Newline || t.kind == Eof then [t]
    else
      var e := Expand(c.defines, t.value, 0);
      if e == t.value then [t]
      else if t.kind == Label then [Token(Label, e, t.line)]
      else TokensOf(e, t.line)
  }

  function Resolved(ts: seq<Token>, c: Context): seq<Token>
    requires Named(c.defines)
  {
    if ts == [] then [] else Renamed(c, ts[0]) + Resolved(ts[1..], After(c, ts[0]))
  }
}
