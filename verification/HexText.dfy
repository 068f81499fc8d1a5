/** What the reader of a hex dump sees: offsets, cells and the text column. */
module HexText {
  import opened Common
  import opened Bytes
  import opened HexDump

  // ---------- the text column ----------

  /** A byte is shown as its character when that is a printable one of ASCII, and as a dot otherwise. */
  lemma TextShows(b: Byte)
    ensures ' ' <= Printable(b) <= '~'
    ensures ' ' <= b as char <= '~' ==> Printable(b) == b as char
    ensures Printable(b) != b as char ==> Printable(b) == '.' && (b as char < ' ' || '~' < b as char)
  {
  }

  /** The text column stands at the end of its line between two bars. */
  lemma TextColumn(row: seq<Byte>, offset: nat, o: Options)
    requires o.showAscii
    ensures var line, n := Row(row, offset, o), |row|;
            && |line| >= n + 4 && line[|line| - 1] == '\n' && line[|line| - 2] == '|'
            && line[|line| - 2 - n..|line| - 2] == Shown(row) && line[|line| - 4 - n..|line| - 2 - n] == " |"
  {
    hide Cells, Offset, Shown;
    var text := " |" + Shown(row) + "|" + "\n";
    var front := (if o.includeHeader then Offset(offset) + ":" else "") + Cells(row, 0, o);
    assert Row(row, offset, o) == front + text;
  }

  // ---------- the offset ----------

  /** The number that hexadecimal digits spell. */
  function HexRead(s: string): nat
    requires forall i :: 0 <= i < |s| ==> IsHexDigit(s[i])
  {
    if s == "" then 0 else 16 * HexRead(s[..|s| - 1]) + HexValue(s[|s| - 1])
  }

  lemma {:induction false} NumeralReadsBack(n: nat)
    ensures HexRead(HexNumeral(n)) == n && (forall i :: 0 <= i < |HexNumeral(n)| ==> !('A' <= HexNumeral(n)[i] <= 'F'))
    ensures n > 0 ==> HexNumeral(n)[0] != '0'
  {
    var s := HexNumeral(n);
    if n < 16 {
      assert s[..0] == "";
    } else {
      NumeralReadsBack(n / 16);
      assert s[..|s| - 1] == HexNumeral(n / 16) && HexValue(HexChar(n % 16, false)) == n % 16;
    }
  }

  function Padded(k: nat, s: string): string {
    seq(k, _ => '0') + s
  }

  lemma {:induction false} ZerosRead(k: nat, s: string)
    requires forall i :: 0 <= i < |s| ==> IsHexDigit(s[i])
    ensures (forall i :: 0 <= i < |Padded(k, s)| ==> IsHexDigit(Padded(k, s)[i])) && HexRead(Padded(k, s)) == HexRead(s)
    decreases k + |s|
  {
    var z := Padded(k, s);
    if s != "" {
      assert z[..|z| - 1] == Padded(k, s[..|s| - 1]);
      ZerosRead(k, s[..|s| - 1]);
    } else if k > 0 {
      assert z[..|z| - 1] == Padded(k - 1, "");
      ZerosRead(k - 1, "");
    }
  }

  /** The offset is the hexadecimal number, in small letters, with zeros in front up to eight digits. */
  lemma OffsetReadsBack(n: nat)
    ensures var s := Offset(n);
            && HexRead(s) == n && |s| >= 8 && (|s| > 8 ==> s[0] != '0')
            && forall i :: 0 <= i < |s| ==> !('A' <= s[i] <= 'F')
  {
    NumeralReadsBack(n);
    var s := HexNumeral(n);
    if |s| < 8 {
      ZerosRead(8 - |s|, s);
      assert Offset(n) == Padded(8 - |s|, s);
    }
  }

  function LineEnds(s: string): nat {
    if s == "" then 0 else (if s[0] == '\n' then 1 else 0) + LineEnds(s[1..])
  }

  lemma {:induction false} LineEndsAdd(s: string, t: string)
    ensures LineEnds(s + t) == LineEnds(s) + LineEnds(t)
  {
    if s == "" {
      assert s + t == t;
    } else {
      assert (s + t)[1..] == s[1..] + t;
      LineEndsAdd(s[1..], t);
    }
  }

  lemma {:induction false} NoLineEnds(s: string)
    requires forall i :: 0 <= i < |s| ==> s[i] != '\n'
    ensures LineEnds(s) == 0
  {
    if s != "" {
      NoLineEnds(s[1..]);
    }
  }

  lemma {:induction false} CellsOneLine(row: seq<Byte>, i: nat, o: Options)
    ensures forall k :: 0 <= k < |Cells(row, i, o)| ==> Cells(row, i, o)[k] != '\n'
    decreases o.columns - i
  {
    if i < o.columns {
      CellOneLine(row, i, o);
      CellsOneLine(row, i + 1, o);
      hide Cell;
    }
  }

  lemma CellOneLine(row: seq<Byte>, i: nat, o: Options)
    ensures forall k :: 0 <= k < |Cell(row, i, o)| ==> Cell(row, i, o)[k] != '\n'
  {
  }

  lemma RowOneLine(row: seq<Byte>, offset: nat, o: Options)
    ensures LineEnds(Row(row, offset, o)) == 1
  {
    CellsOneLine(row, 0, o);
    hide Cells, Offset;
    var front := (if o.includeHeader then Offset(offset) + ":" else "") + Cells(row, 0, o)
                 + (if o.showAscii then " |" + Shown(row) + "|" else "");
    assert Row(row, offset, o) == front + "\n";
    NoLineEnds(front);
    LineEndsAdd(front, "\n");
  }

  /** The row that starts at a place of the input. */
  function RowAt(slice: seq<Byte>, c: nat, from: nat): seq<Byte>
    requires from < |slice|
  {
    slice[from..][..Least(c, |slice| - from)]
  }

  lemma FirstRow(slice: seq<Byte>, offset: nat, o: Options)
    requires o.columns > 0 && slice != []
    ensures var n := Least(o.columns, |slice|);
            && Rows(slice, offset, o) == Row(RowAt(slice, o.columns, 0), offset, o) + Rows(slice[n..], offset + n, o)
            && n <= |slice| && (|slice| > o.columns ==> n == o.columns)
  {
    hide Row;
    assert slice[0..] == slice;
  }

  lemma LaterRow(slice: seq<Byte>, c: nat, from: nat)
    requires c <= from < |slice|
    ensures RowAt(slice[c..], c, from - c) == RowAt(slice, c, from)
  {
    assert slice[c..][from - c..] == slice[from..];
  }

  /** Where the i-th row starts. */
  predicate RowStart(i: nat, c: nat, from: nat) {
    from == i * c
  }

  /** The i-th line of a dump shows the i-th row of the input, at the offset of its first byte. */
  lemma {:induction false} LineShows(slice: seq<Byte>, offset: nat, o: Options, i: nat, from: nat)
    returns (before: string, after: string)
    requires o.columns > 0 && RowStart(i, o.columns, from) && from < |slice|
    ensures Rows(slice, offset, o) == before + (Row(RowAt(slice, o.columns, from), offset + from, o) + after)
    ensures LineEnds(before) == i
    decreases i
  {
    OneRowLess(i, o.columns, from);
    hide *;
    if i == 0 {
      before, after := FirstLineShows(slice, offset, o);
    } else {
      var b, a := LineShows(slice[o.columns..], offset + o.columns, o, i - 1, from - o.columns);
      before, after := Row(RowAt(slice, o.columns, 0), offset, o) + b, a;
      LineBelow(slice, offset, o, from, b, a);
    }
  }

  lemma FirstLineShows(slice: seq<Byte>, offset: nat, o: Options) returns (before: string, after: string)
    requires o.columns > 0 && slice != []
    ensures Rows(slice, offset, o) == before + (Row(RowAt(slice, o.columns, 0), offset, o) + after)
    ensures LineEnds(before) == 0
  {
    FirstRow(slice, offset, o);
    hide *;
    var n := Least(o.columns, |slice|);
    before, after := "", Rows(slice[n..], offset + n, o);
    NothingBefore(Row(RowAt(slice, o.columns, 0), offset, o) + after);
  }

  /** A line of the rest of the input is a line of the whole, one further down. */
  lemma LineBelow(slice: seq<Byte>, offset: nat, o: Options, from: nat, b: string, a: string)
    requires 0 < o.columns <= from < |slice|
    requires Rows(slice[o.columns..], offset + o.columns, o)
          == b + (Row(RowAt(slice[o.columns..], o.columns, from - o.columns), offset + from, o) + a)
    ensures Rows(slice, offset, o)
         == Row(RowAt(slice, o.columns, 0), offset, o) + b + (Row(RowAt(slice, o.columns, from), offset + from, o) + a)
    ensures LineEnds(Row(RowAt(slice, o.columns, 0), offset, o) + b) == LineEnds(b) + 1
  {
    FirstRow(slice, offset, o);
    LaterRow(slice, o.columns, from);
    RowOneLine(RowAt(slice, o.columns, 0), offset, o);
    hide *;
    OneMoreLine(Row(RowAt(slice, o.columns, 0), offset, o), b, Row(RowAt(slice, o.columns, from), offset + from, o) + a);
  }

  lemma OneMoreLine(line: string, b: string, t: string)
    requires LineEnds(line) == 1
    ensures line + (b + t) == line + b + t && LineEnds(line + b) == LineEnds(b) + 1
  {
    hide LineEnds;
    LineEndsAdd(line, b);
  }

  lemma OneRowLess(i: nat, c: nat, from: nat)
    requires RowStart(i, c, from)
    ensures i == 0 ==> from == 0
    ensures i > 0 ==> from >= c && RowStart(i - 1, c, from - c)
  {
    if i > 0 { assert from == (i - 1) * c + c; }
  }

  lemma NothingBefore(s: string)
    ensures "" + s == s && LineEnds("") == 0
  {
  }

  /** With a header, a line starts with its offset and a colon. */
  lemma HeaderFirst(row: seq<Byte>, offset: nat, o: Options)
    requires o.includeHeader
    ensures Offset(offset) + ":" <= Row(row, offset, o)
  {
    hide Offset, Cells;
  }

  // ---------- the cells ----------

  /** Letters are of the case asked for. */
  lemma CaseChosen(b: Byte, uppercase: bool)
    ensures forall c :: c in ByteToHex(b, uppercase) ==> if uppercase then !('a' <= c <= 'z') else !('A' <= c <= 'Z')
  {
  }

  lemma ExampleOffset()
    ensures Offset(0x1F0) == "000001f0"
  {
    assert HexNumeral(0x1F0) == "1f0";
    assert seq(5, _ => '0') == "00000";
  }

  lemma ExampleCells(row: seq<Byte>, o: Options)
    requires row == [0x4F, 0x0A, 0x7E] && !o.uppercase && o.columns == 4 && o.groupSize == 2
    ensures Cells(row, 0, o) == " 4f 0a  7e    " && Shown(row) == "O.~"
  {
    assert Cells(row, 4, o) == "" && Cell(row, 3, o) == "    " && Cell(row, 2, o) == " 7e";
    assert Cell(row, 1, o) == " 0a " && Cell(row, 0, o) == " 4f";
    hide Cell;
    assert Cells(row, 3, o) == "    " && Cells(row, 2, o) == " 7e    " && Cells(row, 1, o) == " 0a  7e    ";
  }

  /** A line as it is printed. */
  lemma Example()
    ensures Row([0x4F, 0x0A, 0x7E], 0x1F0, Options(true, false, true, 4, 2, 0, 0))
            == "000001f0" + ":" + " 4f 0a  7e    " + (" |" + "O.~" + "|") + "\n"
  {
    var row, o := [0x4F, 0x0A, 0x7E], Options(true, false, true, 4, 2, 0, 0);
    ExampleOffset();
    ExampleCells(row, o);
    hide Offset, Cells, Shown;
  }
}
