/** The plain hex dump and its reverse, as functions. */
module HexDump {
  import opened Bytes
  import Text

  /** The options of a plain dump; a group size that is not positive means no groups, a length of 0 everything. */
  datatype Options = Options(showAscii: bool, uppercase: bool, includeHeader: bool, columns: nat, groupSize: int,
                             startOffset: nat, length: nat)

  /** fgets takes at most this much of a line. */
  const LINE_ROOM: nat := 1023

  function HexChar(nibble: nat, uppercase: bool): char
    requires nibble < 16
  {
    if nibble < 10 then ('0' as int + nibble) as char
    else ((if uppercase then 'A' else 'a') as int + (nibble - 10)) as char
  }

  function ByteToHex(b: Byte, uppercase: bool): (s: string)
    ensures |s| == 2
  {
    [HexChar(b as int / 16, uppercase), HexChar(b as int % 16, uppercase)]
  }

  predicate IsHexDigit(c: char) {
    '0' <= c <= '9' || 'a' <= c <= 'f' || 'A' <= c <= 'F'
  }

  function HexValue(c: char): (v: nat)
    requires IsHexDigit(c)
    ensures v < 16
  {
    if c <= '9' then c as int - '0' as int
    else if c <= 'F' then c as int - 'A' as int + 10
    else c as int - 'a' as int + 10
  }

  function HexToByte(c: char, d: char): Byte
    requires IsHexDigit(c) && IsHexDigit(d)
  {
    (HexValue(c) * 16 + HexValue(d)) as Byte
  }

  lemma ByteReadsBack(b: Byte, uppercase: bool)
    ensures var s := ByteToHex(b, uppercase);
            IsHexDigit(s[0]) && IsHexDigit(s[1]) && HexToByte(s[0], s[1]) == b
  {
  }

  function Printable(b: Byte): char {
    if 32 <= b as int < 127 then b as int as char else '.'
  }

  /** %lx. */
  function HexNumeral(n: nat): (s: string)
    ensures |s| > 0 && forall i :: 0 <= i < |s| ==> IsHexDigit(s[i])
  {
    if n < 16 then [HexChar(n, false)] else HexNumeral(n / 16) + [HexChar(n % 16, false)]
  }

  /** %08lx. */
  function Offset(n: nat): (s: string)
    ensures forall i :: 0 <= i < |s| ==> IsHexDigit(s[i])
  {
    var s := HexNumeral(n);
    if |s| < 8 then seq(8 - |s|, _ => '0') + s else s
  }

  function Gap(i: nat, o: Options): string {
    if o.groupSize > 0 && (i + 1) % o.groupSize == 0 then " " else ""
  }

  /** A cell is blank where the row has no byte. */
  function Cell(row: seq<Byte>, i: nat, o: Options): string {
    (if i < |row| then " " + ByteToHex(row[i], o.uppercase) else "   ") + Gap(i, o)
  }

  /** The cells of a row from the i-th on. */
  function Cells(row: seq<Byte>, i: nat, o: Options): string
    decreases o.columns - i
  {
    if i >= o.columns then ""
    else Cell(row, i, o) + Cells(row, i + 1, o)
  }

  function Shown(row: seq<Byte>): (s: string)
    ensures |s| == |row|
  {
    seq(|row|, i requires 0 <= i < |row| => Printable(row[i]))
  }

  function Row(row: seq<Byte>, offset: nat, o: Options): string {
    (if o.includeHeader then Offset(offset) + ":" else "")
    + Cells(row, 0, o)
    + (if o.showAscii then " |" + Shown(row) + "|" else "")
    + "\n"
  }

  function Least(a: nat, b: nat): nat {
    if a < b then a else b
  }

  function Rows(slice: seq<Byte>, offset: nat, o: Options): string
    requires o.columns > 0
  {
    if slice == [] then ""
    else
      var n := Least(o.columns, |slice|);
      Row(slice[..n], offset, o) + Rows(slice[n..], offset + n, o)
  }

  /** The part of the input that is dumped. */
  function Slice(data: seq<Byte>, o: Options): seq<Byte> {
    var all := data[Least(o.startOffset, |data|)..];
    if o.length == 0 then all else all[..Least(o.length, |all|)]
  }

  function Dump(data: seq<Byte>, o: Options): string
    requires o.columns > 0
  {
    Rows(Slice(data, o), o.startOffset, o)
  }

  // ---------- the reverse ----------

  /** How many characters fgets takes. */
  function Chunk(s: string, room: nat): (n: nat)
    ensures n <= |s| && n <= room
  {
    if s == "" || room == 0 then 0
    else if s[0] == '\n' then 1
    else 1 + Chunk(s[1..], room - 1)
  }

  /** What is left behind the first colon. */
  function BehindColon(p: string): (r: string)
    ensures |r| <= |p|
  {
    if p == "" then "" else if p[0] == ':' then p[1..] else BehindColon(p[1..])
  }

  function ToLineEnd(p: string): (r: string)
    ensures |r| <= |p| && (p != "" && p[0] != '\n' ==> |r| < |p|)
  {
    if p == "" || p[0] == '\n' then p else ToLineEnd(p[1..])
  }

  /** The bytes spelled in a line. */
  function Scan(p: string): seq<Byte>
    decreases |p|
  {
    if p == "" then []
    else if Text.IsSpace(p[0]) then Scan(p[1..])
    else if p[0] == '|' then Scan(ToLineEnd(p))
    else if IsHexDigit(p[0]) && |p| > 1 && IsHexDigit(p[1]) then [HexToByte(p[0], p[1])] + Scan(p[2..])
    else Scan(p[1..])
  }

  function ReverseLine(line: string, includeHeader: bool): seq<Byte> {
    Scan(if includeHeader then BehindColon(line) else line)
  }

  function Reverse(text: string, includeHeader: bool): seq<Byte>
    decreases |text|
  {
    if text == "" then []
    else
      var n := Chunk(text, LINE_ROOM);
      ReverseLine(text[..n], includeHeader) + Reverse(text[n..], includeHeader)
  }

  // ---------- the round trip ----------

  lemma {:induction false} ChunkIs(s: string, room: nat, n: nat)
    requires 0 < n <= |s| && n <= room && s[n - 1] == '\n' && forall i :: 0 <= i < n - 1 ==> s[i] != '\n'
    ensures Chunk(s, room) == n
  {
    if n > 1 {
      ChunkIs(s[1..], room - 1, n - 1);
    }
  }

  lemma {:induction false} BehindColonIs(a: string, b: string)
    requires forall i :: 0 <= i < |a| ==> a[i] != ':'
    ensures BehindColon(a + ":" + b) == b
  {
    if a == "" {
      assert a + ":" + b == ":" + b;
    } else {
      assert (a + ":" + b)[1..] == a[1..] + ":" + b;
      BehindColonIs(a[1..], b);
    }
  }

  lemma {:induction false} ToLineEndIs(a: string)
    requires forall i :: 0 <= i < |a| ==> a[i] != '\n'
    ensures ToLineEnd(a + "\n") == "\n"
  {
    if a != "" {
      assert (a + "\n")[1..] == a[1..] + "\n";
      ToLineEndIs(a[1..]);
    } else {
      assert a + "\n" == "\n";
    }
  }

  lemma SpaceScanned(p: string)
    ensures Scan(" " + p) == Scan(p)
  {
    assert (" " + p)[1..] == p;
  }

  lemma PairScanned(b: Byte, uppercase: bool, p: string)
    ensures Scan(ByteToHex(b, uppercase) + p) == [b] + Scan(p)
  {
    ByteReadsBack(b, uppercase);
    var q := ByteToHex(b, uppercase) + p;
    assert q[2..] == p && q[0] == ByteToHex(b, uppercase)[0] && q[1] == ByteToHex(b, uppercase)[1];
  }

  lemma GapScanned(i: nat, o: Options, p: string)
    ensures Scan(Gap(i, o) + p) == Scan(p)
  {
    SpaceScanned(p);
    assert "" + p == p;
  }

  /** Scanning cells gives the bytes in them. */
  lemma {:induction false} CellsScanned(row: seq<Byte>, i: nat, o: Options, tail: string)
    requires |row| <= o.columns && i <= o.columns
    ensures Scan(Cells(row, i, o) + tail) == (if i < |row| then row[i..] else []) + Scan(tail)
    decreases o.columns - i
  {
    hide *;
    CellsUnfold(row, i, o, tail);
    if i < o.columns {
      CellsScanned(row, i + 1, o, tail);
      CellScanned(row, i, o, Cells(row, i + 1, o) + tail);
      BytesFrom(row, i, Scan(tail));
    }
  }

  lemma CellsUnfold(row: seq<Byte>, i: nat, o: Options, tail: string)
    ensures i < o.columns ==> Cells(row, i, o) + tail == Cell(row, i, o) + (Cells(row, i + 1, o) + tail)
    ensures i >= o.columns ==> Cells(row, i, o) + tail == tail
    ensures [] + Scan(tail) == Scan(tail)
  {
    hide Cell, Scan;
  }

  lemma BytesFrom(row: seq<Byte>, i: nat, more: seq<Byte>)
    ensures (if i < |row| then [row[i]] else []) + ((if i + 1 < |row| then row[i + 1..] else []) + more)
            == (if i < |row| then row[i..] else []) + more
  {
  }

  lemma CellScanned(row: seq<Byte>, i: nat, o: Options, rest: string)
    ensures Scan(Cell(row, i, o) + rest) == (if i < |row| then [row[i]] else []) + Scan(rest)
  {
    hide Scan, Gap, ByteToHex;
    var g := Gap(i, o) + rest;
    GapScanned(i, o, rest);
    if i < |row| {
      var h := ByteToHex(row[i], o.uppercase);
      PairScanned(row[i], o.uppercase, g);
      SpaceScanned(h + g);
      assert Cell(row, i, o) + rest == " " + (h + g);
    } else {
      SpaceScanned(g);
      SpaceScanned(" " + g);
      SpaceScanned(" " + (" " + g));
      assert Cell(row, i, o) + rest == " " + (" " + (" " + g));
    }
  }

  /** Everything behind the cells is passed over. */
  lemma TailScanned(row: seq<Byte>)
    ensures Scan("\n") == [] && Scan(" |" + Shown(row) + "|" + "\n") == []
  {
    assert "\n"[1..] == "";
    var bar := "|" + Shown(row) + "|";
    ToLineEndIs(bar);
    SpaceScanned(bar + "\n");
    assert " |" + Shown(row) + "|" + "\n" == " " + (bar + "\n");
  }

  lemma {:induction false} CellsHoldNoNewline(row: seq<Byte>, i: nat, o: Options)
    ensures forall k :: 0 <= k < |Cells(row, i, o)| ==> Cells(row, i, o)[k] != '\n'
    decreases o.columns - i
  {
    if i < o.columns {
      CellsHoldNoNewline(row, i + 1, o);
    }
  }

  function RowBody(row: seq<Byte>, offset: nat, o: Options): string {
    (if o.includeHeader then Offset(offset) + ":" else "")
    + Cells(row, 0, o)
    + (if o.showAscii then " |" + Shown(row) + "|" else "")
  }

  lemma RowIsALine(row: seq<Byte>, offset: nat, o: Options)
    ensures Row(row, offset, o) == RowBody(row, offset, o) + "\n"
    ensures forall k :: 0 <= k < |RowBody(row, offset, o)| ==> RowBody(row, offset, o)[k] != '\n'
  {
    CellsHoldNoNewline(row, 0, o);
  }

  /** What follows the cells. */
  function Tail(row: seq<Byte>, o: Options): string {
    (if o.showAscii then " |" + Shown(row) + "|" else "") + "\n"
  }

  lemma RowParts(row: seq<Byte>, offset: nat, o: Options)
    ensures o.includeHeader ==> Row(row, offset, o) == Offset(offset) + ":" + (Cells(row, 0, o) + Tail(row, o))
    ensures !o.includeHeader ==> Row(row, offset, o) == Cells(row, 0, o) + Tail(row, o)
  {
    hide Cells, Offset, Shown;
  }

  lemma TailIsScanned(row: seq<Byte>, o: Options)
    ensures Scan(Tail(row, o)) == []
  {
    TailScanned(row);
    hide Scan, Shown;
    assert "" + "\n" == "\n";
  }

  lemma WholeRow(row: seq<Byte>)
    ensures (if 0 < |row| then row[0..] else []) + [] == row
  {
  }

  lemma LineScanned(row: seq<Byte>, offset: nat, o: Options, body: string)
    requires Row(row, offset, o) == if o.includeHeader then Offset(offset) + ":" + body else body
    ensures ReverseLine(Row(row, offset, o), o.includeHeader) == Scan(body)
  {
    hide Scan, Row;
    BehindColonIs(Offset(offset), body);
  }

  lemma RowReversed(row: seq<Byte>, offset: nat, o: Options)
    requires |row| <= o.columns
    ensures ReverseLine(Row(row, offset, o), o.includeHeader) == row
  {
    hide *;
    RowParts(row, offset, o);
    LineScanned(row, offset, o, Cells(row, 0, o) + Tail(row, o));
    CellsScanned(row, 0, o, Tail(row, o));
    TailIsScanned(row, o);
    WholeRow(row);
  }

  /** No row is longer than the reader's line. */
  predicate RowsFit(slice: seq<Byte>, offset: nat, o: Options)
    requires o.columns > 0
  {
    slice == [] || (var n := Least(o.columns, |slice|);
                    |Row(slice[..n], offset, o)| <= LINE_ROOM && RowsFit(slice[n..], offset + n, o))
  }

  lemma {:induction false} RowsReversed(slice: seq<Byte>, offset: nat, o: Options)
    requires o.columns > 0 && RowsFit(slice, offset, o)
    ensures Reverse(Rows(slice, offset, o), o.includeHeader) == slice
    decreases |slice|
  {
    hide Row, ReverseLine, Reverse;
    if slice != [] {
      var n := Least(o.columns, |slice|);
      RowsReversed(slice[n..], offset + n, o);
      RowReversed(slice[..n], offset, o);
      FirstLine(slice[..n], offset, o, Rows(slice[n..], offset + n, o));
      assert slice == slice[..n] + slice[n..];
    } else {
      NothingReversed(o.includeHeader);
    }
  }

  lemma NothingReversed(includeHeader: bool)
    ensures Reverse("", includeHeader) == []
  {
  }

  /** The reader takes a row that fits as one line. */
  lemma FirstLine(row: seq<Byte>, offset: nat, o: Options, later: string)
    requires |Row(row, offset, o)| <= LINE_ROOM
    ensures Reverse(Row(row, offset, o) + later, o.includeHeader)
            == ReverseLine(Row(row, offset, o), o.includeHeader) + Reverse(later, o.includeHeader)
  {
    RowIsALine(row, offset, o);
    hide Row, RowBody, ReverseLine, Chunk;
    var line := Row(row, offset, o);
    ChunkIs(line + later, LINE_ROOM, |line|);
    assert (line + later)[..|line|] == line && (line + later)[|line|..] == later;
  }

  /** How long a row is: a row of the last, shorter kind is as wide as the others up to its bytes' characters. */
  lemma RowLength(row: seq<Byte>, offset: nat, o: Options)
    requires |row| <= o.columns && offset < 0x1_0000_0000
    ensures |Row(row, offset, o)| == (if o.includeHeader then 9 else 0) + 3 * o.columns
                                     + (if o.groupSize > 0 then o.columns / o.groupSize else 0)
                                     + (if o.showAscii then 3 + |row| else 0) + 1
  {
    CellsLength(row, 0, o);
    NumeralLength(offset, 8);
    assert (if o.groupSize > 0 then 0 / o.groupSize else 0) == 0;
  }

  /** The longest line that some settings give, as long as offsets have eight digits. */
  function LongestLine(o: Options): nat {
    (if o.includeHeader then 9 else 0) + 3 * o.columns + (if o.groupSize > 0 then o.columns / o.groupSize else 0)
    + (if o.showAscii then 3 + o.columns else 0) + 1
  }

  /** So whether a dump fits can be told from the settings: when the longest line does, and, for a dump with a full row,
      only then. */
  lemma {:induction false} SettingsFit(slice: seq<Byte>, offset: nat, o: Options)
    requires o.columns > 0 && offset + |slice| <= 0x1_0000_0000
    ensures LongestLine(o) <= LINE_ROOM ==> RowsFit(slice, offset, o)
    ensures |slice| >= o.columns ==> (RowsFit(slice, offset, o) <==> LongestLine(o) <= LINE_ROOM)
    decreases |slice|
  {
    hide Row;
    if slice != [] {
      var n := Least(o.columns, |slice|);
      RowLength(slice[..n], offset, o);
      SettingsFit(slice[n..], offset + n, o);
    }
  }

  lemma {:induction false} CellsLength(row: seq<Byte>, i: nat, o: Options)
    requires i <= o.columns
    ensures |Cells(row, i, o)| == 3 * (o.columns - i)
                                  + (if o.groupSize > 0 then o.columns / o.groupSize - i / o.groupSize else 0)
    decreases o.columns - i
  {
    if i < o.columns {
      CellsLength(row, i + 1, o);
      if o.groupSize > 0 { NextMultiple(i, o.groupSize); }
    }
  }

  lemma NextMultiple(i: nat, g: nat)
    requires g > 0
    ensures (i + 1) / g == i / g + (if (i + 1) % g == 0 then 1 else 0)
  {
    var q, r := i / g, i % g;
    assert i == g * q + r;
    if r + 1 < g {
      Uniquely(i + 1, g, q, r + 1);
    } else {
      assert i + 1 == g * (q + 1) + 0;
      Uniquely(i + 1, g, q + 1, 0);
    }
  }

  function Pow16(k: nat): nat {
    if k == 0 then 1 else 16 * Pow16(k - 1)
  }

  lemma {:induction false} NumeralLength(n: nat, k: nat)
    requires 0 < k && n < Pow16(k)
    ensures |HexNumeral(n)| <= k
    decreases k
  {
    if n >= 16 {
      assert Pow16(k) == 16 * Pow16(k - 1) && n / 16 < Pow16(k - 1);
      NumeralLength(n / 16, k - 1);
    }
  }

  /** Reversing a dump gives back exactly the dumped bytes, for all settings whose longest line fits the reader's. */
  lemma SettingsReversed(data: seq<Byte>, o: Options)
    requires o.columns > 0 && LongestLine(o) <= LINE_ROOM && o.startOffset + |Slice(data, o)| <= 0x1_0000_0000
    ensures Reverse(Dump(data, o), o.includeHeader) == Slice(data, o)
  {
    SettingsFit(Slice(data, o), o.startOffset, o);
    DumpReversed(data, o);
  }

  /** Reversing a dump gives back exactly the dumped bytes, when its lines fit. */
  lemma DumpReversed(data: seq<Byte>, o: Options)
    requires o.columns > 0 && RowsFit(Slice(data, o), o.startOffset, o)
    ensures Reverse(Dump(data, o), o.includeHeader) == Slice(data, o)
  {
    RowsReversed(Slice(data, o), o.startOffset, o);
  }
}
