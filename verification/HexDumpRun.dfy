/** The dump and its reverse as loops: a file read row by row, a line scanned by a cursor, bytes buffered. */
module HexDumpRun {
  import opened Common
  import opened Bytes
  import opened HexDump
  import Text

  /** xhex_hex_to_byte. */
  method ByteOfPair(hex: string) returns (byte: int)
    requires |hex| == 2
    ensures IsHexDigit(hex[0]) && IsHexDigit(hex[1]) ==> byte == HexToByte(hex[0], hex[1])
    ensures !(IsHexDigit(hex[0]) && IsHexDigit(hex[1])) ==> byte == -1
  {
    byte := 0;
    for i := 0 to 2
      invariant forall k :: 0 <= k < i ==> IsHexDigit(hex[k])
      invariant byte == if i == 0 then 0 else if i == 1 then HexValue(hex[0]) else HexToByte(hex[0], hex[1]) as int
    {
      var c := hex[i];
      byte := byte * 16;
      if '0' <= c <= '9' {
        byte := byte + (c as int - '0' as int);
      } else if 'a' <= c <= 'f' {
        byte := byte + (c as int - 'a' as int + 10);
      } else if 'A' <= c <= 'F' {
        byte := byte + (c as int - 'A' as int + 10);
      } else {
        return -1;
      }
    }
  }

  /** One row: the cells' loop and the loop over the characters shown. */
  method PrintRow(row: seq<Byte>, offset: nat, o: Options) returns (out: string)
    requires |row| <= o.columns
    ensures out == Row(row, offset, o)
  {
    hide Cell, Cells, Offset, Shown;
    out := if o.includeHeader then Offset(offset) + ":" else "";
    ghost var head := out;
    var cells := PrintCells(row, o);
    out := out + cells;
    if o.showAscii {
      var shown := PrintShown(row);
      out := out + " |" + shown + "|";
      Quoted(head + cells, shown);
    }
    out := out + "\n";
  }

  lemma Quoted(a: string, b: string)
    ensures a + " |" + b + "|" == a + (" |" + b + "|")
  {
  }

  method PrintCells(row: seq<Byte>, o: Options) returns (out: string)
    requires |row| <= o.columns
    ensures out == Cells(row, 0, o)
  {
    out := "";
    var i := 0;
    while i < o.columns
      invariant i <= o.columns && out + Cells(row, i, o) == Cells(row, 0, o)
    {
      ghost var before := out;
      hide ByteToHex;
      if i < |row| {
        out := out + " " + ByteToHex(row[i], o.uppercase);
      } else {
        out := out + "   ";
      }
      if o.groupSize > 0 && (i + 1) % o.groupSize == 0 {
        out := out + " ";
      }
      assert out == before + Cell(row, i, o);
      Regrouped(before, Cell(row, i, o), Cells(row, i + 1, o));
      i := i + 1;
    }
  }

  method PrintShown(row: seq<Byte>) returns (out: string)
    ensures out == Shown(row)
  {
    out := "";
    for i := 0 to |row|
      invariant out == Shown(row)[..i]
    {
      out := out + [Printable(row[i])];
    }
  }

  /** xhex_print_hex_dump in its plain style, on the bytes of a file. */
  method PrintHexDump(data: seq<Byte>, o: Options) returns (out: string)
    requires o.columns > 0
    ensures out == Dump(data, o)
  {
    hide Row, Rows, Slice;
    out := "";
    var pos := Least(o.startOffset, |data|);
    var offset, total, done := o.startOffset, 0, false;
    ghost var slice := Slice(data, o);
    SliceIs(data, o);
    Regrouped("", "", Rows(slice, offset, o));
    assert slice[0..] == slice;
    while !done && pos < |data|
      invariant offset == o.startOffset + total && total <= |slice| && pos <= |data|
      invariant !done ==> pos == Least(o.startOffset, |data|) + total && (o.length > 0 ==> total < o.length)
      invariant done ==> total == |slice|
      invariant out + Rows(slice[total..], offset, o) == Rows(slice, o.startOffset, o)
      decreases !done, |data| - pos
    {
      var read := Least(o.columns, |data| - pos);
      var buffer := data[pos..pos + read];
      ghost var at := pos;
      pos := pos + read;
      if o.length > 0 && total + read > o.length {
        read := o.length - total;
        done := true;
      }
      NextBlock(data, o, at, total, read);
      assert buffer[..read] == data[at..at + read];
      RowsUnfold(slice[total..], offset, o);
      var row := PrintRow(buffer[..read], offset, o);
      Regrouped(out, row, Rows(slice[total + read..], offset + read, o));
      out := out + row;
      total := total + read;
      offset := offset + read;
      if o.length > 0 && total >= o.length {
        done := true;
      }
    }
    assert total == |slice|;
    RowsEnd(slice, total, offset, o);
    Regrouped(out, "", "");
  }

  /** The bytes read are those of the next row. */
  lemma NextBlock(data: seq<Byte>, o: Options, at: nat, total: nat, read: nat)
    requires o.columns > 0 && at == Least(o.startOffset, |data|) + total && at < |data|
    requires o.length > 0 ==> total < o.length
    requires var n := Least(o.columns, |data| - at);
             read == if o.length > 0 && total + n > o.length then o.length - total else n
    ensures var left := Slice(data, o)[total..];
            && left != [] && read == Least(o.columns, |left|) && data[at..at + read] == left[..read]
            && left[read..] == Slice(data, o)[total + read..]
  {
    SliceIs(data, o);
    var left := Slice(data, o)[total..];
    assert data[at..at + read] == left[..read];
  }

  lemma RowsUnfold(slice: seq<Byte>, offset: nat, o: Options)
    requires o.columns > 0 && slice != []
    ensures var n := Least(o.columns, |slice|);
            Rows(slice, offset, o) == Row(slice[..n], offset, o) + Rows(slice[n..], offset + n, o)
  {
    hide Row;
  }

  lemma RowsEnd(slice: seq<Byte>, total: nat, offset: nat, o: Options)
    requires o.columns > 0 && total == |slice|
    ensures Rows(slice[total..], offset, o) == ""
  {
  }

  lemma SliceIs(data: seq<Byte>, o: Options)
    ensures var from := Least(o.startOffset, |data|);
            && |Slice(data, o)| == (if o.length == 0 then |data| - from else Least(o.length, |data| - from))
            && forall k :: 0 <= k < |Slice(data, o)| ==> Slice(data, o)[k] == data[from + k]
  {
  }

  /** The bytes waiting in a buffer of 1024, written out when it is full. */
  class Output {
    const buffer: array<Byte>
    var count: nat
    var written: seq<Byte>

    ghost predicate Valid()
      reads this
    {
      buffer.Length == 1024 && count < 1024
    }

    ghost function Contents(): seq<Byte>
      reads this, buffer
      requires Valid()
    {
      written + buffer[..count]
    }

    constructor ()
      ensures Valid() && Contents() == [] && fresh(buffer)
    {
      buffer := new Byte[1024](_ => 0);
      count, written := 0, [];
    }

    method Put(b: Byte)
      requires Valid()
      modifies this, buffer
      ensures Valid() && Contents() == old(Contents()) + [b]
    {
      buffer[count] := b;
      count := count + 1;
      assert buffer[..count] == old(buffer[..count]) + [b];
      if count >= 1024 {
        assert buffer[..] == buffer[..count];
        written := written + buffer[..];
        count := 0;
      }
    }
  }

  /** The loop over a line, the header skipped. */
  method ReverseOneLine(line: string, includeHeader: bool, output: Output)
    requires output.Valid()
    modifies output, output.buffer
    ensures output.Valid() && output.Contents() == old(output.Contents()) + ReverseLine(line, includeHeader)
  {
    var p := line;
    if includeHeader {
      p := SkipHeader(line);
    }
    ghost var scanned := p;
    assert ReverseLine(line, includeHeader) == Scan(scanned);
    ghost var done: seq<Byte> := [];
    while p != ""
      invariant output.Valid() && output.Contents() == old(output.Contents()) + done
      invariant done + Scan(p) == Scan(scanned)
      decreases |p|
    {
      if Text.IsSpace(p[0]) {
        p := p[1..];
      } else if p[0] == '|' {
        p := SkipLine(p);
      } else if |p| > 1 && IsHexDigit(p[0]) && IsHexDigit(p[1]) {
        var byte := ByteOfPair(p[..2]);
        output.Put(byte);
        done := done + [byte];
        p := p[2..];
      } else {
        p := p[1..];
      }
    }
  }

  method SkipHeader(line: string) returns (p: string)
    ensures p == BehindColon(line)
  {
    p := line;
    while p != "" && p[0] != ':'
      invariant BehindColon(p) == BehindColon(line)
      decreases |p|
    {
      p := p[1..];
    }
    if p != "" {
      p := p[1..];
    }
  }

  method SkipLine(line: string) returns (p: string)
    ensures p == ToLineEnd(line)
  {
    p := line;
    while p != "" && p[0] != '\n'
      invariant ToLineEnd(p) == ToLineEnd(line)
      decreases |p|
    {
      p := p[1..];
    }
  }

  /** xhex_reverse_hex_dump on a file's text. */
  method ReverseHexDump(text: string, includeHeader: bool) returns (bytes: seq<Byte>)
    ensures bytes == Reverse(text, includeHeader)
  {
    var output := new Output();
    var left := text;
    while left != ""
      invariant output.Valid() && fresh(output) && fresh(output.buffer)
      invariant output.Contents() + Reverse(left, includeHeader) == Reverse(text, includeHeader)
      decreases |left|
    {
      hide ReverseLine, Chunk;
      ghost var before, later := output.Contents(), left[Chunk(left, LINE_ROOM)..];
      var n := Chunk(left, LINE_ROOM);
      assert n > 0 by { ChunkPositive(left); }
      ReverseOneLine(left[..n], includeHeader, output);
      assert before + (ReverseLine(left[..n], includeHeader) + Reverse(later, includeHeader))
             == before + ReverseLine(left[..n], includeHeader) + Reverse(later, includeHeader);
      left := left[n..];
    }
    bytes := output.written + output.buffer[..output.count];
  }

  lemma ChunkPositive(s: string)
    requires s != ""
    ensures Chunk(s, LINE_ROOM) > 0
  {
  }
}
