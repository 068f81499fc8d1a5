/** The library's base64 encoder and decoder, held against the encoding of section 4 of RFC 4648. */
module Base64 {
  import opened Common
  import opened Bytes

  /** The characters of table 1 of RFC 4648, by value. */
  function Symbol(v: nat): (c: char)
    requires v < 64
    ensures c != '=' && InAlphabet(c)
  {
    if v < 26 then ('A' as int + v) as char
    else if v < 52 then ('a' as int + (v - 26)) as char
    else if v < 62 then ('0' as int + (v - 52)) as char
    else if v == 62 then '+' else '/'
  }

  predicate InAlphabet(c: char) {
    'A' <= c <= 'Z' || 'a' <= c <= 'z' || '0' <= c <= '9' || c == '+' || c == '/'
  }

  /** The place of a character in the table, and 0 for the padding. */
  function Sextet(c: char): (v: nat)
    requires InAlphabet(c) || c == '='
    ensures v < 64
  {
    if c == '=' then 0
    else if 'A' <= c <= 'Z' then c as int - 'A' as int
    else if 'a' <= c <= 'z' then c as int - 'a' as int + 26
    else if '0' <= c <= '9' then c as int - '0' as int + 52
    else if c == '+' then 62 else 63
  }

  lemma SymbolReadsBack(v: nat)
    requires v < 64
    ensures Sextet(Symbol(v)) == v
  {
  }

  function Triple(a: Byte, b: Byte, c: Byte): (t: nat)
    ensures t < 0x100_0000
  {
    a * 65536 + b * 256 + c
  }

  /** The 24 bits of three bytes as four characters. */
  function Quad(a: Byte, b: Byte, c: Byte): (s: string)
    ensures |s| == 4
  {
    var t := Triple(a, b, c);
    [Symbol(t / 262144), Symbol(t / 4096 % 64), Symbol(t / 64 % 64), Symbol(t % 64)]
  }

  /** How many groups of three bytes, the last perhaps not full. */
  function Groups(n: nat): nat {
    if n == 0 then 0 else if n < 3 then 1 else 1 + Groups(n - 3)
  }

  /** The encoding of section 4: two bytes at the end give three characters and one `=`, one byte two and two. */
  function Rfc4648(data: seq<Byte>): (s: string)
    ensures |s| == 4 * Groups(|data|)
  {
    if data == [] then ""
    else if |data| == 1 then Quad(data[0], 0, 0)[..2] + "=="
    else if |data| == 2 then Quad(data[0], data[1], 0)[..3] + "="
    else Quad(data[0], data[1], data[2]) + Rfc4648(data[3..])
  }

  /** How many bytes the last group lacks. */
  function Missing(n: nat): (k: nat)
    ensures k < 3 && n + k == 3 * Groups(n) && (k == 0 <==> n % 3 == 0)
  {
    if n == 0 then 0 else if n < 3 then 3 - n else Missing(n - 3)
  }

  /** The bytes with zeros behind them up to a multiple of three. */
  function Filled(data: seq<Byte>): (r: seq<Byte>)
    ensures |r| == 3 * Groups(|data|)
  {
    data + seq(Missing(|data|), _ => 0)
  }

  lemma FilledFrom(data: seq<Byte>)
    requires |data| >= 3
    ensures Filled(data) == data[..3] + Filled(data[3..])
  {
  }

  lemma {:induction false} GroupsAre(n: nat)
    ensures Groups(n) == (n + 2) / 3
  {
    if n >= 3 {
      GroupsAre(n - 3);
    }
  }

  lemma {:induction false} GroupsOf(k: nat)
    ensures Groups(3 * k) == k
  {
    if k > 0 {
      GroupsOf(k - 1);
    }
  }

  // ---------- decoding ----------

  /** Null for a length that is no multiple of four; undefined for the empty text, whose last character is looked at, and
      for a character outside the table. */
  datatype Decoded = Rejected | Undefined | Decoded(bytes: seq<Byte>)

  predicate AllKnown(s: string) {
    forall c :: c in s ==> InAlphabet(c) || c == '='
  }

  function Joined(a: nat, b: nat, c: nat, d: nat): (t: nat)
    requires a < 64 && b < 64 && c < 64 && d < 64
    ensures t < 0x100_0000
  {
    a * 262144 + b * 4096 + c * 64 + d
  }

  function QuadBytes(s: string): (r: seq<Byte>)
    requires |s| == 4 && AllKnown(s)
    ensures |r| == 3
  {
    var t := Joined(Sextet(s[0]), Sextet(s[1]), Sextet(s[2]), Sextet(s[3]));
    [t / 65536, t / 256 % 256, t % 256]
  }

  function Quads(n: nat): nat {
    if n < 4 then 0 else 1 + Quads(n - 4)
  }

  lemma {:induction false} QuadsAre(n: nat)
    ensures Quads(n) == n / 4
  {
    if n >= 4 {
      QuadsAre(n - 4);
    }
  }

  lemma {:induction false} QuadsOf(k: nat)
    ensures Quads(4 * k) == k
  {
    if k > 0 {
      QuadsOf(k - 1);
    }
  }

  function AllBytes(s: string): (r: seq<Byte>)
    requires AllKnown(s)
    ensures |r| == 3 * Quads(|s|)
  {
    if |s| < 4 then [] else QuadBytes(s[..4]) + AllBytes(s[4..])
  }

  lemma BytesUnfold(q: string, rest: string)
    requires |q| == 4 && AllKnown(q) && AllKnown(rest)
    ensures AllKnown(q + rest) && AllBytes(q + rest) == QuadBytes(q) + AllBytes(rest)
  {
    hide QuadBytes;
    assert (q + rest)[..4] == q && (q + rest)[4..] == rest;
  }

  function Padding(s: string): (k: nat)
    requires |s| >= 2
    ensures k <= 2
  {
    (if s[|s| - 1] == '=' then 1 else 0) + (if s[|s| - 2] == '=' then 1 else 0)
  }

  function Decode(s: string): Decoded {
    if |s| % 4 != 0 then Rejected
    else if s == "" || !AllKnown(s) then Undefined
    else QuadsAre(|s|); Decoded(AllBytes(s)[..|s| / 4 * 3 - Padding(s)])
  }

  // ---------- the round trips ----------

  lemma BitsRejoin(t: nat)
    requires t < 0x100_0000
    ensures t / 262144 < 64
    ensures Joined(t / 262144, t / 4096 % 64, t / 64 % 64, t % 64) == t
  {
    assert t / 64 == t / 64 / 64 * 64 + t / 64 % 64;
    assert t / 64 / 64 == t / 4096 && t / 4096 / 64 == t / 262144;
  }

  lemma TripleSplits(a: Byte, b: Byte, c: Byte)
    ensures var t := Triple(a, b, c); t / 65536 == a && t / 256 % 256 == b && t % 256 == c
  {
    Uniquely(Triple(a, b, c), 65536, a, b * 256 + c);
    Uniquely(Triple(a, b, c), 256, a * 256 + b, c);
    Uniquely(a * 256 + b, 256, a, b);
  }

  lemma QuadSextets(a: Byte, b: Byte, c: Byte)
    ensures var t, q := Triple(a, b, c), Quad(a, b, c);
            && AllKnown(q)
            && Sextet(q[0]) == t / 262144 && Sextet(q[1]) == t / 4096 % 64
            && Sextet(q[2]) == t / 64 % 64 && Sextet(q[3]) == t % 64
  {
    hide Sextet, Symbol, Triple;
    var t := Triple(a, b, c);
    SymbolReadsBack(t / 262144);
    SymbolReadsBack(t / 4096 % 64);
    SymbolReadsBack(t / 64 % 64);
    SymbolReadsBack(t % 64);
  }

  /** Four characters that stand for the bits of three bytes are read as these bytes. */
  lemma SextetsRead(s: string, a: Byte, b: Byte, c: Byte)
    requires |s| == 4 && AllKnown(s)
    requires var t := Triple(a, b, c);
             && Sextet(s[0]) == t / 262144 && Sextet(s[1]) == t / 4096 % 64
             && Sextet(s[2]) == t / 64 % 64 && Sextet(s[3]) == t % 64
    ensures QuadBytes(s) == [a, b, c]
  {
    BitsRejoin(Triple(a, b, c));
    TripleSplits(a, b, c);
    hide Sextet, Triple, AllKnown, Joined;
  }

  lemma QuadReadsBack(a: Byte, b: Byte, c: Byte)
    ensures AllKnown(Quad(a, b, c)) && QuadBytes(Quad(a, b, c)) == [a, b, c]
  {
    hide *;
    QuadSextets(a, b, c);
    SextetsRead(Quad(a, b, c), a, b, c);
  }

  lemma ZeroBits(a: Byte, b: Byte)
    ensures Triple(a, 0, 0) / 64 % 64 == 0 == Triple(a, 0, 0) % 64
    ensures Triple(a, b, 0) % 64 == 0
  {
    Uniquely(Triple(a, 0, 0), 64, a * 1024, 0);
    Uniquely(a * 1024, 64, a * 16, 0);
    Uniquely(Triple(a, b, 0), 64, a * 1024 + b * 4, 0);
  }

  /** A place for padding reads as zero bits. */
  lemma PaddedReadsBack(a: Byte, b: Byte)
    ensures var s := Quad(a, 0, 0)[..2] + "=="; AllKnown(s) && QuadBytes(s) == [a, 0, 0]
    ensures var s := Quad(a, b, 0)[..3] + "="; AllKnown(s) && QuadBytes(s) == [a, b, 0]
  {
    QuadSextets(a, 0, 0);
    QuadSextets(a, b, 0);
    ZeroBits(a, b);
    assert Sextet('=') == 0;
    hide Quad, QuadBytes, Triple, Sextet;
    var one, two := Quad(a, 0, 0)[..2] + "==", Quad(a, b, 0)[..3] + "=";
    assert forall c :: c in Quad(a, 0, 0)[..2] ==> c in Quad(a, 0, 0);
    assert forall c :: c in Quad(a, b, 0)[..3] ==> c in Quad(a, b, 0);
    SextetsRead(one, a, 0, 0);
    SextetsRead(two, a, b, 0);
  }

  lemma {:induction false} RfcBytes(data: seq<Byte>)
    ensures AllKnown(Rfc4648(data)) && AllBytes(Rfc4648(data)) == Filled(data)
  {
    hide Quad, QuadBytes;
    if |data| == 1 || |data| == 2 {
      PaddedReadsBack(data[0], if |data| == 2 then data[1] else 0);
      BytesUnfold(Rfc4648(data), "");
      assert Rfc4648(data) + "" == Rfc4648(data);
    } else if |data| >= 3 {
      QuadReadsBack(data[0], data[1], data[2]);
      RfcBytes(data[3..]);
      BytesUnfold(Quad(data[0], data[1], data[2]), Rfc4648(data[3..]));
      FilledFrom(data);
      hide Filled, AllBytes, AllKnown;
    }
  }

  /** How the encoding ends. */
  lemma {:induction false} RfcEnds(data: seq<Byte>)
    requires data != []
    ensures |Rfc4648(data)| >= 4 && Padding(Rfc4648(data)) == Missing(|data|)
  {
    hide Symbol;
    if |data| <= 2 {
      ShortEnds(data);
    } else {
      var q, rest := Quad(data[0], data[1], data[2]), Rfc4648(data[3..]);
      hide Quad;
      if |data| > 3 {
        RfcEnds(data[3..]);
        EndsSame(q, rest);
      } else {
        NothingEncoded(data);
        QuadEnds(data[0], data[1], data[2]);
        assert q + "" == q;
      }
    }
  }

  lemma QuadEnds(a: Byte, b: Byte, c: Byte)
    ensures Padding(Quad(a, b, c)) == 0
  {
    hide Symbol;
  }

  lemma EndsSame(q: string, rest: string)
    requires |rest| >= 2
    ensures Padding(q + rest) == Padding(rest)
  {
    assert (q + rest)[|q + rest| - 1] == rest[|rest| - 1] && (q + rest)[|q + rest| - 2] == rest[|rest| - 2];
  }

  lemma ShortEnds(data: seq<Byte>)
    requires 0 < |data| <= 2
    ensures |Rfc4648(data)| == 4 && Padding(Rfc4648(data)) == Missing(|data|)
  {
    hide Symbol;
    if |data| == 2 {
      var q := Quad(data[0], data[1], 0);
      assert (q[..3] + "=")[2] == q[2] && q[2] != '=';
    }
  }

  lemma FourTimes(x: nat)
    ensures 4 * x % 4 == 0 && 4 * x / 4 * 3 == 3 * x
  {
    Uniquely(4 * x, 4, x, 0);
  }

  /** Decoding inverts the encoding of section 4 of RFC 4648. */
  lemma DecodeInvertsRfc(data: seq<Byte>)
    requires data != []
    ensures Decode(Rfc4648(data)) == Decoded(data)
  {
    RfcBytes(data);
    RfcEnds(data);
    FourTimes(Groups(|data|));
    QuadsOf(Groups(|data|));
    assert Filled(data)[..|data|] == data;
    hide AllBytes, Padding, Rfc4648, AllKnown, Filled;
  }

  /** The library's encoder writes the encoding of the input with zeros behind it: its tests for padding never hold. */
  function Encoded(data: seq<Byte>): string {
    Rfc4648(Filled(data))
  }

  lemma FilledIsSame(data: seq<Byte>)
    ensures Filled(data) == data <==> |data| % 3 == 0
    ensures Filled(data) != [] <==> data != []
    ensures Missing(|Filled(data)|) == 0
  {
    GroupsOf(Groups(|data|));
  }

  /** So it agrees with section 4 exactly on lengths divisible by three. */
  lemma EncoderAgrees(data: seq<Byte>)
    ensures Encoded(data) == Rfc4648(data) <==> |data| % 3 == 0
  {
    hide Rfc4648, Padding, Filled;
    FilledIsSame(data);
    if |data| % 3 != 0 {
      RfcEnds(data);
      RfcEnds(Filled(data));
    }
  }

  /** What its output decodes to; the input comes back exactly from the lengths divisible by three. */
  lemma EncoderReadsBack(data: seq<Byte>)
    requires data != []
    ensures Decode(Encoded(data)) == Decoded(Filled(data))
    ensures Decode(Encoded(data)) == Decoded(data) <==> |data| % 3 == 0
  {
    hide Rfc4648, Decode, Filled;
    FilledIsSame(data);
    DecodeInvertsRfc(Filled(data));
  }

  // ---------- decoding first ----------

  lemma SextetReadsBack(c: char)
    requires InAlphabet(c)
    ensures Symbol(Sextet(c)) == c
  {
  }

  lemma JoinedSplits(a: nat, b: nat, c: nat, d: nat)
    requires a < 64 && b < 64 && c < 64 && d < 64
    ensures var t := Joined(a, b, c, d); t / 262144 == a && t / 4096 % 64 == b && t / 64 % 64 == c && t % 64 == d
  {
    var t := Joined(a, b, c, d);
    Uniquely(t, 262144, a, b * 4096 + c * 64 + d);
    Uniquely(t, 4096, a * 64 + b, c * 64 + d);
    Uniquely(a * 64 + b, 64, a, b);
    Uniquely(t, 64, a * 4096 + b * 64 + c, d);
    Uniquely(a * 4096 + b * 64 + c, 64, a * 64 + b, c);
  }

  lemma BytesRejoin(t: nat)
    requires t < 0x100_0000
    ensures Triple(t / 65536, t / 256 % 256, t % 256) == t
  {
    assert t / 256 == t / 256 / 256 * 256 + t / 256 % 256 && t / 256 / 256 == t / 65536;
  }

  lemma QuadEncodes(s: string)
    requires |s| == 4 && forall c :: c in s ==> InAlphabet(c)
    ensures AllKnown(s) && var b := QuadBytes(s); Quad(b[0], b[1], b[2]) == s
  {
    var t := Joined(Sextet(s[0]), Sextet(s[1]), Sextet(s[2]), Sextet(s[3]));
    JoinedSplits(Sextet(s[0]), Sextet(s[1]), Sextet(s[2]), Sextet(s[3]));
    BytesRejoin(t);
    hide Sextet, Symbol, Triple, Joined;
    SextetReadsBack(s[0]);
    SextetReadsBack(s[1]);
    SextetReadsBack(s[2]);
    SextetReadsBack(s[3]);
  }

  lemma {:induction false} BytesEncode(s: string)
    requires |s| % 4 == 0 && forall c :: c in s ==> InAlphabet(c)
    ensures AllKnown(s) && Rfc4648(AllBytes(s)) == s
  {
    hide Quad, QuadBytes;
    if s != "" {
      assert forall c :: c in s[..4] ==> c in s;
      assert forall c :: c in s[4..] ==> c in s;
      QuadEncodes(s[..4]);
      BytesEncode(s[4..]);
      assert s == s[..4] + s[4..];
    }
  }

  /** Every text of characters of the table, without padding, is the encoding of what it is decoded to. */
  lemma RfcInvertsDecode(s: string)
    requires s != "" && |s| % 4 == 0 && forall c :: c in s ==> InAlphabet(c)
    ensures var d := Decode(s); d.Decoded? && |d.bytes| == |s| / 4 * 3 && Rfc4648(d.bytes) == s
  {
    BytesEncode(s);
    QuadsAre(|s|);
    hide AllBytes, Rfc4648;
    assert s[|s| - 1] in s && s[|s| - 2] in s;
    assert AllBytes(s)[..|s| / 4 * 3] == AllBytes(s);
  }

  /** Null is given exactly for lengths that are no multiple of four; every nonempty text of known characters of another
      length is decoded, to three bytes for four characters less one for each `=` among the last two. */
  lemma DecodeRefuses(s: string)
    ensures Decode(s).Rejected? <==> |s| % 4 != 0
    ensures s != "" && |s| % 4 == 0 && AllKnown(s) ==>
              Decode(s).Decoded? && |Decode(s).bytes| == 3 * (|s| / 4) - multiset([s[|s| - 2], s[|s| - 1]])['=']
  {
    QuadsAre(|s|);
    if |s| >= 2 { PaddingCounts(s); }
    hide AllBytes, Padding, AllKnown;
  }

  lemma PaddingCounts(s: string)
    requires |s| >= 2
    ensures Padding(s) == multiset([s[|s| - 2], s[|s| - 1]])['=']
  {
  }

  // ---------- the loops ----------

  lemma {:induction false} RfcJoins(a: seq<Byte>, b: seq<Byte>)
    requires |a| % 3 == 0
    ensures Rfc4648(a + b) == Rfc4648(a) + Rfc4648(b)
  {
    hide Quad;
    if a == [] {
      assert a + b == b && "" + Rfc4648(b) == Rfc4648(b);
    } else {
      assert (a + b)[3..] == a[3..] + b;
      RfcJoins(a[3..], b);
    }
  }

  /** The three bytes the loop takes, zeros behind the end. */
  lemma NextThree(data: seq<Byte>, i: nat)
    requires i < |data| && i % 3 == 0
    ensures i + 3 <= |Filled(data)|
    ensures Filled(data)[i..i + 3] == [data[i], if i + 1 < |data| then data[i + 1] else 0, if i + 2 < |data| then data[i + 2] else 0]
  {
    GroupsAre(|data|);
  }

  /** base64_encode. */
  method Encode(data: seq<Byte>) returns (encoded: array<char>)
    ensures encoded[..] == Encoded(data)
  {
    hide Filled, Rfc4648, Quad, Symbol;
    GroupsAre(|data|);
    GroupsOf(Groups(|data|));
    encoded := new char[4 * ((|data| + 2) / 3)](_ => '\0');
    var i, j := 0, 0;
    ghost var full, k := Filled(data), 0;
    NothingEncoded(full);
    while i < |data|
      invariant k % 3 == 0 && i == (if k <= |data| then k else |data|) && k <= |full|
      invariant j == |Rfc4648(full[..k])| <= encoded.Length && encoded[..j] == Rfc4648(full[..k])
      decreases |data| - i
    {
      NextThree(data, i);
      ghost var before := encoded[..j];
      var a: Byte, b: Byte, c: Byte := data[i], 0, 0;
      i := i + 1;
      if i < |data| {
        b := data[i];
        i := i + 1;
      }
      if i < |data| {
        c := data[i];
        i := i + 1;
      }
      QuadAppended(full, k, a, b, c);
      QuadFits(full, k + 3);
      var padded, last := i > |data| + 1, i > |data|;
      WriteQuad(encoded, j, a, b, c, padded, last);
      assert encoded[..j + 4] == before + Quad(a, b, c);
      j := j + 4;
      k := k + 3;
    }
    QuadFits(full, k);
    assert full[..k] == full && encoded[..] == encoded[..j];
  }

  /** The four stores of a turn. */
  method WriteQuad(encoded: array<char>, j: nat, a: Byte, b: Byte, c: Byte, padded: bool, last: bool)
    requires j + 4 <= encoded.Length && !padded && !last
    modifies encoded
    ensures encoded[..j] == old(encoded[..j]) && encoded[j..j + 4] == Quad(a, b, c)
    ensures encoded[..j + 4] == old(encoded[..j]) + Quad(a, b, c)
  {
    hide Symbol;
    var t := Triple(a, b, c);
    encoded[j] := Symbol(t / 262144);
    encoded[j + 1] := Symbol(t / 4096 % 64);
    encoded[j + 2] := if padded then '=' else Symbol(t / 64 % 64);
    encoded[j + 3] := if last then '=' else Symbol(t % 64);
  }

  lemma NothingEncoded(full: seq<Byte>)
    ensures Rfc4648(full[..0]) == "" && (|full| == 3 ==> Rfc4648(full[3..]) == "")
  {
  }

  lemma {:induction false} GroupsGrow(k: nat, n: nat)
    requires k <= n
    ensures Groups(k) <= Groups(n)
  {
    if k >= 3 {
      GroupsGrow(k - 3, n - 3);
    }
  }

  lemma QuadFits(full: seq<Byte>, k: nat)
    requires k <= |full|
    ensures |Rfc4648(full[..k])| <= |Rfc4648(full)|
  {
    hide Rfc4648;
    GroupsGrow(k, |full|);
  }

  lemma QuadAppended(full: seq<Byte>, k: nat, a: Byte, b: Byte, c: Byte)
    requires k % 3 == 0 && k + 3 <= |full| && full[k..k + 3] == [a, b, c]
    ensures Rfc4648(full[..k + 3]) == Rfc4648(full[..k]) + Quad(a, b, c)
  {
    hide Quad;
    assert full[..k + 3] == full[..k] + [a, b, c];
    RfcJoins(full[..k], [a, b, c]);
    assert [a, b, c][3..] == [] && Quad(a, b, c) + "" == Quad(a, b, c);
  }

  /** base64_decode; the characters are looked at first, where the C code computes with a null pointer. */
  method DecodeText(s: string) returns (r: Decoded)
    ensures r == Decode(s)
  {
    if |s| % 4 != 0 {
      return Rejected;
    }
    if s == "" || !AllKnown(s) {
      return Undefined;
    }
    QuadsAre(|s|);
    var padding := (if s[|s| - 1] == '=' then 1 else 0) + (if s[|s| - 2] == '=' then 1 else 0);
    var decoded := DecodeQuads(s, |s| / 4 * 3 - padding);
    r := Decoded(decoded[..]);
  }

  /** The loop over the text: what does not fit the output is dropped. */
  method DecodeQuads(s: string, length: nat) returns (decoded: array<Byte>)
    requires AllKnown(s) && |s| % 4 == 0 && length <= |AllBytes(s)|
    ensures decoded[..] == AllBytes(s)[..length]
  {
    hide QuadBytes, Sextet, AllBytes, AllKnown;
    decoded := new Byte[length](_ => 0);
    var i, j := 0, 0;
    ghost var done: seq<Byte> := [];
    Starts(s);
    while i < |s|
      invariant i <= |s| && (|s| - i) % 4 == 0 && AllKnown(s[i..])
      invariant done + AllBytes(s[i..]) == AllBytes(s)
      invariant j == (if |done| <= length then |done| else length) && decoded[..j] == done[..j]
      decreases |s| - i
    {
      NextQuad(s, i);
      ghost var more, rest := QuadBytes(s[i..i + 4]), AllBytes(s[i + 4..]);
      Regrouped(done, more, rest);
      j := WriteBytes(decoded, j, s[i..i + 4], done);
      done := done + more;
      i := i + 4;
    }
    Ends(s, done);
  }

  lemma Starts(s: string)
    requires AllKnown(s)
    ensures AllKnown(s[0..]) && [] + AllBytes(s[0..]) == AllBytes(s)
  {
    hide AllBytes, AllKnown;
    assert s[0..] == s;
  }

  lemma Ends(s: string, done: seq<Byte>)
    ensures AllKnown(s[|s|..]) && AllBytes(s[|s|..]) == [] && done + [] == done
  {
  }

  lemma NextQuad(s: string, i: nat)
    requires i < |s| && (|s| - i) % 4 == 0 && AllKnown(s[i..])
    ensures i + 4 <= |s| && (|s| - (i + 4)) % 4 == 0 && AllKnown(s[i..i + 4]) && AllKnown(s[i + 4..])
    ensures AllBytes(s[i..]) == QuadBytes(s[i..i + 4]) + AllBytes(s[i + 4..])
  {
    var q, rest := s[i..i + 4], s[i + 4..];
    assert s[i..] == q + rest;
    assert forall c :: c in q || c in rest ==> c in q + rest;
    BytesUnfold(q, rest);
  }

  /** The three stores of a turn, none behind the end; `done` is what the loop has decoded, written or not. */
  method WriteBytes(decoded: array<Byte>, at: nat, q: string, ghost done: seq<Byte>) returns (j: nat)
    requires |q| == 4 && AllKnown(q) && at <= decoded.Length
    requires at == (if |done| <= decoded.Length then |done| else decoded.Length) && decoded[..at] == done[..at]
    modifies decoded
    ensures j == (if |done| + 3 <= decoded.Length then |done| + 3 else decoded.Length)
    ensures decoded[..j] == (done + QuadBytes(q))[..j]
  {
    hide Sextet;
    j := at;
    var t := Joined(Sextet(q[0]), Sextet(q[1]), Sextet(q[2]), Sextet(q[3]));
    if j < decoded.Length {
      decoded[j] := t / 65536;
      j := j + 1;
    }
    if j < decoded.Length {
      decoded[j] := t / 256 % 256;
      j := j + 1;
    }
    if j < decoded.Length {
      decoded[j] := t % 256;
      j := j + 1;
    }
    ghost var bytes := done + QuadBytes(q);
    assert forall k :: 0 <= k < j ==> decoded[k] == bytes[k];
  }
}
