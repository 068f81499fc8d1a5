/** Bytes and little-endian numbers. */
module Bytes {

  type Byte = x: int | 0 <= x < 256

  /** 256 to the k. */
  function Radix(k: nat): (r: nat)
    ensures r >= 1
  {
    if k == 0 then 1 else 256 * Radix(k - 1)
  }

  /** The low k bytes of a number, least significant first. */
  function Little(v: nat, k: nat): (s: seq<Byte>)
    ensures |s| == k
  {
    if k == 0 then [] else [v % 256] + Little(v / 256, k - 1)
  }

  function FromLittle(s: seq<Byte>): (v: nat)
    ensures v < Radix(|s|)
  {
    if s == [] then 0 else s[0] + 256 * FromLittle(s[1..])
  }

  /** Reading back k bytes gives the number modulo 256^k. */
  lemma {:induction false} LittleReadsBack(v: nat, k: nat)
    ensures FromLittle(Little(v, k)) == v % Radix(k)
  {
    if k > 0 {
      LittleReadsBack(v / 256, k - 1);
      assert Little(v, k)[1..] == Little(v / 256, k - 1);
      ModSteps(v, Radix(k - 1));
    }
  }

  /** Bytes that give the same number are the same. */
  lemma {:induction false} SameNumber(s: seq<Byte>, t: seq<Byte>)
    requires |s| == |t| && FromLittle(s) == FromLittle(t)
    ensures s == t
  {
    if s != [] {
      SameNumber(s[1..], t[1..]);
      assert s == [s[0]] + s[1..] && t == [t[0]] + t[1..];
    }
  }

  lemma ModSteps(v: nat, m: nat)
    requires m >= 1
    ensures v % 256 + 256 * (v / 256 % m) == v % (256 * m)
  {
    var q, r := v / 256 / m, v / 256 % m;
    assert v / 256 == m * q + r;
    var low := v % 256 + 256 * r;
    assert v == 256 * m * q + low;
    assert 0 <= low < 256 * m;
    Uniquely(v, 256 * m, q, low);
  }

  lemma Uniquely(v: int, m: int, q: int, r: int)
    requires m > 0 && v == m * q + r && 0 <= r < m
    ensures v % m == r && v / m == q
  {
    var q', r' := v / m, v % m;
    var d := q - q';
    assert m * d == r' - r;
    if d > 0 { AtLeastOnce(m, d); }
    assert m * -d == -(m * d);
    if d < 0 { AtLeastOnce(m, -d); }
  }

  lemma AtLeastOnce(m: int, d: int)
    requires m > 0 && d > 0
    ensures m * d >= m
  {
    assert m * (d - 1) >= 0;
  }

  lemma RadixValues()
    ensures Radix(1) == 0x100 && Radix(2) == 0x1_0000 && Radix(4) == 0x1_0000_0000
    ensures Radix(8) == 0x1_0000_0000_0000_0000
  {
    assert Radix(4) == 256 * Radix(3) && Radix(3) == 256 * Radix(2);
    assert Radix(8) == 256 * Radix(7) && Radix(7) == 256 * Radix(6) && Radix(6) == 256 * Radix(5) && Radix(5) == 256 * Radix(4);
  }

  /** A piece of a byte string. */
  predicate At(data: seq<Byte>, pos: nat, piece: seq<Byte>) {
    pos + |piece| <= |data| && data[pos..pos + |piece|] == piece
  }

  lemma AtSplits(data: seq<Byte>, pos: nat, a: seq<Byte>, b: seq<Byte>)
    requires At(data, pos, a + b)
    ensures At(data, pos, a) && At(data, pos + |a|, b)
  {
    assert data[pos..pos + |a|] == (a + b)[..|a|];
    assert data[pos + |a|..pos + |a| + |b|] == (a + b)[|a|..];
  }

  /** A buffer after a stretch of it has been overwritten. */
  function Overwrite(mem: seq<Byte>, at: nat, bytes: seq<Byte>): (r: seq<Byte>)
    requires at + |bytes| <= |mem|
    ensures |r| == |mem|
    ensures r[at..at + |bytes|] == bytes
    ensures forall k :: 0 <= k < at || at + |bytes| <= k < |mem| ==> r[k] == mem[k]
  {
    mem[..at] + bytes + mem[at + |bytes|..]
  }

  /** Writing a stretch of bytes into a buffer: memset, memcpy and stores of whole words. */
  method StoreBytes(buffer: array<Byte>, at: nat, bytes: seq<Byte>)
    requires at + |bytes| <= buffer.Length
    modifies buffer
    ensures buffer[..] == Overwrite(old(buffer[..]), at, bytes)
  {
    var k := 0;
    while k < |bytes|
      invariant 0 <= k <= |bytes|
      invariant buffer[at..at + k] == bytes[..k]
      invariant forall m :: 0 <= m < at || at + k <= m < buffer.Length ==> buffer[m] == old(buffer[m])
    {
      buffer[at + k] := bytes[k];
      k := k + 1;
    }
    assert buffer[..] == Overwrite(old(buffer[..]), at, bytes);
  }
}
