/** Which operand texts are registers and numbers, and the bytes they become. */
module XbinOperands {
  import opened Common
  import opened Bytes
  import opened Xbin
  import opened XbinProof
  import Text

  // ---------- registers ----------

  predicate IsSmall(c: char) {
    'a' <= c <= 'z'
  }

  predicate IsCapital(c: char) {
    'A' <= c <= 'Z'
  }

  /** The same character, or the same letter in the other case. */
  predicate SameLetter(a: char, b: char) {
    a == b || (IsSmall(a) && IsCapital(b) && a as int - 'a' as int == b as int - 'A' as int)
    || (IsCapital(a) && IsSmall(b) && a as int - 'A' as int == b as int - 'a' as int)
  }

  predicate SameLetters(s: string, t: string) {
    |s| == |t| && forall i :: 0 <= i < |s| ==> SameLetter(s[i], t[i])
  }

  lemma UpperSameLetter(a: char, b: char)
    ensures UpperChar(a) == UpperChar(b) <==> SameLetter(a, b)
  {
  }

  lemma UpperSameLetters(s: string, t: string)
    ensures Upper(s) == Upper(t) <==> SameLetters(s, t)
  {
    hide UpperChar, SameLetter;
    forall i | 0 <= i < |s| && |s| == |t| ensures Upper(s)[i] == Upper(t)[i] <==> SameLetter(s[i], t[i]) {
      UpperSameLetter(s[i], t[i]);
    }
    if SameLetters(s, t) {
      assert Upper(s) == Upper(t);
    }
  }

  lemma {:induction false} FromIs(s: string, k: nat)
    requires k <= |REGISTERS|
    ensures var id := RegisterFrom(s, k);
            && (id < |REGISTERS| ==> SameLetters(s, REGISTERS[id]))
            && forall j :: k <= j < id ==> !SameLetters(s, REGISTERS[j])
    decreases |REGISTERS| - k
  {
    hide Upper, SameLetters, REGISTERS;
    if k < |REGISTERS| {
      UpperSameLetters(s, REGISTERS[k]);
      if Upper(s) != Upper(REGISTERS[k]) { FromIs(s, k + 1); }
    }
  }

  /** Registers are the names in the table, in any mixture of letter cases, and a register's number is its place there. */
  lemma RegisterNames(s: string)
    ensures IsRegister(s) <==> exists k :: 0 <= k < |REGISTERS| && SameLetters(s, REGISTERS[k])
    ensures IsRegister(s) ==> SameLetters(s, REGISTERS[RegisterId(s)])
    ensures forall j :: 0 <= j < RegisterId(s) ==> !SameLetters(s, REGISTERS[j])
  {
    FromIs(s, 0);
    hide SameLetters, REGISTERS, RegisterFrom;
  }

  // ---------- numbers ----------

  /** White space, a sign or none, and at least one digit. */
  ghost predicate Spelt(s: string, g: string, sign: string, d: string) {
    && s == g + (sign + d) && (forall i :: 0 <= i < |g| ==> Text.IsSpace(g[i]))
    && (sign == "" || sign == "+" || sign == "-") && d != "" && Text.AllDigits(d)
  }

  lemma {:induction false} SkipIs(g: string, t: string)
    requires (forall i :: 0 <= i < |g| ==> Text.IsSpace(g[i])) && (t != "" ==> !Text.IsSpace(t[0]))
    ensures SkipSpace(g + t) == t
  {
    if g == "" {
      assert g + t == t;
    } else {
      assert (g + t)[1..] == g[1..] + t;
      SkipIs(g[1..], t);
    }
  }

  /** Such a text is a number, of the value it spells, within the 64-bit range. */
  lemma SpeltIsNumber(s: string, g: string, sign: string, d: string)
    requires Spelt(s, g, sign, d)
    ensures IsNumber(s)
    ensures var n: int := if sign == "-" then 0 - Text.TrailingNumber(d) else Text.TrailingNumber(d);
            NumberValue(s) == if n < INT64_MIN then INT64_MIN else if n > INT64_MAX then INT64_MAX else n
  {
    SkipIs(g, sign + d);
    assert Unsigned(sign + d) == d by {
      assert (sign + d)[|sign|..] == d && Text.IsDigit(d[0]);
      assert sign == "" ==> sign + d == d;
    }
    assert sign != "" ==> (sign + d)[0] == sign[0];
    hide Text.TrailingNumber, SkipSpace;
  }

  lemma {:induction false} SkipSplits(s: string) returns (g: string)
    ensures s == g + SkipSpace(s) && forall i :: 0 <= i < |g| ==> Text.IsSpace(g[i])
  {
    if s != "" && Text.IsSpace(s[0]) {
      var g' := SkipSplits(s[1..]);
      g := [s[0]] + g';
      assert s == [s[0]] + s[1..] && g + SkipSpace(s) == [s[0]] + (g' + SkipSpace(s[1..]));
    } else {
      g := "";
    }
  }

  /** No other text but the empty one is a number, and that is 0. */
  lemma NumbersAreSpelt(s: string) returns (g: string, sign: string, d: string)
    ensures IsNumber("") && NumberValue("") == 0
    ensures IsNumber(s) && s != "" ==> Spelt(s, g, sign, d)
  {
    g := SkipSplits(s);
    var t := SkipSpace(s);
    d := Unsigned(t);
    sign := t[..|t| - |d|];
    assert t == sign + d;
    assert |sign| == 1 ==> sign == [t[0]];
  }

  // ---------- bytes ----------

  lemma NoRegister(s: string)
    requires s == "" || !(IsSmall(s[0]) || IsCapital(s[0])) || (|s| == 2 && s[1] == 'i')
    ensures !IsRegister(s)
  {
    RegisterNames(s);
    hide IsRegister, RegisterId;
    forall k | 0 <= k < |REGISTERS| ensures !SameLetters(s, REGISTERS[k]) {
      var name := REGISTERS[k];
      assert |name| >= 2 && IsCapital(name[0]) && name[1] !in {'i', 'I'};
      if s != "" && !(IsSmall(s[0]) || IsCapital(s[0])) {
        assert !SameLetter(s[0], name[0]);
      } else if |s| == 2 {
        assert !SameLetter(s[1], name[1]);
      }
    }
  }

  lemma Encodes(s: string)
    requires TextFits(s)
    ensures IsRegister(s) ==> EncodeOperand(s) == ['R' as int] + Little(RegisterId(s), 4)
    ensures !IsRegister(s) && IsNumber(s) ==> EncodeOperand(s) == ['N' as int] + EncodeNumber(NumberValue(s))
    ensures !IsRegister(s) && !IsNumber(s) ==> EncodeOperand(s) == ['S' as int] + (Little(|s|, 8) + ToBytes(s))
  {
  }

  lemma RegisterExample()
    ensures EncodeOperand("Rbx") == ['R' as int] + [1, 0, 0, 0]
  {
    Encodes("Rbx");
    RegisterNames("Rbx");
    SecondRegister();
    assert Little(0, 3) == [0, 0, 0] && Little(1, 4) == [1] + Little(0, 3);
    hide RegisterId, Little, EncodeOperand, REGISTERS, SameLetters;
    assert RegisterId("Rbx") == 1;
  }

  lemma SecondRegister()
    ensures |REGISTERS| > 1 && SameLetters("Rbx", REGISTERS[1]) && !SameLetters("Rbx", REGISTERS[0])
  {
    assert REGISTERS[0] == "RAX" && REGISTERS[1] == "RBX" && !SameLetter("Rbx"[1], "RAX"[1]);
  }

  lemma NumberExample()
    ensures EncodeOperand("300") == ['N' as int] + ([2] + [44, 1])
  {
    hide IsRegister, IsNumber, NumberValue, Little, EncodeOperand;
    Encodes("300");
    NoRegister("300");
    SpeltIsNumber("300", "", "", "300");
    ThreeHundred();
  }

  lemma ThreeHundred()
    ensures Text.TrailingNumber("300") == 300 && Little(300, 2) == [44, 1] && 300 % WORD64 == 300
  {
    assert "300"[..2] == "30" && "300"[..1] == "3" && "30"[..1] == "3";
    assert Text.TrailingNumber("3") == 3 && Text.TrailingNumber("30") == 30;
  }

  lemma NegativeExample()
    ensures EncodeOperand("-2") == ['N' as int] + ([1] + [254])
  {
    hide IsRegister, IsNumber, NumberValue, EncodeOperand;
    Encodes("-2");
    NoRegister("-2");
    SpeltIsNumber("-2", "", "-", "2");
    assert "2"[..0] == "" && Text.TrailingNumber("2") == 2;
    assert -2 % WORD64 == 0xFFFF_FFFF_FFFF_FFFE && Little(0xFFFF_FFFF_FFFF_FFFE, 1) == [254];
  }

  lemma TextExample()
    ensures EncodeOperand("Hi") == ['S' as int] + ([2] + [0, 0, 0, 0, 0, 0, 0] + ['H' as int, 'i' as int])
  {
    hide IsRegister, IsNumber, EncodeOperand;
    Encodes("Hi");
    NoRegister("Hi");
    NoNumber("Hi");
    assert Little(0, 4) == [0, 0, 0, 0] && Little(0, 7) == [0, 0, 0] + Little(0, 4) && Little(2, 8) == [2] + Little(0, 7);
    assert ToBytes("Hi") == ['H' as int, 'i' as int];

  }

  lemma NoNumber(s: string)
    requires s != "" && (IsSmall(s[0]) || IsCapital(s[0]))
    ensures !IsNumber(s)
  {
    assert SkipSpace(s) == s && Unsigned(s) == s && !Text.IsDigit(s[0]);
  }
}
