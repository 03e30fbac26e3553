// `romanize` of constants.ts: the Roman numeral used as the ordinal suffix of
// the early-bird and Zen-master achievement titles.
module Roman {

  /** The source's lookup table: hundreds (C row), tens (X row), units (I row). */
  const Key: seq<string> := [
    "", "C", "CC", "CCC", "CD", "D", "DC", "DCC", "DCCC", "CM",
    "", "X", "XX", "XXX", "XL", "L", "LX", "LXX", "LXXX", "XC",
    "", "I", "II", "III", "IV", "V", "VI", "VII", "VIII", "IX"]

  function Repeat(c: char, k: nat): (s: string)
    ensures |s| == k
    ensures forall j :: 0 <= j < k ==> s[j] == c
  {
    if k == 0 then "" else [c] + Repeat(c, k - 1)
  }

  function Pow10(p: nat): nat
    requires p <= 3
  {
    if p == 0 then 1 else if p == 1 then 10 else if p == 2 then 100 else 1000
  }

  /** The symbols for one, five and ten units of decimal position `p`
      (0 = units, 1 = tens, 2 = hundreds). */
  function One(p: nat): char requires p < 3 { if p == 0 then 'I' else if p == 1 then 'X' else 'C' }
  function Five(p: nat): char requires p < 3 { if p == 0 then 'V' else if p == 1 then 'L' else 'D' }
  function Ten(p: nat): char requires p < 3 { if p == 0 then 'X' else if p == 1 then 'C' else 'M' }

  /** The usual Roman spelling of digit `d` at position `p`, with the
      subtractive forms for 4 and 9. */
  function DigitGroup(d: nat, p: nat): string
    requires d < 10 && p < 3
  {
    if d == 9 then [One(p), Ten(p)]
    else if d >= 5 then [Five(p)] + Repeat(One(p), d - 5)
    else if d == 4 then [One(p), Five(p)]
    else Repeat(One(p), d)
  }

  /** The Roman numeral of `n`: one M per thousand, then the hundreds, tens
      and units digits. This is the reference `Romanize` is proved against. */
  function RomanNumeral(n: nat): string {
    Repeat('M', n / 1000) + DigitGroup(n / 100 % 10, 2) + DigitGroup(n / 10 % 10, 1) + DigitGroup(n % 10, 0)
  }

  /** `n` with its lowest `p` decimal digits dropped. */
  function Shift(n: nat, p: nat): nat
    requires p <= 3
  {
    if p == 0 then n else if p == 1 then n / 10 else if p == 2 then n / 100 else n / 1000
  }

  /** The groups of the lowest `j` decimal digits of `n`. */
  function LowGroups(n: nat, j: nat): string
    requires j <= 3
  {
    if j == 0 then "" else DigitGroup(Shift(n, j - 1) % 10, j - 1) + LowGroups(n, j - 1)
  }

  lemma RepeatSmall(c: char)
    ensures Repeat(c, 0) == [] && Repeat(c, 1) == [c] && Repeat(c, 2) == [c, c] && Repeat(c, 3) == [c, c, c]
  {
    assert Repeat(c, 1) == [c] + Repeat(c, 0);
    assert Repeat(c, 2) == [c] + Repeat(c, 1);
    assert Repeat(c, 3) == [c] + Repeat(c, 2);
  }

  /** Row `i` of `Key` spells the digits of position `2 - i`. */
  lemma KeyRow(d: nat, i: nat)
    requires d < 10 && i < 3
    ensures Key[d + i * 10] == DigitGroup(d, 2 - i)
  {
    if i == 0 {
      HundredsRow(d, i);
    } else if i == 1 {
      TensRow(d, i);
    } else {
      UnitsRow(d, i);
    }
  }

  lemma HundredsRow(d: nat, i: nat)
    requires d < 10 && i == 0
    ensures Key[d + i * 10] == DigitGroup(d, 2 - i)
  {
    RepeatSmall('C');
  }

  lemma TensRow(d: nat, i: nat)
    requires d < 10 && i == 1
    ensures Key[d + i * 10] == DigitGroup(d, 2 - i)
  {
    RepeatSmall('X');
  }

  lemma UnitsRow(d: nat, i: nat)
    requires d < 10 && i == 2
    ensures Key[d + i * 10] == DigitGroup(d, 2 - i)
  {
    RepeatSmall('I');
  }

  lemma RomanNumeralAsGroups(n: nat)
    ensures RomanNumeral(n) == Repeat('M', n / 1000) + LowGroups(n, 3)
  {
    assert LowGroups(n, 1) == DigitGroup(n % 10, 0);
    assert LowGroups(n, 3) == DigitGroup(n / 100 % 10, 2) + (DigitGroup(n / 10 % 10, 1) + DigitGroup(n % 10, 0));
  }

  /** `romanize(n)`: pops the last three decimal digits, looking each one up
      in its row of `Key`, then prepends one M per remaining thousand. */
  method Romanize(n: nat) returns (roman: string)
    ensures roman == RomanNumeral(n)
  {
    var rest := n;
    roman := "";
    var i := 3;
    while i > 0
      invariant 0 <= i <= 3
      invariant rest == Shift(n, 3 - i)
      invariant roman == LowGroups(n, 3 - i)
    {
      i := i - 1;
      var d := rest % 10;
      rest := rest / 10;
      KeyRow(d, i);
      roman := Key[d + i * 10] + roman;
    }
    RomanNumeralAsGroups(n);
    roman := Repeat('M', rest) + roman;
  }

  // ---- Reading a numeral back -------------------------------------------

  function SymbolValue(c: char): nat {
    match c
    case 'I' => 1
    case 'V' => 5
    case 'X' => 10
    case 'L' => 50
    case 'C' => 100
    case 'D' => 500
    case 'M' => 1000
    case _ => 0
  }

  /** The value of a numeral: a symbol standing before a larger one is
      subtracted, every other symbol is added. */
  function NumeralValue(s: string): int {
    if |s| == 0 then 0
    else if |s| >= 2 && SymbolValue(s[0]) < SymbolValue(s[1]) then NumeralValue(s[1..]) - SymbolValue(s[0])
    else NumeralValue(s[1..]) + SymbolValue(s[0])
  }

  /** Values add up across a join when every symbol on the left is worth at
      least `v` and every symbol on the right at most `v`. */
  lemma {:induction false} ValueConcat(a: string, b: string, v: nat)
    requires forall i :: 0 <= i < |a| ==> SymbolValue(a[i]) >= v
    requires forall j :: 0 <= j < |b| ==> SymbolValue(b[j]) <= v
    ensures NumeralValue(a + b) == NumeralValue(a) + NumeralValue(b)
  {
    if |a| > 0 {
      assert (a + b)[1..] == a[1..] + b;
      ValueConcat(a[1..], b, v);
      if |a| == 1 && |b| > 0 {
        assert SymbolValue(a[0]) >= SymbolValue(b[0]);
      }
    } else {
      assert a + b == b;
    }
  }

  lemma {:induction false} RepeatValue(c: char, k: nat)
    ensures NumeralValue(Repeat(c, k)) == k * SymbolValue(c)
  {
    if k > 0 {
      RepeatValue(c, k - 1);
      assert Repeat(c, k)[1..] == Repeat(c, k - 1);
    }
  }

  lemma GroupValue(d: nat, p: nat)
    requires d < 10 && p < 3
    ensures NumeralValue(DigitGroup(d, p)) == d * Pow10(p)
  {
    var u := SymbolValue(One(p));
    assert u == Pow10(p) && SymbolValue(Five(p)) == 5 * u && SymbolValue(Ten(p)) == 10 * u;
    assert NumeralValue([Five(p)]) == 5 * u by { assert [Five(p)][1..] == []; }
    assert NumeralValue([Ten(p)]) == 10 * u by { assert [Ten(p)][1..] == []; }
    if d == 9 {
      assert DigitGroup(d, p)[1..] == [Ten(p)];
      assert NumeralValue(DigitGroup(d, p)) == 9 * u;
    } else if d >= 5 {
      RepeatValue(One(p), d - 5);
      ValueConcat([Five(p)], Repeat(One(p), d - 5), u);
      assert NumeralValue(DigitGroup(d, p)) == 5 * u + (d - 5) * u;
    } else if d == 4 {
      assert DigitGroup(d, p)[1..] == [Five(p)];
      assert NumeralValue(DigitGroup(d, p)) == 4 * u;
    } else {
      RepeatValue(One(p), d);
    }
  }

  /** Every symbol of a group at position `p` is worth between one and ten
      units of that position. */
  lemma GroupSymbols(d: nat, p: nat)
    requires d < 10 && p < 3
    ensures forall j :: 0 <= j < |DigitGroup(d, p)| ==>
      DigitGroup(d, p)[j] in "IVXLCDM" && Pow10(p) <= SymbolValue(DigitGroup(d, p)[j]) <= 10 * Pow10(p)
  {
  }

  lemma TensSplit(n: nat) ensures n % 100 == (n / 10 % 10) * 10 + n % 10 {}
  lemma HundredsSplit(n: nat) ensures n % 1000 == (n / 100 % 10) * 100 + n % 100 {}
  lemma ThousandsSplit(n: nat) ensures n == (n / 1000) * 1000 + n % 1000 {}

  /** The lowest `j` groups use only Roman symbols, none worth more than `10^j`. */
  lemma {:induction false} LowGroupsSymbols(n: nat, j: nat)
    requires j <= 3
    ensures forall k :: 0 <= k < |LowGroups(n, j)| ==>
      LowGroups(n, j)[k] in "IVXLCDM" && SymbolValue(LowGroups(n, j)[k]) <= Pow10(j)
  {
    if j > 0 {
      var p := j - 1;
      LowGroupsSymbols(n, p);
      GroupSymbols(Shift(n, p) % 10, p);
    }
  }

  /** The lowest `j` groups read back as the lowest `j` digits of `n`. */
  lemma {:induction false} LowGroupsValue(n: nat, j: nat)
    requires j <= 3
    ensures NumeralValue(LowGroups(n, j)) == n % Pow10(j)
  {
    if j > 0 {
      var p := j - 1;
      LowGroupsValue(n, p);
      LowGroupsSymbols(n, p);
      var d := Shift(n, p) % 10;
      GroupSymbols(d, p);
      GroupValue(d, p);
      ValueConcat(DigitGroup(d, p), LowGroups(n, p), Pow10(p));
      assert NumeralValue(LowGroups(n, j)) == d * Pow10(p) + n % Pow10(p);
      if j == 2 { TensSplit(n); } else if j == 3 { HundredsSplit(n); }
    }
  }

  /** The thousands and the three low groups read back as `n`. */
  lemma ThousandsAndLowValue(n: nat)
    ensures NumeralValue(Repeat('M', n / 1000) + LowGroups(n, 3)) == n
  {
    var q := n / 1000;
    LowGroupsValue(n, 3);
    LowGroupsSymbols(n, 3);
    RepeatValue('M', q);
    ValueConcat(Repeat('M', q), LowGroups(n, 3), 1000);
    ThousandsSplit(n);
  }

  lemma RomanNumeralValue(n: nat)
    ensures NumeralValue(RomanNumeral(n)) == n
  {
    RomanNumeralAsGroups(n);
    ThousandsAndLowValue(n);
  }

  /** Only the seven Roman symbols appear. */
  lemma RomanNumeralAlphabet(n: nat)
    ensures forall k :: 0 <= k < |RomanNumeral(n)| ==> RomanNumeral(n)[k] in "IVXLCDM"
  {
    RomanNumeralAsGroups(n);
    LowGroupsSymbols(n, 3);
  }

  lemma RomanNumeralExamples()
    ensures RomanNumeral(1) == "I" && RomanNumeral(4) == "IV" && RomanNumeral(9) == "IX"
    ensures RomanNumeral(14) == "XIV" && RomanNumeral(25) == "XXV"
  {
    assert 1 / 1000 == 0 && 1 / 100 % 10 == 0 && 1 / 10 % 10 == 0 && 1 % 10 == 1;
    assert 4 / 1000 == 0 && 4 / 100 % 10 == 0 && 4 / 10 % 10 == 0 && 4 % 10 == 4;
    assert 9 / 1000 == 0 && 9 / 100 % 10 == 0 && 9 / 10 % 10 == 0 && 9 % 10 == 9;
    assert 14 / 1000 == 0 && 14 / 100 % 10 == 0 && 14 / 10 % 10 == 1 && 14 % 10 == 4;
    assert 25 / 1000 == 0 && 25 / 100 % 10 == 0 && 25 / 10 % 10 == 2 && 25 % 10 == 5;
    assert Repeat('I', 1) == "I" && Repeat('X', 1) == "X";
    assert DigitGroup(2, 1) == "XX";
    assert DigitGroup(5, 0) == "V";
  }
}
