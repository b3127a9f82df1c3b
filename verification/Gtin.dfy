/**
 The GTIN check digit of section 7.9 of the GS1 General Specifications, as `validateGtin`,
 `calculateGtinCheckDigit`, `makeGtin12` and `makeGtin13` compute it, and what it detects.
 */
module Gtin {
  import opened Common

  predicate IsDigit(c: char) {
    '0' <= c <= '9'
  }

  type Digits = s: string | forall i :: 0 <= i < |s| ==> IsDigit(s[i])

  function Val(c: char): (v: int)
    requires IsDigit(c)
    ensures 0 <= v <= 9
  {
    c as int - '0' as int
  }

  function Digit(v: int): (c: char)
    requires 0 <= v <= 9
    ensures IsDigit(c) && Val(c) == v
  {
    ('0' as int + v) as char
  }

  /** `code.replace(/[^0-9]/g, '')`. */
  function DigitsOf(code: string): Digits {
    if code == "" then ""
    else (if IsDigit(code[0]) then [code[0]] else "") + DigitsOf(code[1..])
  }

  /** The weighted digit sum; the last digit has weight `w` and weights alternate between 3 and 1. */
  function Weighted(s: Digits, w: int): int {
    if s == "" then 0
    else Val(s[|s| - 1]) * w + Weighted(s[..|s| - 1], 4 - w)
  }

  /** The standard's own condition: the sum over all digits, check digit included, is a multiple of 10. */
  predicate ChecksOut(s: Digits) {
    Weighted(s, 1) % 10 == 0
  }

  predicate AcceptedLength(n: int) {
    n == 8 || n == 12 || n == 13 || n == 14
  }

  predicate IsGtin(s: Digits) {
    AcceptedLength(|s|) && ChecksOut(s)
  }

  function CheckDigit(body: Digits): (d: int)
    ensures 0 <= d <= 9
  {
    (10 - Weighted(body, 3) % 10) % 10
  }

  // ---------------------------------------------------------------- the loops

  method CalculateCheckDigit(body: Digits) returns (d: int)
    ensures 0 <= d <= 9
    // the digit computed is the one that completes the body, and the only one
    ensures forall e :: 0 <= e <= 9 ==> (ChecksOut(body + [Digit(e)]) <==> e == d)
  {
    var sum, weight := 0, 3;
    var i := |body| - 1;
    assert body[..|body|] == body;
    while i >= 0
      invariant -1 <= i < |body|
      invariant weight == 3 || weight == 1
      invariant sum + Weighted(body[..i + 1], weight) == Weighted(body, 3)
    {
      assert body[..i + 1][..i] == body[..i];
      sum := sum + Val(body[i]) * weight;
      weight := if weight == 3 then 1 else 3;
      i := i - 1;
    }
    d := (10 - sum % 10) % 10;
    forall e | 0 <= e <= 9 ensures ChecksOut(body + [Digit(e)]) <==> e == d {
      CheckDigitUnique(body, e);
    }
  }

  method ValidateGtin(code: string) returns (valid: bool)
    ensures valid <==> IsGtin(DigitsOf(code))
  {
    var digits := DigitsOf(code);
    if !AcceptedLength(|digits|) {
      return false;
    }
    var body := digits[..|digits| - 1];
    var check := digits[|digits| - 1];
    var computed := CalculateCheckDigit(body);
    assert digits == body + [check];
    assert Digit(Val(check)) == check;
    return computed == Val(check);
  }

  /** For a body of any length exactly one check digit checks out. */
  lemma CheckDigitUnique(body: Digits, e: int)
    requires 0 <= e <= 9
    ensures ChecksOut(body + [Digit(e)]) <==> e == CheckDigit(body)
  {
    var s := body + [Digit(e)];
    assert s[..|s| - 1] == body;
    assert Weighted(s, 1) == e + Weighted(body, 3);
  }

  // ---------------------------------------------------------------- error detection

  /** The weight of the digit with `k` digits to its right. */
  function WeightAt(k: nat, w: int): int {
    if k % 2 == 0 then w else 4 - w
  }

  lemma WeightedLast(s: Digits, c: char, w: int)
    requires s != "" && IsDigit(c)
    ensures Weighted(s[|s| - 1 := c], w) == Weighted(s, w) + (Val(c) - Val(s[|s| - 1])) * w
  {
    var n := |s| - 1;
    assert s[n := c][..n] == s[..n];
    assert (Val(c) - Val(s[n])) * w == Val(c) * w - Val(s[n]) * w;
  }

  lemma {:induction false} WeightedUpdate(s: Digits, i: nat, c: char, w: int)
    requires i < |s| && IsDigit(c)
    ensures Weighted(s[i := c], w) == Weighted(s, w) + (Val(c) - Val(s[i])) * WeightAt(|s| - 1 - i, w)
  {
    var n := |s| - 1;
    if i == n {
      WeightedLast(s, c, w);
    } else {
      assert s[i := c][..n] == s[..n][i := c];
      WeightedUpdate(s[..n], i, c, 4 - w);
      assert WeightAt(n - 1 - i, 4 - w) == WeightAt(n - i, w);
    }
  }

  /** Changing any one digit, the check digit included, is always detected. */
  lemma SubstitutionDetected(s: Digits, i: nat, c: char)
    requires ChecksOut(s) && i < |s| && IsDigit(c) && c != s[i]
    ensures !ChecksOut(s[i := c])
  {
    WeightedUpdate(s, i, c, 1);
    var d, w := Val(c) - Val(s[i]), WeightAt(|s| - 1 - i, 1);
    assert d != 0 by { assert c == Digit(Val(c)) && s[i] == Digit(Val(s[i])); }
    SmallMultiple(d, w);
    ModShift(Weighted(s, 1), d * w);
  }

  lemma ModShift(x: int, y: int)
    requires x % 10 == 0
    ensures (x + y) % 10 == 0 <==> y % 10 == 0
  {
  }

  lemma SmallMultiple(d: int, w: int)
    requires -9 <= d <= 9 && d != 0 && (w == 1 || w == 3)
    ensures (d * w) % 10 != 0
  {
  }

  lemma DoubleMultiple(d: int)
    requires -9 <= d <= 9
    ensures (2 * d) % 10 == 0 <==> d == 0 || d == 5 || d == -5
    ensures (-2 * d) % 10 == 0 <==> d == 0 || d == 5 || d == -5
  {
  }

  function Transposed(s: Digits, i: nat): Digits
    requires i + 1 < |s|
  {
    s[i := s[i + 1]][i + 1 := s[i]]
  }

  /** What swapping neighbours that differ by `d` adds, when the first has weight `u` and they have 1 and 3. */
  function Shift(d: int, u: int): int {
    if u == 3 then 2 * d else -2 * d
  }

  /** Swapping neighbours adds their difference at one weight and takes it away at the other. */
  lemma TransposedShift(s: Digits, i: nat, w: int)
    requires i + 1 < |s|
    ensures var d, k := Val(s[i + 1]) - Val(s[i]), |s| - 1 - i;
            Weighted(Transposed(s, i), w) == Weighted(s, w) + d * WeightAt(k, w) + (-d) * WeightAt(k - 1, w)
  {
    WeightedUpdate(s, i, s[i + 1], w);
    WeightedUpdate(s[i := s[i + 1]], i + 1, s[i], w);
  }

  lemma WeightedSwap(d: int, k: nat)
    requires k > 0
    ensures d * WeightAt(k, 1) + (-d) * WeightAt(k - 1, 1) == Shift(d, WeightAt(k, 1))
  {
  }

  /** Exchanging two neighbours goes undetected exactly when they are equal or differ by five. */
  lemma TranspositionDetected(s: Digits, i: nat)
    requires ChecksOut(s) && i + 1 < |s|
    ensures ChecksOut(Transposed(s, i)) <==>
            Val(s[i]) == Val(s[i + 1]) || Val(s[i]) - Val(s[i + 1]) == 5 || Val(s[i + 1]) - Val(s[i]) == 5
  {
    var d := Val(s[i + 1]) - Val(s[i]);
    TransposedShift(s, i, 1);
    WeightedSwap(d, |s| - 1 - i);
    ModShift(Weighted(s, 1), Shift(d, WeightAt(|s| - 1 - i, 1)));
    DoubleMultiple(d);
  }

  lemma {:induction false} LeadingZero(s: Digits, w: int)
    ensures Weighted("0" + s, w) == Weighted(s, w)
  {
    var t := "0" + s;
    if s == "" {
      assert t[..0] == "";
    } else {
      assert t[..|t| - 1] == "0" + s[..|s| - 1];
      LeadingZero(s[..|s| - 1], 4 - w);
    }
  }

  /** A shorter GTIN written with a leading zero is the same GTIN, where both lengths are accepted. */
  lemma PaddingKeepsGtin(s: Digits)
    requires |s| == 12 || |s| == 13
    ensures IsGtin("0" + s) <==> IsGtin(s)
  {
    LeadingZero(s, 1);
  }

  /** The benchmark's corrupted check digit, five more modulo ten, is never valid. */
  lemma CorruptedNeverValid(s: Digits)
    requires IsGtin(s)
    ensures var n := |s| - 1; !IsGtin(s[..n] + [Digit((Val(s[n]) + 5) % 10)])
  {
    var n := |s| - 1;
    assert Digit(Val(s[n])) == s[n];
    assert s == s[..n] + [Digit(Val(s[n]))];
    CheckDigitUnique(s[..n], Val(s[n]));
    CheckDigitUnique(s[..n], (Val(s[n]) + 5) % 10);
  }

  // ---------------------------------------------------------------- generated GTINs

  /** `String(n)`. */
  function Decimal(n: nat): (s: Digits)
    ensures |s| > 0
  {
    if n < 10 then [Digit(n)] else Decimal(n / 10) + [Digit(n % 10)]
  }

  function PadStart(s: Digits, width: nat): (r: Digits)
    ensures |r| == if |s| < width then width else |s|
    decreases width - |s|
  {
    if |s| >= width then s else PadStart("0" + s, width)
  }

  function Number(s: Digits): nat {
    if s == "" then 0 else Number(s[..|s| - 1]) * 10 + Val(s[|s| - 1])
  }

  lemma {:induction false} NumberOfDecimal(n: nat)
    ensures Number(Decimal(n)) == n
  {
    if n < 10 {
      assert [Digit(n)][..0] == "";
    } else {
      var s := Decimal(n);
      assert s[..|s| - 1] == Decimal(n / 10);
      NumberOfDecimal(n / 10);
    }
  }

  lemma {:induction false} NumberOfZero(s: Digits)
    ensures Number("0" + s) == Number(s)
  {
    var t := "0" + s;
    if s == "" {
      assert t[..0] == "";
    } else {
      assert t[..|t| - 1] == "0" + s[..|s| - 1];
      NumberOfZero(s[..|s| - 1]);
    }
  }

  lemma {:induction false} NumberOfPadded(s: Digits, width: nat)
    ensures Number(PadStart(s, width)) == Number(s)
    decreases width - |s|
  {
    if |s| < width {
      NumberOfZero(s);
      NumberOfPadded("0" + s, width);
    }
  }

  function Body(prefix: Digits, sequence: nat): Digits {
    prefix + PadStart(Decimal(sequence), 5)
  }

  /** `makeGtin12` and `makeGtin13`, whose bodies have 11 and 12 digits. */
  method MakeGtin(prefix: Digits, sequence: nat, bodyLength: nat) returns (r: Result<Digits>)
    requires bodyLength == 11 || bodyLength == 12
    ensures r.Ok? <==> |Body(prefix, sequence)| == bodyLength
    ensures r.Ok? ==> IsGtin(r.value) && r.value[..|r.value| - 1] == Body(prefix, sequence)
  {
    var body := Body(prefix, sequence);
    if |body| != bodyLength {
      return Err("GTIN body length");
    }
    var check := CalculateCheckDigit(body);
    var result := body + [Digit(check)];
    AllDigits(result);
    var valid := ValidateGtin(result);
    assert ChecksOut(body + [Digit(check)]);
    if !valid {
      return Err("Generated invalid GTIN");
    }
    return Ok(result);
  }

  lemma {:induction false} AllDigits(s: Digits)
    ensures DigitsOf(s) == s
  {
    if s != "" {
      AllDigits(s[1..]);
    }
  }

  /** With one prefix, different sequence numbers always give different GTINs. */
  lemma SequenceRecovered(prefix: Digits, a: nat, b: nat, gtin: Digits)
    requires |gtin| > 0
    requires gtin[..|gtin| - 1] == Body(prefix, a) && gtin[..|gtin| - 1] == Body(prefix, b)
    ensures a == b
  {
    var body := gtin[..|gtin| - 1];
    assert body[|prefix|..] == PadStart(Decimal(a), 5) == PadStart(Decimal(b), 5);
    NumberOfPadded(Decimal(a), 5);
    NumberOfPadded(Decimal(b), 5);
    NumberOfDecimal(a);
    NumberOfDecimal(b);
  }

  // ---------------------------------------------------------------- in digits

  /** Digits are kept in order and everything else is dropped. */
  lemma {:induction false} DigitsOfMeans(code: string, c: char)
    ensures DigitsOf("") == ""
    ensures DigitsOf(code + [c]) == DigitsOf(code) + (if '0' <= c <= '9' then [c] else "")
  {
    var last := if '0' <= c <= '9' then [c] else "";
    if code == "" {
      assert (code + [c])[1..] == "" && last + "" == last && "" + last == last;
    } else {
      var first := if IsDigit(code[0]) then [code[0]] else "";
      DigitsOfMeans(code[1..], c);
      FirstFirst(code, c);
      assert first + (DigitsOf(code[1..]) + last) == (first + DigitsOf(code[1..])) + last;
    }
  }

  lemma FirstFirst(code: string, c: char)
    requires code != ""
    ensures DigitsOf(code + [c]) == (if IsDigit(code[0]) then [code[0]] else "") + DigitsOf(code[1..] + [c])
  {
    var t := code + [c];
    assert t[1..] == code[1..] + [c] && t[0] == code[0];
    assert DigitsOf(t) == (if IsDigit(t[0]) then [t[0]] else "") + DigitsOf(t[1..]);
  }

  lemma ValMeans(c: char)
    requires IsDigit(c)
    ensures "0123456789"[Val(c)] == c
  {
  }

  lemma TwoTerms(s: Digits, w: int)
    requires |s| >= 2
    ensures Weighted(s, w) == Val(s[|s| - 1]) * w + Val(s[|s| - 2]) * (4 - w) + Weighted(s[..|s| - 2], w)
  {
    var n := |s| - 1;
    assert s[..n][..n - 1] == s[..n - 1];
  }

  lemma TwoMore(s: Digits, n: nat)
    requires 2 <= n <= |s|
    ensures Weighted(s[..n], 1) == Val(s[n - 1]) + 3 * Val(s[n - 2]) + Weighted(s[..n - 2], 1)
  {
    TwoTerms(s[..n], 1);
    assert s[..n][..n - 2] == s[..n - 2];
  }

  lemma SixMore(s: Digits, n: nat)
    requires 6 <= n <= |s|
    ensures Weighted(s[..n], 1) ==
            3 * (Val(s[n - 6]) + Val(s[n - 4]) + Val(s[n - 2])) + Val(s[n - 5]) + Val(s[n - 3]) + Val(s[n - 1])
            + Weighted(s[..n - 6], 1)
  {
    TwoMore(s, n);
    TwoMore(s, n - 2);
    TwoMore(s, n - 4);
  }

  lemma OtherLengths(s: Digits)
    requires |s| !in {8, 12, 13, 14}
    ensures !IsGtin(s)
  {
  }

  /** The condition of an eight-digit code, digit by digit. */
  lemma EightMeans(s: Digits)
    requires |s| == 8
    ensures IsGtin(s) <==>
            (3 * (Val(s[0]) + Val(s[2]) + Val(s[4]) + Val(s[6]))
             + Val(s[1]) + Val(s[3]) + Val(s[5]) + Val(s[7])) % 10 == 0
  {
    SixMore(s, 8);
    TwoMore(s, 2);
    assert s[..8] == s;
  }

  /** And of a fourteen-digit one, which is what 12 and 13 digits are padded to. */
  lemma FourteenMeans(s: Digits)
    requires |s| == 14
    ensures IsGtin(s) <==>
            (3 * (Val(s[0]) + Val(s[2]) + Val(s[4]) + Val(s[6]) + Val(s[8]) + Val(s[10]) + Val(s[12]))
             + Val(s[1]) + Val(s[3]) + Val(s[5]) + Val(s[7]) + Val(s[9]) + Val(s[11]) + Val(s[13])) % 10 == 0
  {
    SixMore(s, 14);
    SixMore(s, 8);
    TwoMore(s, 2);
    assert s[..14] == s;
  }

  function PowerOfTen(k: nat): nat {
    if k == 0 then 1 else 10 * PowerOfTen(k - 1)
  }

  /** A number has at most `k` digits exactly when it is below the `k`-th power of ten. */
  lemma {:induction false} DecimalLength(n: nat, k: nat)
    requires k > 0
    ensures |Decimal(n)| <= k <==> n < PowerOfTen(k)
  {
    if n < 10 {
      PowerGrows(k);
    } else if k == 1 {
      assert PowerOfTen(1) == 10 * PowerOfTen(0);
    } else {
      DecimalLength(n / 10, k - 1);
    }
  }

  lemma {:induction false} PowerGrows(k: nat)
    requires k > 0
    ensures PowerOfTen(k) >= 10
  {
    if k > 1 {
      PowerGrows(k - 1);
    }
  }

  /** The sequence number takes five digits, or as many more as it needs. */
  lemma BodyLength(prefix: Digits, sequence: nat, width: nat)
    requires width >= 5
    ensures |Body(prefix, sequence)| == |prefix| + width <==>
            sequence < PowerOfTen(width) && (width == 5 || sequence >= PowerOfTen(width - 1))
  {
    DecimalLength(sequence, width);
    DecimalLength(sequence, width - 1);
  }

  lemma FiveDigits()
    ensures PowerOfTen(5) == 100000
  {
    assert PowerOfTen(3) == 1000;
  }

  /**
   Every six-digit prefix with a sequence number below 100000 makes a GTIN of 12 digits, every seven-digit
   one a GTIN of 13: the body has the length that is asked for.
   */
  lemma MakersSucceed(prefix: Digits, sequence: nat)
    ensures |prefix| == 6 ==> (|Body(prefix, sequence)| == 11 <==> sequence < 100000)
    ensures |prefix| == 7 ==> (|Body(prefix, sequence)| == 12 <==> sequence < 100000)
  {
    BodyLength(prefix, sequence, 5);
    FiveDigits();
  }

  lemma NumberOfFive(s: Digits)
    requires |s| == 5
    ensures Number(s) == 10000 * Val(s[0]) + 1000 * Val(s[1]) + 100 * Val(s[2]) + 10 * Val(s[3]) + Val(s[4])
  {
    assert s[..4][..3] == s[..3] && s[..3][..2] == s[..2] && s[..2][..1] == s[..1] && s[..1][..0] == "";
    assert Number(s[..1]) == Number(s[..1][..0]) * 10 + Val(s[..1][0]) == Val(s[0]);
    assert Number(s[..2]) == Number(s[..1]) * 10 + Val(s[1]);
    assert Number(s[..3]) == Number(s[..2]) * 10 + Val(s[2]);
    assert Number(s[..4]) == Number(s[..3]) * 10 + Val(s[3]);
    assert Number(s) == Number(s[..4]) * 10 + Val(s[4]);
  }

  /** What a maker writes before the check digit: the prefix and the five digits of the sequence number. */
  lemma MadeMeans(prefix: Digits, sequence: nat)
    requires sequence < 100000
    ensures var tail := Body(prefix, sequence)[|prefix|..];
            && prefix <= Body(prefix, sequence) && |tail| == 5
            && 10000 * Val(tail[0]) + 1000 * Val(tail[1]) + 100 * Val(tail[2]) + 10 * Val(tail[3]) + Val(tail[4])
               == sequence
  {
    BodyLength(prefix, sequence, 5);
    FiveDigits();
    NumberOfPadded(Decimal(sequence), 5);
    NumberOfDecimal(sequence);
    var tail := Body(prefix, sequence)[|prefix|..];
    assert tail == PadStart(Decimal(sequence), 5);
    NumberOfFive(tail);
  }
}
