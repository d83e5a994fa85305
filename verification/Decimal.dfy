/** The decimal printing of floats in types/types.go, over exact reals. */
module Decimal {
  import opened Text

  // ----- reading a decimal back -----

  function Pow10(n: nat): nat {
    if n == 0 then 1 else 10 * Pow10(n - 1)
  }

  lemma {:induction false} Pow10Positive(n: nat)
    ensures Pow10(n) > 0
  {
    if n > 0 { Pow10Positive(n - 1); }
  }

  /** The value of the digits after a decimal point; there may be none. */
  function FracValue(digits: string): real
    requires AllDigits(digits)
  {
    Pow10Positive(|digits|);
    DigitsValue(digits) as real / Pow10(|digits|) as real
  }

  predicate IsDecimal(s: string) {
    var body := if s != "" && s[0] == '-' then s[1..] else s;
    var dot := Find(body, '.');
    AllDigits(body[..dot]) && (dot < |body| ==> AllDigits(body[dot + 1..]))
  }

  /** An optional sign, digits, and optionally a point and more digits. */
  function ReadDecimal(s: string): real
    requires IsDecimal(s)
  {
    var negative := s != "" && s[0] == '-';
    var body := if negative then s[1..] else s;
    var dot := Find(body, '.');
    var magnitude := DigitsValue(body[..dot]) as real + if dot < |body| then FracValue(body[dot + 1..]) else 0.0;
    if negative then -magnitude else magnitude
  }

  // ----- printing -----

  /** Go's conversion of a float to int64 truncates toward zero. */
  function Trunc(v: real): int {
    if v >= 0.0 then v.Floor else -((-v).Floor)
  }

  function Frac(v: real): real {
    var f := v - Trunc(v) as real;
    if f < 0.0 then -f else f
  }

  function PadZeros(s: string): string
    decreases 6 - |s|
  {
    if |s| < 6 then PadZeros("0" + s) else s
  }

  function TrimZeros(s: string): (r: string)
    ensures r <= s && (r != "" ==> r[|r| - 1] != '0')
    ensures forall i :: |r| <= i < |s| ==> s[i] == '0'
  {
    if s != "" && s[|s| - 1] == '0' then TrimZeros(s[..|s| - 1]) else s
  }

  function Micros(v: real): int {
    Trunc(Frac(v) * 1000000.0 + 0.5)
  }

  function FloatText(v: real): string {
    if Frac(v) > 0.0000001 then IntText(Trunc(v)) + ("." + TrimZeros(PadZeros(IntText(Micros(v)))))
    else IntText(Trunc(v))
  }

  method AppendFloat(v: real) returns (result: string)
    requires MIN_INT <= Trunc(v) <= MAX_INT
    ensures result == FloatText(v)
  {
    var intPart := Trunc(v);
    var fracPart := v - intPart as real;
    if fracPart < 0.0 {
      fracPart := -fracPart;
    }
    result := IntText(intPart);
    if fracPart > 0.0000001 {
      fracPart := fracPart * 1000000.0;
      var fracInt := Trunc(fracPart + 0.5);
      var fracStr := IntText(fracInt);
      while |fracStr| < 6
        invariant PadZeros(fracStr) == PadZeros(IntText(Micros(v)))
        decreases 6 - |fracStr|
      {
        fracStr := "0" + fracStr;
      }
      while fracStr != "" && fracStr[|fracStr| - 1] == '0'
        invariant TrimZeros(fracStr) == TrimZeros(PadZeros(IntText(Micros(v))))
        decreases |fracStr|
      {
        fracStr := fracStr[..|fracStr| - 1];
      }
      result := result + ("." + fracStr);
    }
  }

  method Float64ToStr(v: real) returns (s: string)
    requires MIN_INT <= Trunc(v) <= MAX_INT
    ensures s == FloatText(v)
  {
    if v == 0.0 {
      assert NatText(0) == "0";
      return "0";
    }
    s := AppendFloat(v);
  }

  // ----- padding and trimming keep the fraction -----

  lemma {:induction false} LeadingZero(s: string)
    requires AllDigits(s)
    ensures AllDigits("0" + s) && DigitsValue("0" + s) == DigitsValue(s)
  {
    if s == "" {
      assert ("0" + s)[..0] == "";
    } else {
      LeadingZero(s[..|s| - 1]);
      assert ("0" + s)[..|s|] == "0" + s[..|s| - 1];
    }
  }

  lemma {:induction false} PadKeeps(s: string)
    requires AllDigits(s)
    ensures AllDigits(PadZeros(s)) && DigitsValue(PadZeros(s)) == DigitsValue(s)
    ensures |PadZeros(s)| == if |s| < 6 then 6 else |s|
    decreases 6 - |s|
  {
    if |s| < 6 {
      LeadingZero(s);
      PadKeeps("0" + s);
    }
  }

  lemma DropZero(s: string)
    requires AllDigits(s) && s != "" && s[|s| - 1] == '0'
    ensures FracValue(s) == FracValue(s[..|s| - 1])
  {
    var t := s[..|s| - 1];
    Pow10Positive(|t|);
    CancelTen(DigitsValue(t), Pow10(|t|));
  }

  lemma CancelTen(a: nat, b: nat)
    requires b > 0
    ensures (10 * a) as real / (10 * b) as real == a as real / b as real
  {
  }

  lemma {:induction false} TrimKeeps(s: string)
    requires AllDigits(s)
    ensures AllDigits(TrimZeros(s)) && FracValue(TrimZeros(s)) == FracValue(s)
    decreases |s|
  {
    if s != "" && s[|s| - 1] == '0' {
      DropZero(s);
      TrimKeeps(s[..|s| - 1]);
    }
  }

  lemma {:induction false} NatTextLength(n: nat, d: nat)
    requires d > 0 && n < Pow10(d)
    ensures |NatText(n)| <= d
    decreases d
  {
    if n >= 10 {
      assert d > 1 by { assert Pow10(1) == 10 * Pow10(0); }
      NatTextLength(n / 10, d - 1);
    }
  }

  /** The printed fraction is worth its micros, unless they round up to a whole unit. */
  lemma FractionWorth(n: nat)
    requires n <= 1000000
    ensures var f := TrimZeros(PadZeros(NatText(n)));
            AllDigits(f) && FracValue(f) == if n < 1000000 then n as real / 1000000.0 else 0.1
  {
    hide FracValue, TrimZeros, PadZeros;
    NatTextValue(n);
    PadKeeps(NatText(n));
    TrimKeeps(PadZeros(NatText(n)));
    if n < 1000000 {
      SixDigits();
      NatTextLength(n, 6);
      SixDigitFraction(PadZeros(NatText(n)));
    } else {
      MillionText();
    }
  }

  lemma SixDigits()
    ensures Pow10(6) == 1000000 && Pow10(7) == 10000000
  {
    assert Pow10(3) == 1000;
    assert Pow10(5) == 100000;
  }

  lemma SixDigitFraction(s: string)
    requires AllDigits(s) && |s| == 6
    ensures FracValue(s) == DigitsValue(s) as real / 1000000.0
  {
    SixDigits();
  }

  lemma MillionText()
    ensures AllDigits(PadZeros(NatText(1000000))) && FracValue(PadZeros(NatText(1000000))) == 0.1
  {
    hide FracValue;
    NatTextValue(1000000);
    var s := NatText(1000000);
    SevenDigits();
    assert PadZeros(s) == s;
    SevenDigitFraction(s);
  }

  lemma SevenDigits()
    ensures |NatText(1000000)| == 7
  {
    assert |NatText(1)| == 1;
    assert |NatText(100)| == 3;
    assert |NatText(10000)| == 5;
  }

  lemma SevenDigitFraction(s: string)
    requires AllDigits(s) && |s| == 7
    ensures FracValue(s) == DigitsValue(s) as real / 10000000.0
  {
    SixDigits();
  }

  // ----- what the text reads back as -----

  lemma BodyParts(n: string, frac: string)
    requires AllDigits(n)
    ensures var body := n + ("." + frac);
            Find(body, '.') == |n| < |body| && body[..|n|] == n && body[|n| + 1..] == frac
  {
    var body := n + ("." + frac);
    forall j | 0 <= j < |n| ensures body[j] != '.' { assert body[j] == n[j]; }
    FindIs(body, '.', |n|);
  }

  lemma SignedParts(i: int, rest: string)
    ensures var s, n := IntText(i) + rest, NatText(if i < 0 then -i else i);
            if i < 0 then s[0] == '-' && s[1..] == n + rest else s == n + rest && s[0] != '-'
  {
    var n := NatText(if i < 0 then -i else i);
    assert IsDigit(n[0]);
  }

  lemma ReadText(i: int, frac: string)
    requires AllDigits(frac)
    ensures var s := IntText(i) + ("." + frac);
            IsDecimal(s) && ReadDecimal(s) == if i < 0 then i as real - FracValue(frac) else i as real + FracValue(frac)
  {
    hide FracValue, Find, IntText, NatText, DigitsValue;
    var m: nat := if i < 0 then -i else i;
    NatTextValue(m);
    BodyParts(NatText(m), frac);
    SignedParts(i, "." + frac);
    assert IntText(i) + ("." + frac) != "";
  }

  lemma ReadInt(i: int)
    ensures IsDecimal(IntText(i)) && ReadDecimal(IntText(i)) == i as real
  {
    var n := NatText(if i < 0 then -i else i);
    NatTextValue(if i < 0 then -i else i);
    if i < 0 { assert IntText(i)[1..] == n; } else { assert IsDigit(n[0]); }
    var f := Find(n, '.');
    assert f == |n|;
    assert n[..|n|] == n;
  }

  /** Where the printed value is meant to be right: the sign is not lost and the fraction does not
      round up to a whole unit. */
  predicate Faithful(v: real) {
    Frac(v) < 0.9999995 && (v >= 0.0 || v <= -1.0 || v > -0.0000005)
  }

  function Distance(a: real, b: real): real {
    if a < b then b - a else a - b
  }

  lemma MicrosClose(v: real)
    ensures 0.0 <= Frac(v) < 1.0 && 0 <= Micros(v) <= 1000000
    ensures Distance(Micros(v) as real / 1000000.0, Frac(v)) <= 0.0000005
    ensures Micros(v) < 1000000 <==> Frac(v) < 0.9999995
    ensures Micros(v) == 0 <==> Frac(v) < 0.0000005
    ensures v == if v >= 0.0 then Trunc(v) as real + Frac(v) else Trunc(v) as real - Frac(v)
    ensures Trunc(v) < 0 <==> v <= -1.0
  {
  }

  /** The text read back is within half a millionth of the value exactly for the faithful values. */
  lemma PrintedWithin(v: real)
    ensures IsDecimal(FloatText(v))
    ensures Distance(ReadDecimal(FloatText(v)), v) <= 0.0000005 <==> Faithful(v)
  {
    hide IsDecimal, ReadDecimal, FracValue, Frac, Trunc, TrimZeros, PadZeros, Micros;
    MicrosClose(v);
    if Frac(v) > 0.0000001 {
      var n := Micros(v);
      assert IntText(n) == NatText(n);
      FractionWorth(n);
      ReadText(Trunc(v), TrimZeros(PadZeros(NatText(n))));
    } else {
      ReadInt(Trunc(v));
    }
  }
}
