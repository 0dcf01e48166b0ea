/** How many decimal places a number written in decimal needs. */
module Precisions {
  import opened Wrappers

  predicate IsDigit(c: char) { '0' <= c <= '9' }

  function DigitValue(c: char): (d: nat)
    requires IsDigit(c)
    ensures d <= 9 && (d == 0 <==> c == '0')
  {
    (c - '0') as nat
  }

  /** The index of the first dot; the length when there is none. */
  function DotIndex(s: string): (i: nat)
    ensures i <= |s| && (i < |s| ==> s[i] == '.') && forall j :: 0 <= j < i ==> s[j] != '.'
  {
    if s == [] || s[0] == '.' then 0 else 1 + DotIndex(s[1..])
  }

  /** Digits with at most one dot among them. */
  ghost predicate Numeral(s: string)
  {
    forall i :: 0 <= i < |s| && i != DotIndex(s) ==> IsDigit(s[i])
  }

  function Fraction(s: string): (ds: string)
  {
    if DotIndex(s) < |s| then s[DotIndex(s) + 1..] else []
  }

  ghost predicate AllDigits(ds: string)
  {
    forall i :: 0 <= i < |ds| ==> IsDigit(ds[i])
  }

  function WholeValue(ds: string): nat
    requires AllDigits(ds)
  {
    if ds == [] then 0 else 10 * WholeValue(ds[..|ds| - 1]) + DigitValue(ds[|ds| - 1])
  }

  /** The value of digits written after a dot. */
  function FractionValue(ds: string): real
    requires AllDigits(ds)
  {
    if ds == [] then 0.0 else (DigitValue(ds[0]) as real + FractionValue(ds[1..])) / 10.0
  }

  /** The number that a numeral denotes. */
  function Value(s: string): real
    requires Numeral(s)
  {
    WholeValue(s[..DotIndex(s)]) as real + FractionValue(Fraction(s))
  }

  /** `x` times ten to the power `p`. */
  function Shift(x: real, p: nat): real
  {
    if p == 0 then x else 10.0 * Shift(x, p - 1)
  }

  ghost predicate IsWhole(x: real)
  {
    x == x.Floor as real
  }

  /** `p` is the least power of ten that makes `x` whole. */
  ghost predicate LeastPlaces(x: real, p: nat)
  {
    IsWhole(Shift(x, p)) && forall q: nat :: q < p ==> !IsWhole(Shift(x, q))
  }

  lemma WholePlus(n: int, x: real)
    ensures IsWhole(n as real + x) <==> IsWhole(x)
  {
    assert (n as real + x).Floor == n + x.Floor;
  }

  lemma {:induction false} ShiftTenth(x: real, p: nat)
    requires p > 0
    ensures Shift(x, p) == Shift(10.0 * x, p - 1)
  {
    if p > 1 {
      ShiftTenth(x, p - 1);
    }
  }

  lemma {:induction false} ShiftPlus(n: int, x: real, p: nat) returns (m: int)
    ensures Shift(n as real + x, p) == m as real + Shift(x, p)
  {
    m := n;
    if p > 0 {
      m := ShiftPlus(n, x, p - 1);
      m := 10 * m;
    }
  }

  /** A whole part is irrelevant to where a number becomes whole. */
  lemma ShiftWholePlus(n: int, x: real, p: nat)
    ensures IsWhole(Shift(n as real + x, p)) <==> IsWhole(Shift(x, p))
  {
    var m := ShiftPlus(n, x, p);
    WholePlus(m, Shift(x, p));
  }

  lemma {:induction false} FractionBelowOne(ds: string)
    requires AllDigits(ds)
    ensures 0.0 <= FractionValue(ds) < 1.0
    ensures FractionValue(ds) == 0.0 <==> forall i :: 0 <= i < |ds| ==> ds[i] == '0'
  {
    if ds != [] {
      FractionBelowOne(ds[1..]);
      assert forall i :: 1 <= i < |ds| ==> ds[i] == ds[1..][i - 1];
    }
  }

  /** A fraction shifted by some places is whole exactly if only zeros follow them. */
  lemma {:induction false} WholeIffZeros(ds: string, p: nat)
    requires AllDigits(ds)
    ensures IsWhole(Shift(FractionValue(ds), p)) <==> forall i :: p <= i < |ds| ==> ds[i] == '0'
    decreases p
  {
    FractionBelowOne(ds);
    if p == 0 {
      assert FractionValue(ds).Floor == 0;
    } else if ds == [] {
      ShiftTenth(0.0, p);
      WholeIffZeros(ds, p - 1);
    } else {
      var rest := ds[1..];
      WholeIffZeros(rest, p - 1);
      ShiftTenth(FractionValue(ds), p);
      ShiftWholePlus(DigitValue(ds[0]), FractionValue(rest), p - 1);
      assert forall i :: 1 <= i < |ds| ==> ds[i] == rest[i - 1];
    }
  }

  lemma {:induction false} ValueWholeIff(s: string, p: nat)
    requires Numeral(s)
    ensures IsWhole(Shift(Value(s), p)) <==> forall i :: p <= i < |Fraction(s)| ==> Fraction(s)[i] == '0'
  {
    WholeIffZeros(Fraction(s), p);
    ShiftWholePlus(WholeValue(s[..DotIndex(s)]), FractionValue(Fraction(s)), p);
  }

  /** Anything but a numeral is an error; for a numeral the answer is the least number of places
      that holds its value exactly. */
  method PrecisionFromString(s: string) returns (precision: Outcome<nat>)
    ensures precision.Throws? <==> !Numeral(s)
    ensures precision.Returns? ==> LeastPlaces(Value(s), precision.value)
  {
    var size := |s|;
    var i := 0;
    while i < size
      invariant i <= size
      invariant forall k :: 0 <= k < i ==> s[k] != '.' && IsDigit(s[k])
    {
      if s[i] == '.' {
        break;
      }
      if !IsDigit(s[i]) {
        NotNumeral(s, i);
        return Throws;
      }
      i := i + 1;
    }
    DotFound(s, i);
    if size != 0 && i >= size - 1 {
      PlacesOf(s, 0);
      return Returns(0);
    }
    precision := CountPlaces(s, i);
  }

  /** The scan of the digits behind a dot at index `i`; an empty text has neither. */
  method CountPlaces(s: string, i: nat) returns (precision: Outcome<nat>)
    requires i == DotIndex(s) && (s == [] || i < |s|)
    requires forall k :: 0 <= k < i ==> IsDigit(s[k])
    ensures precision.Throws? <==> !Numeral(s)
    ensures precision.Returns? ==> LeastPlaces(Value(s), precision.value)
  {
    var j := i + 1;
    var lastNonZero := i;
    while j < |s|
      invariant i + 1 <= j && (s != [] ==> j <= |s|)
      invariant i <= lastNonZero < j
      invariant forall k :: i < k < j && k < |s| ==> IsDigit(s[k])
      invariant forall k :: lastNonZero < k < j && k < |s| ==> s[k] == '0'
      invariant lastNonZero > i ==> lastNonZero < |s| && s[lastNonZero] > '0'
    {
      if s[j] > '0' {
        lastNonZero := j;
      }
      if !IsDigit(s[j]) {
        return Throws;
      }
      j := j + 1;
    }
    PlacesOf(s, lastNonZero - i);
    precision := Returns(lastNonZero - i);
  }

  lemma NotNumeral(s: string, i: nat)
    requires i < |s| && s[i] != '.' && !IsDigit(s[i])
    ensures !Numeral(s)
  {
  }

  lemma DotFound(s: string, i: nat)
    requires i <= |s| && (i < |s| ==> s[i] == '.') && forall k :: 0 <= k < i ==> s[k] != '.'
    ensures DotIndex(s) == i
  {
  }

  lemma PlacesOf(s: string, p: nat)
    requires Numeral(s) && p <= |Fraction(s)|
    requires forall k :: p <= k < |Fraction(s)| ==> Fraction(s)[k] == '0'
    requires p > 0 ==> Fraction(s)[p - 1] != '0'
    ensures LeastPlaces(Value(s), p)
  {
    ValueWholeIff(s, p);
    forall q: nat | q < p
      ensures !IsWhole(Shift(Value(s), q))
    {
      ValueWholeIff(s, q);
    }
  }

  lemma {:induction false} FractionZero(ds: string)
    requires AllDigits(ds)
    ensures FractionValue(ds + "0") == FractionValue(ds)
  {
    if ds == [] {
      assert (ds + "0")[1..] == [];
    } else {
      FractionZero(ds[1..]);
      assert (ds + "0")[1..] == ds[1..] + "0";
    }
  }

  /** A zero written at the end of the decimals changes neither the value nor the precision. */
  lemma TrailingZero(s: string, p: nat)
    requires Numeral(s) && '.' in s
    ensures Numeral(s + "0") && Value(s + "0") == Value(s)
    ensures LeastPlaces(Value(s + "0"), p) <==> LeastPlaces(Value(s), p)
  {
    var t, i := s + "0", DotIndex(s);
    DotFound(t, i);
    assert t[..i] == s[..i] && Fraction(t) == Fraction(s) + "0";
    FractionZero(Fraction(s));
  }
}
