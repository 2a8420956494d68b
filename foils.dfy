/** Attenuation correction from the foil-insertion code of one scan point
    (`foil_attenuation` in pilroi/data.py).

    The code is written to the data file as a decimal number whose digits say which
    of the four foils were in the beam ("0011" is stored as 11). Decoding spells the
    code in decimal, left-pads it with zeros to four digits and forms the exponent
    sum of digit_i * foils_i; the attenuation factor is the exponential of that sum.
    The exponential is a parameter `exp` of the model. */
module Foils {

  /** Number of foils, and so of digits in a decoded code. */
  const FoilCount: nat := 4

  /** Decimal digits of `n`, most significant first, as `str(n)` spells them ("0" for 0). */
  function Digits(n: nat): (ds: seq<nat>)
    ensures 1 <= |ds|
    ensures forall i :: 0 <= i < |ds| ==> ds[i] < 10
  {
    if n < 10 then [n] else Digits(n / 10) + [n % 10]
  }

  /** The number a list of decimal digits denotes, most significant first. */
  function Value(ds: seq<nat>): nat
  {
    if ds == [] then 0 else Value(ds[..|ds| - 1]) * 10 + ds[|ds| - 1]
  }

  /** Spelling a number in decimal and reading it back gives the number. */
  lemma {:induction false} DigitsDenote(n: nat)
    ensures Value(Digits(n)) == n
  {
    if n >= 10 {
      DigitsDenote(n / 10);
      var ds := Digits(n / 10) + [n % 10];
      assert ds[..|ds| - 1] == Digits(n / 10);
    }
  }

  /** A code below 10000 has at most four digits; a larger one has more than four. */
  lemma {:induction false} DigitsCount(n: nat)
    ensures n < 10000 <==> |Digits(n)| <= 4
  {
    if n >= 10 {
      DigitsCount(n / 10);
      if n / 10 >= 10 {
        DigitsCount(n / 100);
        if n / 100 >= 10 {
          DigitsCount(n / 1000);
        }
      }
    }
  }

  /** `k` rounds of `foil_insertion.insert(0, 0)`. */
  function InsertZeros(ds: seq<nat>, k: nat): seq<nat>
  {
    if k == 0 then ds else [0] + InsertZeros(ds, k - 1)
  }

  /** Every insertion adds exactly one element. */
  lemma {:induction false} InsertZerosLength(ds: seq<nat>, k: nat)
    ensures |InsertZeros(ds, k)| == |ds| + k
  {
    if k > 0 {
      InsertZerosLength(ds, k - 1);
    }
  }

  /** Leading zeros keep the denoted number. */
  lemma {:induction false} LeadingZero(ds: seq<nat>)
    ensures Value([0] + ds) == Value(ds)
  {
    if ds != [] {
      var t := [0] + ds;
      assert t[..|t| - 1] == [0] + ds[..|ds| - 1];
      LeadingZero(ds[..|ds| - 1]);
    }
  }

  lemma {:induction false} InsertZerosValue(ds: seq<nat>, k: nat)
    ensures Value(InsertZeros(ds, k)) == Value(ds)
  {
    if k > 0 {
      InsertZerosValue(ds, k - 1);
      LeadingZero(InsertZeros(ds, k - 1));
    }
  }

  /** The inserted zeros come first and the original digits follow unchanged. */
  lemma {:induction false} InsertZerosLayout(ds: seq<nat>, k: nat)
    ensures |InsertZeros(ds, k)| == |ds| + k
    ensures forall i :: 0 <= i < k ==> InsertZeros(ds, k)[i] == 0
    ensures InsertZeros(ds, k)[k..] == ds
  {
    InsertZerosLength(ds, k);
    if k > 0 {
      InsertZerosLayout(ds, k - 1);
    }
  }

  /** The padding loop never reaches four entries once the code has more than four
      digits: insertion only lengthens the list, so `foil_attenuation` would not return. */
  lemma PaddingNeverStops(code: nat, k: nat)
    requires code >= 10000
    ensures |InsertZeros(Digits(code), k)| != FoilCount
  {
    DigitsCount(code);
    InsertZerosLength(Digits(code), k);
  }

  /** Foil-insertion code of at most four digits: the codes for which decoding ends. */
  predicate ValidCode(code: nat)
  {
    code < 10000
  }

  /** The decoded insertion list: the digits of `code` with zeros in front, four in all,
      still denoting `code`. */
  function FoilBits(code: nat): (bits: seq<nat>)
    requires ValidCode(code)
    ensures |bits| == FoilCount
    ensures Value(bits) == code
  {
    DigitsCount(code);
    var ds := Digits(code);
    InsertZerosLength(ds, FoilCount - |ds|);
    InsertZerosValue(ds, FoilCount - |ds|);
    DigitsDenote(code);
    InsertZeros(ds, FoilCount - |ds|)
  }

  /** The decoded list has four entries, all decimal digits, that still denote `code`:
      the padding zeros are at the front and the digits of the code follow them. */
  lemma FoilBitsShape(code: nat)
    requires ValidCode(code)
    ensures |FoilBits(code)| == FoilCount && |Digits(code)| <= FoilCount
    ensures forall i :: 0 <= i < FoilCount ==> FoilBits(code)[i] < 10
    ensures Value(FoilBits(code)) == code
    ensures FoilBits(code)[FoilCount - |Digits(code)|..] == Digits(code)
    ensures forall i :: 0 <= i < FoilCount - |Digits(code)| ==> FoilBits(code)[i] == 0
  {
    DigitsCount(code);
    var ds := Digits(code);
    InsertZerosLayout(ds, FoilCount - |ds|);
    InsertZerosValue(ds, FoilCount - |ds|);
    DigitsDenote(code);
    var bits := FoilBits(code);
    forall i | 0 <= i < FoilCount
      ensures bits[i] < 10
    {
      if i >= FoilCount - |ds| {
        assert bits[i] == bits[FoilCount - |ds|..][i - (FoilCount - |ds|)];
      }
    }
  }

  /** The stored code 11 stands for foils three and four: [0, 0, 1, 1]. */
  lemma ElevenDecodes()
    ensures FoilBits(11) == [0, 0, 1, 1]
  {
    assert Digits(11) == [1, 1];
    assert InsertZeros([1, 1], 1) == [0, 1, 1];
    assert InsertZeros([1, 1], 2) == [0, 0, 1, 1];
  }

  /** Sum of the first `n` products bits[i] * foils[i], added left to right as `sum` does. */
  function Dot(foils: seq<real>, bits: seq<nat>, n: nat): real
    requires n <= |foils| && n <= |bits|
  {
    if n == 0 then 0.0 else Dot(foils, bits, n - 1) + bits[n - 1] as real * foils[n - 1]
  }

  /** The exponent of the attenuation factor. */
  function Exponent(foils: seq<real>, bits: seq<nat>): real
    requires FoilCount <= |foils| && |bits| == FoilCount
  {
    Dot(foils, bits, FoilCount)
  }

  /** The attenuation factor `exp(sum(bits[i] * foils[i]))` of a code: the exponential of
      the four decoded digits, each weighting the coefficient of its foil. */
  function Attenuation(exp: real -> real, foils: seq<real>, code: nat): (a: real)
    requires FoilCount <= |foils| && ValidCode(code)
    ensures a == exp(Weighted(foils, FoilBits(code)))
  {
    ExponentTerms(foils, FoilBits(code));
    exp(Exponent(foils, FoilBits(code)))
  }

  /** `sum([bits[i] * foils[i] for i in range(4)])` written out term by term. */
  function Weighted(foils: seq<real>, bits: seq<nat>): real
    requires FoilCount <= |foils| && |bits| == FoilCount
  {
    bits[0] as real * foils[0] + bits[1] as real * foils[1] + bits[2] as real * foils[2] + bits[3] as real * foils[3]
  }

  /** The exponent adds the coefficient of exactly the foils whose digit is set, weighted
      by the digit. */
  lemma ExponentTerms(foils: seq<real>, bits: seq<nat>)
    requires FoilCount <= |foils| && |bits| == FoilCount
    ensures Exponent(foils, bits) == Weighted(foils, bits)
  {
    assert Dot(foils, bits, 1) == bits[0] as real * foils[0];
    assert Dot(foils, bits, 2) == Dot(foils, bits, 1) + bits[1] as real * foils[1];
    assert Dot(foils, bits, 3) == Dot(foils, bits, 2) + bits[2] as real * foils[2];
  }

  /** With no foil inserted (code 0) the exponent is 0 and the factor is exp(0) = 1. */
  lemma NoFoilNoAttenuation(exp: real -> real, foils: seq<real>)
    requires FoilCount <= |foils| && exp(0.0) == 1.0
    ensures FoilBits(0) == [0, 0, 0, 0]
    ensures Exponent(foils, FoilBits(0)) == 0.0
    ensures Attenuation(exp, foils, 0) == 1.0
  {
    assert InsertZeros([0], 1) == [0, 0];
    assert InsertZeros([0], 2) == [0, 0, 0];
    assert FoilBits(0) == [0, 0, 0, 0];
    ExponentTerms(foils, FoilBits(0));
  }

  /** Code 11 with coefficients [0, 0, 0.1, 0.2] gives the exponent 0.3. */
  lemma ElevenExponent(exp: real -> real)
    ensures Attenuation(exp, [0.0, 0.0, 0.1, 0.2], 11) == exp(0.3)
  {
    ElevenDecodes();
    ExponentTerms([0.0, 0.0, 0.1, 0.2], [0, 0, 1, 1]);
  }

  /** `foil_attenuation(foils, code)`: spell the code in decimal, insert zeros at the front
      until four digits remain, and return exp of the weighted sum. */
  method FoilAttenuation(exp: real -> real, foils: seq<real>, code: nat) returns (a: real)
    requires FoilCount <= |foils| && ValidCode(code)
    ensures a == Attenuation(exp, foils, code)
  {
    DigitsCount(code);
    var bits := Digits(code);
    ghost var k := 0;
    while |bits| != FoilCount
      invariant |bits| <= FoilCount
      invariant bits == InsertZeros(Digits(code), k)
      invariant |bits| == |Digits(code)| + k
      decreases FoilCount - |bits|
    {
      bits := [0] + bits;
      k := k + 1;
    }
    a := exp(Exponent(foils, bits));
  }
}
