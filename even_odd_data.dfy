/** The even/odd data check of debug-even-odd-data.js: the digit formula
    applied to tick quotes, its parity, and Test 5's even and odd counts
    and percentages. Quotes are exact reals. */
module EvenOddData {
  import opened JsSemantics

  /** `Math.abs(Math.floor(quote * 10)) % 10`: the first digit after the
      decimal point of `|quote|` (for a non-negative quote). */
  function TenthsDigit(quote: real): (d: int)
    ensures 0 <= d < 10
    ensures quote >= 0.0 ==> d == (quote * 10.0).Floor % 10
  {
    Abs((quote * 10.0).Floor) % 10
  }

  /** For a quote written `whole.th` (tenths `t`, hundredths `h`) the
      formula yields `t`, not the last written digit `h`. */
  lemma TenthsDigitOfDecimal(whole: nat, t: nat, h: nat)
    requires t < 10 && h < 10
    ensures TenthsDigit(whole as real + t as real / 10.0 + h as real / 100.0) == t
  {
    var q := whole as real + t as real / 10.0 + h as real / 100.0;
    var n := whole * 10 + t;
    assert q * 10.0 == n as real + h as real / 10.0;
    assert n as real <= q * 10.0 < n as real + 1.0;
    assert (q * 10.0).Floor == n;
  }

  /** `isEven` of the tick listener: the formula's digit is even. */
  predicate IsEven(quote: real)
  {
    EvenDigit(TenthsDigit(quote))
  }

  /** `testTicks.map(...)` with the formula. */
  function Digits(quotes: seq<real>): (digits: seq<int>)
    ensures |digits| == |quotes|
    ensures forall i :: 0 <= i < |quotes| ==> digits[i] == TenthsDigit(quotes[i])
  {
    seq(|quotes|, i requires 0 <= i < |quotes| => TenthsDigit(quotes[i]))
  }

  predicate EvenDigit(d: int) { d % 2 == 0 }

  predicate OddDigit(d: int) { d % 2 == 1 }

  /** `digits.filter(d => d % 2 === 0).length`. */
  function EvenCount(quotes: seq<real>): nat
  {
    |Filter(Digits(quotes), EvenDigit)|
  }

  /** `digits.filter(d => d % 2 === 1).length`. */
  function OddCount(quotes: seq<real>): nat
  {
    |Filter(Digits(quotes), OddDigit)|
  }

  /** Test 5's even count is the number of quotes the tick listener would
      report as `isEven`. */
  lemma {:induction false} EvenCountIsEven(quotes: seq<real>)
    ensures EvenCount(quotes) == |Filter(quotes, IsEven)|
  {
    if quotes != [] {
      var init, last := quotes[..|quotes| - 1], quotes[|quotes| - 1];
      assert quotes == init + [last];
      assert Digits(quotes) == Digits(init) + [TenthsDigit(last)];
      EvenCountIsEven(init);
      FilterSnoc(Digits(init), TenthsDigit(last), EvenDigit);
      FilterSnoc(init, last, IsEven);
    }
  }

  /** Every digit is even or odd, so the two counts cover all quotes. */
  lemma ParityCountsCover(quotes: seq<real>)
    ensures EvenCount(quotes) + OddCount(quotes) == |quotes|
  {
    FilterPartition(Digits(quotes), EvenDigit, OddDigit);
  }

  /** The even and odd percentages `count / digits.length * 100`; both are
      NaN (`None`) when there are no quotes. */
  function ParityPercentages(quotes: seq<real>): (r: Option<(real, real)>)
    ensures r.None? <==> quotes == []
    ensures r.Some? ==> r.value.0 == (EvenCount(quotes) as real / |quotes| as real) * 100.0
    ensures r.Some? ==> r.value.1 == (OddCount(quotes) as real / |quotes| as real) * 100.0
    ensures r.Some? ==> r.value.0 + r.value.1 == 100.0
    ensures r.Some? ==> 0.0 <= r.value.0 <= 100.0 && 0.0 <= r.value.1 <= 100.0
  {
    if quotes == [] then None
    else
      ParityCountsCover(quotes);
      PercentsComplement(EvenCount(quotes), OddCount(quotes));
      PercentBounds(EvenCount(quotes), |quotes|);
      PercentBounds(OddCount(quotes), |quotes|);
      Some((Percent(EvenCount(quotes), |quotes|), Percent(OddCount(quotes), |quotes|)))
  }

  /** Test 5's quotes. */
  const TestTicks: seq<real> :=
    [123.40, 124.51, 125.62, 126.73, 127.84, 128.95, 129.06, 130.17, 131.28, 132.39]

  /** The formula on Test 5's quotes gives 4, 5, 6, 7, 8, 9, 0, 1, 2, 3:
      the tenths digits, not the hundredths digits 0 to 9 the listing
      annotates, though each has the same parity. */
  lemma TestTickDigits()
    ensures Digits(TestTicks) == [4, 5, 6, 7, 8, 9, 0, 1, 2, 3]
    ensures forall i :: 0 <= i < 10 ==> Digits(TestTicks)[i] % 2 == i % 2
  {
    TenthsDigitOfDecimal(123, 4, 0);
    TenthsDigitOfDecimal(124, 5, 1);
    TenthsDigitOfDecimal(125, 6, 2);
    TenthsDigitOfDecimal(126, 7, 3);
    TenthsDigitOfDecimal(127, 8, 4);
    TenthsDigitOfDecimal(128, 9, 5);
    TenthsDigitOfDecimal(129, 0, 6);
    TenthsDigitOfDecimal(130, 1, 7);
    TenthsDigitOfDecimal(131, 2, 8);
    TenthsDigitOfDecimal(132, 3, 9);
  }

  /** Digits that come in (even, odd) pairs have as many even as odd
      entries in every prefix made of whole pairs. */
  lemma {:induction false} AlternatingParities(digits: seq<int>, k: nat)
    requires 2 * k <= |digits|
    requires forall j :: 0 <= j < k ==> EvenDigit(digits[2 * j]) && OddDigit(digits[2 * j + 1])
    ensures |Filter(digits[..2 * k], EvenDigit)| == k && |Filter(digits[..2 * k], OddDigit)| == k
  {
    if k == 0 {
      assert digits[..0] == [];
    } else {
      AlternatingParities(digits, k - 1);
      var e, o := 2 * (k - 1), 2 * (k - 1) + 1;
      assert EvenDigit(digits[e]) && !OddDigit(digits[e]);
      assert OddDigit(digits[o]) && !EvenDigit(digits[o]);
      FilterPrefix(digits, e, EvenDigit);
      FilterPrefix(digits, o, EvenDigit);
      FilterPrefix(digits, e, OddDigit);
      FilterPrefix(digits, o, OddDigit);
    }
  }

  /** Test 5: five even and five odd digits, 50% each. */
  lemma ManualCalculation()
    ensures EvenCount(TestTicks) == 5 && OddCount(TestTicks) == 5
    ensures ParityPercentages(TestTicks) == Some((50.0, 50.0))
  {
    TestTickDigits();
    var digits := Digits(TestTicks);
    forall j | 0 <= j < 5
      ensures EvenDigit(digits[2 * j]) && OddDigit(digits[2 * j + 1])
    {
      assert digits[2 * j] % 2 == (2 * j) % 2 == 0;
      assert digits[2 * j + 1] % 2 == (2 * j + 1) % 2 == 1;
    }
    AlternatingParities(digits, 5);
    assert digits[..10] == digits;
    assert Percent(5, 10) == 50.0;
  }
}
