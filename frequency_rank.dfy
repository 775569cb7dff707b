/** The digit-frequency-rank debugger (debug-digit-frequency-rank.js): a
    ten-bucket histogram of generated digits, the buckets ranked by count,
    the rank lookup of the mock calculation, and the two rule tables that
    turn ranks into signal and strategy tags.

    `Math.random()` draws are parameters: each generated digit consumes a
    pair (bias draw, pick draw), both in [0, 1). */
module FrequencyRank {
  import opened JsSemantics

  // ---------------------------------------------------------------------
  // Histogram
  // ---------------------------------------------------------------------

  type Digit = d: int | 0 <= d < 10

  predicate AllDigits(digits: seq<int>)
  {
    forall i :: 0 <= i < |digits| ==> 0 <= digits[i] < 10
  }

  /** `digitCounts` after `digitCounts[digit]++` for every digit, in order. */
  function Tally(digits: seq<int>): (counts: seq<nat>)
    requires AllDigits(digits)
    ensures |counts| == 10
  {
    if digits == [] then seq(10, _ => 0)
    else
      var c := Tally(digits[..|digits| - 1]);
      var d := digits[|digits| - 1];
      c[d := c[d] + 1]
  }

  /** Entry `d` of the histogram is the number of occurrences of `d`. */
  lemma {:induction false} TallyCounts(digits: seq<int>)
    requires AllDigits(digits)
    ensures forall d :: 0 <= d < 10 ==> Tally(digits)[d] == multiset(digits)[d]
  {
    if digits != [] {
      var init, d := digits[..|digits| - 1], digits[|digits| - 1];
      assert digits == init + [d];
      assert multiset(digits) == multiset(init) + multiset{d};
      TallyCounts(init);
    }
  }

  /** The ten counts sum to the number of digits. */
  lemma {:induction false} TallySum(digits: seq<int>)
    requires AllDigits(digits)
    ensures Sum(Tally(digits)) == |digits|
  {
    if digits == [] {
      SumZeros(Tally(digits));
    } else {
      var init, d := digits[..|digits| - 1], digits[|digits| - 1];
      assert digits == init + [d];
      assert AllDigits(init);
      TallySum(init);
      TallySnoc(init, d);
      SumIncrement(Tally(init), d);
    }
  }

  // ---------------------------------------------------------------------
  // Biased generation
  // ---------------------------------------------------------------------

  /** One generated digit: below 0.2 the bias draw picks from 0..2, below
      0.4 from 8..9, otherwise from 0..9. */
  function BiasedDigit(bias: real, pick: real): (d: int)
    requires 0.0 <= pick < 1.0
    ensures 0 <= d < 10
    ensures bias < 0.2 ==> d <= 2
    ensures 0.2 <= bias < 0.4 ==> 8 <= d
  {
    if bias < 0.2 then RandomBelow(pick, 3)
    else if bias < 0.4 then RandomBelow(pick, 2) + 8
    else RandomBelow(pick, 10)
  }

  predicate ValidDraws(draws: seq<(real, real)>)
  {
    forall i :: 0 <= i < |draws| ==> 0.0 <= draws[i].1 < 1.0
  }

  /** The digits generated from a run of draws, in order. */
  function BiasedDigits(draws: seq<(real, real)>): (digits: seq<int>)
    requires ValidDraws(draws)
    ensures |digits| == |draws| && AllDigits(digits)
  {
    if draws == [] then []
    else
      var last := draws[|draws| - 1];
      BiasedDigits(draws[..|draws| - 1]) + [BiasedDigit(last.0, last.1)]
  }

  lemma TallySnoc(digits: seq<int>, d: Digit)
    requires AllDigits(digits)
    ensures AllDigits(digits + [d])
    ensures Tally(digits + [d]) == Tally(digits)[d := Tally(digits)[d] + 1]
  {
    assert (digits + [d])[..|digits|] == digits;
  }

  lemma BiasedDigitsSnoc(draws: seq<(real, real)>, i: nat)
    requires ValidDraws(draws) && i < |draws|
    ensures BiasedDigits(draws[..i + 1]) == BiasedDigits(draws[..i]) + [BiasedDigit(draws[i].0, draws[i].1)]
  {
    assert draws[..i + 1][..i] == draws[..i];
  }

  // ---------------------------------------------------------------------
  // Ranking
  // ---------------------------------------------------------------------

  datatype Bucket = Bucket(digit: Digit, count: nat)

  /** The sort comparator: higher count first, then lower digit. */
  predicate Before(a: Bucket, b: Bucket)
  {
    a.count > b.count || (a.count == b.count && a.digit < b.digit)
  }

  /** Every bucket comes strictly before every later one. */
  predicate Ordered(s: seq<Bucket>)
  {
    forall i, j :: 0 <= i < j < |s| ==> Before(s[i], s[j])
  }

  predicate DistinctDigits(s: seq<Bucket>)
  {
    forall i, j :: 0 <= i < j < |s| ==> s[i].digit != s[j].digit
  }

  function Insert(x: Bucket, s: seq<Bucket>): (r: seq<Bucket>)
    ensures |r| == |s| + 1 && multiset(r) == multiset(s) + multiset{x}
  {
    if s == [] then [x]
    else if Before(s[0], x) then
      assert s == [s[0]] + s[1..];
      [s[0]] + Insert(x, s[1..])
    else [x] + s
  }

  /** The library sort with the comparator above, as an insertion sort. */
  function Sort(s: seq<Bucket>): (r: seq<Bucket>)
    ensures |r| == |s| && multiset(r) == multiset(s)
  {
    if s == [] then []
    else
      assert s == [s[0]] + s[1..];
      Insert(s[0], Sort(s[1..]))
  }

  lemma {:induction false} InsertOrdered(x: Bucket, s: seq<Bucket>)
    requires Ordered(s)
    requires forall i :: 0 <= i < |s| ==> s[i].digit != x.digit
    ensures Ordered(Insert(x, s))
  {
    if s != [] && Before(s[0], x) {
      var tail := Insert(x, s[1..]);
      InsertOrdered(x, s[1..]);
      forall k | 0 <= k < |tail|
        ensures Before(s[0], tail[k])
      {
        assert tail[k] in multiset(s[1..]) + multiset{x};
        if tail[k] != x {
          assert tail[k] in s[1..];
        }
      }
    }
  }

  lemma {:induction false} SortOrdered(s: seq<Bucket>)
    requires DistinctDigits(s)
    ensures Ordered(Sort(s))
  {
    if s != [] {
      var rest := Sort(s[1..]);
      SortOrdered(s[1..]);
      forall i | 0 <= i < |rest|
        ensures rest[i].digit != s[0].digit
      {
        assert rest[i] in multiset(s[1..]);
        var j :| 0 <= j < |s[1..]| && s[1..][j] == rest[i];
        assert s[j + 1] == rest[i];
      }
      InsertOrdered(s[0], rest);
    }
  }

  /** `digitCounts.map((count, digit) => ({ digit, count }))`. */
  function Buckets(counts: seq<nat>): (b: seq<Bucket>)
    requires |counts| == 10
    ensures |b| == 10 && DistinctDigits(b)
    ensures forall d :: 0 <= d < 10 ==> b[d] == Bucket(d, counts[d])
  {
    seq(10, d requires 0 <= d < 10 => Bucket(d, counts[d]))
  }

  /** `sorted`: the ten buckets in rank order. */
  function Ranking(counts: seq<nat>): (r: seq<Bucket>)
    requires |counts| == 10
    ensures |r| == 10
  {
    Sort(Buckets(counts))
  }

  /** The ranking is a permutation of the ten buckets (each digit once,
      with its own count), strictly ordered by count descending and digit
      ascending on ties. */
  lemma RankingFacts(counts: seq<nat>)
    requires |counts| == 10
    ensures multiset(Ranking(counts)) == multiset(Buckets(counts))
    ensures Ordered(Ranking(counts))
    ensures forall i :: 0 <= i < 10 ==> Ranking(counts)[i].count == counts[Ranking(counts)[i].digit]
    ensures forall d :: 0 <= d < 10 ==> exists i :: 0 <= i < 10 && Ranking(counts)[i] == Buckets(counts)[d]
  {
    var r, b := Ranking(counts), Buckets(counts);
    SortOrdered(b);
    forall i | 0 <= i < 10
      ensures r[i].count == counts[r[i].digit]
    {
      assert r[i] in multiset(b);
      var k :| 0 <= k < 10 && b[k] == r[i];
    }
    forall d | 0 <= d < 10
      ensures exists i :: 0 <= i < 10 && r[i] == b[d]
    {
      assert b[d] in multiset(r);
      var i :| 0 <= i < 10 && r[i] == b[d];
    }
  }

  /** The position of digit `d` in the ranking. */
  lemma RankOf(counts: seq<nat>, d: int) returns (i: int)
    requires |counts| == 10 && 0 <= d < 10
    ensures 0 <= i < 10 && Ranking(counts)[i] == Bucket(d, counts[d])
  {
    RankingFacts(counts);
    i :| 0 <= i < 10 && Ranking(counts)[i] == Buckets(counts)[d];
  }

  /** The first-ranked digit occurs at least as often as any digit. */
  lemma MostFrequent(counts: seq<nat>)
    requires |counts| == 10
    ensures forall d :: 0 <= d < 10 ==> counts[Ranking(counts)[0].digit] >= counts[d]
  {
    var r := Ranking(counts);
    RankingFacts(counts);
    forall d | 0 <= d < 10
      ensures counts[r[0].digit] >= counts[d]
    {
      var i := RankOf(counts, d);
    }
  }

  /** The last-ranked digit occurs at most as often as any digit (possibly
      never). */
  lemma LeastFrequent(counts: seq<nat>)
    requires |counts| == 10
    ensures forall d :: 0 <= d < 10 ==> counts[Ranking(counts)[9].digit] <= counts[d]
  {
    var r := Ranking(counts);
    RankingFacts(counts);
    forall d | 0 <= d < 10
      ensures counts[r[9].digit] <= counts[d]
    {
      var i := RankOf(counts, d);
    }
  }

  /** The second-ranked digit is at least as frequent as every digit other
      than the first-ranked one; the ninth at most as frequent as every
      digit other than the last-ranked one. */
  lemma RunnersUp(counts: seq<nat>)
    requires |counts| == 10
    ensures forall d :: 0 <= d < 10 && d != Ranking(counts)[0].digit ==>
      counts[Ranking(counts)[1].digit] >= counts[d]
    ensures forall d :: 0 <= d < 10 && d != Ranking(counts)[9].digit ==>
      counts[Ranking(counts)[8].digit] <= counts[d]
  {
    var r := Ranking(counts);
    RankingFacts(counts);
    forall d | 0 <= d < 10 && d != r[0].digit
      ensures counts[r[1].digit] >= counts[d]
    {
      var i := RankOf(counts, d);
    }
    forall d | 0 <= d < 10 && d != r[9].digit
      ensures counts[r[8].digit] <= counts[d]
    {
      var i := RankOf(counts, d);
    }
  }

  /** `d` ranks first exactly when its bucket comes before every other. */
  lemma MostIs(counts: seq<nat>, d: int)
    requires |counts| == 10 && 0 <= d < 10
    ensures Ranking(counts)[0].digit == d <==>
      forall e :: 0 <= e < 10 && e != d ==> Before(Bucket(d, counts[d]), Bucket(e, counts[e]))
  {
    var r := Ranking(counts);
    RankingFacts(counts);
    var i := RankOf(counts, d);
    if r[0].digit == d {
      forall e | 0 <= e < 10 && e != d
        ensures Before(Bucket(d, counts[d]), Bucket(e, counts[e]))
      {
        var j := RankOf(counts, e);
        assert Before(r[0], r[j]);
      }
    } else {
      var k := r[0].digit;
      assert Before(r[0], r[i]);
      assert !Before(Bucket(d, counts[d]), Bucket(k, counts[k]));
    }
  }

  /** `d` ranks last exactly when every other bucket comes before it. */
  lemma LeastIs(counts: seq<nat>, d: int)
    requires |counts| == 10 && 0 <= d < 10
    ensures Ranking(counts)[9].digit == d <==>
      forall e :: 0 <= e < 10 && e != d ==> Before(Bucket(e, counts[e]), Bucket(d, counts[d]))
  {
    var r := Ranking(counts);
    RankingFacts(counts);
    var i := RankOf(counts, d);
    if r[9].digit == d {
      forall e | 0 <= e < 10 && e != d
        ensures Before(Bucket(e, counts[e]), Bucket(d, counts[d]))
      {
        var j := RankOf(counts, e);
        assert Before(r[j], r[9]);
      }
    } else {
      var k := r[9].digit;
      assert Before(r[i], r[9]);
      assert !Before(Bucket(k, counts[k]), Bucket(d, counts[d]));
    }
  }

  /** With no digits at all every count ties, so the ranking is by digit:
      most is 0 and least is 9. */
  lemma AllZeroRanking()
    ensures Ranking(seq(10, _ => 0))[0].digit == 0
    ensures Ranking(seq(10, _ => 0))[9].digit == 9
  {
    var counts: seq<nat> := seq(10, _ => 0);
    MostIs(counts, 0);
    LeastIs(counts, 9);
  }

  /** Digits 3, 3, 7, 7: 3 and 7 tie for most and the lower digit wins;
      the least is 9, a digit that never occurs. */
  lemma TieBreakExample(digits: seq<int>)
    requires digits == [3, 3, 7, 7]
    ensures Ranking(Tally(digits))[0].digit == 3
    ensures Ranking(Tally(digits))[9].digit == 9
  {
    var counts := Tally(digits);
    TallyCounts(digits);
    assert multiset(digits) == multiset{3, 3, 7, 7};
    assert counts[3] == 2 && counts[7] == 2;
    forall e | 0 <= e < 10 && e != 3 && e != 7
      ensures counts[e] == 0
    {
      assert e !in multiset(digits);
    }
    MostIs(counts, 3);
    LeastIs(counts, 9);
  }

  // ---------------------------------------------------------------------
  // Generation and the mock rank calculation
  // ---------------------------------------------------------------------

  /** `generateFrequencyTestData(count)` with `count == |draws|`: the
      generated digits, their histogram (filled in one increment per
      digit) and the ranking of the buckets. */
  method GenerateFrequencyTestData(draws: seq<(real, real)>)
    returns (digits: seq<int>, digitCounts: seq<nat>, sorted: seq<Bucket>)
    requires ValidDraws(draws)
    ensures digits == BiasedDigits(draws)
    ensures digitCounts == Tally(BiasedDigits(draws)) && Sum(digitCounts) == |draws|
    ensures sorted == Ranking(Tally(BiasedDigits(draws)))
  {
    var counts := new nat[10](_ => 0);
    digits := [];
    var i := 0;
    while i < |draws|
      invariant 0 <= i <= |draws|
      invariant digits == BiasedDigits(draws[..i])
      invariant forall d :: 0 <= d < 10 ==> counts[d] == Tally(digits)[d]
    {
      var digit := BiasedDigit(draws[i].0, draws[i].1);
      BiasedDigitsSnoc(draws, i);
      TallySnoc(digits, digit);
      counts[digit] := counts[digit] + 1;
      digits := digits + [digit];
      i := i + 1;
    }
    assert draws[..|draws|] == draws;
    digitCounts := counts[..];
    assert digitCounts == Tally(digits);
    TallySum(digits);
    sorted := Ranking(digitCounts);
  }

  /** The `switch (rank)` of `calculateMockFrequencyRank` over `sorted`;
      an unknown rank falls back to the first entry. */
  function SelectRank(rank: string, sorted: seq<Bucket>): (digit: int)
    requires |sorted| > 0
    ensures exists i :: 0 <= i < |sorted| && sorted[i].digit == digit
  {
    if rank == "most" then sorted[0].digit
    else if rank == "least" then sorted[|sorted| - 1].digit
    else if rank == "second_most" then (if |sorted| > 1 then sorted[1].digit else sorted[0].digit)
    else if rank == "second_least" then
      (if |sorted| > 1 then sorted[|sorted| - 2].digit else sorted[|sorted| - 1].digit)
    else sorted[0].digit
  }

  /** On a ten-entry ranking the single-entry fallbacks never fire:
      second_most is entry 1 and second_least entry 8. */
  lemma RankPositions(rank: string, sorted: seq<Bucket>)
    requires |sorted| == 10
    ensures SelectRank(rank, sorted) == sorted[
      if rank == "least" then 9
      else if rank == "second_most" then 1
      else if rank == "second_least" then 8
      else 0].digit
  {
  }

  /** `calculateMockFrequencyRank(rank, count)` on freshly generated data:
      the digit of the requested rank. "most" (and any unknown rank) is a
      most frequent digit and "least" a least frequent one; the runners-up
      are beaten only by those. */
  method CalculateMockFrequencyRank(rank: string, draws: seq<(real, real)>) returns (digit: int)
    requires ValidDraws(draws)
    ensures var counts := Tally(BiasedDigits(draws));
      0 <= digit < 10 &&
      digit == SelectRank(rank, Ranking(counts)) &&
      (rank == "least" ==> forall d :: 0 <= d < 10 ==> counts[digit] <= counts[d]) &&
      (rank == "second_most" ==> forall d :: 0 <= d < 10 && d != Ranking(counts)[0].digit ==>
        counts[digit] >= counts[d]) &&
      (rank == "second_least" ==> forall d :: 0 <= d < 10 && d != Ranking(counts)[9].digit ==>
        counts[digit] <= counts[d]) &&
      (rank != "least" && rank != "second_most" && rank != "second_least" ==>
        forall d :: 0 <= d < 10 ==> counts[digit] >= counts[d])
  {
    var digits, digitCounts, sorted := GenerateFrequencyTestData(draws);
    RankingFacts(digitCounts);
    MostFrequent(digitCounts);
    LeastFrequent(digitCounts);
    RunnersUp(digitCounts);
    RankPositions(rank, sorted);
    digit := SelectRank(rank, sorted);
  }

  // ---------------------------------------------------------------------
  // Trading signals
  // ---------------------------------------------------------------------

  datatype SignalKind = HighDigitBias | LowDigitBias | ExtremeAvoidance | RangeConcentration

  datatype Confidence = High | Medium | Low

  /** A pushed signal: its type, its confidence, and the number its action
      and reason texts quote (the most frequent digit, the least frequent
      digit or the range). */
  datatype TradingSignal = TradingSignal(kind: SignalKind, confidence: Confidence, subject: int)

  /** The position of each kind in the order the rules are tried. */
  function Position(kind: SignalKind): nat
  {
    match kind
    case HighDigitBias => 0
    case LowDigitBias => 1
    case ExtremeAvoidance => 2
    case RangeConcentration => 3
  }

  predicate HasKind(signals: seq<TradingSignal>, kind: SignalKind)
  {
    exists i :: 0 <= i < |signals| && signals[i].kind == kind
  }

  /** `generateTradingSignals(most, least, secondMost, secondLeast)`: each
      signal is present exactly when its rule fires, with the rule's
      confidence and subject, in rule order and at most once; the two bias
      signals never co-occur. */
  method GenerateTradingSignals(most: int, least: int, secondMost: int, secondLeast: int)
    returns (signals: seq<TradingSignal>)
    ensures HasKind(signals, HighDigitBias) <==> most >= 7
    ensures HasKind(signals, LowDigitBias) <==> most <= 2
    ensures HasKind(signals, ExtremeAvoidance) <==> least == 0 || least == 9
    ensures HasKind(signals, RangeConcentration) <==> Abs(most - least) <= 3
    ensures !(HasKind(signals, HighDigitBias) && HasKind(signals, LowDigitBias))
    ensures forall i :: 0 <= i < |signals| ==> signals[i] == match signals[i].kind
      case HighDigitBias => TradingSignal(HighDigitBias, if most >= 8 then High else Medium, most)
      case LowDigitBias => TradingSignal(LowDigitBias, if most <= 1 then High else Medium, most)
      case ExtremeAvoidance => TradingSignal(ExtremeAvoidance, Medium, least)
      case RangeConcentration => TradingSignal(RangeConcentration, Low, Abs(most - least))
    ensures forall i, j :: 0 <= i < j < |signals| ==> Position(signals[i].kind) < Position(signals[j].kind)
  {
    signals := [];
    ghost var high, low, extreme, concentration := 0, 0, 0, 0;
    if most >= 7 {
      high := |signals|;
      signals := signals + [TradingSignal(HighDigitBias, if most >= 8 then High else Medium, most)];
    }
    if most <= 2 {
      low := |signals|;
      signals := signals + [TradingSignal(LowDigitBias, if most <= 1 then High else Medium, most)];
    }
    if least == 0 || least == 9 {
      extreme := |signals|;
      signals := signals + [TradingSignal(ExtremeAvoidance, Medium, least)];
    }
    var range := Abs(most - least);
    if range <= 3 {
      concentration := |signals|;
      signals := signals + [TradingSignal(RangeConcentration, Low, range)];
    }
    if most >= 7 {
      assert signals[high].kind == HighDigitBias;
    }
    if most <= 2 {
      assert signals[low].kind == LowDigitBias;
    }
    if least == 0 || least == 9 {
      assert signals[extreme].kind == ExtremeAvoidance;
    }
    if range <= 3 {
      assert signals[concentration].kind == RangeConcentration;
    }
  }

  // ---------------------------------------------------------------------
  // Strategy rules
  // ---------------------------------------------------------------------

  datatype Strategy = HighDigitMomentum | LowDigitAvoidance | WideSpread | NarrowSpread

  function StrategyPosition(s: Strategy): nat
  {
    match s
    case HighDigitMomentum => 0
    case LowDigitAvoidance => 1
    case WideSpread => 2
    case NarrowSpread => 3
  }

  /** The recommendation rules of `analyzeFrequencyStrategy`: momentum when
      the most frequent digit is high, avoidance when the least frequent is
      low, and the signed spread `most - least` wide (at least 6) or narrow
      (at most 2) but never both, in that order. */
  method AnalyzeFrequencyStrategy(most: int, secondMost: int, secondLeast: int, least: int)
    returns (strategies: seq<Strategy>)
    ensures HighDigitMomentum in strategies <==> most >= 7
    ensures LowDigitAvoidance in strategies <==> least <= 2
    ensures WideSpread in strategies <==> most - least >= 6
    ensures NarrowSpread in strategies <==> most - least <= 2
    ensures !(WideSpread in strategies && NarrowSpread in strategies)
    ensures forall i, j :: 0 <= i < j < |strategies| ==>
      StrategyPosition(strategies[i]) < StrategyPosition(strategies[j])
  {
    strategies := [];
    if most >= 7 {
      strategies := strategies + [HighDigitMomentum];
    }
    if least <= 2 {
      strategies := strategies + [LowDigitAvoidance];
    }
    var spread := most - least;
    if spread >= 6 {
      strategies := strategies + [WideSpread];
    } else if spread <= 2 {
      strategies := strategies + [NarrowSpread];
    }
  }
}
