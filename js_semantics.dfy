/** Models of the JavaScript built-ins that the tick-analysis scripts rely on:
    `Array.prototype.slice` with a negated count, `every` and `filter`,
    `String.prototype.replace` with a string pattern, `includes`,
    `toLowerCase`, `parseInt` of one character, `parseFloat` of a decimal
    price, and `Math.floor(Math.random() * n)` with the random draw given. */
module JsSemantics {

  /** A value that may be JavaScript's NaN (`None`). */
  datatype Option<T> = None | Some(value: T)

  function Min(a: int, b: int): int { if a <= b then a else b }

  function Max(a: int, b: int): int { if a >= b then a else b }

  // ---------------------------------------------------------------------
  // Array.prototype.slice(-count)
  // ---------------------------------------------------------------------

  /** The start index that `s.slice(-count)` resolves to on a sequence of
      length `n`: a negative argument counts back from the end (clamped at 0),
      a non-negative one counts from the front (clamped at `n`). */
  function SliceStart(n: nat, count: int): (k: nat)
    ensures k <= n
  {
    var start := -count;
    if start < 0 then (if n + start < 0 then 0 else n + start)
    else (if start > n then n else start)
  }

  /** `s.slice(-count)`: a suffix of `s`. A positive count keeps the last
      `min(count, |s|)` elements; since `-0` is `0`, a count of zero keeps
      everything; a negative count drops `-count` elements from the front. */
  function SliceLast<T>(s: seq<T>, count: int): (r: seq<T>)
    ensures |r| <= |s| && r == s[|s| - |r|..]
    ensures count > 0 ==> |r| == Min(count, |s|)
    ensures count == 0 ==> r == s
    ensures count < 0 ==> |r| == |s| - Min(-count, |s|)
  {
    s[SliceStart(|s|, count)..]
  }

  // ---------------------------------------------------------------------
  // every, filter, sums
  // ---------------------------------------------------------------------

  /** `s.every(p)`: vacuously true on an empty sequence. */
  function Every<T>(s: seq<T>, p: T -> bool): (r: bool)
    ensures r <==> forall i :: 0 <= i < |s| ==> p(s[i])
  {
    if s == [] then true
    else
      assert forall i :: 1 <= i < |s| ==> s[1..][i - 1] == s[i];
      p(s[0]) && Every(s[1..], p)
  }

  /** `s.filter(p)`: the elements satisfying `p`, in their original order. */
  function Filter<T>(s: seq<T>, p: T -> bool): (r: seq<T>)
    ensures |r| <= |s|
    ensures forall i :: 0 <= i < |r| ==> r[i] in s && p(r[i])
    ensures forall i :: 0 <= i < |s| && p(s[i]) ==> s[i] in r
  {
    if s == [] then []
    else
      assert s == s[..|s| - 1] + [s[|s| - 1]];
      var rest := Filter(s[..|s| - 1], p);
      if p(s[|s| - 1]) then rest + [s[|s| - 1]] else rest
  }

  /** `filter` keeps each value as often as it occurs, when it passes, and
      drops it entirely otherwise. */
  lemma {:induction false} FilterMultiset<T>(s: seq<T>, p: T -> bool)
    ensures forall x :: multiset(Filter(s, p))[x] == if p(x) then multiset(s)[x] else 0
  {
    if s != [] {
      var init, last := s[..|s| - 1], s[|s| - 1];
      assert s == init + [last];
      FilterMultiset(init, p);
      FilterSnoc(init, last, p);
      assert multiset(s) == multiset(init) + multiset{last};
    }
  }

  /** The kept elements are the elements at the passing indices, in
      increasing index order: `filter` is an order-preserving subsequence. */
  lemma {:induction false} FilterIndices<T>(s: seq<T>, p: T -> bool) returns (idx: seq<nat>)
    ensures IndicesOf(s, p, Filter(s, p), idx)
  {
    if s == [] {
      idx := [];
    } else {
      var init, last := s[..|s| - 1], s[|s| - 1];
      assert s == init + [last];
      var before := FilterIndices(init, p);
      FilterSnoc(init, last, p);
      idx := if p(last) then before + [|init|] else before;
      IndicesSnoc(init, last, p, Filter(init, p), before);
    }
  }

  /** `idx` lists, in increasing order, the indices of `s` whose elements
      pass `p`, and `kept` holds those elements in that order. */
  ghost predicate IndicesOf<T>(s: seq<T>, p: T -> bool, kept: seq<T>, idx: seq<nat>)
  {
    |idx| == |kept|
    && (forall k :: 0 <= k < |idx| ==> idx[k] < |s| && kept[k] == s[idx[k]])
    && (forall k, l :: 0 <= k < l < |idx| ==> idx[k] < idx[l])
    && (forall i :: 0 <= i < |s| ==> (p(s[i]) <==> i in idx))
  }

  /** One more element extends the index list by its index when it passes. */
  lemma IndicesSnoc<T>(s: seq<T>, x: T, p: T -> bool, kept: seq<T>, idx: seq<nat>)
    requires IndicesOf(s, p, kept, idx)
    ensures p(x) ==> IndicesOf(s + [x], p, kept + [x], idx + [|s|])
    ensures !p(x) ==> IndicesOf(s + [x], p, kept, idx)
  {
    var t := s + [x];
    assert forall i :: 0 <= i < |s| ==> t[i] == s[i];
  }

  /** The indices of the elements of `s` that pass `p`. */
  ghost function Passing<T>(s: seq<T>, p: T -> bool): set<int>
  {
    set i | 0 <= i < |s| && p(s[i])
  }

  /** The passing indices of `s + [x]`: those of `s`, and `|s|` if `x` passes. */
  lemma PassingSnoc<T>(s: seq<T>, x: T, p: T -> bool)
    ensures Passing(s + [x], p) == Passing(s, p) + (if p(x) then {|s|} else {})
    ensures |s| !in Passing(s, p)
  {
    var t := s + [x];
    forall i | 0 <= i < |s|
      ensures t[i] == s[i]
    {
    }
  }

  /** The length of a filter is the number of passing indices. */
  lemma {:induction false} FilterCount<T>(s: seq<T>, p: T -> bool)
    ensures |Filter(s, p)| == |Passing(s, p)|
  {
    if s != [] {
      var init, last := s[..|s| - 1], s[|s| - 1];
      assert s == init + [last];
      FilterCount(init, p);
      FilterSnoc(init, last, p);
      PassingSnoc(init, last, p);
    }
  }

  lemma FilterSnoc<T>(s: seq<T>, x: T, p: T -> bool)
    ensures Filter(s + [x], p) == Filter(s, p) + (if p(x) then [x] else [])
  {
    assert (s + [x])[..|s|] == s;
  }

  /** Filtering one element further into `s`. */
  lemma FilterPrefix<T>(s: seq<T>, k: nat, p: T -> bool)
    requires k < |s|
    ensures Filter(s[..k + 1], p) == Filter(s[..k], p) + (if p(s[k]) then [s[k]] else [])
  {
    assert s[..k + 1] == s[..k] + [s[k]];
    FilterSnoc(s[..k], s[k], p);
  }

  /** Chained filters are one filter by the conjunction, so the second filter
      sees a subsequence of what the first one saw. */
  lemma {:induction false} FilterFilter<T>(s: seq<T>, p: T -> bool, q: T -> bool)
    ensures Filter(Filter(s, p), q) == Filter(s, x => p(x) && q(x))
  {
    if s != [] {
      var init, last := s[..|s| - 1], s[|s| - 1];
      assert s == init + [last];
      FilterFilter(init, p, q);
      FilterSnoc(init, last, p);
      FilterSnoc(init, last, x => p(x) && q(x));
      if p(last) {
        FilterSnoc(Filter(init, p), last, q);
      }
    }
  }

  /** When every element passes exactly one of `p` and `q`, the two
      filters together account for the whole sequence. */
  lemma {:induction false} FilterPartition<T>(s: seq<T>, p: T -> bool, q: T -> bool)
    requires forall i :: 0 <= i < |s| ==> p(s[i]) != q(s[i])
    ensures |Filter(s, p)| + |Filter(s, q)| == |s|
  {
    if s != [] {
      var init, last := s[..|s| - 1], s[|s| - 1];
      assert s == init + [last];
      assert forall i :: 0 <= i < |init| ==> init[i] == s[i];
      FilterPartition(init, p, q);
      FilterSnoc(init, last, p);
      FilterSnoc(init, last, q);
    }
  }

  /** A filter that every element passes keeps the whole sequence. */
  lemma {:induction false} FilterAll<T>(s: seq<T>, p: T -> bool)
    requires forall i :: 0 <= i < |s| ==> p(s[i])
    ensures Filter(s, p) == s
  {
    if s != [] {
      var init, last := s[..|s| - 1], s[|s| - 1];
      assert s == init + [last];
      assert forall i :: 0 <= i < |init| ==> init[i] == s[i];
      FilterAll(init, p);
      FilterSnoc(init, last, p);
    }
  }

  /** A filter that no element passes keeps nothing. */
  lemma {:induction false} FilterNone<T>(s: seq<T>, p: T -> bool)
    requires forall i :: 0 <= i < |s| ==> !p(s[i])
    ensures Filter(s, p) == []
  {
    if s != [] {
      var init, last := s[..|s| - 1], s[|s| - 1];
      assert s == init + [last];
      assert forall i :: 0 <= i < |init| ==> init[i] == s[i];
      FilterNone(init, p);
      FilterSnoc(init, last, p);
    }
  }

  /** Two predicates that agree on every element of `s` filter it alike. */
  lemma {:induction false} FilterCongruent<T>(s: seq<T>, p: T -> bool, q: T -> bool)
    requires forall i :: 0 <= i < |s| ==> p(s[i]) == q(s[i])
    ensures Filter(s, p) == Filter(s, q)
  {
    if s != [] {
      var init, last := s[..|s| - 1], s[|s| - 1];
      assert s == init + [last];
      assert forall i :: 0 <= i < |init| ==> init[i] == s[i];
      FilterCongruent(init, p, q);
      FilterSnoc(init, last, p);
      FilterSnoc(init, last, q);
    }
  }

  function Sum(s: seq<nat>): nat
  {
    if s == [] then 0 else Sum(s[..|s| - 1]) + s[|s| - 1]
  }

  lemma {:induction false} SumZeros(s: seq<nat>)
    requires forall i :: 0 <= i < |s| ==> s[i] == 0
    ensures Sum(s) == 0
  {
    if s != [] {
      SumZeros(s[..|s| - 1]);
    }
  }

  /** `counts[d]++` adds exactly one to the sum of the counts. */
  lemma {:induction false} SumIncrement(s: seq<nat>, d: nat)
    requires d < |s|
    ensures Sum(s[d := s[d] + 1]) == Sum(s) + 1
    decreases |s|
  {
    var t := s[d := s[d] + 1];
    assert t[..|t| - 1] == if d < |s| - 1 then s[..|s| - 1][d := s[d] + 1] else s[..|s| - 1];
    if d < |s| - 1 {
      SumIncrement(s[..|s| - 1], d);
    }
  }

  // ---------------------------------------------------------------------
  // Digits and numbers
  // ---------------------------------------------------------------------

  predicate IsDigit(c: char) { '0' <= c <= '9' }

  /** `parseInt(c)` for a one-character string: the digit's value, or NaN. */
  function CharDigit(c: char): (d: Option<int>)
    ensures d.Some? <==> IsDigit(c)
    ensures d.Some? ==> 0 <= d.value <= 9 && c == ('0' as int + d.value) as char
  {
    if IsDigit(c) then Some(c as int - '0' as int) else None
  }

  /** `parseInt(text.slice(-1))`, which is also
      `parseInt(text.charAt(text.length - 1))`: the value of the last
      character when it is a digit; NaN otherwise, and NaN for the empty text,
      whose last character is the empty string. */
  function LastDigit(text: string): (d: Option<int>)
    ensures d.Some? <==> |text| > 0 && IsDigit(text[|text| - 1])
    ensures d.Some? ==> 0 <= d.value <= 9 && text[|text| - 1] == ('0' as int + d.value) as char
  {
    if |text| == 0 then None else CharDigit(text[|text| - 1])
  }

  /** `ticks.map(t => parseInt(lastCharacter(t)))`, in order. */
  function LastDigits(ticks: seq<string>): (ds: seq<Option<int>>)
    ensures |ds| == |ticks|
    ensures forall i :: 0 <= i < |ticks| ==> ds[i] == LastDigit(ticks[i])
  {
    seq(|ticks|, i requires 0 <= i < |ticks| => LastDigit(ticks[i]))
  }

  predicate AllDigitChars(s: string) { forall i :: 0 <= i < |s| ==> IsDigit(s[i]) }

  /** The value of a string of decimal digits, most significant first. */
  function DigitsValue(s: string): nat
    requires AllDigitChars(s)
  {
    if s == [] then 0 else DigitsValue(s[..|s| - 1]) * 10 + (s[|s| - 1] as int - '0' as int)
  }

  function Pow10(n: nat): (p: nat)
    ensures p >= 1
  {
    if n == 0 then 1 else 10 * Pow10(n - 1)
  }

  /** The index of the first '.' in `s` at or after `from`, or `|s|`. */
  function PointFrom(s: string, from: nat): (k: nat)
    requires from <= |s|
    ensures from <= k <= |s|
    ensures forall i :: from <= i < k ==> s[i] != '.'
    ensures k < |s| ==> s[k] == '.'
    decreases |s| - from
  {
    if from == |s| || s[from] == '.' then from else PointFrom(s, from + 1)
  }

  /** The number a price's decimal text denotes (`digits` or
      `digits.digits`), or NaN for any other text. */
  function NumericValue(text: string): (v: Option<real>)
    ensures v.Some? ==> v.value >= 0.0
  {
    var k := PointFrom(text, 0);
    var whole := text[..k];
    var frac := if k < |text| then text[k + 1..] else "";
    if |whole| > 0 && AllDigitChars(whole) && AllDigitChars(frac) && (k < |text| ==> |frac| > 0)
    then Some(DigitsValue(whole) as real + FractionValue(frac))
    else None
  }

  /** The value of the digits after a decimal point. */
  function FractionValue(frac: string): (v: real)
    requires AllDigitChars(frac)
    ensures 0.0 <= v
  {
    DigitsValue(frac) as real / Pow10(|frac|) as real
  }

  /** A text of digits alone denotes the integer it spells. */
  lemma NumericValueOfInteger(text: string)
    requires |text| > 0 && AllDigitChars(text)
    ensures NumericValue(text) == Some(DigitsValue(text) as real)
  {
    var k := PointFrom(text, 0);
    assert k < |text| ==> IsDigit(text[k]);
    assert text[..k] == text;
    assert FractionValue("") == 0.0;
  }

  /** A trailing zero after the point does not change the value, so
      "1.50" and "1.5" parse to the same number. */
  lemma NumericValueTrailingZero(whole: string, frac: string)
    requires |whole| > 0 && AllDigitChars(whole) && |frac| > 0 && AllDigitChars(frac)
    ensures NumericValue(whole + "." + frac + "0") == NumericValue(whole + "." + frac)
  {
    assert whole + "." + frac + "0" == whole + "." + (frac + "0");
    assert AllDigitChars(frac + "0");
    NumericValueOfDecimal(whole, frac);
    NumericValueOfDecimal(whole, frac + "0");
    FractionTrailingZero(frac);
  }

  lemma FractionTrailingZero(frac: string)
    requires AllDigitChars(frac)
    ensures AllDigitChars(frac + "0") && FractionValue(frac + "0") == FractionValue(frac)
  {
    assert AllDigitChars(frac + "0");
    assert (frac + "0")[..|frac|] == frac;
    var d, n := DigitsValue(frac) as real, Pow10(|frac|) as real;
    assert DigitsValue(frac + "0") as real == 10.0 * d;
    assert Pow10(|frac| + 1) as real == 10.0 * n;
    ScaledFraction(d, n);
  }

  /** The value of `whole.frac`. */
  lemma NumericValueOfDecimal(whole: string, frac: string)
    requires |whole| > 0 && AllDigitChars(whole) && |frac| > 0 && AllDigitChars(frac)
    ensures NumericValue(whole + "." + frac) == Some(DigitsValue(whole) as real + FractionValue(frac))
  {
    var t := whole + "." + frac;
    PointIsAfterWhole(whole, frac);
    assert whole == t[..|whole|] && frac == t[|whole| + 1..];
    NumericValueAtPoint(t, whole, frac);
  }

  lemma NumericValueAtPoint(text: string, whole: string, frac: string)
    requires PointFrom(text, 0) < |text|
    requires whole == text[..PointFrom(text, 0)] && frac == text[PointFrom(text, 0) + 1..]
    requires |whole| > 0 && AllDigitChars(whole) && |frac| > 0 && AllDigitChars(frac)
    ensures NumericValue(text) == Some(DigitsValue(whole) as real + FractionValue(frac))
  {
  }

  lemma ScaledFraction(d: real, n: real)
    requires n >= 1.0
    ensures (10.0 * d) / (10.0 * n) == d / n
  {
    var n10 := 10.0 * n;
    DivMul(d, n);
    DivMul(10.0 * d, n10);
    assert (d / n) * n10 == 10.0 * ((d / n) * n) == 10.0 * d;
    Cancel((10.0 * d) / n10, d / n, n10);
  }

  /** In `whole.frac` the first point is the one after `whole`. */
  lemma PointIsAfterWhole(whole: string, frac: string)
    requires AllDigitChars(whole)
    ensures PointFrom(whole + "." + frac, 0) == |whole|
  {
    var t := whole + "." + frac;
    var k := PointFrom(t, 0);
    assert t[|whole|] == '.';
    assert k < |whole| ==> t[k] == whole[k] && IsDigit(t[k]);
  }

  /** `Math.abs` on integers. */
  function Abs(x: int): (r: nat)
    ensures r == x || r == -x
  {
    if x < 0 then -x else x
  }

  /** `Math.floor(draw * n)` for a draw of `Math.random()`, which lies in [0, 1). */
  function RandomBelow(draw: real, n: nat): (k: int)
    requires 0.0 <= draw < 1.0 && n > 0
    ensures 0 <= k < n
  {
    assert draw * n as real < n as real by {
      assert (1.0 - draw) * n as real > 0.0;
    }
    (draw * n as real).Floor
  }

  // ---------------------------------------------------------------------
  // Percentages, `(part / total) * 100` on exact reals
  // ---------------------------------------------------------------------

  function Percent(part: nat, total: nat): real
    requires total > 0
  {
    (part as real / total as real) * 100.0
  }

  lemma DivMul(c: real, n: real)
    requires n > 0.0
    ensures (c / n) * n == c
  {
  }

  lemma Cancel(x: real, y: real, n: real)
    requires n > 0.0 && x * n == y * n
    ensures x == y
  {
    calc {
      x;
      (x * n) / n;
      (y * n) / n;
      y;
    }
  }

  lemma DivMono(a: real, b: real, n: real)
    requires n > 0.0 && a <= b
    ensures a / n <= b / n
  {
    assert b / n - a / n == (b - a) / n;
  }

  /** A share lies in [0, 100]. */
  lemma PercentBounds(part: nat, total: nat)
    requires 0 < total && part <= total
    ensures 0.0 <= Percent(part, total) <= 100.0
  {
    var t := total as real;
    DivMono(0.0, part as real, t);
    DivMono(part as real, t, t);
  }

  /** The whole is 100%, nothing is 0%. */
  lemma PercentOfWhole(n: nat)
    requires n > 0
    ensures Percent(n, n) == 100.0 && Percent(0, n) == 0.0
  {
    DivMul(n as real, n as real);
    Cancel(n as real / n as real, 1.0, n as real);
  }

  /** The shares of the two parts of a whole add up to 100. */
  lemma PercentsComplement(a: nat, b: nat)
    requires a + b > 0
    ensures Percent(a, a + b) + Percent(b, a + b) == 100.0
  {
    var n := (a + b) as real;
    var x, y := a as real / n, b as real / n;
    DivMul(a as real, n);
    DivMul(b as real, n);
    assert (x + y) * n == x * n + y * n;
    Cancel(x + y, 1.0, n);
  }

  /** A share is below 10% exactly when ten times the part is below the
      total. */
  lemma PercentBelowTen(part: nat, total: nat)
    requires total > 0
    ensures Percent(part, total) < 10.0 <==> 10 * part < total
  {
    var c, t := part as real, total as real;
    var x := c / t;
    assert Percent(part, total) == x * 100.0;
    DivMul(c, t);
    MulLess(x, 0.1, t);
    assert x * 100.0 < 10.0 <==> x < 0.1;
    assert x < 0.1 <==> c < 0.1 * t;
    assert c < 0.1 * t <==> 10.0 * c < t;
    assert (10 * part) as real == 10.0 * c;
  }

  /** Multiplying by a positive factor keeps a strict order. */
  lemma MulLess(a: real, b: real, n: real)
    requires n > 0.0
    ensures a < b <==> a * n < b * n
  {
    assert b * n - a * n == (b - a) * n;
    if a < b {
      assert (b - a) * n > 0.0;
    } else {
      assert (a - b) * n >= 0.0;
    }
  }

  // ---------------------------------------------------------------------
  // Strings
  // ---------------------------------------------------------------------

  /** A match of `pat` starts at index `i` of `s`. */
  predicate MatchAt(s: string, pat: string, i: int)
  {
    0 <= i && i + |pat| <= |s| && s[i..i + |pat|] == pat
  }

  /** The first index at or after `from` where `pat` occurs in `s`. */
  function IndexFrom(s: string, pat: string, from: nat): (r: Option<nat>)
    requires from <= |s|
    ensures r.Some? ==> from <= r.value && MatchAt(s, pat, r.value)
    ensures r.Some? ==> forall j :: from <= j < r.value ==> !MatchAt(s, pat, j)
    ensures r.None? ==> forall j :: from <= j ==> !MatchAt(s, pat, j)
    decreases |s| - from
  {
    if from + |pat| > |s| then None
    else if s[from..from + |pat|] == pat then Some(from)
    else IndexFrom(s, pat, from + 1)
  }

  /** `s.indexOf(pat)`. */
  function IndexOf(s: string, pat: string): Option<nat>
  {
    IndexFrom(s, pat, 0)
  }

  /** `s.replace(pat, rep)` with a string pattern: only the first occurrence
      is replaced; with none, `s` is returned unchanged. */
  function ReplaceFirst(s: string, pat: string, rep: string): (r: string)
    ensures (forall j :: 0 <= j ==> !MatchAt(s, pat, j)) ==> r == s
    ensures forall k :: MatchAt(s, pat, k) && (forall j :: 0 <= j < k ==> !MatchAt(s, pat, j)) ==>
      r == s[..k] + rep + s[k + |pat|..]
    ensures |rep| <= |pat| ==> |r| <= |s|
  {
    match IndexOf(s, pat)
    case None => s
    case Some(k) => s[..k] + rep + s[k + |pat|..]
  }

  /** A text that starts with the pattern has that occurrence replaced. */
  lemma ReplaceFirstAtFront(pat: string, rest: string, rep: string)
    ensures ReplaceFirst(pat + rest, pat, rep) == rep + rest
  {
    var s := pat + rest;
    assert s[0..|pat|] == pat;
    assert MatchAt(s, pat, 0);
    assert IndexOf(s, pat) == Some(0);
    assert s[|pat|..] == rest;
  }

  /** A pattern whose first character does not occur in `init` is first
      found right after `init`, and only that occurrence is replaced. */
  lemma ReplaceFirstAfter(init: string, pat: string, rest: string, rep: string)
    requires pat != [] && pat[0] !in init
    ensures ReplaceFirst(init + pat + rest, pat, rep) == init + rep + rest
  {
    var s := init + pat + rest;
    assert s[|init|..|init| + |pat|] == pat;
    assert MatchAt(s, pat, |init|);
    forall j | 0 <= j < |init|
      ensures !MatchAt(s, pat, j)
    {
      assert s[j] == init[j];
    }
    assert IndexOf(s, pat) == Some(|init|);
    assert s[..|init|] == init;
    assert s[|init| + |pat|..] == rest;
  }

  /** `s.startsWith(prefix)`. */
  predicate StartsWith(s: string, prefix: string)
  {
    |prefix| <= |s| && s[..|prefix|] == prefix
  }

  /** `s.includes(sub)`. */
  predicate Includes(s: string, sub: string)
  {
    exists i :: 0 <= i <= |s| - |sub| && MatchAt(s, sub, i)
  }

  /** Every text includes the empty string. */
  lemma IncludesEmpty(s: string)
    ensures Includes(s, "")
  {
    assert MatchAt(s, "", 0);
  }

  /** `toLowerCase` on one character; only ASCII letters are mapped. */
  function LowerChar(c: char): char
  {
    if 'A' <= c <= 'Z' then (c as int - 'A' as int + 'a' as int) as char else c
  }

  /** `s.toLowerCase()`, character by character. */
  function ToLower(s: string): (r: string)
    ensures |r| == |s|
    ensures forall i :: 0 <= i < |s| ==> r[i] == LowerChar(s[i])
  {
    seq(|s|, i requires 0 <= i < |s| => LowerChar(s[i]))
  }

  /** Lowercasing twice is lowercasing once. */
  lemma ToLowerIdempotent(s: string)
    ensures ToLower(ToLower(s)) == ToLower(s)
  {
  }
}
