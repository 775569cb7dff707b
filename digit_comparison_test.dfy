/** The guarded digit comparison of test-digit-comparison.js and its table
    of test cases with expected results. */
module DigitComparisonTest {
  import opened JsSemantics
  import opened DigitOperators

  /** `testCheckDigitComparison` for one case: false on an empty
      selection; otherwise every selected digit satisfies the operator,
      and an unknown operator gives false. */
  function CheckDigitComparison(ticks: seq<string>, count: int, op: string, target: int): (result: bool)
    ensures result <==> (|SelectedDigits(ticks, count)| > 0 && IsOperator(op) &&
      forall i :: 0 <= i < |SelectedDigits(ticks, count)| ==> Satisfies(op, SelectedDigits(ticks, count)[i], target))
  {
    var digits := SelectedDigits(ticks, count);
    if |digits| > 0 then EveryDigit(op, digits, target) else false
  }

  /** No ticks, or a selection emptied by a negative count beyond the
      length, fails every operator. */
  lemma EmptySelectionFails(ticks: seq<string>, count: int, op: string, target: int)
    requires ticks == [] || count <= -|ticks|
    ensures !CheckDigitComparison(ticks, count, op, target)
  {
  }

  /** A count beyond the number of ticks selects them all rather than
      failing. */
  lemma CountClamped(ticks: seq<string>, count: int, op: string, target: int)
    requires count >= |ticks|
    ensures SelectedDigits(ticks, count) == LastDigits(ticks)
  {
  }

  // The `testCases` table, each tick written as the text `toString()`
  // prints, two cases per lemma.

  /** `equal`: all of the last three digits are 5; then the second tick ends in 7 and they are not. */
  lemma EqualCases()
    ensures CheckDigitComparison(["1.2345", "1.2355", "1.2355", "1.2365"], 3, "equal", 5)
    ensures !CheckDigitComparison(["1.2345", "1.2357", "1.2355", "1.2365"], 3, "equal", 5)
  {
    assert SelectedDigits(["1.2345", "1.2355", "1.2355", "1.2365"], 3) == [Some(5), Some(5), Some(5)] by {
      assert LastDigits(["1.2345", "1.2355", "1.2355", "1.2365"]) == [Some(5), Some(5), Some(5), Some(5)];
    }
    assert SelectedDigits(["1.2345", "1.2357", "1.2355", "1.2365"], 3) == [Some(7), Some(5), Some(5)] by {
      assert LastDigits(["1.2345", "1.2357", "1.2355", "1.2365"]) == [Some(5), Some(7), Some(5), Some(5)];
    }
  }

  /** `greater`: the last three digits 7, 8, 9 exceed 3 but not 7. */
  lemma GreaterCases()
    ensures CheckDigitComparison(["1.2344", "1.2357", "1.2358", "1.2369"], 3, "greater", 3)
    ensures !CheckDigitComparison(["1.2344", "1.2357", "1.2358", "1.2369"], 3, "greater", 7)
  {
    assert SelectedDigits(["1.2344", "1.2357", "1.2358", "1.2369"], 3) == [Some(7), Some(8), Some(9)] by {
      assert LastDigits(["1.2344", "1.2357", "1.2358", "1.2369"]) == [Some(4), Some(7), Some(8), Some(9)];
    }
  }

  /** `less`: the digits 1, 2, 3, 4 are below 5 but not below 3. */
  lemma LessCases()
    ensures CheckDigitComparison(["1.2341", "1.2342", "1.2343", "1.2344"], 4, "less", 5)
    ensures !CheckDigitComparison(["1.2341", "1.2342", "1.2343", "1.2344"], 4, "less", 3)
  {
    assert SelectedDigits(["1.2341", "1.2342", "1.2343", "1.2344"], 4) == [Some(1), Some(2), Some(3), Some(4)] by {
      assert LastDigits(["1.2341", "1.2342", "1.2343", "1.2344"]) == [Some(1), Some(2), Some(3), Some(4)];
    }
  }

  /** `greater_equal`: the digits 5, 6, 7, 8 are at least 5 but not at least 7. */
  lemma GreaterEqualCases()
    ensures CheckDigitComparison(["1.2345", "1.2356", "1.2357", "1.2358"], 4, "greater_equal", 5)
    ensures !CheckDigitComparison(["1.2345", "1.2356", "1.2357", "1.2358"], 4, "greater_equal", 7)
  {
    assert SelectedDigits(["1.2345", "1.2356", "1.2357", "1.2358"], 4) == [Some(5), Some(6), Some(7), Some(8)] by {
      assert LastDigits(["1.2345", "1.2356", "1.2357", "1.2358"]) == [Some(5), Some(6), Some(7), Some(8)];
    }
  }

  /** `less_equal`: the digits 1, 2, 3, 5 are at most 5 but not at most 3. */
  lemma LessEqualCases()
    ensures CheckDigitComparison(["1.2341", "1.2342", "1.2343", "1.2345"], 4, "less_equal", 5)
    ensures !CheckDigitComparison(["1.2341", "1.2342", "1.2343", "1.2345"], 4, "less_equal", 3)
  {
    assert SelectedDigits(["1.2341", "1.2342", "1.2343", "1.2345"], 4) == [Some(1), Some(2), Some(3), Some(5)] by {
      assert LastDigits(["1.2341", "1.2342", "1.2343", "1.2345"]) == [Some(1), Some(2), Some(3), Some(5)];
    }
  }

  /** A single tick ending in 7 equals 7. */
  lemma SingleTickCase()
    ensures CheckDigitComparison(["1.2347"], 1, "equal", 7)
  {
    assert SelectedDigits(["1.2347"], 1) == [Some(7)] by {
      assert LastDigits(["1.2347"]) == [Some(7)];
    }
  }

  /** No ticks at all gives false. */
  lemma NoTicksCase()
    ensures !CheckDigitComparison([], 3, "equal", 5)
  {
    EmptySelectionFails([], 3, "equal", 5);
  }
}
