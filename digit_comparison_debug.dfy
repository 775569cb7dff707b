/** The unguarded digit comparison of debug-digit-comparison.js and its
    scenarios. */
module DigitComparisonDebug {
  import opened JsSemantics
  import opened DigitOperators
  import DigitComparisonTest

  /** `debugDigitComparison` for one scenario: every selected digit
      satisfies the operator, with no empty-selection guard, so no digits
      at all satisfy any known operator. */
  function DebugDigitComparison(ticks: seq<string>, count: int, op: string, target: int): (result: bool)
    ensures result <==> (IsOperator(op) &&
      forall i :: 0 <= i < |SelectedDigits(ticks, count)| ==> Satisfies(op, SelectedDigits(ticks, count)[i], target))
    ensures ticks == [] ==> (result <==> IsOperator(op))
  {
    EveryDigit(op, SelectedDigits(ticks, count), target)
  }

  /** The two scripts agree except on an empty selection, where the guarded
      one says false and this one says true for a known operator. */
  lemma GuardIsTheOnlyDifference(ticks: seq<string>, count: int, op: string, target: int)
    ensures DigitComparisonTest.CheckDigitComparison(ticks, count, op, target) ==
      (|SelectedDigits(ticks, count)| > 0 && DebugDigitComparison(ticks, count, op, target))
    ensures |SelectedDigits(ticks, count)| == 0 && IsOperator(op) ==>
      DebugDigitComparison(ticks, count, op, target) &&
      !DigitComparisonTest.CheckDigitComparison(ticks, count, op, target)
  {
  }

  // `testScenarios`, each tick written as the text `toString()` prints.

  /** Three ticks ending in 7 all equal 7. */
  lemma AllSevensScenario()
    ensures DebugDigitComparison(["1.2347", "1.2357", "1.2367"], 3, "equal", 7)
  {
  }

  /** Digits 6, 7, 8, 9 all exceed 5. */
  lemma GreaterScenario()
    ensures DebugDigitComparison(["1.2346", "1.2357", "1.2368", "1.2379"], 4, "greater", 5)
  {
  }

  /** Digits 1, 2, 3 are all below 5. */
  lemma LessScenario()
    ensures DebugDigitComparison(["1.2341", "1.2342", "1.2343"], 3, "less", 5)
  {
  }

  /** Digits 1, 2, 1, 4, 2 are not all at least 3. */
  lemma MixedScenario()
    ensures !DebugDigitComparison(["1.2341", "1.2352", "1.2361", "1.2374", "1.2382"], 5, "greater_equal", 3)
  {
  }
}
