/** The digit-comparison evaluation shared by test-digit-comparison.js and
    debug-digit-comparison.js: the last digit of each tick, the trailing
    `count` of them, and the five comparison operators applied with
    `every`. */
module DigitOperators {
  import opened JsSemantics

  predicate IsOperator(op: string)
  {
    op == "equal" || op == "greater" || op == "less" || op == "greater_equal" || op == "less_equal"
  }

  /** The comparison one operator makes of one digit against the target; a
      NaN digit satisfies none of them. */
  predicate Satisfies(op: string, d: Option<int>, target: int)
    requires IsOperator(op)
  {
    d.Some? &&
    match op
    case "equal" => d.value == target
    case "greater" => d.value > target
    case "less" => d.value < target
    case "greater_equal" => d.value >= target
    case _ => d.value <= target
  }

  /** The `switch (operator)` over `digits.every(...)`: a known operator
      holds when every digit satisfies it (vacuously on no digits); an
      unknown one leaves the initial `false`. */
  function EveryDigit(op: string, digits: seq<Option<int>>, target: int): (r: bool)
    ensures IsOperator(op) ==> (r <==> forall i :: 0 <= i < |digits| ==> Satisfies(op, digits[i], target))
    ensures !IsOperator(op) ==> !r
  {
    if op == "equal" then Every(digits, d => d == Some(target))
    else if op == "greater" then Every(digits, (d: Option<int>) => d.Some? && d.value > target)
    else if op == "less" then Every(digits, (d: Option<int>) => d.Some? && d.value < target)
    else if op == "greater_equal" then Every(digits, (d: Option<int>) => d.Some? && d.value >= target)
    else if op == "less_equal" then Every(digits, (d: Option<int>) => d.Some? && d.value <= target)
    else false
  }

  /** The digits the comparison looks at: the last digit of every tick,
      then `slice(-count)`. */
  function SelectedDigits(ticks: seq<string>, count: int): (digits: seq<Option<int>>)
    ensures count > 0 ==> |digits| == Min(count, |ticks|)
    ensures count == 0 ==> |digits| == |ticks|
    ensures |digits| <= |ticks|
    ensures forall i :: 0 <= i < |digits| ==> digits[i] == LastDigit(ticks[|ticks| - |digits| + i])
  {
    var all := LastDigits(ticks);
    var r := SliceLast(all, count);
    assert forall i :: 0 <= i < |r| ==> r[i] == all[|all| - |r| + i];
    r
  }

  /** Strict operators imply their non-strict forms, and `equal` implies
      both non-strict ones, on the same digits and target. */
  lemma OperatorImplications(digits: seq<Option<int>>, target: int)
    ensures EveryDigit("greater", digits, target) ==> EveryDigit("greater_equal", digits, target)
    ensures EveryDigit("less", digits, target) ==> EveryDigit("less_equal", digits, target)
    ensures EveryDigit("equal", digits, target) ==>
      EveryDigit("greater_equal", digits, target) && EveryDigit("less_equal", digits, target)
  {
  }

  /** Raising the target can only turn `less` from false to true, and never
      the other way. */
  lemma LessMonotone(digits: seq<Option<int>>, target: int, higher: int)
    requires target <= higher
    ensures EveryDigit("less", digits, target) ==> EveryDigit("less", digits, higher)
    ensures EveryDigit("greater", digits, higher) ==> EveryDigit("greater", digits, target)
  {
  }
}
