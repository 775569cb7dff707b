/** The all-same-pattern debugger (debug-all-same-pattern-block.js): the
    three digit-pattern predicates, the random test-data generator and what
    it guarantees, the simulated and mock checks built on them, and the
    recorded test results with their summary counts.

    `Math.random()` draws are parameters, each in [0, 1). */
module PatternBlock {
  import opened JsSemantics

  // ---------------------------------------------------------------------
  // Pattern predicates
  // ---------------------------------------------------------------------

  /** The `switch (pattern)` of `calculateMockPattern`: all_even, all_odd
      and all_same are the `every` checks (vacuously true on no digits);
      'mixed' and any other pattern leave the initial `false`. */
  function PatternHolds(pattern: string, digits: seq<int>): (r: bool)
    ensures pattern == "all_even" ==> (r <==> forall i :: 0 <= i < |digits| ==> digits[i] % 2 == 0)
    ensures pattern == "all_odd" ==> (r <==> forall i :: 0 <= i < |digits| ==> digits[i] % 2 != 0)
    ensures pattern == "all_same" ==> (r <==> forall i :: 0 <= i < |digits| ==> digits[i] == digits[0])
    ensures pattern != "all_even" && pattern != "all_odd" && pattern != "all_same" ==> !r
  {
    if pattern == "all_even" then Every(digits, d => d % 2 == 0)
    else if pattern == "all_odd" then Every(digits, d => d % 2 != 0)
    else if pattern == "all_same" then digits == [] || Every(digits, d => d == digits[0])
    else false
  }

  /** Every recognised pattern holds of no digits at all. */
  lemma EmptyHoldsEveryPattern(pattern: string)
    requires pattern == "all_even" || pattern == "all_odd" || pattern == "all_same"
    ensures PatternHolds(pattern, [])
  {
  }

  /** On at least one digit, all_even and all_odd exclude each other. */
  lemma EvenOddExclusive(digits: seq<int>)
    requires digits != []
    ensures !(PatternHolds("all_even", digits) && PatternHolds("all_odd", digits))
  {
    assert digits[0] % 2 == 0 || digits[0] % 2 != 0;
  }

  // ---------------------------------------------------------------------
  // Test data generation
  // ---------------------------------------------------------------------

  const EvenDigits: seq<int> := [0, 2, 4, 6, 8]
  const OddDigits: seq<int> := [1, 3, 5, 7, 9]

  predicate ValidDraws(draws: seq<real>)
  {
    forall i :: 0 <= i < |draws| ==> 0.0 <= draws[i] < 1.0
  }

  predicate KnownPattern(pattern: string)
  {
    pattern == "all_even" || pattern == "all_odd" || pattern == "all_same" || pattern == "mixed"
  }

  /** How many draws `generateTestData` makes: one per digit, except
      all_same, which draws its single digit once even for no digits. */
  function DrawsUsed(pattern: string, count: int): nat
  {
    if pattern == "all_same" then 1
    else if KnownPattern(pattern) then Max(0, count)
    else 0
  }

  /** `generateTestData(pattern, count)`: `count` digits (none for a
      non-positive count) picked from the even digits, the odd digits, one
      repeated digit, or all ten; an unknown pattern yields no digits. */
  method GenerateTestData(pattern: string, count: int, draws: seq<real>) returns (digits: seq<int>)
    requires ValidDraws(draws) && |draws| >= DrawsUsed(pattern, count)
    ensures |digits| == if KnownPattern(pattern) then Max(0, count) else 0
    ensures pattern == "all_even" ==>
      forall i :: 0 <= i < |digits| ==> digits[i] == EvenDigits[RandomBelow(draws[i], 5)]
    ensures pattern == "all_odd" ==>
      forall i :: 0 <= i < |digits| ==> digits[i] == OddDigits[RandomBelow(draws[i], 5)]
    ensures pattern == "all_same" ==>
      forall i :: 0 <= i < |digits| ==> digits[i] == RandomBelow(draws[0], 10)
    ensures pattern == "mixed" ==>
      forall i :: 0 <= i < |digits| ==> digits[i] == RandomBelow(draws[i], 10)
    ensures pattern != "mixed" ==> PatternHolds(pattern, digits) == KnownPattern(pattern)
  {
    digits := [];
    if pattern == "all_even" {
      var i := 0;
      while i < count
        invariant 0 <= i <= Max(0, count) && |digits| == i
        invariant forall j :: 0 <= j < i ==> digits[j] == EvenDigits[RandomBelow(draws[j], 5)]
      {
        digits := digits + [EvenDigits[RandomBelow(draws[i], 5)]];
        i := i + 1;
      }
    } else if pattern == "all_odd" {
      var i := 0;
      while i < count
        invariant 0 <= i <= Max(0, count) && |digits| == i
        invariant forall j :: 0 <= j < i ==> digits[j] == OddDigits[RandomBelow(draws[j], 5)]
      {
        digits := digits + [OddDigits[RandomBelow(draws[i], 5)]];
        i := i + 1;
      }
    } else if pattern == "all_same" {
      var digit := RandomBelow(draws[0], 10);
      var i := 0;
      while i < count
        invariant 0 <= i <= Max(0, count) && |digits| == i
        invariant forall j :: 0 <= j < i ==> digits[j] == digit
      {
        digits := digits + [digit];
        i := i + 1;
      }
    } else if pattern == "mixed" {
      var i := 0;
      while i < count
        invariant 0 <= i <= Max(0, count) && |digits| == i
        invariant forall j :: 0 <= j < i ==> digits[j] == RandomBelow(draws[j], 10)
      {
        digits := digits + [RandomBelow(draws[i], 10)];
        i := i + 1;
      }
    }
  }

  /** `calculateMockPattern(pattern, count)`: the generated digits and the
      pattern check on them; because the generator produces exactly the
      requested pattern, the result is true for all_even, all_odd and
      all_same and false for everything else. */
  method CalculateMockPattern(pattern: string, count: int, draws: seq<real>)
    returns (result: bool, digits: seq<int>)
    requires ValidDraws(draws) && |draws| >= DrawsUsed(pattern, count)
    ensures result == PatternHolds(pattern, digits)
    ensures result <==> pattern == "all_even" || pattern == "all_odd" || pattern == "all_same"
  {
    digits := GenerateTestData(pattern, count, draws);
    result := PatternHolds(pattern, digits);
  }

  datatype SimulationCase = SimulationCase(pattern: string, count: int, expectResult: bool)

  /** The fixed cases of `simulatePatternCheck`. */
  const SimulationCases: seq<SimulationCase> := [
    SimulationCase("all_even", 5, true),
    SimulationCase("all_odd", 5, true),
    SimulationCase("all_same", 5, true),
    SimulationCase("mixed", 5, false)]

  /** `simulatePatternCheck`, with one run of draws per case: every case's
      result equals its expectation, whatever the draws. ('mixed' is set to
      false explicitly there, which is what `PatternHolds` gives too.) */
  method SimulatePatternCheck(draws: seq<seq<real>>) returns (results: seq<bool>)
    requires |draws| == |SimulationCases|
    requires forall i :: 0 <= i < |draws| ==> ValidDraws(draws[i]) && |draws[i]| >= 5
    ensures |results| == |SimulationCases|
    ensures forall i :: 0 <= i < |results| ==> results[i] == SimulationCases[i].expectResult
  {
    results := [];
    var i := 0;
    while i < |SimulationCases|
      invariant 0 <= i <= |SimulationCases| && |results| == i
      invariant forall j :: 0 <= j < i ==> results[j] == SimulationCases[j].expectResult
    {
      var c := SimulationCases[i];
      var digits := GenerateTestData(c.pattern, c.count, draws[i]);
      results := results + [PatternHolds(c.pattern, digits)];
      i := i + 1;
    }
  }

  // ---------------------------------------------------------------------
  // Recorded test results
  // ---------------------------------------------------------------------

  datatype RunCase = RunCase(pattern: string, count: int)

  /** The fixed cases of `runTests`. */
  const RunCases: seq<RunCase> := [
    RunCase("all_even", 5), RunCase("all_odd", 5), RunCase("all_same", 5),
    RunCase("all_even", 10), RunCase("all_odd", 10), RunCase("all_same", 10)]

  /** One entry of `testResults`; `result` is absent for an error entry. */
  datatype TestRecord = TestRecord(pattern: string, count: int, result: Option<bool>, status: string)

  /** The entry for one case: the value the check returned, or an error
      entry when it threw (`None`). */
  function RecordOf(c: RunCase, outcome: Option<bool>): (r: TestRecord)
    ensures r.pattern == c.pattern && r.count == c.count && r.result == outcome
    ensures r.status == (if outcome.Some? then "success" else "error")
  {
    match outcome
    case Some(b) => TestRecord(c.pattern, c.count, Some(b), "success")
    case None => TestRecord(c.pattern, c.count, None, "error")
  }

  predicate IsSuccess(r: TestRecord) { r.status == "success" }

  predicate IsError(r: TestRecord) { r.status == "error" }

  /** The debugger object: `testResults` grows as tests run. */
  class PatternDebugger {
    var testResults: seq<TestRecord>

    /** Only 'success' and 'error' entries are ever recorded. */
    predicate Valid()
      reads this
    {
      forall i :: 0 <= i < |testResults| ==> IsSuccess(testResults[i]) || IsError(testResults[i])
    }

    constructor ()
      ensures testResults == [] && Valid()
    {
      testResults := [];
    }

    /** `runTests`: nothing when the check is unavailable; otherwise one
        entry per case, in case order, from each call's outcome. */
    method RunTests(available: bool, outcomes: seq<Option<bool>>)
      requires |outcomes| == |RunCases|
      modifies this
      ensures !available ==> testResults == old(testResults)
      ensures available ==> |testResults| == |old(testResults)| + |RunCases|
      ensures available ==> testResults[..|old(testResults)|] == old(testResults)
      ensures available ==> forall i :: 0 <= i < |RunCases| ==>
        testResults[|old(testResults)| + i] == RecordOf(RunCases[i], outcomes[i])
      ensures old(Valid()) ==> Valid()
    {
      if !available {
        return;
      }
      var added: seq<TestRecord> := [];
      var i := 0;
      while i < |RunCases|
        invariant 0 <= i <= |RunCases| && |added| == i
        invariant forall j :: 0 <= j < i ==> added[j] == RecordOf(RunCases[j], outcomes[j])
      {
        added := added + [RecordOf(RunCases[i], outcomes[i])];
        i := i + 1;
      }
      testResults := testResults + added;
    }

    /** `printTestSummary`: successful, failed and total entries; on a
        valid record every entry is one or the other. */
    function TestSummary(): (summary: (nat, nat, nat))
      reads this
      ensures summary.2 == |testResults|
      ensures summary.0 <= summary.2 && summary.1 <= summary.2
      ensures summary.0 == |Passing(testResults, IsSuccess)|
      ensures summary.1 == |Passing(testResults, IsError)|
      ensures Valid() ==> summary.0 + summary.1 == summary.2
    {
      FilterCount(testResults, IsSuccess);
      FilterCount(testResults, IsError);
      var successCount := |Filter(testResults, IsSuccess)|;
      var errorCount := |Filter(testResults, IsError)|;
      if Valid() then
        FilterPartition(testResults, IsSuccess, IsError);
        (successCount, errorCount, |testResults|)
      else
        (successCount, errorCount, |testResults|)
    }
  }
}
