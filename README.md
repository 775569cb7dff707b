# Trading-bot dashboard: signal page, debug scripts and bot catalogue

This project models the analysis logic of a Deriv trading-bot dashboard:

- The stand-alone signal page `public/signals/signals.js`, as module `TickSignals`. It keeps a
  buffer of at most 255 quotes per volatility index and updates it from history and tick
  messages. From each full buffer it computes one table row:
  - a Rise/Fall flag from the rise and fall percentages over the last 255 and the last 55 quotes;
  - an Over 2 / Under 7 flag from the shares of last digits.
- The browser-console debug and test scripts:
  - `debug-digit-frequency-rank.js`, as `FrequencyRank`: biased test digits, their tally, the
    frequency ranking with its tie-break, rank selection, and the trading-signal and strategy
    rules;
  - `debug-all-same-pattern-block.js`, as `PatternBlock`: the pattern generator, the all-even,
    all-odd and all-same checks, and the recorded test results;
  - `test-digit-comparison.js` and `debug-digit-comparison.js`, as `DigitComparisonTest`,
    `DigitComparisonDebug` and the shared `DigitOperators`: the comparison of the last N digits
    with a target under five operators, and both scripts' tables of cases;
  - `debug-even-odd-data.js`, as `EvenOddData`: the digit formula of the tick listener and the
    even/odd counts and percentages of Test 5.
- The free-bots catalogue of `src/pages/main/main.tsx`, as `BotCatalogue`. It covers:
  - the built-in list of bot files and the records made from them;
  - the category and search filter;
  - the card heading and the five-star rating;
  - the empty-state message.

`JsSemantics` holds the JavaScript built-ins these files rely on, each written out with the
behaviour these files depend on, for example:

- `slice(-n)` with its `-0` case;
- `filter` and `every`;
- `String.prototype.replace` with a string pattern, which replaces the first match;
- `includes` and ASCII `toLowerCase`;
- `Math.floor(Math.random() * n)`;
- `parseInt` of one character, which gives NaN for a non-digit;
- `(count / total) * 100`, as `Percent`.

Numbers are exact, not IEEE-754 doubles. `Percent` divides and multiplies exact reals, and a
quote's text is read as the exact decimal it spells. The rounding JavaScript applies can put a
percentage on the other side of a threshold, and "## Left out" lists the members this affects.

Modelling conventions:

- **Quotes.** `TickSignals` and the digit-comparison modules hold a quote as the decimal text
  `toString()` prints. That text gives the last digit, and it is read back as an exact number for
  comparisons. `EvenOddData` holds quotes as exact reals.
- **Randomness.** Every `Math.random()` draw is a parameter in [0, 1).
- **Outside facts.** Other inputs from outside the scripts are parameters, each named below:
  - whether `Bot.checkAllSamePattern` exists;
  - what each call to it returned or threw;
  - the key order of `ticksStorage`.

Where the code differs from what its comments or messages suggest, the model follows the code:

- `slice(-0)` keeps every element, so a count of 0 selects all digits.
- The debug digit comparison has no guard for an empty selection. For a known operator it
  reports true on no digits at all; the test script reports false.
- The formula `Math.abs(Math.floor(quote * 10)) % 10` gives the first digit after the point.
  It does not give the last written digit. For Test 5's quotes it yields 4, 5, …, 3, not the
  annotated 0, …, 9, although the parities and the 50% result are the same.
- A tick for a symbol with no buffer throws on `undefined.push`. It is modelled as a message that
  changes nothing and reports `handled == false`.
- A history message installs the whole price list. The 255-quote bound is kept only when that
  list has at most 255 prices, which the page's subscription requests but does not enforce.
- A last character that is not a digit (NaN) satisfies no comparison operator. It is counted in no
  histogram bucket.
- The `searchQuery === ''` test of the catalogue filter is implied by the two `includes` tests.
- No built-in bot is in the "regular" category, so that tab always shows the empty state.

## Model

| member | source | states |
|---|---|---|
| JsSemantics.SliceLast | public/signals/signals.js:35 | `slice(-count)` is a suffix of the input: a positive count keeps the last min(count, length) elements, 0 keeps everything, a negative count drops that many from the front |
| JsSemantics.Every | debug-all-same-pattern-block.js:76-82 | `every` holds exactly when each element satisfies the predicate, vacuously on an empty list |
| JsSemantics.Filter | src/pages/main/main.tsx:582-588 | `filter` keeps only satisfying elements of the input, loses none of them, and is no longer than the input |
| JsSemantics.FilterMultiset | src/pages/main/main.tsx:582-588 | `filter` keeps every satisfying element as often as the input holds it, and drops every other one |
| JsSemantics.FilterIndices | src/pages/main/main.tsx:582-588 | `filter` keeps input order: its result is the input at an increasing sequence of indices, which are exactly the indices of satisfying elements |
| JsSemantics.FilterCount | src/pages/main/main.tsx:514 | the length of a filter is the number of indices whose element satisfies the predicate (`Passing`) |
| JsSemantics.FilterFilter | src/pages/main/main.tsx:582-588 | two chained filters equal one filter by the conjunction |
| JsSemantics.FilterPartition | debug-even-odd-data.js:134-135 | filters by two complementary predicates together count every element once |
| JsSemantics.LastDigit | test-digit-comparison.js:116-118 | `parseInt` of the last character is a digit 0-9 exactly when that character is a decimal digit, and it is that character's value |
| JsSemantics.LastDigits | debug-digit-comparison.js:52-54 | one last digit per tick, in tick order |
| JsSemantics.RandomBelow | debug-all-same-pattern-block.js:34 | `Math.floor(draw * n)` for a draw in [0, 1) is an index in [0, n) |
| JsSemantics.PercentBounds | public/signals/signals.js:48-49 | `Percent`, the share `(part / total) * 100`, of a part of a positive total is between 0 and 100 |
| JsSemantics.PercentsComplement | debug-even-odd-data.js:138-139 | the percentages of two parts of their sum add to 100 |
| JsSemantics.PercentBelowTen | public/signals/signals.js:106-111 | a share is below 10% exactly when ten times the count is below the total |
| JsSemantics.ReplaceFirst | public/signals/signals.js:90-91 | `replace` with a string pattern: the text is unchanged when the pattern never occurs; otherwise the first occurrence, and only it, is replaced; a replacement no longer than the pattern does not lengthen the text |
| JsSemantics.ReplaceFirstAtFront | public/signals/signals.js:90-91 | replacing a pattern that starts the text removes just that occurrence |
| JsSemantics.ReplaceFirstAfter | src/pages/main/main.tsx:604 | when the pattern's first character is absent before it, `replace` changes exactly that occurrence |
| JsSemantics.IncludesEmpty | src/pages/main/main.tsx:585-587 | `Includes`, an occurrence of the pattern at some index, holds of the empty string in every text |
| JsSemantics.ToLower | src/pages/main/main.tsx:586-587 | `toLowerCase` keeps the length and maps each character by `LowerChar`: 'A'-'Z' to 'a'-'z', every other character unchanged |
| JsSemantics.NumericValueOfInteger | public/signals/signals.js:57 | `parseFloat` (`NumericValue`) of a text of digits alone is the integer those digits spell |
| JsSemantics.NumericValueOfDecimal | public/signals/signals.js:57 | `parseFloat` of `whole.frac` is the value of `whole` plus `FractionValue(frac)`, the digits of `frac` over 10 to the length of `frac` |
| JsSemantics.NumericValueTrailingZero | public/signals/signals.js:60 | a trailing zero after the point does not change the parsed value ("1.50" and "1.5" are the same number) |
| JsSemantics.ToLowerIdempotent | src/pages/main/main.tsx:586-587 | lower-casing twice is lower-casing once |
| TickSignals.Pushed | public/signals/signals.js:60-61 | `push` then `shift` on overflow: the new quote is last, the oldest is dropped only when the buffer overflows 255, and a bounded buffer stays bounded |
| TickSignals.PushedAllKeepsNewest | public/signals/signals.js:58-61 | after any run of ticks, `PushedAll`, a bounded buffer holds exactly the newest 255 quotes it has seen, in arrival order |
| TickSignals.OldestEvicted | public/signals/signals.js:60-61 | 256 ticks into an empty buffer leave all but the first |
| TickSignals.TicksStorage.constructor | public/signals/signals.js:1-12 | the ten subscribed symbols, each with an empty buffer |
| TickSignals.TicksStorage.OnHistory | public/signals/signals.js:55-57 | the symbol's buffer becomes the received prices, added if absent, nothing else changes; bounded if the history is |
| TickSignals.TicksStorage.OnTick | public/signals/signals.js:58-61 | a known symbol's buffer becomes `Pushed` of it and the others are unchanged; an unknown symbol changes nothing and is reported unhandled; boundedness is preserved |
| TickSignals.TicksStorage.OnMessage | public/signals/signals.js:53-63 | dispatch: a history message is handled as `OnHistory`, a tick as `OnTick`, any other message changes nothing |
| TickSignals.TicksStorage.CalculateTrendPercentage | public/signals/signals.js:34-51 | the counting loop computes the trend of the last `ticksCount` quotes |
| TickSignals.DirectionalPairsBound | public/signals/signals.js:41-44 | rises plus falls never exceed the number of adjacent pairs |
| TickSignals.TrendComplementary | public/signals/signals.js:46-50 | the trend of a window (`TrendOf`, from `Rises` and `Falls`: the adjacent pairs whose later quote is greater, or smaller) has rise and fall percentages each in [0, 100] that sum to 100 when any pair moved; otherwise both are 0 |
| TickSignals.RisingTrend | public/signals/signals.js:41-50 | strictly rising quotes give 100% rise and 0% fall |
| TickSignals.FallingTrend | public/signals/signals.js:41-50 | strictly falling quotes give 0% rise and 100% fall |
| TickSignals.FlatTrend | public/signals/signals.js:36-50 | quotes that never move give 0% and 0% |
| TickSignals.CountLastDigits | public/signals/signals.js:99-103 | the counting loop computes the last-digit histogram |
| TickSignals.HistogramCounts | public/signals/signals.js:99-103 | bucket d of `HistogramOf` counts the ticks ending in digit d; buckets plus NaN digits account for every tick |
| TickSignals.HistogramSumsToLength | public/signals/signals.js:99-105 | when every quote ends in a digit the buckets sum to the buffer length |
| TickSignals.OverTwo | public/signals/signals.js:106-109 | Over 2 is flagged exactly when digits 7, 8 and 9 each make up less than a tenth of the ticks |
| TickSignals.UnderSeven | public/signals/signals.js:106-111 | Under 7 is flagged exactly when digits 0, 1 and 2 each make up less than a tenth of the ticks |
| TickSignals.NeverBuyAndSell | public/signals/signals.js:81-82 | no buffer raises Rise (`IsBuy`: rise above 57% over 255 quotes and above 55% over 55) and Fall (`IsSell`, the same on falls) together |
| TickSignals.DisplayNameOneSecond | public/signals/signals.js:89-90 | `DisplayName` labels `1HZ<n>V` as "Volatility <n> (1s) Index" |
| TickSignals.DisplayNameStandard | public/signals/signals.js:89-91 | `DisplayName` labels `R_<n>` as "Volatility <n> Index" |
| TickSignals.SymbolRow | public/signals/signals.js:73-118 | a row exists exactly for a buffer of at least 255 quotes and carries the display name; it is a buy exactly when the rise percentage is above 57 over the last 255 quotes and above 55 over the last 55, a sell exactly when the fall percentages are; never both; Over 2 and Under 7 are flagged exactly when the three digits each have a share below a tenth |
| TickSignals.TicksStorage.UpdateTables | public/signals/signals.js:65-119 | the loop over the symbols builds the rows of the full buffers in key order |
| TickSignals.RowsOfFullBuffers | public/signals/signals.js:72-74 | `RowsOf`: one row per visited symbol with a full buffer, none both buy and sell |
| FrequencyRank.TallyCounts | debug-digit-frequency-rank.js:43-59 | entry d of `digitCounts` (`Tally`) is the number of occurrences of d among the generated digits |
| FrequencyRank.TallySum | debug-digit-frequency-rank.js:43-59 | the counts add up to the number of digits |
| FrequencyRank.BiasedDigit | debug-digit-frequency-rank.js:48-56 | a digit 0-9; a first draw below 0.2 gives 0-2, between 0.2 and 0.4 gives 8-9 |
| FrequencyRank.BiasedDigits | debug-digit-frequency-rank.js:45-60 | one digit per draw, all in 0-9 |
| FrequencyRank.Sort | debug-digit-frequency-rank.js:63-64 | the sorted buckets are a permutation of the input |
| FrequencyRank.SortOrdered | debug-digit-frequency-rank.js:64 | buckets with distinct digits sort into the comparator's order (`Before`): higher count first, lower digit on a tie |
| FrequencyRank.Buckets | debug-digit-frequency-rank.js:63 | `map((count, digit) => ({digit, count}))`: bucket d holds digit d and its count |
| FrequencyRank.RankingFacts | debug-digit-frequency-rank.js:63-64 | `sorted` (`Ranking`) is an ordered permutation of the ten buckets, and each digit appears in it with its own count |
| FrequencyRank.MostFrequent | debug-digit-frequency-rank.js:63-64 | the first entry has a maximal count |
| FrequencyRank.LeastFrequent | debug-digit-frequency-rank.js:63-64 | the last entry has a minimal count |
| FrequencyRank.RunnersUp | debug-digit-frequency-rank.js:219-222 | entry 1 is beaten only by entry 0, and entry 8 beats only entry 9 |
| FrequencyRank.MostIs | debug-digit-frequency-rank.js:64 | a digit ranks first exactly when it beats every other digit under the comparator, both directions |
| FrequencyRank.LeastIs | debug-digit-frequency-rank.js:64 | a digit ranks last exactly when every other digit beats it, both directions |
| FrequencyRank.AllZeroRanking | debug-digit-frequency-rank.js:64 | with no digits the tie-break ranks 0 first and 9 last |
| FrequencyRank.TieBreakExample | debug-digit-frequency-rank.js:64 | digits 3, 3, 7, 7 rank 3 first (lower digit wins the tie) and 9 last |
| FrequencyRank.GenerateFrequencyTestData | debug-digit-frequency-rank.js:40-71 | the loop returns the biased digits, their tally, which sums to the count, and its ranking |
| FrequencyRank.SelectRank | debug-digit-frequency-rank.js:214-225 | the selected digit is one of the ranking's digits |
| FrequencyRank.RankPositions | debug-digit-frequency-rank.js:214-225 | on ten entries: least is entry 9, second_most entry 1, second_least entry 8, most and any other rank entry 0 |
| FrequencyRank.CalculateMockFrequencyRank | debug-digit-frequency-rank.js:211-226 | the digit of the requested rank: most (and unknown) is a most frequent digit, least a least frequent one, the runners-up are beaten only by those |
| FrequencyRank.GenerateTradingSignals | debug-digit-frequency-rank.js:106-151 | each signal is present exactly under its rule (most ≥ 7, most ≤ 2, least 0 or 9, range ≤ 3), with the rule's confidence and subject, in rule order, never both high and low bias |
| FrequencyRank.AnalyzeFrequencyStrategy | debug-digit-frequency-rank.js:294-309 | each recommendation is present exactly under its rule, wide and narrow spread exclude each other, in rule order |
| PatternBlock.PatternHolds | debug-all-same-pattern-block.js:144-155 | all_even, all_odd and all_same are exactly the corresponding universal statements; every other pattern is false |
| PatternBlock.EmptyHoldsEveryPattern | debug-all-same-pattern-block.js:146-154 | each known pattern holds of no digits |
| PatternBlock.EvenOddExclusive | debug-all-same-pattern-block.js:146-151 | on at least one digit all_even and all_odd exclude each other |
| PatternBlock.GenerateTestData | debug-all-same-pattern-block.js:27-57 | a known pattern gives max(0, count) digits drawn from its set (one repeated digit for all_same), an unknown one none; the data satisfies its pattern |
| PatternBlock.CalculateMockPattern | debug-all-same-pattern-block.js:141-158 | the result is the pattern check on the generated digits, true exactly for all_even, all_odd and all_same |
| PatternBlock.SimulatePatternCheck | debug-all-same-pattern-block.js:60-93 | every simulated case's result equals its `expectResult`, whatever the draws |
| PatternBlock.RecordOf | debug-all-same-pattern-block.js:119-133 | a success entry carries the returned value, an error entry none |
| PatternBlock.PatternDebugger.constructor | debug-all-same-pattern-block.js:7-10 | no results recorded |
| PatternBlock.PatternDebugger.RunTests | debug-all-same-pattern-block.js:96-138 | nothing changes when the check is unavailable; otherwise one record per case is appended in case order, earlier records kept |
| PatternBlock.PatternDebugger.TestSummary | debug-all-same-pattern-block.js:198-207 | the first number is how many records have status "success", the second how many have status "error", the third the total; on a valid record the first two add up to the total |
| DigitOperators.EveryDigit | test-digit-comparison.js:125-141 | a known operator (`IsOperator`: equal, greater, less, greater_equal, less_equal) holds exactly when every digit satisfies it (`Satisfies`, the digit compared with the target); an unknown one is false |
| DigitOperators.SelectedDigits | test-digit-comparison.js:116-119 | the last digits of the last `count` ticks (all for 0 or a count beyond the length), aligned with those ticks |
| DigitOperators.OperatorImplications | test-digit-comparison.js:125-141 | greater implies greater_equal, less implies less_equal, equal implies both |
| DigitOperators.LessMonotone | test-digit-comparison.js:129-134 | a higher target keeps `less` true and a lower one keeps `greater` true |
| DigitComparisonTest.CheckDigitComparison | test-digit-comparison.js:116-142 | true exactly when the selection is non-empty, the operator known, and every selected digit satisfies it |
| DigitComparisonTest.EmptySelectionFails | test-digit-comparison.js:121-124 | no ticks, or an emptying negative count, give false |
| DigitComparisonTest.CountClamped | test-digit-comparison.js:119 | a count beyond the ticks selects them all |
| DigitComparisonTest.EqualCases | test-digit-comparison.js:8-23 | the two `equal` cases give their expected results |
| DigitComparisonTest.GreaterCases | test-digit-comparison.js:24-39 | the two `greater` cases give their expected results |
| DigitComparisonTest.LessCases | test-digit-comparison.js:40-55 | the two `less` cases give their expected results |
| DigitComparisonTest.GreaterEqualCases | test-digit-comparison.js:56-71 | the two `greater_equal` cases give their expected results |
| DigitComparisonTest.LessEqualCases | test-digit-comparison.js:72-87 | the two `less_equal` cases give their expected results |
| DigitComparisonTest.SingleTickCase | test-digit-comparison.js:88-95 | one tick ending in 7 equals 7 |
| DigitComparisonTest.NoTicksCase | test-digit-comparison.js:96-103 | no ticks give false |
| DigitComparisonDebug.DebugDigitComparison | debug-digit-comparison.js:52-83 | without the guard, true exactly when the operator is known and every selected digit satisfies it, so no ticks give true for a known operator |
| DigitComparisonDebug.GuardIsTheOnlyDifference | debug-digit-comparison.js:64-83 | the two scripts agree on every non-empty selection and differ on an empty one |
| DigitComparisonDebug.AllSevensScenario | debug-digit-comparison.js:12-19 | the all-7s scenario holds |
| DigitComparisonDebug.GreaterScenario | debug-digit-comparison.js:20-27 | the greater-than-5 scenario holds |
| DigitComparisonDebug.LessScenario | debug-digit-comparison.js:28-35 | the less-than-5 scenario holds |
| DigitComparisonDebug.MixedScenario | debug-digit-comparison.js:36-43 | the mixed scenario fails, as its description says |
| EvenOddData.TenthsDigit | debug-even-odd-data.js:80 | the formula gives a digit 0-9, the tenths digit of a non-negative quote |
| EvenOddData.TenthsDigitOfDecimal | debug-even-odd-data.js:133 | for a quote `w.th` the formula yields t, not h |
| EvenOddData.Digits | debug-even-odd-data.js:133 | one formula digit per quote |
| EvenOddData.ParityCountsCover | debug-even-odd-data.js:134-135 | `EvenCount` and `OddCount`, the digits passing `EvenDigit` and `OddDigit`, add up to the number of quotes |
| EvenOddData.EvenCountIsEven | debug-even-odd-data.js:80-81 | the even count of Test 5 is the number of quotes the tick listener reports as `isEven` (`IsEven`) |
| EvenOddData.ParityPercentages | debug-even-odd-data.js:138-139 | both percentages are NaN on no quotes; otherwise each is its count over the number of quotes times 100, in [0, 100], and the two sum to 100 |
| EvenOddData.TestTickDigits | debug-even-odd-data.js:120-133 | Test 5's quotes give digits 4 … 9, 0 … 3, each with the parity of its position |
| EvenOddData.AlternatingParities | debug-even-odd-data.js:134-135 | digits in (even, odd) pairs have equal even and odd counts |
| EvenOddData.ManualCalculation | debug-even-odd-data.js:116-142 | Test 5 has five even and five odd digits, 50% each, the expected result |
| BotCatalogue.LastSegment | src/pages/main/main.tsx:137 | `split('/').pop()` is the suffix after the last '/', or the whole path when there is none |
| BotCatalogue.LastSegmentNoSlash | src/pages/main/main.tsx:137 | a path without '/' is its own last segment |
| BotCatalogue.LoadBots | src/pages/main/main.tsx:132-172 | one record per bot file of `BotFiles`, in order, made by `MakeBot` with its title, path, category, popularity and description; `filter(Boolean)` drops none |
| BotCatalogue.BareNamesAreTitles | src/pages/main/main.tsx:137-161 | bare file names are their records' titles |
| BotCatalogue.CatalogueFacts | src/pages/main/main.tsx:120-130 | every built-in bot is automated or popular, with popularity in [80, 100) |
| BotCatalogue.CategoryCount | src/pages/main/main.tsx:514 | the category statistic is the number of bots whose category is the selected one, so at most the number of bots |
| BotCatalogue.VisibleExactly | src/pages/main/main.tsx:582-588 | the cards (`VisibleBots`) are exactly the bots of the category that match the search (`MatchesSearch`), in catalogue order, no more than the category count |
| BotCatalogue.EmptyQueryGuardRedundant | src/pages/main/main.tsx:584-588 | the search test is the two `includes` tests alone |
| BotCatalogue.EmptyQueryShowsCategory | src/pages/main/main.tsx:582-588 | with no search text the cards are the whole category |
| BotCatalogue.SearchIgnoresCase | src/pages/main/main.tsx:586-587 | a lower-cased query shows the same cards |
| BotCatalogue.SpaceSeparators | src/pages/main/main.tsx:604 | `replace(/[-_]/g, ' ')` keeps the length, puts a space at every '-' or '_' and keeps every other character |
| BotCatalogue.FormatTitle | src/pages/main/main.tsx:604 | the heading is the title with separators spaced when it holds no ".xml"; otherwise the title with its first ".xml" removed, then separators spaced; it is no longer than the title and has no '-' or '_' |
| BotCatalogue.FormatTitleOfXmlFile | src/pages/main/main.tsx:604 | for `<name>.xml` when ".xml" occurs only as the extension the heading is the name with separators spaced |
| BotCatalogue.NoEarlyExtension | src/pages/main/main.tsx:604 | a name without 'x' holds no ".xml" before its extension |
| BotCatalogue.SpaceSeparatorsUnchanged | src/pages/main/main.tsx:604 | a text without '-' or '_' keeps its spelling |
| BotCatalogue.PlainFileTitle | src/pages/main/main.tsx:604 | a name without 'x', '-' or '_' is the heading of `<name>.xml`, dots in it included |
| BotCatalogue.MarketWizardTitle | src/pages/main/main.tsx:604 | the file "Market wizard v1.5.xml" of the built-in list gets the heading "Market wizard v1.5" |
| BotCatalogue.Stars | src/pages/main/main.tsx:624 | five stars |
| BotCatalogue.GoldPrefix | src/pages/main/main.tsx:624-631 | the first k stars hold min(k, max(0, floor(popularity/20))) gold ones |
| BotCatalogue.GoldStarsCount | src/pages/main/main.tsx:624-631 | the gold stars (`GoldStars`) number clamp(floor(popularity/20), 0, 5) and come before the grey ones |
| BotCatalogue.CatalogueRatings | src/pages/main/main.tsx:606-631 | every built-in bot shows a rating (`ShowsRating`) with four gold stars |
| BotCatalogue.EmptyState | src/pages/main/main.tsx:704-720 | the empty state appears only once bots are loaded and no card is shown; its heading is "No bots found" exactly when a search is typed |
| BotCatalogue.OnePageState | src/pages/main/main.tsx:554-720 | no empty state under the skeleton (`ShowsSkeleton`: no bot loaded); once loaded, the empty state shows exactly when no card does |
| BotCatalogue.EmptyStateWithoutSearch | src/pages/main/main.tsx:704-720 | without a search the empty state means the category is empty, and reads "No bots available" |
| BotCatalogue.RegularTabEmpty | src/pages/main/main.tsx:704-720 | the built-in catalogue has no regular bot, so that tab always shows the empty state |

## Left out

- The WebSocket connection, subscription requests and JSON parsing of `signals.js`: these are I/O. A parsed message is the `Message` datatype.
- The DOM tables, `innerHTML` and CSS classes of `signals.js` are left out: they are presentation. The rows keep the caption and the four flags.
- `setInterval` and every other timer are left out, because timing is not part of the logic. Each update is one call.
- `Object.keys(ticksStorage)` order: it is the `order` parameter of `UpdateTables`.
- IEEE-754 numbers are not modelled:
  - Quotes are decimal texts (exact reals in `EvenOddData`).
  - `parseFloat` and `toString` normalisation is not modelled. For example, a trailing zero vanishing changes the last digit in JavaScript but not here.
  - `toFixed(2)` rounding is not modelled.
- JsSemantics.NumericValue: reads only unsigned decimal text (digits with one optional point). Signs, exponents and `parseFloat`'s acceptance of trailing garbage are not modelled; any other text is NaN.
- TickSignals.IsBuy: the thresholds are compared with exact percentages. In JavaScript `(11 / 20) * 100` is `55.00000000000001`, so 11 rises among 20 moved pairs of the last 55 quotes pass `rise55 > 55` there but not here; 22 among 40 behave the same.
- TickSignals.IsSell: the same difference, on the fall percentages.
- TickSignals.SymbolRow: its buy and sell flags are stated on exact percentages. They inherit the rounding difference of `IsBuy` and `IsSell`.
- TickSignals.TrendComplementary: on exact reals the two percentages sum to exactly 100 when any pair moved. In JavaScript 1 rise and 2 falls give `33.33333333333333 + 66.66666666666666`, which is `99.99999999999999`.
- JsSemantics.PercentsComplement: the sum is exactly 100 on exact reals; double rounding as in the line above is not modelled.
- EvenOddData.ParityPercentages: the sum to 100 holds on exact reals; double rounding and `toFixed(2)` are not modelled.
- JsSemantics.PercentBelowTen: the comparison with 10% is exact; a double that rounds onto the threshold is not modelled.
- JsSemantics.ToLower: lower-cases ASCII letters only; Unicode case mapping is not modelled.
- The calls into the bot runtime (`Bot.checkAllSamePattern`, `window.dbot`, the API base) are outside these files. Their availability and outcomes are parameters.
- The console output of the debug scripts is left out, because it is presentation. This covers the logged messages, the signal action and reason texts, and the strategy texts. The signal's subject digit and confidence are kept.
- In `debug-digit-frequency-rank.js`, `runTests`, `simulateFrequencyCheck`, `startFrequencyMonitoring`/`stopFrequencyMonitoring` and the live-data helpers are left out, because they only call the bot runtime and log. Their pure parts are modelled: data generation, ranking, rank selection, signals and strategy rules.
- In `debug-all-same-pattern-block.js`, monitoring and the live-data helpers are left out, for the same reason. `checkMethodAvailability` is the `available` argument of `RunTests`.
- `test-tick-trading.js`, `test-purchase-debugging.js` and `test-block-availability.js` are not part of this model: they are console demonstrations and existence checks of runtime globals.
- Tests 1-4 of `debug-even-odd-data.js` only inspect the runtime. Only the tick listener's formula is modelled.
- The `count` argument of `generateFrequencyTestData` and `calculateMockFrequencyRank` (default 20) is the number of draw pairs passed in.
- `fetch`, `DOMParser` and the record's `image` and `xmlContent` are left out of the catalogue. They are not stored in `Bot`, because they do not affect title, category, popularity or filtering.
- Page `main.tsx` outside the catalogue is not part of this model: tabs, the analysis-tool URL, scrolling, and React rendering and state.
- The catalogue's category labels and icons, the statistics texts and the card layout are text and layout only, and are left out.
- BotCatalogue.ShowsRating: a popularity is an integer here, so the JavaScript falsiness of NaN is not modelled.
- FrequencyRank.Tally: its own contract states only that there are ten entries. What each entry counts is in the lemma `TallyCounts`.
- BotCatalogue.Stars: its own contract states only that there are five stars. Which stars are gold is in the lemmas `GoldPrefix` and `GoldStarsCount`.
