# Lottery number generator: a Dafny model of the `LotteryApp` state

This project models the state core of the `LotteryApp` class of the lottery
number generator web application (js/app.js). The class is modelled without
its page, storage and timers. It covers:

- **Generation.** A Lotto 6/45 result is six distinct numbers of 1..45. It
  starts from up to five pinned ("fixed") numbers, is filled up with random
  draws, and is sorted. A pension-lottery result is a group of 1..5 and six
  digits of 0..9. A batch holds `setCount` results of the current type.
- **Pinned numbers.** A number is toggled into or out of a sorted selection
  of at most five.
- **The saved list.**
  - Saving puts a result in front unless an entry with the same draw is
    already saved; the timestamp is ignored in that comparison.
  - Deleting is a one-element JavaScript `splice`.
  - Clearing empties the list.
- **Statistics.**
  - A running total of generated sets.
  - A log of dated generation events.
  - The lucky day: the weekday with most events, the lowest weekday winning
    ties.
  - A per-number frequency table of every generated Lotto number, and the
    hot/cold marking read from it.
- **Analysis.**
  - The ball colour band of a number.
  - The odd/even count, sum and range of the first set.
  - The premium combination analysis: sum, odd/even, low/high at 22, and
    consecutive pairs.

The modules follow the structure of the program:

- `Seqs`: the JavaScript array built-ins used (`indexOf`, `Math.max`, numeric
  `sort`) and order or distinctness facts.
- `Draws`: the result values.
- `Generator`: generation.
- `ResultStore`: the saved-list operations as functions.
- `Frequency`: the tally and the hot/cold rule.
- `GenerationStats`: the lucky day.
- `Analysis`: the display arithmetic.
- `App`: the class `LotteryApp`.

`LotteryApp` has the fields the source updates in place. It also has a
ghost list `lottoDraws` of every Lotto number generated. Its invariant
`Valid()` states:

- the pinned numbers form a valid selection;
- every result is well formed;
- the saved list has no two entries with the same draw;
- the lucky day is the lucky day of the log;
- the frequency table is exactly the tally of `lottoDraws`.

Every method keeps `Valid()` except `CalculateLuckyDay`. The source calls
that one only from `updateStats`, after appending the new event. It requires
a non-empty log and re-establishes the statistics part of `Valid()`.

Randomness and the clock are parameters of the model:

- Each `Math.random()` draw is an arbitrary choice (`:|`) in the range the
  source's expression can produce, so every result holds for every
  sequence of draws.
- The clock readings are inputs: `clock[i]` for the `i`-th result of a batch
  and `today` for the event log.
- `confirm()` becomes a boolean argument.

## Model

| member | source | states |
|---|---|---|
| Seqs.IndexOf | js/app.js:121 | `indexOf`: -1 exactly when the value is absent; otherwise a position holding the value with no earlier occurrence |
| Seqs.MaxOf | js/app.js:484 | `Math.max` of a non-empty list is an element of it and no element exceeds it |
| Seqs.InsertAscending | js/app.js:127 | inserting into an ascending list keeps it ascending and adds exactly that one value |
| Seqs.SortAscending | js/app.js:127 | the numeric sort returns an ascending permutation of its input |
| Seqs.AscendingUnique | js/app.js:127 | two ascending lists with the same elements (as multisets) are equal, so the sort result is determined |
| Seqs.StrictlyAscendingByMembers | js/app.js:120-129 | a strictly ascending list is determined by its set of elements, so the membership ensures of the toggle fix the whole new selection |
| Seqs.DistinctMultiplicity | js/app.js:166 | in a duplicate-free list each value occurs once or not at all |
| Seqs.PermutationKeepsDistinct | js/app.js:170 | rearranging (sorting) a duplicate-free list keeps it duplicate-free |
| Seqs.AscendingDistinct | js/app.js:170 | a sorted duplicate-free list is strictly ascending |
| Seqs.UnusedValueExists | js/app.js:164-169 | fewer than 45 numbers leave some number of 1..45 undrawn, so the drawing loop can always progress |
| Generator.GenerateLotto | js/app.js:162-171 | for any duplicate-free pinned list of at most five numbers of 1..45, the result is six distinct numbers of 1..45 in ascending order, and it contains every pinned number |
| Generator.GeneratePension | js/app.js:174-184 | the group is in 1..5 and there are exactly six digits, each in 0..9 |
| Generator.GenerateBatch | js/app.js:190-205 | exactly `setCount` results, each well formed, of the requested type and stamped with its own clock reading; every Lotto result contains the pinned numbers |
| ResultStore.SaveInto | js/app.js:323-337 | a draw already saved leaves the list unchanged; otherwise the result is first and the old entries follow in order; the draw is saved afterwards; no-duplicate lists stay duplicate-free |
| ResultStore.SameDrawIsEquivalence | js/app.js:323-330 | the duplicate test is reflexive, symmetric and transitive, and it does not depend on the timestamp |
| ResultStore.SaveTwice | js/app.js:316-337 | saving the same draw a second time, whatever its timestamp, changes nothing, so two saves add at most one entry |
| ResultStore.SpliceOne | js/app.js:441 | `splice(start, 1)` removes the element at the start position if there is one, keeps the others in order, and adds nothing |
| ResultStore.DeleteInRange | js/app.js:439-446 | deleting index `i` with `0 <= i < length` removes exactly entry `i`; an index at or past the end deletes nothing; a negative index `-k` with `k <= length` removes the `k`-th entry from the end, and one below `-length` removes the first entry |
| ResultStore.SpliceKeepsNoDuplicates | js/app.js:441 | deletion keeps the saved list free of duplicate draws |
| Frequency.TalliedCount | js/app.js:64-69 | after the tally each number's count has risen by the times it is listed and every other count is unchanged |
| Frequency.TalliedKeys | js/app.js:64-69 | the tally adds keys for the listed numbers and for no others |
| Frequency.HeatOf | js/app.js:82-86 | hot exactly when the count exceeds 1.5 times the mean `total / 45` (in real arithmetic); cold exactly at count 0; unmarked otherwise |
| Frequency.HotCountBound | js/app.js:77-86 | the hot numbers among 1..n, times (total + 1), are at most 30 times their summed counts |
| Frequency.FewerThanThirtyHot | js/app.js:77-86 | at most 29 of the 45 numbers are hot, and none while the table is empty |
| GenerationStats.LuckyDayIndex | js/app.js:478-485 | the computed weekday has the highest tally of the seven, and no earlier weekday reaches that tally |
| GenerationStats.LuckyDayUnique | js/app.js:484-485 | exactly one weekday satisfies the lucky-day rule |
| GenerationStats.LuckyDayStable | js/app.js:478-485 | one more event on the lucky day keeps it the lucky day |
| Analysis.BallRange | js/app.js:55-61 | bands 1..5, the band's range bounding the number on both sides |
| Analysis.BallRangeMonotonic | js/app.js:55-61 | a larger number never gets a lower band |
| Analysis.OddEvenSplit | js/app.js:237-238 | for non-negative numbers the odd and even counts add up to the length |
| Analysis.LowHighSplit | js/app.js:673-674 | the low (at most 22) and high counts add up to the length |
| Analysis.SumBounds | js/app.js:242 | the sum of a Lotto result lies in 21..255 |
| Analysis.FirstIsMinLastIsMax | js/app.js:246-247 | in a Lotto result the first number is the minimum and the last the maximum |
| Analysis.AnalyzeNumbers | js/app.js:225-249 | no analysis for an empty batch or a pension first result; otherwise the odd and even counts add to 6 (even is the true even count), the sum is the arithmetic sum of the set and lies in 21..255, and min and max are elements bounding the set |
| Analysis.AdjacentPairsMembers | js/app.js:684-689 | a pair is listed exactly when it sits at adjacent positions and its parts differ by 1 |
| Analysis.AdjacentPairsOrdered | js/app.js:684-689 | on a strictly ascending list the pairs come in increasing order of their first part, each second part being the first plus 1 |
| Analysis.ConsecutivePairs | js/app.js:684-689 | the scan loop returns exactly the adjacent pairs that differ by 1, in order |
| Analysis.PremiumContent | js/app.js:661-738 | nothing for an empty batch; a pension first result gives its group and digits; a Lotto first result gives odd+even = 6, low+high = 6 (high is the true count above 22), the arithmetic sum of the numbers, lying in 21..255, the range and balance flags as the source's two conditions, and the consecutive pairs, complete and in order |
| Analysis.AnalysisOfOneToSix | js/app.js:225-249 | for 1..6: three odd numbers and sum 21, and the analysis of a batch led by 1..6 is 3:3, sum 21, range 1~6 |
| Analysis.PairsOfOneToSix | js/app.js:684-689 | for 1..6: the five consecutive pairs (1,2) ... (5,6) |
| App.LottoOccurrencesStep | js/app.js:213-215 | taking one more result of the batch adds one for each of its numbers if it is a Lotto result, and nothing for a pension result |
| App.SortedSelection | js/app.js:120-129 | sorting a duplicate-free list of at most five numbers of 1..45 gives a valid selection with the same elements |
| App.RemovePinned | js/app.js:121-123 | splicing out the position `indexOf` found removes exactly that number and keeps the list duplicate-free |
| App.AppendPinned | js/app.js:124-125 | pushing an absent number keeps the list duplicate-free and adds exactly that number |
| App.TalliedValid | js/app.js:64-69 | tallying a list of numbers of 1..45 keeps the frequency table equal to the tally of every generated Lotto number |
| App.LotteryApp.constructor | js/app.js:28-40 | a fresh application: Lotto type, nothing pinned, no results, nothing saved, zero statistics, an empty frequency table; the invariant holds |
| App.LotteryApp.ChangeType | js/app.js:501-502 | the type is set and nothing else changes |
| App.LotteryApp.ToggleFixedNumber | js/app.js:120-129 | a pinned number is removed; an unpinned number is added when fewer than five are pinned; otherwise the selection is unchanged; the selection stays sorted, duplicate-free, at most five long and in 1..45 |
| App.LotteryApp.UpdateFrequency | js/app.js:64-69 | each listed number's count rises by its occurrences and no other key changes |
| App.LotteryApp.CalculateLuckyDay | js/app.js:478-491 | on a non-empty log, the stored lucky day is the lucky day of the log, so the statistics invariant holds; the total and the log are unchanged |
| App.LotteryApp.UpdateStats | js/app.js:459-471 | the total rises by `setCount` and exactly one event is appended to the log; the lucky day is recomputed |
| App.LotteryApp.TallyLottoResults | js/app.js:213-215 | each count rises by the number of Lotto results of the batch containing it; a batch without Lotto results leaves the table unchanged |
| App.LotteryApp.GenerateNumbers | js/app.js:187-215 | the last batch has `setCount` results of the current type with their own clock readings, each Lotto result containing the pinned numbers; the total rises by `setCount`, one event is logged, and the frequency table counts the batch's Lotto numbers (a pension batch leaves it unchanged) |
| App.LotteryApp.SaveNumber | js/app.js:316-337 | no result at the index: nothing changes; a draw already saved: the duplicate outcome and no change; otherwise the result is prepended |
| App.LotteryApp.DeleteSaved | js/app.js:439-446 | on confirmation the list becomes the one-element splice at the index; without it nothing changes |
| App.LotteryApp.ClearAllSaved | js/app.js:449-456 | on confirmation the list becomes empty; without it nothing changes |

## Left out

- Storage: `loadFromStorage` and `saveToStorage` (localStorage and JSON) are not modelled. The constructor starts from empty storage, so the JSON round trip of the saved list, the statistics and the frequency table is not captured.
- Presentation is not modelled:
  - rendering, the number picker and its UI update, event wiring;
  - the semi-automatic mode toggle, theme handling and internationalised labels;
  - the interstitial advertisement, the winning simulation (canned data) and the random lucky message of the premium view;
  - the service worker and its registration (sw.js).
- `semiAutoMode` is not a field of the model. The source applies the pinned numbers whenever any are pinned, whatever the mode, and so does the model.
- App.LotteryApp.SaveNumber: takes the result from `lastResults[index]` rather than re-reading the rendered page, so four things the page read does are not modelled:
  - a fresh clock reading for the saved timestamp (the model keeps the generation time, which the duplicate test ignores);
  - the `parseInt` of the rendered group label;
  - the empty page after a type change, where the source saves nothing;
  - the character-by-character split of the rendered digit text, which includes the template's surrounding newline and spaces, so that the source saves a pension `numbers` array with `NaN` entries around the six digits; the model saves the six digits, and its saved entries stay well formed.
- App.LotteryApp.DeleteSaved: follows the code, which silently ignores an index past the end and counts a negative index from the end, rather than reporting an out-of-range index.
- App.LotteryApp.GenerateNumbers: `setCount` is a natural-number parameter. The `parseInt` of the input field, with its NaN and negative cases, is not modelled.
- App.LotteryApp.CalculateLuckyDay: stores the weekday index (0 = Sunday) rather than the localised day name with its suffix. `null` before the first generation is `None`.
- Generator.GenerateLotto: a random draw that repeats a number already present changes nothing in the source, so the model draws only among the absent numbers. How often the source loop repeats is not modelled.
- Frequency.HeatOf: the mean and the threshold are computed in exact arithmetic. IEEE floating-point rounding at the boundary is not modelled. The unused "below half the mean" branch yields no class, as in the source.
- Analysis.AnalyzeNumbers and Analysis.PremiumContent: require the first result to be well formed, which the `LotteryApp` invariant guarantees for `lastResults`. They return the values the source writes into the page.
- Analysis.PremiumContent: takes the batch as an argument (the source reads `lastResults`). The advertisement delay before it is not modelled.
- Analysis.ConsecutivePairs: returns the pairs as number pairs rather than the "a-b" text the source builds.
- The clock (`Date.now()`, `new Date()`) is not modelled; its readings are inputs to the model.
