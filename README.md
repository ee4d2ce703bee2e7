# WeathrGuessr round logic in Dafny

WeathrGuessr is a browser game: it shows a city and asks the player which of
four (high, low) temperature pairs is that city's forecast for today. This
project models the `WeatherGuessr` class of `app.js`, in two parts:

- **The decoy generator** (`generateChoices`, module `Choices`). It builds three
  wrong pairs from the true one. Each decoy gets a non-zero shift from a fixed
  table and a jitter in [-3, 3] on each temperature. It is then swapped into
  order and its spread is capped at 25 degrees. The four choices are shuffled
  with Fisher–Yates, and the position of the true pair is recorded.
- **The round controller** (module `Game`, class `Game.WeatherGuessr`). It holds
  `gameState` ('loading', 'waiting', 'answered'), the counters `gameStats`
  (module `Stats`), the true pair and `correctAnswer`. Its methods are
  `selectChoice`, `updateStats`, `updateStatsDisplay`, `resetGame`,
  `toggleTemperatureUnit` and the two halves of `startNewRound`.
- The display conversion of `formatTemperature` is module `Display`, and
  JavaScript's `Math.round` of an exact fraction is module `JsMath`.

Every `Math.random` draw is a parameter whose `requires` admits exactly the
values the source can draw. A shift is an index below 14 into the shift table.
A jitter is an integer in [-3, 3]. The Fisher–Yates step for position i draws a
partner in [0, i]. The weather fetch is a parameter too, `Fetched(pair)` or
`FetchFailed`. The pair is already rounded to integers.

Behaviour of `app.js` that the model keeps:

- The constructor first sets 'waiting' and then, through `startNewRound`,
  'loading'. So the model's constructor ends in `Loading`, with no choices.
- The unit flag is not persisted: every session starts in Fahrenheit
  (`isMetric` false). Only the theme and the first-visit flag are stored.
- The continuation after the fetch does not check `gameState`. A fetch that
  completes late sets 'waiting' and new choices whatever the state is, even
  'answered'. `FinishRound` therefore has no state precondition.
- The true pair is not reordered: only decoys are guaranteed low <= high.
- A decoy may equal the true pair. `DecoyCanEqualTruth` shows one. Picking it
  is still scored wrong, because the verdict compares positions, not values.

## Model

| member | source | states |
|---|---|---|
| `JsMath.JsRound` | app.js:232 | Math.round of n/d: the result is within one half of n/d, a tie rounding up |
| `JsMath.JsRoundUnique` | app.js:232 | any integer within one half of n/d (tie up) is the rounded value, so the rounding is determined |
| `Display.ToFahrenheit` | app.js:232 | the integer shown for Celsius c is at most 2/5 of a degree from 9c/5 + 32 |
| `Display.FahrenheitIsJsRound` | app.js:232 | the integer conversion equals Math.round(c * 9/5 + 32) for every integer c |
| `Display.FahrenheitStrictlyIncreasing` | app.js:228-234 | two different Celsius values never show as the same Fahrenheit value |
| `Display.FahrenheitExamples` | app.js:228-234 | 20 °C shows 68 °F, 0 °C shows 32 °F, -40 shows -40, 37 shows 99 |
| `Stats.NewGame` | app.js:5-10 | a fresh game is round 1 with consistent counters (so 0 correct, streak 0) and the given unit |
| `Stats.Scored` | app.js:258-271 | an answered round adds one to the round, keeps the unit, keeps the counters consistent, and leaves a zero streak exactly when the answer was wrong |
| `Stats.TrailingRun` | app.js:259-264 | the streak value: the length of the final uninterrupted run of correct answers |
| `Stats.Play` | app.js:258-271 | a run of answered rounds adds one round per answer and never changes the unit |
| `Stats.PlayFromNewGame` | app.js:258-271 | from a fresh game, round is 1 + answers given, correct counts the correct answers, streak is the final run of correct answers, and the unit never changes |
| `Stats.PlayKeepsConsistent` | app.js:258-271 | any sequence of answers keeps streak <= correct <= completed rounds and the unit |
| `Stats.ScoredExample` | app.js:258-271 | (round 6, correct 5, streak 3) becomes (7, 6, 4) on a correct answer and (7, 5, 0) on a wrong one |
| `Stats.DisplayAccuracy` | app.js:276-277 | 0 while nothing is correct, else the percentage correct/completed rounded half up |
| `Stats.ShareAccuracy` | app.js:430-432 | 0 before any round is complete, else the same rounded percentage |
| `Stats.AccuracyAgrees` | app.js:276-277 | on consistent counters the two guards give the same figure, and it lies in [0, 100] |
| `Stats.AccuracyExample` | app.js:276-277 | 3 of 4 shows 75%, 2 of 3 shows 67%, 1 of 8 shows 13% |
| `Choices.GetRandomVariation` | app.js:206-210 | every shift in the table is non-zero and at most 15 degrees either way |
| `Choices.CapSpread` | app.js:183-189 | keeps low <= high; a spread over 25 becomes exactly 25, the high lowered by floor(excess/2) and the low raised by ceil(excess/2); a spread of 25 or less is untouched |
| `Choices.Decoy` | app.js:166-191 | every decoy has low <= high and spread <= 25, and its midpoint stays within a few degrees of the shifted true midpoint |
| `Choices.GenerateVariations` | app.js:165-192 | the loop yields exactly three decoys, the k-th being `Decoy` of the k-th draws |
| `Choices.Decoys` | app.js:165-192 | one decoy per draw, in generation order, each with low <= high and spread <= 25 |
| `Choices.Unshuffled` | app.js:157-194 | before the shuffle the true pair is first and flagged, and ordered capped decoys follow unflagged |
| `Choices.Swap` | app.js:199 | the destructuring swap exchanges entries i and j and nothing else |
| `Choices.ShuffleSteps` | app.js:197-200 | the first m Fisher–Yates steps, each swapping position n-1-k with its drawn partner, keep the length |
| `Choices.Shuffled` | app.js:197-200 | the whole Fisher–Yates loop returns a permutation of its input, of the same length |
| `Choices.TrackSteps` | app.js:197-202 | following one entry through the swaps keeps its position inside the array |
| `Choices.CorrectPosition` | app.js:202 | the recorded position of the true pair is one of the four choice indices |
| `Choices.ShuffleStepsPermutes` | app.js:197-200 | the Fisher–Yates steps leave the same multiset of choices |
| `Choices.ShuffleStepsTrack` | app.js:197-202 | the shuffle carries the true pair to the tracked position and keeps every other entry an unflagged, ordered, capped decoy |
| `Choices.Generated` | app.js:152-202 | the result of generateChoices is four choices, a permutation of the true pair followed by the three decoys |
| `Choices.GeneratedIsRoundChoices` | app.js:152-202 | the result is four choices, a permutation of the true pair and the three decoys, with the true pair unchanged at the recorded position and only valid decoys elsewhere |
| `Choices.ExactlyOneCorrect` | app.js:157-202 | exactly one generated choice is flagged correct |
| `Choices.DecoyDiffersForLargeShift` | app.js:166-191 | a shift of 4 degrees or more always gives a decoy different from the true pair |
| `Choices.DecoyCanEqualTruth` | app.js:166-191 | a shift of 2 with jitters of -2 reproduces the true pair (20, 10) |
| `Choices.CapSpreadExample` | app.js:183-189 | raw spreads of 31 and 30 above a low of 6 are both cut to (34, 9) |
| `Choices.Shuffle` | app.js:197-200 | the in-place loop leaves the array equal to the specified shuffle of its old contents, a permutation of them |
| `Choices.FindCorrect` | app.js:202 | findIndex returns the first flagged position, or -1 exactly when none is flagged |
| `Game.WeatherGuessr.constructor` | app.js:2-20 | a new game: round 1, nothing correct, Fahrenheit, loading, no choices and no recorded answer |
| `Game.WeatherGuessr.StartRound` | app.js:72-74 | starting a round sets loading and changes nothing else |
| `Game.WeatherGuessr.FinishRound` | app.js:84-98 | a successful fetch stores the pair, generates the choices, records the true position and accepts answers; a failed fetch changes nothing, so a loading round stays loading |
| `Game.WeatherGuessr.GenerateChoices` | app.js:152-204 | the choices are the generated ones and correctAnswer is the position of the true pair, the only flagged entry |
| `Game.WeatherGuessr.SelectChoice` | app.js:236-256 | a click outside 'waiting' changes nothing; otherwise the round becomes answered and is scored by whether the clicked index is correctAnswer, which is exactly whether that choice is flagged; the shown accuracy is in [0, 100]; the unit never changes |
| `Game.WeatherGuessr.UpdateStats` | app.js:258-267 | the counters become `Scored` of the old ones, and the returned accuracy is that of the new counters |
| `Game.WeatherGuessr.UpdateStatsDisplay` | app.js:269-281 | the round is incremented, nothing else changes, and the accuracy is taken over at least one completed round |
| `Game.WeatherGuessr.ResetGame` | app.js:296-312 | round 1, nothing correct, streak 0, the unit kept, and a new round loading |
| `Game.WeatherGuessr.ToggleTemperatureUnit` | app.js:334-340 | the unit flips and the counters are reset as by resetGame |
| `Game.WeatherGuessr.FormatTemperature` | app.js:228-234 | metric mode shows the Celsius value; otherwise Math.round(9c/5 + 32) in Fahrenheit |

## Left out

- DOM work: `initializeElements`, `bindEvents`, `renderChoices` (beyond
  keeping the rendered list), the class-list styling in `selectChoice`,
  `showFeedback`, `showLoading`, `showError` and the stats text. These are
  presentation with no checkable logic.
- Network I/O: `getWeatherData`, `getCityImage`, `checkAPIStatus` and the
  `Promise.all` join. The outcome of the join is the `Fetch` parameter. The
  rounding of the API's floats (app.js:118-119) is outside the model, which
  takes integer temperatures.
- Asynchrony: each `startNewRound` is split into `StartRound` (before the
  await) and `FinishRound` (after it). Callers may interleave these with clicks
  in any order, but the model has no scheduler or event queue.
- `getRandomCity`: the city table is not part of this model, and the function
  only picks a random index.
- `Math.random`: every draw is a constrained parameter. The distribution, such
  as the uniformity of the correct position, is not modelled.
- Theme, the first-visit flag, the welcome and share dialogs, the clipboard,
  timers and the share text. These are browser storage and UI side effects.
- `getChoiceDataByIndex` (app.js:342-356): it is never called, and it returns
  random approximations.
- Stats.DisplayAccuracy: uses the exact fraction, while JavaScript computes
  `correct / completed * 100` in floating point. The two can differ on an
  exact half. For example, 29 of 200 is exactly 14.5 and the model shows 15,
  but the floating-point product is just below 14.5.
- Stats.ShareAccuracy: the same floating-point difference as DisplayAccuracy.
