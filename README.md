# Number game store, modelled in Dafny

This project models the game store of a single-player Bulls-and-Cows digit
game (`src/gameStore.js`). The store keeps a hidden four-digit secret with
distinct digits and a non-zero leading digit. It validates and scores the
player's guesses, keeps a history of accepted guesses (most recent first)
with the time each one took, and keeps a per-digit annotation scratchpad
that cycles through four tags on each toggle.

Everything lives in module `NumberGame` (`number_game.dfy`):

- **Secret generation.** `GenerateTargetNumber` is the rejection-sampling
  loop of `generateTargetNumber`. The random digits come in as a sequence
  of draws, one draw per call of the random-number generator. A draw is
  rejected when it is a leading 0 or repeats an accepted digit
  (`Rejects`). `Collect` and `Generate` state what the loop computes.
  `GenerateValid` proves that every secret it returns has the secret shape.
  `GenerateReachesEverySecret` proves that every well-shaped secret can
  come out.
- **Validation.** `IsValidGuess` computes validity as the source does: length
  4, first character not `'0'`, and a set of the characters of size 4. Its
  contract restates this as "four pairwise-distinct characters", using
  `DistinctIffCharSetFull`.
- **Scoring.** `GameStore.EvaluateGuess` is the single pass with two
  counters. `correctPosition` counts bulls and `correctDigit` counts cows.
  `CountPositions` and `CountDigits` give the counters after k positions.
  `ScoreOf` is the pair and `FormatScore` is the `-{cows} +{bulls}` text.
  `Evaluate` is evaluateGuess as a function; the loop's contract is stated
  in it.
  The lemmas bound the counts and characterise them as set sizes. They also
  relate the pass to the set-based Bulls-and-Cows count when the guess has
  no repeated digits.
- **Session update.** `GameStore.AddGuess` prepends a record to `guesses`,
  sets `message` and restarts `startTime` for a valid guess. For an invalid
  guess it only sets the invalid-guess notice. The class invariant `Valid()`
  says four things: the secret has the secret shape, `digitStates` has 10
  entries, every entry is one of the four tags, and every history entry is
  a valid guess carrying its own score against the secret.
- **Annotations.** `GameStore.ToggleDigitState` advances one entry of the
  10-slot `digitStates` array. It does this with `indexOf` and
  `% states.length`, as the source does. `IndexOf` models `indexOf`,
  including its -1 for a missing name. The cycle lemmas are stated over any
  four-name list (`Advance`, `AdvanceN`). `StateCycle`, `TogglesPeriodic`
  and `UnlistedStateJoinsCycle` then apply them to the four tag names.
  `NextState` is the toggle step of lines 65-66 and `Toggles` is n steps;
  the `ToggleDigitState` contract is stated in `NextState`.
  `Advance` writes the wrap-around as an explicit test.
  `AdvanceIsModulo` proves that this equals the source's remainder.

`isValidGuess` does not check that the characters are decimal digits, so
`"abcd"` is a valid guess; only the page's input widgets keep non-digits
out. The model follows the code here.
The recorded time is not rounded to two decimals here (see below).

## Model

| member | source | states |
|---|---|---|
| `NumberGame.GenerateTargetNumber` | src/gameStore.js:14-27 | the loop returns exactly the secret that `Generate` assigns to the draw stream (None when the stream ends before four digits are accepted); any secret it returns has four distinct decimal digits and a first digit other than '0' |
| `NumberGame.CollectKeepsShape` | src/gameStore.js:15-25 | `Collect` keeps the accepted digits, whatever the draws: they stay at most four, pairwise distinct and with a non-zero first digit, and accepted digits are never dropped |
| `NumberGame.GenerateValid` | src/gameStore.js:14-27 | for every sequence of draws, a generated secret has length 4, pairwise-distinct digit characters and a first character other than '0' |
| `NumberGame.CollectAcceptsValid` | src/gameStore.js:18-24 | the loop rejects nothing but a leading 0 and a repeated digit: draws that already form a valid prefix are all accepted, in draw order |
| `NumberGame.GenerateReachesEverySecret` | src/gameStore.js:14-27 | every four-digit secret with distinct digits and no leading zero is produced by some draw stream (the digits drawn in order) |
| `NumberGame.DistinctIffCharSetFull` | src/gameStore.js:44-45 | the set of a string's characters is never larger than the string, and it is exactly as large precisely when no character repeats |
| `NumberGame.IsValidGuess` | src/gameStore.js:42-46 | a guess is valid if and only if it has length 4, its first character is not '0' and its four characters are pairwise distinct |
| `NumberGame.SecretIsValidGuess` | src/gameStore.js:42-46 | every generated secret would itself pass guess validation |
| `NumberGame.CountsBounded` | src/gameStore.js:52-58 | after k positions, correctPosition + correctDigit is at most k, since each position increments at most one counter |
| `NumberGame.ScoreOf` | src/gameStore.js:48-60 | the two counters of a four-character guess add up to at most 4 |
| `NumberGame.ExactGuessScoresFour` | src/gameStore.js:52-58 | guessing any four-character target exactly scores correctPosition 4 and correctDigit 0, and the result text is `-0 +4` |
| `NumberGame.PositionsAreMatches` | src/gameStore.js:53-54 | correctPosition is the number of indices where guess and target hold the same character |
| `NumberGame.DigitsAreMisplacedHits` | src/gameStore.js:55-56 | correctDigit is the number of non-matching indices whose guessed character occurs somewhere in the target |
| `NumberGame.HitStep` | src/gameStore.js:53-57 | one position adds one to exactly one counter when its character occurs in the target, and to neither counter otherwise |
| `NumberGame.HitsAreCommonDigits` | src/gameStore.js:52-58 | for a guess without repeats, bulls plus cows over the first k positions equals the number of characters of that prefix that occur in the target |
| `NumberGame.CanonicalBullsAndCows` | src/gameStore.js:52-58 | for a guess without repeats, bulls plus cows equals the number of characters guess and target share (the set-based Bulls-and-Cows count) |
| `NumberGame.RepeatedDigitsOvercount` | src/gameStore.js:55-56 | without validation the pass would overcount: target "1234", guess "1111" scores 3 cows and 1 bull although the two share one digit |
| `NumberGame.FormatScore` | src/gameStore.js:60 | the result text `-{correctDigit} +{correctPosition}` reads back (`ParseScore`) to the same pair, so distinct scores give distinct texts |
| `NumberGame.ScoreExamples` | src/gameStore.js:48-60 | against "1234": "1234" gives `-0 +4`, "4321" gives `-4 +0`, "1243" gives `-2 +2`, "5678" gives `-0 +0` |
| `NumberGame.IndexOf` | src/gameStore.js:65 | `indexOf` returns -1 exactly when the name is absent, and otherwise an index holding the name |
| `NumberGame.IndexOfIsFirst` | src/gameStore.js:65 | the index `indexOf` returns is the first occurrence of the name |
| `NumberGame.AdvanceIsModulo` | src/gameStore.js:66 | the step with an explicit wrap equals `states[(index + 1) % states.length]` |
| `NumberGame.AdvanceFromPosition` | src/gameStore.js:64-66 | in a list of four distinct names, a toggle moves the name at position k to position k+1, and the last name to the first |
| `NumberGame.AdvanceFromOutside` | src/gameStore.js:65-66 | a name outside the list has index -1, and (-1 + 1) % 4 is 0, so it moves to the first name |
| `NumberGame.FourStepsRestore` | src/gameStore.js:63-67 | four toggles bring every name of a four-name cycle back to itself |
| `NumberGame.StepsPeriodic` | src/gameStore.js:63-67 | once four toggles restore a name, n + 4 toggles give the same name as n toggles, for every n |
| `NumberGame.OutsideJoinsCycle` | src/gameStore.js:63-67 | a name outside the list joins the cycle at its first name: n + 1 toggles of it equal n toggles of the first name |
| `NumberGame.StatesDistinct` | src/gameStore.js:64 | the four tag names are pairwise distinct |
| `NumberGame.StateCycle` | src/gameStore.js:64-66 | the cycle is unknown → inKnown → inUnknown → notIn → unknown |
| `NumberGame.TogglesPeriodic` | src/gameStore.js:63-67 | four consecutive toggles of a tag restore it, and toggling is periodic with period four |
| `NumberGame.UnlistedStateJoinsCycle` | src/gameStore.js:64-66 | any name outside the tag list (index -1) becomes unknown on its first toggle and then follows the cycle |
| `NumberGame.GameStore.constructor` | src/gameStore.js:3-12 | a new store holds the secret generated from the draws, an empty history, an empty message, ten "unknown" annotations and the supplied start time, and satisfies the store invariant |
| `NumberGame.GameStore.EvaluateGuess` | src/gameStore.js:48-61 | the counter loop returns the formatted score of the guess against the secret, and the text reads back to that score |
| `NumberGame.GameStore.AddGuess` | src/gameStore.js:29-40 | valid guess: the history becomes the new record {guess, score, now - startTime} followed by the old history, the message reports guess and result, and startTime becomes now. Invalid guess: history and startTime are unchanged and the message is the invalid-guess notice. The secret and the annotations never change, and the store invariant is kept |
| `NumberGame.GameStore.ToggleDigitState` | src/gameStore.js:63-67 | only `digitStates[digit]` changes, and it moves to the next tag of the cycle; the array keeps its 10 entries and every entry stays one of the four tags |
| `NumberGame.ToggleFourTimes` | src/gameStore.js:63-67 | toggling one digit four times in a row leaves every annotation of the store as it was |
| `NumberGame.HistoryScenario` | src/gameStore.js:29-40 | after "1234" at time 150, two rejected guesses, then "5678" at time 200 (start time 100): the history is ["5678", "1234"], each record carries its guess's score against the unchanged secret, both took 50, and the message reports "5678". The rejected guesses did not restart the clock, and the secret and annotations are untouched |

## Left out

- Randomness: `Math.floor(Math.random() * 10)` is replaced by a caller-supplied stream of draws. The model does not cover probability or uniformity.
- `NumberGame.GenerateTargetNumber`: returns None when the supplied draws run out before four digits are accepted. The source keeps drawing until four digits are accepted, and its random stream never runs out, so the constructor requires a stream long enough to yield a secret.
- The clock: `Date.now()` is a parameter. `timeSpent` is kept as the integer difference in clock units. The division by 1000 and the two-decimal `toFixed(2)` text are not modelled (floating point).
- Status messages are a datatype (no message, the report of an accepted guess, the invalid-guess notice). Their English wording is left out.
- `makeAutoObservable` and the module-level singleton `gameStore`: reactive-framework wiring with no logic.
- `src/NumberGuessGame.jsx`: rendering, focus handling and keyboard navigation are presentation, not part of this model.
- Text encoding: a string is a sequence of Dafny characters, one per position. JavaScript counts `length` in UTF-16 code units, but `new Set(guess)` iterates code points. The two can disagree on characters outside the Basic Multilingual Plane, and the model does not capture that.
- `NumberGame.GameStore.ToggleDigitState`: requires a digit in 0..9. Callers only pass 0..9. In JavaScript an integer digit of 10 or more would read `undefined`, whose `indexOf` is -1, so `"unknown"` would be stored at that index and the array would grow to digit + 1 entries, breaking the ten-entry invariant; a negative or non-integer key would add a plain property instead.
- `NumberGame.GameStore.EvaluateGuess`: requires a four-character guess. The source only calls it after validation has passed.
