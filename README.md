# Kids' counting game: round and level progression engine

This project models the game logic of a children's counting game. The player sees some icons and picks the numeral that matches their count. Correct answers earn points, and every three correct answers finish a level. Everything else in the application is presentation: rendering, confetti, audio, and a theme generator backed by a remote text model.

The model has four modules:

- `Digits`: `toArabicDigits`, the numeral shown in Arabic mode. It is a pure character map. The model proves what the map does to each character, that restoring the ASCII digits undoes it, and that the Arabic-Indic numeral of a number reads back as that number.
- `Levels`: the difficulty table, the preset theme index of a level, and the three counters (level, progress, score). `Credit`, `Settle` and `Play` specify how correct and wrong guesses move the counters. Lemmas prove what any run of guesses does to the counters.
- `Rounds`: `generateNewRound`'s computation. `randomInt` is a function of a draw. The rejection loop is a `while` loop over a stream of draws that fills an insertion-ordered set. The shuffle may return any permutation. `NewRound` is proved to produce a round that fits the level.
- `Session`: the `App` component's state slots as the class `Game`. It has the guess handler, the two timer bodies, the start, home and skip buttons, the generated-theme handler and the two effects. A `Valid()` invariant is kept by every operation except the helper `GenerateNewRound`, and the methods are tied to the `Levels` specification.

Randomness is an input. A `Dice` value carries the target draw and the stream the rejection loop reads. `EnoughDraws(dice, level)` says the stream holds enough distinct wrong values for the loop to stop. The source's loop does not stop on the other streams, and those streams have probability zero.

Timers are explicit. A guess appends the scheduled body, with the values its closure captured, to `timers`. `FireClearWrong` and `FireLevelUpCheck` run the oldest one. React effects run at the end of the operation that triggers them.

Three behaviours of the code worth knowing:
- The level-up check compares with `>=`, not `==` (App.tsx:170).
- After the third correct answer of a level, `levelProgress` is `QUESTIONS_PER_LEVEL` until the level-up check fires (App.tsx:148, 174). `Game.Valid` allows progress 3 only on a latched round.
- A level change always re-selects the level's preset theme, even after a generated theme was applied (App.tsx:108-111). Starting a new game does the same when the level was not already 1.

## Model

| member | source | states |
|---|---|---|
| `Digits.ReplaceDigits` | App.tsx:39 | length is kept; each ASCII digit becomes the Arabic-Indic digit of the same value; every other character is unchanged |
| `Digits.RestoreReplaced` | App.tsx:39 | on text without Arabic-Indic digits, mapping the Arabic-Indic digits back to ASCII undoes the replacement |
| `Digits.NatStringDenotes` | App.tsx:39 | the decimal rendering of a natural number (`toString`) reads back as that number |
| `Digits.ReplacedDenotesSame` | App.tsx:39 | replacing the digits of a decimal numeral gives only Arabic-Indic digits, and they denote the same number |
| `Digits.ReplaceDigitsAppend` | App.tsx:39 | the replacement distributes over concatenation, because it works one character at a time |
| `Digits.ToArabicDigits` | App.tsx:38-40 | a non-negative number becomes Arabic-Indic digits only, and they denote the number; a negative one keeps its minus sign before the digits of its magnitude; the length matches the decimal rendering of `toString` (below 10^21) |
| `Levels.DifficultyRange` | App.tsx:68-72 | level 1 gives [1,3], level 2 gives [1,5], every level from 3 on gives [1,9]; every range starts at 1 and spans at least two steps |
| `Levels.DifficultyGrows` | App.tsx:68-72 | from level 1 on, a later level's range contains an earlier level's range |
| `Levels.JsRemainder` | App.tsx:109 | JavaScript `%`: the remainder differs from the dividend by a multiple of b; it lies in [0,b) for a non-negative dividend and in (-b,0] for a negative one, which fixes it (truncation toward zero) |
| `Levels.ThemeIndex` | App.tsx:108-111 | for every level >= 1 the index is the valid preset index congruent to level - 1 modulo 6, i.e. `(level - 1) % 6`; level 1 shows preset 0, the default theme; a level below 1 gives an index <= 0 |
| `Levels.ThemesAdvance` | App.tsx:108-111 | each level up shows the next preset, wrapping from preset 5 back to preset 0 |
| `Levels.ThemesCycle` | App.tsx:109 | a level shows the same preset as the level six below it |
| `Levels.AnswerStep` | App.tsx:144-178 | one correct answer and its level-up check keep progress in [0,3) and add exactly one point; the level rises by one exactly when progress was 2 |
| `Levels.PlayTally` | App.tsx:135-187 | after any run of guesses, score = old score + number of correct guesses, level = old level + (progress + n) div 3 and progress = (progress + n) mod 3, whatever the wrong guesses in between |
| `Levels.PlayScoreGrows` | App.tsx:144-147 | the score never decreases along a run of guesses; a later score exceeds an earlier one by the number of correct guesses in between |
| `Levels.ThreeCorrectReachLevelTwo` | App.tsx:122-178 | from a new game, three correct guesses with any wrong guesses in between give level 2, progress 0, score 3 |
| `Rounds.RandomInt` | App.tsx:43 | `randomInt(min, max)` lies in [min, max] |
| `Rounds.RandomIntReaches` | App.tsx:43 | every value of [min, max] can be drawn |
| `Rounds.WrongSet` | App.tsx:79-86 | the set of wrong answers after some draws has no duplicates and holds only in-range values other than the target |
| `Rounds.WrongSetHoldsDrawn` | App.tsx:79-86 | a value is in that set exactly when it is not the target and some draw produced it |
| `Rounds.DrawDistractors` | App.tsx:79-86 | the rejection loop stops with exactly `min(2, max - min)` distinct in-range values, none of them the target; they are the wrong values of the first `used` draws, and the last draw used added a value |
| `Rounds.Shuffle` | App.tsx:46-48 | the shuffled array is a permutation of its input |
| `Rounds.NoDupPermutation` | App.tsx:88 | a permutation of a duplicate-free sequence is duplicate-free |
| `Rounds.ShuffledFits` | App.tsx:88 | shuffling the target with the loop's wrong answers gives options that fit the level |
| `Rounds.NewRound` | App.tsx:74-88 | the target is in the level's range; the options contain the target, have no duplicates, lie in the range and number `min(2, max - min) + 1`; they are a permutation of the target plus the loop's wrong answers |
| `Rounds.ThreeOptions` | App.tsx:80-88 | every round at every level shows exactly three options |
| `Session.Game.constructor` | App.tsx:51-66 | menu screen, level 1, progress 0, `GameState(1, [], 0, null, null)`, first preset theme, no timers |
| `Session.Game.GenerateNewRound` | App.tsx:74-98 | only `gameState` changes: a round that fits the level, `isCorrect` and `wrongGuess` reset to null, score kept; level and progress untouched |
| `Session.Game.HandleGuess` | App.tsx:135-187 | a latched round ignores the guess. A correct guess latches, adds one to score and progress, and schedules the level-up check with the new progress. A wrong guess sets only `wrongGuess` and schedules its clearing. The invariant is kept |
| `Session.Game.FireClearWrong` | App.tsx:183-185 | clears `wrongGuess` and nothing else |
| `Session.Game.FireLevelUpCheck` | App.tsx:169-178 | counters move by `Settle`: progress >= 3 gives level + 1 and progress 0, with the new level's preset theme; otherwise no change. Either way a fresh unlatched round, and no timers left |
| `Session.Game.StartGame` | App.tsx:122-128 | level 1, progress 0, score 0, game screen, a fresh unlatched round; the first preset theme if the level changed |
| `Session.Game.GoHome` | App.tsx:130-133 | switches to the menu and leaves the counters alone |
| `Session.Game.Skip` | App.tsx:285 | a fresh unlatched round at the same level; counters unchanged |
| `Session.Game.ThemeGenerated` | App.tsx:189-192 | adopts the new theme and draws a fresh round that fits the level; counters unchanged |
| `Session.MissOnce` | App.tsx:179-185 | any wrong guess followed by its timer leaves the whole session as it was: the round, score and feedback (`gameState`), level, progress and theme unchanged, with no shake marker or timer left |
| `Session.AnswerTwice` | App.tsx:136-178 | tapping the right answer twice before the level-up check counts once: the counters move exactly as `Levels.Answer` |
| `Session.AnswerCorrectly` | App.tsx:135-178 | a correct guess followed by its timer moves the session's counters exactly as `Levels.Answer` |
| `Session.PlayToLevelTwo` | App.tsx:122-187 | through the class, a new game with a wrong guess, a double tap and three correct answers ends at level 2, progress 0, score 3 |

## Left out

- Rendering of the menu and game screens (App.tsx:194-359), components/PlayArea.tsx and components/NumberButton.tsx: presentation only.
- Confetti (App.tsx:150-166) and audio (services/audio.ts, every `playSound` call): visual and sound effects with no state.
- `generateTheme` (services/gemini.ts:81-110) and components/ThemeGenerator.tsx: a network call and a form. The model takes the resulting theme as the input of `ThemeGenerated`; the fallback to the default theme is `Preset(0)`.
- `toggleLanguage` and `toggleSound` (App.tsx:113-120): boolean flips for the interface and audio. They are dependencies of `generateNewRound`, but their buttons are shown only on the menu screen (App.tsx:198-224) and the round effect draws only on the game screen (App.tsx:102), so a toggle never draws a round.
- Session.Game.StartGame: requires that no timer is pending, as do GoHome, Skip and ThemeGenerated below. The model runs timers before any user action other than a guess.
- Session.Game.GoHome: requires that no timer is pending. A return to the menu inside the 2-second window of a level-up check is not captured.
- Session.Game.Skip: requires that no timer is pending. A skip inside the 2-second window of a level-up check is not captured; in the source the pending check would still fire afterwards.
- Session.Game.ThemeGenerated: requires that no timer is pending, although the theme request finishes asynchronously and could land during a timer's window.
- Session.Game.FireLevelUpCheck: draws one new round after a level-up. In the source the theme change re-creates `generateNewRound`, so its effect runs a second time and draws a second round; only that one is seen. Both rounds satisfy the same guarantees. StartGame behaves the same way when the level changes, and so does ThemeGenerated.
- Real timer delays (500 ms, 2000 ms), React batching and stale closures: timer bodies fire in scheduling order when the caller fires them. Captured values are kept in the `Timer` datatype.
- The distribution of `Math.random` and the bias of the sort-based shuffle: draws are arbitrary naturals, and the shuffle may return any permutation.
- Rounds.DrawDistractors: requires a draw stream that finishes the loop. Streams on which the source's loop never stops have probability zero.
- Digits.ToArabicDigits: models integer arguments only, written out digit by digit. The game passes levels, scores and options, which are all integers, so floating-point renderings are not modelled; neither are magnitudes of 10^21 and above, which JavaScript renders in exponent form (`1e+21`), nor the loss of exactness above 2^53. The counters are unbounded integers where the source has doubles; none of this is reachable in play.
