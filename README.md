# NeuroBoost game logic in Dafny

NeuroBoost is a set of browser mini-games. This project models the game logic of its three deterministic games and the history they write to:

- **Reflex** (`reflex.dfy`): a reaction-time test of up to five rounds. After a random delay of 2000 to 4999 ms the screen turns green. The time to the click is recorded. An early click voids the round. The score is `max(0, 1000 - round(mean))`.
- **Arithmetic** (`arithmetic.dfy`): a 30-second countdown of `a op b` problems. The operator is `+`, `-` or `*`, and each operator has its own operand range. A correct answer scores one point. The final score is ten points per correct answer.
- **Sequence memory** (`memory.dfy`): "Simon" on a 3x3 grid. Each level appends one random cell, plays the sequence back, then checks the player's taps. The first wrong tap ends the game with `(level - 1) * 100` points.
- **History** (`history.dfy`): the list of `GameResult` records (date, game type, score, optional details). Each game appends exactly one record when it finishes.
- **Text** (`text.dfy`): decimal printing of numbers, and JavaScript's `parseInt`, which reads the player's answer. The details texts and the problem texts are built from the printed numbers. Lemmas show that `parseInt` reads those numbers back.

Each page becomes a class whose fields are the page's state variables. Each event becomes a method: a button, a click, a timer firing, a countdown tick, leaving the page. Each class has a `Valid()` invariant that every event preserves. The invariants cover the legal states, the bound of five attempts, the length of the sequence at each level, the player's taps staying a prefix of the sequence, and the stored answer matching the displayed problem. Random draws, timestamps and the finishing date are method parameters. `requires` clauses give the ranges of the random draws.

Behaviour of the code worth noting:
- After a measured reflex round the page waits in RESULT until the "next" button is pressed. It does not move on by itself (`Reflex.ReflexGame.Next`).
- The arithmetic details text is `"{n}問正解"`.
- The history store does not treat unreadable stored data as empty, because the code calls `JSON.parse` without a guard (see Left out).

## Model

| member | source | states |
|---|---|---|
| `Text.NatToString` | pages/MathGame.tsx:32 | a printed natural is a non-empty run of decimal digits with no leading zero, and "0" for zero |
| `Text.DigitPrefixLen` | pages/MathGame.tsx:62 | the length of the longest run of digits at the start of a string: all of it digits, followed by a non-digit or the end |
| `Text.TrimStart` | pages/MathGame.tsx:62 | `parseInt` drops exactly the leading white space: the result is a suffix, everything dropped is white space, and the result does not start with white space |
| `Text.ParseInt` | pages/MathGame.tsx:62-63 | `parseInt` yields NaN (`None`) exactly when no digit follows the leading white space and one optional sign; a negative result needs a leading minus |
| `Text.DigitsValueOfNat` | pages/MathGame.tsx:62 | the digits of a printed natural have that natural as their value |
| `Text.ParseIntOfNat` | pages/MathGame.tsx:62 | `parseInt` reads a printed natural back, whatever non-digit text follows it ("12.5" reads as 12) |
| `Text.ParseIntOfNegated` | pages/MathGame.tsx:62 | `parseInt` reads a minus sign and a printed natural as the negated number |
| `Text.ParseIntSkipsSpace` | pages/MathGame.tsx:62 | leading white space does not change what `parseInt` reads |
| `History.HistoryStore.constructor` | pages/ReflexGame.tsx:60 | the store starts with the stored list; nothing stored is the empty list |
| `History.HistoryStore.Load` | pages/ReflexGame.tsx:60 | reading the history gives the whole list in insertion order |
| `History.HistoryStore.Append` | pages/ReflexGame.tsx:60-67 | the list after an append is the list before plus the one new record at the end; every earlier record keeps its value and its position |
| `Reflex.Delay` | pages/ReflexGame.tsx:27-28 | the delay before the screen turns green is in [2000, 4999] ms and is 2000 plus the draw |
| `Reflex.RoundedQuotient` | pages/ReflexGame.tsx:57 | `Math.round(sum / n)` is the integer q with q - 1/2 <= sum/n < q + 1/2, so a half rounds up |
| `Reflex.AverageWithin` | pages/ReflexGame.tsx:57 | the rounded mean lies between the fastest and the slowest attempt |
| `Reflex.Score` | pages/ReflexGame.tsx:64 | the score is in [0, 1000]; it is positive exactly when the average is under 1000 ms, and then score + average = 1000 |
| `Reflex.ScoreAntitone` | pages/ReflexGame.tsx:64 | a lower average never gives a lower score |
| `Reflex.Record` | pages/ReflexGame.tsx:59-66 | the finishing record is a REFLEX record with the given date, a score in [0, 1000] and a details text |
| `Reflex.DetailsCarryAverage` | pages/ReflexGame.tsx:65 | the details text is "Avg: " followed by text from which `parseInt` reads back the average |
| `Reflex.FiveAttemptExample` | pages/ReflexGame.tsx:55-66 | attempts 250, 300, 280, 260 and 310 ms average 280 ms and give score 720 with details "Avg: 280ms" |
| `Reflex.ReflexGame.constructor` | pages/ReflexGame.tsx:10-14 | a new page is IDLE, with no attempts and no pending timer |
| `Reflex.ReflexGame.NextRound` | pages/ReflexGame.tsx:23-34 | a round enters WAITING, clears the shown time and schedules the switch to green after the drawn delay; attempts are untouched |
| `Reflex.ReflexGame.Start` | pages/ReflexGame.tsx:18-21 | starting empties the attempts and enters WAITING with exactly one pending timer |
| `Reflex.ReflexGame.Next` | pages/ReflexGame.tsx:136-141 | the "next" button in RESULT starts the next round and keeps the attempts |
| `Reflex.ReflexGame.Retry` | pages/ReflexGame.tsx:70-72 | retrying after an early click re-enters WAITING with a fresh delay and keeps the attempts |
| `Reflex.ReflexGame.TimerFires` | pages/ReflexGame.tsx:30-33 | the pending timer turns the screen green and records the start time; when no timer is pending (cancelled, or the page is gone) nothing changes |
| `Reflex.ReflexGame.HandleClick` | pages/ReflexGame.tsx:36-53 | an early click cancels the timer, moves to TOO_EARLY and records nothing; a click on green appends exactly `now - start` and shows RESULT, or after the fifth attempt returns to IDLE and appends the REFLEX record; the green-light time is kept, and outside CLICK the shown reaction time is kept too; other states change nothing; never more than five attempts |
| `Reflex.ReflexGame.Finish` | pages/ReflexGame.tsx:55-68 | finishing enters IDLE and appends exactly one REFLEX record computed from the attempts |
| `Reflex.ReflexGame.Teardown` | pages/ReflexGame.tsx:74-78 | leaving the page cancels the pending timer, so no timer outlives the page |
| `Arithmetic.Generate` | pages/MathGame.tsx:18-30 | the operator is the drawn one; `+` has both operands in [1, 20], `-` has 1 <= b <= a <= 20 after the swap, `*` has both in [1, 12] |
| `Arithmetic.GenerateCovers` | pages/MathGame.tsx:19-30 | every problem within those ranges is produced by some draws, so the ranges are exact |
| `Arithmetic.AnswerBounds` | pages/MathGame.tsx:24-30 | a generated problem's answer is never negative and at most 144 (at most 19 for `-`) |
| `Arithmetic.ParseRender` | pages/MathGame.tsx:32 | the displayed text "a op b" reads back as the same problem |
| `Arithmetic.EvalRender` | pages/MathGame.tsx:32-34 | evaluating the displayed text gives `a op b`, the stored answer |
| `Arithmetic.Record` | pages/MathGame.tsx:51-56 | the finishing record is a CALCULATION record with the given date, a non-negative score and a details text |
| `Arithmetic.RecordCarriesCount` | pages/MathGame.tsx:54-55 | the score is ten per correct answer, and `parseInt` reads the count back from the details text |
| `Arithmetic.TwelveCorrectExample` | pages/MathGame.tsx:47-57 | twelve correct answers give score 120 with details "12問正解" |
| `Arithmetic.MathGame.constructor` | pages/MathGame.tsx:8-14 | a new page is not playing, with 30 s left, score 0 and no problem |
| `Arithmetic.MathGame.GenerateProblem` | pages/MathGame.tsx:18-35 | the shown problem becomes the generated one, and the stored answer is what evaluating its text gives |
| `Arithmetic.MathGame.Start` | pages/MathGame.tsx:37-45 | starting sets score 0, 30 s left and playing, with exactly one live problem; the answer box keeps its text |
| `Arithmetic.MathGame.EditAnswer` | pages/MathGame.tsx:139-140 | typing replaces the answer box text and nothing else |
| `Arithmetic.MathGame.Submit` | pages/MathGame.tsx:60-74 | text that `parseInt` cannot read changes nothing, not even the box; a correct answer adds exactly one point and replaces the problem; a wrong one keeps score and problem; both clear the box; the countdown is untouched |
| `Arithmetic.MathGame.Tick` | pages/MathGame.tsx:76-87 | while playing each tick takes exactly one second off; play stops exactly when 30 ticks have passed since the start, and only then is one CALCULATION record appended; with no game running nothing changes |
| `Arithmetic.MathGame.EndGame` | pages/MathGame.tsx:47-58 | ending stops play and appends exactly one CALCULATION record for the current score |
| `Memory.Extend` | pages/MemoryGame.tsx:25-27 | the next level's sequence is the old one with exactly the drawn cell, in [0, 8], appended, so the old sequence is a proper prefix |
| `Memory.Judge` | pages/MemoryGame.tsx:51-56 | a tap is a mismatch exactly when the taps would stop being a prefix of the sequence, and completes the level exactly when the taps then equal the sequence |
| `Memory.Record` | pages/MemoryGame.tsx:69-76 | the game-over record is a MEMORY record with the given date, a non-negative score and a details text |
| `Memory.RecordCarriesLevel` | pages/MemoryGame.tsx:74-75 | the score is 100 per completed level, and the details text is "Level " followed by text from which `parseInt` reads back the level |
| `Memory.LevelFourExample` | pages/MemoryGame.tsx:69-77 | losing at level 4 gives score 300 with details "Level 4" |
| `Memory.MemoryGame.constructor` | pages/MemoryGame.tsx:10-15 | a new page is IDLE at level 1 with an empty sequence |
| `Memory.MemoryGame.Start` | pages/MemoryGame.tsx:17-23 | starting empties the sequence and the taps, sets level 1 and schedules the first level from the empty sequence |
| `Memory.MemoryGame.NextLevel` | pages/MemoryGame.tsx:25-32 | a level extends the given sequence by one cell, empties the taps and enters SHOWING |
| `Memory.MemoryGame.LevelTimerFires` | pages/MemoryGame.tsx:22-31 | the scheduled level grows the sequence by exactly one cell with the old sequence as prefix, and the sequence length then equals the level; with nothing scheduled nothing changes |
| `Memory.MemoryGame.PlaySequence` | pages/MemoryGame.tsx:34-42 | playback lights each cell of the sequence once, in order, clearing it after each, and only then enters INPUT |
| `Memory.MemoryGame.CellClick` | pages/MemoryGame.tsx:44-67 | outside INPUT a tap changes nothing; a matching tap is appended, and completing the sequence raises the level by exactly one, enters IDLE and schedules the next level on the same sequence; a mismatch enters GAME_OVER and appends the MEMORY record for the current level |
| `Memory.MemoryGame.SaveScore` | pages/MemoryGame.tsx:69-78 | exactly one MEMORY record for the current level is appended |

## Left out

- Rendering, CSS, the icons, the arithmetic answer feedback flag and its 500 ms reset, and the tap flash on the memory grid are display only.
- Navigation and routing (App.tsx, components/Layout.tsx), the dashboard (pages/Home.tsx), the riddle game (pages/RiddleGame.tsx) and the text-generation service (services/geminiService.ts) are not part of this model. They are UI, or calls to an external service.
- The browser's key-value store and JSON encoding are modelled as the `entries` field of `HistoryStore`. Corrupt stored data, which makes the unguarded `JSON.parse` throw, is not modelled. A failing write is not modelled either.
- Several tabs writing the history at once (a lost update) is not modelled. The model is single-threaded.
- Real timers and clocks are modelled as explicit events. Timestamps are naturals, so the fractional milliseconds of `performance.now()` and the rounding of their difference are left out. The date text is an opaque parameter.
- `Math.random` is modelled by parameters with range requirements. The distribution is not modelled.
- React's batching of state updates and effect scheduling are not modelled. An event runs to completion before the next one, and the arithmetic countdown's end-of-game effect runs in the same step as the tick that reaches zero.
- `Reflex.ReflexGame.Start`, `Reflex.ReflexGame.Next`, `Reflex.ReflexGame.Retry`, `Arithmetic.MathGame.Start`, `Arithmetic.MathGame.Submit` and `Memory.MemoryGame.Start` require the state in which the page shows their button or form. The handlers themselves do not check the state.
- Memory.MemoryGame.Start: pressing start again during the 500 ms before the first level replaces the pending level in the model. The page would run two timers and two playbacks.
- Memory.MemoryGame.PlaySequence: the 500 ms waits between highlights are not modelled. The clicks ignored during playback are modelled as `CellClick` calls made while the state is SHOWING.
- The memory page does not cancel its timers when it unmounts. A timer that fires after the page is gone is not modelled.
- Text.ParseInt: only ASCII white space is skipped, and only decimal digits are read. The `0x` hexadecimal prefix is left out because a number input cannot hold it. The precision limit of floating point for very long digit strings is also left out.
- Arithmetic.ParseProblem models `eval` only for problem texts of the form "a op b".
- Text.NatToString: numbers of 1e21 and above, which template literals print in exponent form, are not modelled. No score, level, average or operand gets that large.
- Reflex.ReflexGame.TimerFires: the firing time is not tied to the time the transition was scheduled plus the stored delay. The time `now` is a free parameter.
