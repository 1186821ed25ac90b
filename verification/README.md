# Hangman game core in Dafny

This project models the game logic of `HANGMAN.cpp`, a console word-guessing game.
The program plays three sessions, taking the target words cyclically from a fixed
list of eight upper-case words. In each session the player types one character per
turn. The character is upper-cased and then checked. A non-letter is rejected, and
so is a letter already guessed. Any other letter goes to the correct list if it
occurs in the word, and to the incorrect list otherwise; a miss also bumps the
incorrect counter. A session is won when every letter of the word has been guessed
and lost at six incorrect guesses. At the end the program reports:

- the number of sessions and the number of wins;
- the average attempts per session;
- the success rate in percent;
- a four-level performance tier;
- a 20-segment success bar.

The model is functional:

- `Letters`: `toupper`, the alphabetic check, `string::find`, and the linear scan of
  a guessed-letter list.
- `Completion`: the completion check, as a loop method proved equal to a reference
  predicate.
- `Masking`: the masked word shown before each guess.
- `Session`: the session state, one pass of the guess-loop body (`Step`), and the
  loop as a fold over the input stream (`Play`). It also holds the invariant that
  every reachable state satisfies, and worked examples.
- `Statistics`: the run counters, the average, the exact success rate, the tier and
  the bar fill count.
- `Run`: the session loop of `main` over one shared input stream, and the whole
  program (`PlayGame`).

Console input is a parameter. It is a `seq<char>` of the characters that `cin >>`
delivers one per turn; each session reads on from where the previous one stopped.

## Behaviour of the code worth noting

- Rejected inputs count as attempts. The attempt counter is bumped before the
  alphabetic check and the duplicate check (HANGMAN.cpp:81), so a non-letter or a
  repeated letter still adds one. `Step` always adds one attempt, and
  `ExampleRejectedInputsCount` shows it for CAT: after the guesses `C`, `C` the counter
  is 2, and after `5` it is 1.
- The lower-case half of the alphabetic check (HANGMAN.cpp:291) never accepts
  anything in the game. The guess is upper-cased first (HANGMAN.cpp:80), so only the
  upper-case half can fire (`LowercaseBranchUnreachable`).
- Nothing in the code excludes an empty target word, and the model does not assume
  one is excluded. On an empty word, the first accepted guess completes the session.

## Model

| member | source | states |
|---|---|---|
| Letters.ToUpper | HANGMAN.cpp:80 | upper-casing yields an upper-case letter exactly for the letters of either case and never yields a lower-case letter. A lower-case letter moves down by 32 code points and everything else is unchanged |
| Letters.ValidateCharacterInput | HANGMAN.cpp:289-292 | the alphabetic check accepts a character exactly when upper-casing it gives an upper-case letter |
| Letters.LowercaseBranchUnreachable | HANGMAN.cpp:80-87 | after upper-casing, the validation accepts exactly the upper-case letters, and these come from exactly the letters of either case; the lower-case branch never accepts |
| Letters.FindFrom | HANGMAN.cpp:295-298 | the search returns the first index holding the letter at or after the start, or the not-found position exactly when no such index exists |
| Letters.CheckLetterInWord | HANGMAN.cpp:295-298 | the word check is true exactly when the letter occurs in the word |
| Letters.ScanGuessed | HANGMAN.cpp:89-102 | the early-exit scan of a guessed-letter list finds the letter exactly when it is in the list |
| Completion.EvaluateGameCompletionStatus | HANGMAN.cpp:301-321 | the nested-loop completion check returns true exactly when every character of the word is among the correct guesses |
| Completion.CompletionDependsOnlyOnLetters | HANGMAN.cpp:301-321 | completion depends only on which letters occur: not on the order of the guesses, repeated guesses, or repeated letters of the word |
| Completion.CompletionMonotone | HANGMAN.cpp:301-321 | adding guessed letters never turns a completed word back into an incomplete one |
| Masking.Mask | HANGMAN.cpp:217-240 | the mask has the word's length; position i is revealed exactly when `word[i]` is among the correct guesses, and then shows `word[i]` |
| Masking.DisplayWordProgress | HANGMAN.cpp:221-238 | the nested masking loop produces exactly that mask |
| Masking.MaskMonotone | HANGMAN.cpp:221-238 | guessing more letters never hides a revealed position or changes what it shows |
| Masking.MaskFullIffComplete | HANGMAN.cpp:221-238 | the mask has no placeholder left exactly when the completion check holds |
| Session.Finished | HANGMAN.cpp:120-132 | in a reachable state the loop has stopped exactly when one of a win and six incorrect guesses holds, never both |
| Session.Judge | HANGMAN.cpp:80-117 | the verdict is invalid exactly for non-letters. It is a duplicate exactly for a letter whose upper case is already in either list. Otherwise it is a hit exactly when the upper-cased letter occurs in the word, and a miss exactly when it does not |
| Session.Step | HANGMAN.cpp:79-128 | every input adds one attempt. A non-letter or repeated letter leaves both lists and the incorrect counter unchanged (iff). A fresh letter in the word is appended to the correct list only. A fresh letter not in the word is appended to the incorrect list only, with the counter bumped. Only an accepted guess re-evaluates the win |
| Session.Play | HANGMAN.cpp:62-129 | the loop keeps the word, consumes part of the input, adds one attempt per consumed character, and stops early only at a win or at the sixth incorrect guess |
| Session.PlayLeavesSuffix | HANGMAN.cpp:75-77 | the loop reads its input from the front: what it leaves unread is a suffix of the input |
| Session.Start | HANGMAN.cpp:50-54 | a fresh session is on the given word with no attempt and no accepted guess; it satisfies the invariant, and the loop guard lets it run |
| Session.StepPreservesInv | HANGMAN.cpp:89-128 | one loop pass keeps the invariant: the lists disjoint and duplicate-free, correct letters in the word and incorrect ones not, the counter equal to the incorrect list's length and at most 6, and a win only with the word complete and fewer than 6 misses |
| Session.PlayPreservesInv | HANGMAN.cpp:62-129 | the whole guess loop keeps that invariant |
| Session.SessionOutcome | HANGMAN.cpp:119-139 | a session is won exactly when an accepted guess completes the word. It is lost exactly when the counter is 6, and never both. If it stopped with input left, it is won or lost |
| Session.OnlyHitCompletes | HANGMAN.cpp:109-120 | only a guess judged correct can turn an incomplete word into a complete one |
| Session.RepeatedGuessIsDuplicate | HANGMAN.cpp:89-107 | guessing the same letter again is rejected as a duplicate and changes only the attempt counter |
| Session.AllLettersSuppliedEndsSession | HANGMAN.cpp:62-129 | on a non-empty upper-case word, input that contains every letter of the word leads to a win, unless six incorrect guesses end the session first |
| Session.FreshMissesLose | HANGMAN.cpp:113-117 | distinct absent letters, fed to a session with no correct guess, are all filed as incorrect; the session ends lost exactly at the sixth, with one attempt each and no input left |
| Session.SixFreshMissesLose | HANGMAN.cpp:62-139 | six distinct letters absent from a non-empty word lose a fresh session on it: all six are filed as incorrect, with six attempts and no input left |
| Session.ExampleWin | HANGMAN.cpp:62-129 | C, A, T on CAT wins after three attempts and leaves the following input for the next session |
| Session.ExampleLowercaseGuess | HANGMAN.cpp:80 | a lower-case `c` on CAT is upper-cased and counted as a correct guess |
| Session.ExampleMiss | HANGMAN.cpp:113-116 | X on DOG is filed as incorrect and counted |
| Session.ExampleLoss | HANGMAN.cpp:62-139 | X, Y, Z, Q, W, V on DOG loses after six attempts with all six letters filed as incorrect |
| Session.ExampleRejectedInputsCount | HANGMAN.cpp:81-107 | a repeated letter and a digit are both rejected, yet each counts as an attempt |
| Run.TargetWord | HANGMAN.cpp:48 | every session plays a word from the list, and the first sessions play the list in order |
| Run.TargetWordCycles | HANGMAN.cpp:46-48 | session k and session k + n play the same word, where n is the list size, and the first n sessions play the list in order |
| Run.WordDatabaseWellFormed | HANGMAN.cpp:33-36 | the word list is non-empty and every word is a non-empty run of upper-case letters |
| Run.SessionsFrom | HANGMAN.cpp:46-143 | the run yields one final session state per session |
| Run.SessionUsesCyclicWord | HANGMAN.cpp:46-48 | session j of the run plays the word at index j modulo the list size |
| Run.SessionsKeepInv | HANGMAN.cpp:46-143 | every session of the run ends in a state that satisfies the session invariant |
| Run.CountWon | HANGMAN.cpp:126 | the number of won sessions never exceeds the number of sessions |
| Run.SumAttempts | HANGMAN.cpp:141-142 | the cumulative count includes every session's attempts, and it is 0 exactly when no session made an attempt |
| Run.RunSessions | HANGMAN.cpp:46-143 | the session loop produces the run's session results. The session counter equals the number of sessions. Successes equal the won sessions and never exceed the sessions. Cumulative attempts equal the sum of the per-session attempt counters |
| Run.PlayGame | HANGMAN.cpp:145-147 | the whole program reports 3 sessions, at most 3 successes, a rate in [0, 100], a fill count in [0, 20], and an average that does not exceed the cumulative attempts divided by 3 |
| Statistics.AverageAttempts | HANGMAN.cpp:146 | the average is the floor of cumulative attempts over sessions, and 0 when no session was played |
| Statistics.SuccessRate | HANGMAN.cpp:249 | the rate times the session count is 100 times the successes; it is 0 with no sessions, and it lies in [0, 100] when successes do not exceed sessions |
| Statistics.Classify | HANGMAN.cpp:258-267 | the tier is Excellent, Good, Average or Needs Improvement exactly when 5·successes is at least 4, 3 or 2 times the session count (the 80, 60 and 40 percent thresholds), and Needs Improvement with no sessions |
| Statistics.RateAtLeast | HANGMAN.cpp:259-263 | a percentage threshold p on the rate is the integer comparison 100·successes ≥ p·sessions |
| Statistics.ClassifyMonotone | HANGMAN.cpp:259-267 | a higher success rate never earns a lower tier |
| Statistics.FilledSegments | HANGMAN.cpp:271-272 | the fill count is ⌊20·successes / sessions⌋, 0 with no sessions, and within [0, 20] when successes do not exceed sessions |
| Statistics.ScaledRateIsQuotient | HANGMAN.cpp:272 | truncating the rate scaled to 20 segments is the integer floor quotient |
| Statistics.ClassifyMatchesBar | HANGMAN.cpp:259-272 | the tier and the bar agree: Excellent, Good and Average exactly at 16, 12 and 8 filled segments |
| Statistics.Summarize | HANGMAN.cpp:249-272 | the report carries the session and success counts through. With no sessions the average, rate and fill count are 0. Otherwise the average is the floor of cumulative attempts over sessions, the rate times the sessions is 100 times the successes, and the fill count is ⌊20·successes / sessions⌋. When successes do not exceed sessions, the rate lies in [0, 100] and the fill count in [0, 20]. The average times the sessions never exceeds the cumulative attempts. The tier is Excellent, Good, Average or Needs Improvement exactly when the bar has at least 16, 12, 8 or fewer than 8 filled segments |
| Statistics.NoSessionsReport | HANGMAN.cpp:146-147 | with no session played, the report has zero sessions, zero successes, rate 0, average 0, tier Needs Improvement and an empty bar |

## Left out

- Console output is not modelled: banners, prompts, messages, the printed mask, the
  incorrect-letter list and the report lines (HANGMAN.cpp:56-59, 64-65, 68-72, 76, 85,
  105, 112, 116, 121-125, 133-138, 153-159, 244-246, 251-255, 258, 260, 262, 264, 266,
  270, 282, 284-285). The mask's content is modelled (`Mask`); its printing is not.
- `display_hangman_visual` (HANGMAN.cpp:162-214) is ASCII art with no effect on state,
  so it is not modelled.
- The glyphs of the progress bar (HANGMAN.cpp:274-281) are not modelled. Only the
  number of filled segments is.
- The success rate is modelled as an exact `real`, not a `double`. The 80/60/40
  thresholds and the truncation to segments are stated exactly. Floating-point rounding
  near a threshold and the one-decimal `setprecision` formatting are not modelled.
- `toupper` is the ASCII mapping of 'a'..'z' to 'A'..'Z', identity elsewhere. Locale
  behaviour and the undefined behaviour on negative `char` values are not modelled.
- `cin >> char` is modelled by the input sequence itself: whitespace skipping is taken
  as already done. When the input runs out mid-session, the model stops that session
  unfinished and the next sessions start on empty input. The real program would keep
  looping on a failed stream.
- The counters are unbounded naturals. 32-bit `int` overflow would need more than
  2^31 inputs and is not modelled. C++ `/` truncates toward zero, while Dafny's `/` on
  `int` is Euclidean (the remainder is never negative). The two agree here because every
  dividend is non-negative and every divisor positive.
