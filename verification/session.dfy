/**
 One game session: the state the guess loop keeps, the effect of one input
 character on it, and the loop itself as a fold over the input that stops at
 a win or at the sixth incorrect guess.
 */
module Session {
  import opened Letters
  import opened Completion

  /** The failure threshold: the session is lost at this many incorrect guesses. */
  const MaxIncorrectAttempts: nat := 6

  /** The per-session variables of the guess loop. `won` records that the
      completion check succeeded and the loop was left by its `break`. */
  datatype State = State(
    word: string,
    correct: seq<char>,
    incorrect: seq<char>,
    incorrectCount: nat,
    attempts: nat,
    won: bool)

  /** How the loop treats one input character. */
  datatype Feedback = InvalidInput | AlreadyGuessed | Hit | Miss

  /** The state at the start of a session on `word`: nothing guessed yet, and
      already inside the invariant with the loop guard open. */
  function Start(word: string): (r: State)
    ensures r.word == word && r.attempts == 0 && !AnyAccepted(r)
    ensures Inv(r)
    ensures !Finished(r)
  {
    State(word, [], [], 0, 0, false)
  }

  /** The loop has stopped: either by the `break` after a win or by its guard.
      In a reachable state exactly one of the two holds. */
  function Finished(s: State): (done: bool)
    ensures Inv(s) ==> (done <==> (s.won != (s.incorrectCount == MaxIncorrectAttempts)))
  {
    s.won || s.incorrectCount >= MaxIncorrectAttempts
  }

  /** At least one guess has been accepted into one of the two lists. */
  predicate AnyAccepted(s: State)
  {
    |s.correct| + |s.incorrect| > 0
  }

  /** The verdict on input character `ch`, after upper-casing it: not a
      letter, a letter already guessed, or a fresh letter that does or does not
      occur in the word. */
  function Judge(s: State, ch: char): (r: Feedback)
    ensures r == InvalidInput <==> !ValidateCharacterInput(ch)
    ensures r == AlreadyGuessed <==>
              ValidateCharacterInput(ch) && ToUpper(ch) in s.correct + s.incorrect
    ensures r == Hit <==>
              ValidateCharacterInput(ch) && ToUpper(ch) !in s.correct + s.incorrect && ToUpper(ch) in s.word
    ensures r == Miss <==>
              ValidateCharacterInput(ch) && ToUpper(ch) !in s.correct + s.incorrect && ToUpper(ch) !in s.word
  {
    var c := ToUpper(ch);
    if !ValidateCharacterInput(c) then InvalidInput
    else if c in s.correct || c in s.incorrect then AlreadyGuessed
    else if CheckLetterInWord(c, s.word) then Hit
    else Miss
  }

  /** One pass through the body of the guess loop on input character `ch`.
      The attempt counter is bumped before anything is checked, so rejected
      inputs count as attempts; only an accepted guess changes the lists and
      re-evaluates completion. */
  function Step(s: State, ch: char): (r: State)
    ensures r.word == s.word
    ensures r.attempts == s.attempts + 1
    ensures Judge(s, ch) in {InvalidInput, AlreadyGuessed} <==>
              (r.correct == s.correct && r.incorrect == s.incorrect && r.incorrectCount == s.incorrectCount)
    ensures Judge(s, ch) in {InvalidInput, AlreadyGuessed} ==> r.won == s.won
    ensures Judge(s, ch) == Hit ==>
              r.correct == s.correct + [ToUpper(ch)] && ToUpper(ch) in s.word
              && r.incorrect == s.incorrect && r.incorrectCount == s.incorrectCount
    ensures Judge(s, ch) == Miss ==>
              r.incorrect == s.incorrect + [ToUpper(ch)] && ToUpper(ch) !in s.word
              && r.correct == s.correct && r.incorrectCount == s.incorrectCount + 1
    ensures Judge(s, ch) in {Hit, Miss} ==> (r.won <==> AllRevealed(s.word, r.correct))
  {
    var c := ToUpper(ch);
    var counted := s.(attempts := s.attempts + 1);
    match Judge(s, ch)
    case InvalidInput => counted
    case AlreadyGuessed => counted
    case Hit =>
      var correct := s.correct + [c];
      counted.(correct := correct, won := AllRevealed(s.word, correct))
    case Miss =>
      counted.(incorrect := s.incorrect + [c], incorrectCount := s.incorrectCount + 1,
               won := AllRevealed(s.word, s.correct))
  }

  /** The guess loop over an input stream: steps while the session is not
      finished and input remains, and returns the final state together with the
      input it did not consume. */
  function Play(s: State, input: seq<char>): (r: (State, seq<char>))
    ensures r.0.word == s.word
    ensures |r.1| <= |input|
    ensures r.0.attempts == s.attempts + (|input| - |r.1|)
    ensures Finished(r.0) || r.1 == []
    ensures Finished(s) ==> r.1 == input
    decreases |input|
  {
    if Finished(s) || |input| == 0 then (s, input)
    else Play(Step(s, input[0]), input[1..])
  }

  /** The loop consumes its input from the front: what it leaves unread is a
      suffix of what it was given. */
  lemma {:induction false} PlayLeavesSuffix(s: State, input: seq<char>)
    ensures var rest := Play(s, input).1; rest == input[|input| - |rest|..]
    decreases |input|
  {
    if !Finished(s) && |input| > 0 {
      PlayLeavesSuffix(Step(s, input[0]), input[1..]);
      var rest := Play(s, input).1;
      assert input[1..][|input[1..]| - |rest|..] == input[|input| - |rest|..];
    }
  }

  predicate NoDuplicates(xs: seq<char>)
  {
    forall i, j | 0 <= i < j < |xs| :: xs[i] != xs[j]
  }

  predicate Disjoint(xs: seq<char>, ys: seq<char>)
  {
    forall i, j | 0 <= i < |xs| && 0 <= j < |ys| :: xs[i] != ys[j]
  }

  /** What every state reached by the guess loop satisfies. */
  predicate Inv(s: State)
  {
    && NoDuplicates(s.correct)
    && NoDuplicates(s.incorrect)
    && Disjoint(s.correct, s.incorrect)
    && (forall i | 0 <= i < |s.correct| :: IsUpper(s.correct[i]) && s.correct[i] in s.word)
    && (forall i | 0 <= i < |s.incorrect| :: IsUpper(s.incorrect[i]) && s.incorrect[i] !in s.word)
    && s.incorrectCount == |s.incorrect| <= MaxIncorrectAttempts
    && |s.correct| + |s.incorrect| <= s.attempts
    && (s.won ==> AnyAccepted(s) && AllRevealed(s.word, s.correct) && s.incorrectCount < MaxIncorrectAttempts)
    && (AnyAccepted(s) && !s.won ==> !AllRevealed(s.word, s.correct))
  }

  /** One pass of the loop body, entered only while the loop guard holds and no
      win has been recorded, keeps the invariant. */
  lemma StepPreservesInv(s: State, ch: char)
    requires Inv(s)
    requires !Finished(s)
    ensures Inv(Step(s, ch))
  {
    var c := ToUpper(ch);
    var r := Step(s, ch);
    LowercaseBranchUnreachable(ch);
    match Judge(s, ch)
    case InvalidInput =>
    case AlreadyGuessed =>
    case Hit =>
      assert r.correct[|s.correct|] == c;
    case Miss =>
      assert r.incorrect[|s.incorrect|] == c;
      if r.won {
        assert !AnyAccepted(s);
      }
  }

  /** The whole guess loop keeps the invariant. */
  lemma {:induction false} PlayPreservesInv(s: State, input: seq<char>)
    requires Inv(s)
    ensures Inv(Play(s, input).0)
    decreases |input|
  {
    if Finished(s) || |input| == 0 {
    } else {
      StepPreservesInv(s, input[0]);
      PlayPreservesInv(Step(s, input[0]), input[1..]);
    }
  }

  /** How a session on `word` ends: won exactly when the completion check
      succeeded after an accepted guess, lost exactly when the incorrect counter
      reached the threshold, never both, and stopped early only in one of those
      two cases. The two lists stay disjoint and free of repeats, and the
      incorrect counter is the length of the incorrect list. */
  lemma SessionOutcome(word: string, input: seq<char>)
    ensures var (f, rest) := Play(Start(word), input);
      && NoDuplicates(f.correct) && NoDuplicates(f.incorrect) && Disjoint(f.correct, f.incorrect)
      && f.incorrectCount == |f.incorrect| <= MaxIncorrectAttempts
      && (f.won <==> AnyAccepted(f) && AllRevealed(word, f.correct))
      && !(f.won && f.incorrectCount >= MaxIncorrectAttempts)
      && (rest != [] ==> f.won || f.incorrectCount == MaxIncorrectAttempts)
  {
    PlayPreservesInv(Start(word), input);
  }

  /** Only a correct guess can complete the word. */
  lemma OnlyHitCompletes(s: State, ch: char)
    requires !AllRevealed(s.word, s.correct)
    requires AllRevealed(s.word, Step(s, ch).correct)
    ensures Judge(s, ch) == Hit
  {
  }

  /** Submitting the same letter again is rejected as a duplicate and changes
      nothing but the attempt counter. */
  lemma RepeatedGuessIsDuplicate(s: State, ch: char)
    requires ValidateCharacterInput(ch)
    ensures Judge(Step(s, ch), ch) == AlreadyGuessed
    ensures Step(Step(s, ch), ch) == Step(s, ch).(attempts := s.attempts + 2)
  {
    LowercaseBranchUnreachable(ch);
  }

  /** A session on a non-empty upper-case word whose every letter is guessed
      somewhere in the input (or already was) ends won, unless it is lost to
      six incorrect guesses first. */
  lemma {:induction false} AllLettersSuppliedEndsSession(s: State, input: seq<char>)
    requires Inv(s)
    requires |s.word| > 0
    requires forall i | 0 <= i < |s.word| :: IsUpper(s.word[i])
    requires forall i | 0 <= i < |s.word| :: s.word[i] in s.correct || s.word[i] in input
    ensures Play(s, input).0.won || Play(s, input).0.incorrectCount == MaxIncorrectAttempts
    decreases |input|
  {
    if Finished(s) {
    } else if |input| == 0 {
      assert s.word[0] in s.correct;
      assert AllRevealed(s.word, s.correct);
      assert false;
    } else {
      var ch := input[0];
      var r := Step(s, ch);
      StepPreservesInv(s, ch);
      forall i | 0 <= i < |s.word| ensures s.word[i] in r.correct || s.word[i] in input[1..] {
        var w := s.word[i];
        if w !in s.correct && w !in input[1..] {
          assert w == ch by {
            assert input == [ch] + input[1..];
          }
          assert ToUpper(ch) == w;
          assert w !in s.incorrect;
          assert Judge(s, ch) == Hit;
        }
      }
      AllLettersSuppliedEndsSession(r, input[1..]);
    }
  }

  /** Guessing C, A, T on CAT wins in three attempts, and input after the win
      is left for the next session. The input is a parameter equal to the
      literal rather than the literal itself, so that the verifier does not
      unfold `Play` on a literal argument; the turns are taken one lemma at a
      time instead. */
  lemma ExampleWin(input: seq<char>)
    requires input == "CATX"
    ensures Play(Start("CAT"), input) == (State("CAT", "CAT", [], 0, 3, true), "X")
  {
    ExampleWinFirstStep();
    ExampleWinSecondStep();
    ExampleWinThirdStep();
    ExampleWinInput(input);
    PlayThreeTurns(Start("CAT"), State("CAT", "C", [], 0, 1, false), State("CAT", "CA", [], 0, 2, false),
                   State("CAT", "CAT", [], 0, 3, true), 'C', 'A', 'T', "X");
  }

  /** The split of the winning input into its three guesses, kept apart from
      `ExampleWin` so that the sequence reasoning runs without `Play` in scope. */
  lemma ExampleWinInput(input: seq<char>)
    requires input == "CATX"
    ensures input == ['C', 'A', 'T'] + "X"
  {
  }

  /** Three turns of the loop that end the session, for the worked examples. */
  lemma PlayThreeTurns(s0: State, s1: State, s2: State, s3: State, c0: char, c1: char, c2: char, rest: seq<char>)
    requires !Finished(s0) && !Finished(s1) && !Finished(s2) && Finished(s3)
    requires Step(s0, c0) == s1 && Step(s1, c1) == s2 && Step(s2, c2) == s3
    ensures Play(s0, [c0, c1, c2] + rest) == (s3, rest)
  {
    assert [c0, c1, c2] + rest == [c0] + ([c1] + ([c2] + rest));
    PlayUnfold(s0, c0, [c1] + ([c2] + rest));
    PlayUnfold(s1, c1, [c2] + rest);
    PlayUnfold(s2, c2, rest);
  }

  lemma ExampleWinFirstStep()
    ensures Step(Start("CAT"), 'C') == State("CAT", "C", [], 0, 1, false)
  {
    ExampleHit(Start("CAT"), 'C', 0);
    assert !AllRevealed("CAT", "C") by { assert "CAT"[1] !in "C"; }
  }

  lemma ExampleWinSecondStep()
    ensures Step(State("CAT", "C", [], 0, 1, false), 'A') == State("CAT", "CA", [], 0, 2, false)
  {
    ExampleHit(State("CAT", "C", [], 0, 1, false), 'A', 1);
    assert !AllRevealed("CAT", "CA") by { assert "CAT"[2] !in "CA"; }
  }

  lemma ExampleWinThirdStep()
    ensures Step(State("CAT", "CA", [], 0, 2, false), 'T') == State("CAT", "CAT", [], 0, 3, true)
  {
    ExampleHit(State("CAT", "CA", [], 0, 2, false), 'T', 2);
    assert AllRevealed("CAT", "CAT") by { assert forall i | 0 <= i < 3 :: "CAT"[i] in "CAT"; }
  }

  /** One turn of the loop, for the worked examples. */
  lemma PlayUnfold(s: State, ch: char, rest: seq<char>)
    requires !Finished(s)
    ensures Play(s, [ch] + rest) == Play(Step(s, ch), rest)
  {
    assert ([ch] + rest)[0] == ch && ([ch] + rest)[1..] == rest;
  }

  /** A fresh upper-case letter found at index `at` of the word is a hit. */
  lemma ExampleHit(s: State, c: char, at: nat)
    requires IsUpper(c) && at < |s.word| && s.word[at] == c
    requires c !in s.correct && c !in s.incorrect
    ensures Judge(s, c) == Hit
    ensures Step(s, c) == s.(correct := s.correct + [c], attempts := s.attempts + 1,
                             won := AllRevealed(s.word, s.correct + [c]))
  {
    LowercaseBranchUnreachable(c);
  }

  /** Lower-case guesses are upper-cased before they are judged. */
  lemma ExampleLowercaseGuess()
    ensures Step(Start("CAT"), 'c') == State("CAT", "C", [], 0, 1, false)
  {
    var s0 := Start("CAT");
    assert ToUpper('c') == 'C';
    assert Judge(s0, 'c') == Hit by { assert "CAT"[0] == 'C'; }
    assert !AllRevealed("CAT", "C") by { assert "CAT"[1] !in "C"; }
  }

  /** A letter absent from the word is filed as incorrect and counted. */
  lemma ExampleMiss()
    ensures Step(Start("DOG"), 'X') == State("DOG", [], "X", 1, 1, false)
  {
    var s0 := Start("DOG");
    assert Judge(s0, 'X') == Miss;
    assert !AllRevealed("DOG", []) by { assert "DOG"[0] !in []; }
  }

  /** Distinct upper-case letters absent from a non-empty word, fed to a
      session with no correct guess, are all counted as incorrect, and the
      session is lost exactly when the sixth one is in. */
  lemma {:induction false} FreshMissesLose(s: State, input: seq<char>)
    requires |s.word| > 0 && s.correct == [] && !s.won
    requires s.incorrectCount == |s.incorrect|
    requires s.incorrectCount + |input| == MaxIncorrectAttempts
    requires forall i | 0 <= i < |input| :: IsUpper(input[i]) && input[i] !in s.word && input[i] !in s.incorrect
    requires NoDuplicates(input)
    ensures Play(s, input) == (s.(incorrect := s.incorrect + input,
                                  incorrectCount := MaxIncorrectAttempts,
                                  attempts := s.attempts + |input|), [])
    decreases |input|
  {
    if |input| == 0 {
      assert s.incorrect + input == s.incorrect;
    } else {
      var c := input[0];
      LowercaseBranchUnreachable(c);
      assert Judge(s, c) == Miss;
      assert !AllRevealed(s.word, []) by { assert s.word[0] !in []; }
      var r := Step(s, c);
      forall i | 0 <= i < |input[1..]|
        ensures IsUpper(input[1..][i]) && input[1..][i] !in r.word && input[1..][i] !in r.incorrect
      {
        assert input[1..][i] == input[i + 1] != input[0];
      }
      FreshMissesLose(r, input[1..]);
      assert r.incorrect + input[1..] == s.incorrect + input;
    }
  }

  /** Guessing X, Y, Z, Q, W, V on DOG loses the session after six attempts.
      As in `ExampleWin`, the input is a parameter equal to the literal so that
      `Play` is not unfolded on a literal argument. */
  lemma ExampleLoss(input: seq<char>)
    requires input == "XYZQWV"
    ensures Play(Start("DOG"), input) == (State("DOG", [], "XYZQWV", 6, 6, false), [])
  {
    ExampleLossLetters(input);
    SixFreshMissesLose("DOG", input);
  }

  /** Six distinct upper-case letters absent from a non-empty word, fed to a
      fresh session on it, lose that session with nothing left unread. */
  lemma SixFreshMissesLose(word: string, input: seq<char>)
    requires |word| > 0 && |input| == MaxIncorrectAttempts
    requires forall i | 0 <= i < |input| :: IsUpper(input[i]) && input[i] !in word
    requires NoDuplicates(input)
    ensures Play(Start(word), input) == (State(word, [], input, MaxIncorrectAttempts, MaxIncorrectAttempts, false), [])
  {
    var s0 := Start(word);
    FreshMissesLose(s0, input);
    assert s0.incorrect + input == input;
  }

  /** The letters of the losing example are distinct upper-case letters
      absent from DOG; kept apart from `ExampleLoss` so that the letter-by-letter
      facts are proved without `Play` in scope. */
  lemma ExampleLossLetters(input: seq<char>)
    requires input == "XYZQWV"
    ensures forall i | 0 <= i < |input| :: IsUpper(input[i]) && input[i] !in "DOG"
    ensures NoDuplicates(input)
  {
  }

  /** A repeated letter and a non-letter are both rejected, yet each still
      counts as an attempt. */
  lemma ExampleRejectedInputsCount()
    ensures Step(State("CAT", "C", [], 0, 1, false), 'C') == State("CAT", "C", [], 0, 2, false)
    ensures Step(Start("CAT"), '5') == State("CAT", [], [], 0, 1, false)
  {
    assert Judge(State("CAT", "C", [], 0, 1, false), 'C') == AlreadyGuessed by { assert "C"[0] == 'C'; }
  }
}
