/**
 The completion check of a session: the word is guessed once every character
 of it is among the correctly guessed letters.
 */
module Completion {
  import opened Letters

  /** Reference definition: every position of `word` holds a guessed letter. */
  predicate AllRevealed(word: string, correct: seq<char>)
  {
    forall i | 0 <= i < |word| :: word[i] in correct
  }

  /** The completion check as the game performs it: for each character of the
      word, a linear scan of the guessed letters, returning false at the first
      character that is not found. */
  method EvaluateGameCompletionStatus(word: string, correct: seq<char>) returns (done: bool)
    ensures done <==> AllRevealed(word, correct)
  {
    var i := 0;
    while i < |word|
      invariant 0 <= i <= |word|
      invariant forall k | 0 <= k < i :: word[k] in correct
    {
      var found := ScanGuessed(word[i], correct);
      if !found {
        return false;
      }
      i := i + 1;
    }
    return true;
  }

  /** The check only looks at which letters occur: neither the order of the
      guessed letters, nor repeated letters, nor repeated characters of the word
      change the outcome. */
  lemma CompletionDependsOnlyOnLetters(w1: string, w2: string, c1: seq<char>, c2: seq<char>)
    requires forall x :: x in w1 <==> x in w2
    requires forall x :: x in c1 <==> x in c2
    ensures AllRevealed(w1, c1) <==> AllRevealed(w2, c2)
  {
    if AllRevealed(w1, c1) {
      forall i | 0 <= i < |w2| ensures w2[i] in c2 {
        assert w2[i] in w1;
      }
    }
    if AllRevealed(w2, c2) {
      forall i | 0 <= i < |w1| ensures w1[i] in c1 {
        assert w1[i] in w2;
      }
    }
  }

  /** Guessing more letters never undoes completion. */
  lemma CompletionMonotone(word: string, c1: seq<char>, c2: seq<char>)
    requires forall x :: x in c1 ==> x in c2
    ensures AllRevealed(word, c1) ==> AllRevealed(word, c2)
  {
  }
}
