/**
 The masked view of the target word shown before every guess: a revealed
 character where the letter has been guessed, a placeholder elsewhere.
 */
module Masking {
  import opened Wrappers
  import opened Completion
  import opened Letters

  /** The mask of `word` under the guessed letters `correct`, one entry per
      position of the word. */
  function Mask(word: string, correct: seq<char>): (m: seq<Option<char>>)
    ensures |m| == |word|
    ensures forall i | 0 <= i < |word| :: m[i].Some? <==> word[i] in correct
    ensures forall i | 0 <= i < |word| :: m[i].Some? ==> m[i].value == word[i]
  {
    if |word| == 0 then []
    else [if word[0] in correct then Some(word[0]) else None] + Mask(word[1..], correct)
  }

  /** The masking loop as the game runs it: for each character of the word, a
      linear scan of the guessed letters decides whether it is shown. */
  method DisplayWordProgress(word: string, correct: seq<char>) returns (m: seq<Option<char>>)
    ensures m == Mask(word, correct)
  {
    m := [];
    ghost var full := Mask(word, correct);
    var i := 0;
    while i < |word|
      invariant 0 <= i <= |word|
      invariant m == full[..i]
    {
      var revealed := ScanGuessed(word[i], correct);
      if revealed {
        m := m + [Some(word[i])];
      } else {
        m := m + [None];
      }
      assert full[..i + 1] == full[..i] + [full[i]];
      i := i + 1;
    }
    assert full[..|word|] == full;
  }

  /** A position once revealed stays revealed when more letters are guessed. */
  lemma MaskMonotone(word: string, c1: seq<char>, c2: seq<char>, i: int)
    requires forall x :: x in c1 ==> x in c2
    requires 0 <= i < |word|
    ensures Mask(word, c1)[i].Some? ==> Mask(word, c2)[i] == Mask(word, c1)[i]
  {
  }

  /** The mask has no placeholder left exactly when the completion check holds. */
  lemma MaskFullIffComplete(word: string, correct: seq<char>)
    ensures (forall i | 0 <= i < |word| :: Mask(word, correct)[i].Some?) ==> AllRevealed(word, correct)
    ensures AllRevealed(word, correct) ==> forall i | 0 <= i < |word| :: Mask(word, correct)[i].Some?
  {
    var m := Mask(word, correct);
    if forall i | 0 <= i < |word| :: m[i].Some? {
      forall i | 0 <= i < |word| ensures word[i] in correct {
        assert m[i].Some?;
      }
      assert AllRevealed(word, correct);
    }
  }
}
