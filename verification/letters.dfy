/**
 Character-level helpers of the game: upper-casing of the guess, the
 alphabetic-range validation, and the search of a letter in the target word.
 */
module Letters {

  /** Position returned by a failed search, like `string::npos`. */
  const Npos: int := -1

  /** Upper case of an ASCII letter, as `toupper` does in the "C" locale:
      'a'..'z' map to 'A'..'Z' and every other character is left alone. */
  function ToUpper(c: char): (u: char)
    ensures IsUpper(u) <==> IsUpper(c) || IsLower(c)
    ensures !IsLower(u)
    ensures IsLower(c) ==> u as int == c as int - 32
    ensures !IsLower(c) ==> u == c
  {
    if 'a' <= c <= 'z' then (c as int - 'a' as int + 'A' as int) as char else c
  }

  predicate IsUpper(c: char)
  {
    'A' <= c <= 'Z'
  }

  predicate IsLower(c: char)
  {
    'a' <= c <= 'z'
  }

  /** The alphabetic-range check applied to every guess. It accepts a
      character exactly when upper-casing it yields an upper-case letter. */
  function ValidateCharacterInput(c: char): (ok: bool)
    ensures ok <==> IsUpper(ToUpper(c))
  {
    ('A' <= c <= 'Z') || ('a' <= c <= 'z')
  }

  /** The guess loop upper-cases before it validates, so the lower-case half of
      the validation never accepts anything there: after `ToUpper` the check
      accepts exactly the upper-case letters, and these come from exactly the
      letters of either case. */
  lemma LowercaseBranchUnreachable(c: char)
    ensures !IsLower(ToUpper(c))
    ensures ValidateCharacterInput(ToUpper(c)) <==> IsUpper(ToUpper(c))
    ensures ValidateCharacterInput(ToUpper(c)) <==> ValidateCharacterInput(c)
    ensures IsUpper(c) ==> ToUpper(c) == c
    ensures IsLower(c) ==> ToUpper(c) as int == c as int - 32
  {
  }

  /** Search for `c` in `word` starting at index `from`, like `string::find`:
      the first matching index at or after `from`, or `Npos`. */
  function FindFrom(word: string, c: char, from: nat): (r: int)
    requires from <= |word|
    ensures r == Npos || (from <= r < |word| && word[r] == c)
    ensures r == Npos <==> (forall j | from <= j < |word| :: word[j] != c)
    ensures r != Npos ==> forall j | from <= j < r :: word[j] != c
    decreases |word| - from
  {
    if from == |word| then Npos
    else if word[from] == c then from
    else FindFrom(word, c, from + 1)
  }

  /** The membership test of a guessed letter in the target word: true
      exactly when the letter occurs in the word. */
  function CheckLetterInWord(c: char, word: string): (found: bool)
    ensures found <==> c in word
  {
    FindFrom(word, c, 0) != Npos
  }

  /** The linear scan of a list of guessed letters that the game repeats for
      the duplicate check, the completion check and the mask: stops at the
      first equal entry. */
  method ScanGuessed(c: char, guessed: seq<char>) returns (found: bool)
    ensures found <==> c in guessed
  {
    found := false;
    var j := 0;
    while j < |guessed|
      invariant 0 <= j <= |guessed|
      invariant found <==> c in guessed[..j]
    {
      if guessed[j] == c {
        found := true;
        assert c in guessed[..j + 1];
        break;
      }
      assert guessed[..j + 1] == guessed[..j] + [guessed[j]];
      j := j + 1;
    }
    assert guessed[..|guessed|] == guessed;
  }
}
