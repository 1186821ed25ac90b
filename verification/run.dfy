/**
 The whole run: a fixed number of sessions over a word list chosen
 cyclically, all reading from one input stream, folded into the run counters
 and summarised at the end.
 */
module Run {
  import opened Session
  import opened Statistics

  /** The word list the game draws from. */
  const WordDatabase: seq<string> := [
    "PROGRAMMING", "ALGORITHM", "FUNCTION", "VARIABLE",
    "COMPILER", "DEBUGGING", "ITERATION", "PROCESSOR"
  ]

  /** Number of sessions in one run. */
  const MaximumGameSessions: nat := 3

  /** The target word of session `k`: the list is indexed modulo its size, so
      every session plays a word of the list, the first ones in list order. */
  function TargetWord(words: seq<string>, k: nat): (w: string)
    requires |words| > 0
    ensures w in words
    ensures k < |words| ==> w == words[k]
  {
    words[k % |words|]
  }

  /** Session `k` and session `k + |words|` play the same word. */
  lemma TargetWordCycles(words: seq<string>, k: nat)
    requires |words| > 0
    ensures TargetWord(words, k + |words|) == TargetWord(words, k)
    ensures k < |words| ==> TargetWord(words, k) == words[k]
  {
    var m := |words|;
    ModOfShift(k, m);
  }

  lemma ModOfShift(k: nat, m: nat)
    requires m > 0
    ensures (k + m) % m == k % m
  {
    var q, r := k / m, k % m;
    var q', r' := (k + m) / m, (k + m) % m;
    assert k == q * m + r;
    assert k + m == q' * m + r';
    var d := q + 1 - q';
    assert d * m == (q + 1) * m - q' * m;
    assert d * m == r' - r;
    MultipleBelowModulusIsZero(d, m);
  }

  lemma MultipleBelowModulusIsZero(d: int, m: int)
    requires m > 0
    requires -m < d * m < m
    ensures d == 0
  {
  }

  /** Every word of the list is a non-empty run of upper-case letters. */
  lemma WordDatabaseWellFormed()
    ensures |WordDatabase| > 0
    ensures forall k | 0 <= k < |WordDatabase| ::
              |WordDatabase[k]| > 0 && forall i | 0 <= i < |WordDatabase[k]| :: 'A' <= WordDatabase[k][i] <= 'Z'
  {
  }

  /** Final states of sessions `from` .. `count - 1`, each a fresh session on its
      target word that reads on from where the previous one stopped. */
  function SessionsFrom(words: seq<string>, from: nat, count: nat, input: seq<char>): (fs: seq<State>)
    requires |words| > 0
    ensures |fs| == if from <= count then count - from else 0
    decreases count - from
  {
    if from >= count then []
    else
      var played := Play(Start(TargetWord(words, from)), input);
      [played.0] + SessionsFrom(words, from + 1, count, played.1)
  }

  /** Session `from + j` of the run plays the word at index `from + j` modulo
      the list size. */
  lemma {:induction false} SessionUsesCyclicWord(words: seq<string>, from: nat, count: nat, input: seq<char>, j: nat)
    requires |words| > 0
    requires j < |SessionsFrom(words, from, count, input)|
    ensures SessionsFrom(words, from, count, input)[j].word == TargetWord(words, from + j)
    decreases j
  {
    var played := Play(Start(TargetWord(words, from)), input);
    var later := SessionsFrom(words, from + 1, count, played.1);
    assert SessionsFrom(words, from, count, input) == [played.0] + later;
    if j > 0 {
      SessionUsesCyclicWord(words, from + 1, count, played.1, j - 1);
      assert SessionsFrom(words, from, count, input)[j] == later[j - 1];
      assert later[j - 1].word == TargetWord(words, from + 1 + (j - 1));
      assert from + 1 + (j - 1) == from + j;
    } else {
      assert played.0.word == TargetWord(words, from);
    }
  }

  /** Every session of the run ends in a state satisfying the session
      invariant: in particular won and lost are exclusive in each. */
  lemma {:induction false} SessionsKeepInv(words: seq<string>, from: nat, count: nat, input: seq<char>)
    requires |words| > 0
    ensures forall j | 0 <= j < |SessionsFrom(words, from, count, input)| :: Inv(SessionsFrom(words, from, count, input)[j])
    decreases count - from
  {
    if from < count {
      var (f, rest) := Play(Start(TargetWord(words, from)), input);
      PlayPreservesInv(Start(TargetWord(words, from)), input);
      SessionsKeepInv(words, from + 1, count, rest);
    }
  }

  /** Number of won sessions. */
  function CountWon(fs: seq<State>): (n: nat)
    ensures n <= |fs|
  {
    if |fs| == 0 then 0 else (if fs[0].won then 1 else 0) + CountWon(fs[1..])
  }

  /** Sum of the per-session attempt counters: no session's attempts are
      lost from it, and it is 0 only when no session made an attempt. */
  function SumAttempts(fs: seq<State>): (total: nat)
    ensures forall j | 0 <= j < |fs| :: fs[j].attempts <= total
    ensures total == 0 <==> forall j | 0 <= j < |fs| :: fs[j].attempts == 0
  {
    if |fs| == 0 then 0 else fs[0].attempts + SumAttempts(fs[1..])
  }

  lemma CountWonAppend(fs: seq<State>, f: State)
    ensures CountWon(fs + [f]) == CountWon(fs) + (if f.won then 1 else 0)
  {
    if |fs| > 0 {
      assert (fs + [f])[1..] == fs[1..] + [f];
      CountWonAppend(fs[1..], f);
    }
  }

  lemma SumAttemptsAppend(fs: seq<State>, f: State)
    ensures SumAttempts(fs + [f]) == SumAttempts(fs) + f.attempts
  {
    if |fs| > 0 {
      assert (fs + [f])[1..] == fs[1..] + [f];
      SumAttemptsAppend(fs[1..], f);
    }
  }

  /** The session loop of the game: plays `count` sessions on the input stream
      and folds each one into the counters once. */
  method RunSessions(words: seq<string>, count: nat, input: seq<char>) returns (finals: seq<State>, tally: Tally)
    requires |words| > 0
    ensures finals == SessionsFrom(words, 0, count, input)
    ensures |finals| == count
    ensures tally.totalSessions == count
    ensures tally.successes == CountWon(finals) <= tally.totalSessions
    ensures tally.cumulativeAttempts == SumAttempts(finals)
  {
    finals := [];
    tally := Tally(0, 0, 0);
    var rest := input;
    var k := 0;
    while k < count
      invariant 0 <= k <= count
      invariant |finals| == k
      invariant finals + SessionsFrom(words, k, count, rest) == SessionsFrom(words, 0, count, input)
      invariant tally == Tally(k, CountWon(finals), SumAttempts(finals))
    {
      var played := Play(Start(TargetWord(words, k)), rest);
      var f := played.0;
      SessionsFromUnfold(words, k, count, rest, finals);
      CountWonAppend(finals, f);
      SumAttemptsAppend(finals, f);
      tally := Tally(tally.totalSessions + 1,
                     tally.successes + (if f.won then 1 else 0),
                     tally.cumulativeAttempts + f.attempts);
      finals := finals + [f];
      rest := played.1;
      k := k + 1;
    }
    assert finals + [] == finals;
  }

  /** One more session moved from the pending part of the run to the played part. */
  lemma SessionsFromUnfold(words: seq<string>, k: nat, count: nat, rest: seq<char>, finals: seq<State>)
    requires |words| > 0
    requires k < count
    ensures var played := Play(Start(TargetWord(words, k)), rest);
      finals + SessionsFrom(words, k, count, rest)
      == (finals + [played.0]) + SessionsFrom(words, k + 1, count, played.1)
  {
    var played := Play(Start(TargetWord(words, k)), rest);
    var later := SessionsFrom(words, k + 1, count, played.1);
    assert SessionsFrom(words, k, count, rest) == [played.0] + later;
    assert (finals + [played.0]) + later == finals + ([played.0] + later);
  }

  /** The whole program on an input stream: three sessions over the word list,
      then the report. */
  method PlayGame(input: seq<char>) returns (report: Report)
    ensures report.totalSessions == MaximumGameSessions
    ensures report.successes <= report.totalSessions
    ensures 0.0 <= report.successRate <= 100.0
    ensures 0 <= report.filledSegments <= ProgressBarLength
    ensures report.averageAttempts * MaximumGameSessions <= SumAttempts(SessionsFrom(WordDatabase, 0, MaximumGameSessions, input))
    ensures report == Summarize(Tally(MaximumGameSessions,
                                      CountWon(SessionsFrom(WordDatabase, 0, MaximumGameSessions, input)),
                                      SumAttempts(SessionsFrom(WordDatabase, 0, MaximumGameSessions, input))))
  {
    var finals, tally := RunSessions(WordDatabase, MaximumGameSessions, input);
    report := Summarize(tally);
  }
}
