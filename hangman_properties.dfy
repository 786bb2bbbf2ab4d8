/**
  What the engine's transitions promise: the effect of one call, the
  invariant every reachable round keeps, and the scenarios of whole rounds.
 */
module HangmanProperties {
  import opened HangmanEngine

  /** A user intent sent to the engine. */
  datatype Action = GuessAction(letter: char) | HintAction | NewGameAction(pick: int)

  predicate ValidAction(a: Action) {
    a.NewGameAction? ==> 0 <= a.pick < |Words|
  }

  function Step(s: Snapshot, a: Action): Snapshot
    requires ValidAction(a)
  {
    match a
    case GuessAction(c) => Guess(s, c)
    case HintAction => Hint(s)
    case NewGameAction(pick) => NewRound(pick)
  }

  /** The state after the intents `acts`, in order. */
  function Run(s: Snapshot, acts: seq<Action>): Snapshot
    requires forall k :: 0 <= k < |acts| ==> ValidAction(acts[k])
    decreases |acts|
  {
    if acts == [] then s else Run(Step(s, acts[0]), acts[1..])
  }

  function Guesses(letters: string): (acts: seq<Action>)
    ensures |acts| == |letters|
    ensures forall k :: 0 <= k < |letters| ==> acts[k] == GuessAction(letters[k])
  {
    if letters == [] then [] else [GuessAction(letters[0])] + Guesses(letters[1..])
  }

  function HintCalls(n: nat): (acts: seq<Action>)
    ensures |acts| == n && forall k :: 0 <= k < n ==> acts[k] == HintAction
  {
    if n == 0 then [] else [HintAction] + HintCalls(n - 1)
  }

  // ---- newGame ----

  /** Every round `newGame` starts is fresh and satisfies the invariant. */
  lemma NewRoundIsFresh(pick: int)
    requires 0 <= pick < |Words|
    ensures var s := NewRound(pick);
      && s.guessedLetters == {} && s.remainingAttempts == 6
      && s.gameState == PLAYING && s.hintState == INITIAL
      && 0 <= s.index < 5 && s.word == Words[s.index] && s.hint == Hints[s.index]
      && Inv(s)
  {
    assert Words[pick][0] in NewRound(pick).word;
  }

  // ---- updateGameState ----

  /** WON exactly when every letter is guessed, else LOST at zero, else unchanged. */
  lemma EvaluateOutcome(s: Snapshot)
    ensures var r := Evaluate(s);
      && (r.gameState == WON <==> AllGuessed(s.word, s.guessedLetters) || (s.gameState == WON && s.remainingAttempts != 0))
      && (!AllGuessed(s.word, s.guessedLetters) && s.remainingAttempts == 0 ==> r.gameState == LOST)
      && (!AllGuessed(s.word, s.guessedLetters) && s.remainingAttempts != 0 ==> r.gameState == s.gameState)
      && (s.gameState != PLAYING ==> r.gameState != PLAYING)
      && r == s.(gameState := r.gameState)
  {
  }

  // ---- guessLetter ----

  /** Once the round is over, a guess changes nothing at all. */
  lemma GuessFrozen(s: Snapshot, letter: char)
    requires s.gameState != PLAYING
    ensures Guess(s, letter) == s
  {
  }

  /** While playing: the letter is recorded, and one attempt is charged exactly when it is wrong. */
  lemma GuessWhilePlaying(s: Snapshot, letter: char)
    requires s.gameState == PLAYING
    ensures var r := Guess(s, letter);
      && r.guessedLetters == s.guessedLetters + {letter}
      && (letter in s.word ==> r.remainingAttempts == s.remainingAttempts)
      && (letter !in s.word ==> r.remainingAttempts == Dec(s.remainingAttempts))
      && (letter !in s.word && s.remainingAttempts != IntMin ==>
            r.remainingAttempts as int == s.remainingAttempts as int - 1)
      && r.word == s.word && r.hint == s.hint && r.index == s.index && r.hintState == s.hintState
  {
  }

  /** There is no repeat guard: a wrong letter guessed again costs another attempt. */
  lemma RepeatedWrongGuessChargesAgain(s: Snapshot, letter: char)
    requires Inv(s) && s.gameState == PLAYING
    requires letter !in s.word && letter in s.guessedLetters
    ensures Guess(s, letter).remainingAttempts == s.remainingAttempts - 1
    ensures Guess(s, letter).guessedLetters == s.guessedLetters
    ensures s.remainingAttempts == 1 ==> Guess(s, letter).gameState == LOST
  {
  }

  lemma GuessKeepsInv(s: Snapshot, letter: char)
    requires Inv(s)
    ensures Inv(Guess(s, letter))
  {
    if s.gameState == PLAYING && letter !in s.word {
      assert AllGuessed(s.word, s.guessedLetters + {letter}) <==> AllGuessed(s.word, s.guessedLetters);
    }
  }

  // ---- useHint ----

  /**
    The tier table: INITIAL moves on for free; the two later tiers move on
    only with more than one attempt left, at a cost of one; otherwise, and at
    VOWELS_SHOWN, tier and attempts stay; letters, word, hint and index never change.
   */
  lemma HintTransitions(s: Snapshot)
    ensures var r := Hint(s);
      && (s.hintState == INITIAL ==>
            r.hintState == HINT_SHOWN && r.remainingAttempts == s.remainingAttempts)
      && (s.hintState == HINT_SHOWN && s.remainingAttempts > 1 ==>
            r.hintState == HALF_LETTERS_DISABLED && r.remainingAttempts == s.remainingAttempts - 1)
      && (s.hintState == HALF_LETTERS_DISABLED && s.remainingAttempts > 1 ==>
            r.hintState == VOWELS_SHOWN && r.remainingAttempts == s.remainingAttempts - 1)
      && ((s.hintState == VOWELS_SHOWN || (s.hintState != INITIAL && s.remainingAttempts <= 1)) ==>
            r.hintState == s.hintState && r.remainingAttempts == s.remainingAttempts)
      && r.guessedLetters == s.guessedLetters && r.word == s.word
      && r.hint == s.hint && r.index == s.index
  {
  }

  /** The tier never goes back, and a hint never by itself takes the budget below one. */
  lemma HintMonotone(s: Snapshot)
    ensures Rank(Hint(s).hintState) >= Rank(s.hintState)
    ensures Hint(s).remainingAttempts < s.remainingAttempts ==>
      Hint(s).remainingAttempts >= 1 && Rank(Hint(s).hintState) == Rank(s.hintState) + 1
  {
  }

  lemma HintKeepsInv(s: Snapshot)
    requires Inv(s)
    ensures Inv(Hint(s))
  {
  }

  /** Under the invariant, a hint never ends a round that is in progress. */
  lemma HintNeverEndsRound(s: Snapshot)
    requires Inv(s)
    ensures Hint(s).gameState == s.gameState
  {
  }

  // ---- rounds ----

  lemma StepKeepsInv(s: Snapshot, a: Action)
    requires Inv(s) && ValidAction(a)
    ensures Inv(Step(s, a))
  {
    match a
    case GuessAction(c) => GuessKeepsInv(s, c);
    case HintAction => HintKeepsInv(s);
    case NewGameAction(pick) => NewRoundIsFresh(pick);
  }

  lemma {:induction false} RunKeepsInv(s: Snapshot, acts: seq<Action>)
    requires Inv(s)
    requires forall k :: 0 <= k < |acts| ==> ValidAction(acts[k])
    ensures Inv(Run(s, acts))
    decreases |acts|
  {
    if acts != [] {
      StepKeepsInv(s, acts[0]);
      RunKeepsInv(Step(s, acts[0]), acts[1..]);
    }
  }

  /** Every state reachable from a new game keeps 0..6 attempts, and a round in progress has one left. */
  lemma ReachableBounds(pick: int, acts: seq<Action>)
    requires 0 <= pick < |Words|
    requires forall k :: 0 <= k < |acts| ==> ValidAction(acts[k])
    ensures var s := Run(NewRound(pick), acts);
      && 0 <= s.remainingAttempts <= 6
      && (s.gameState == PLAYING ==> s.remainingAttempts >= 1)
      && (s.gameState == WON <==> AllGuessed(s.word, s.guessedLetters))
      && (s.gameState == LOST <==> s.remainingAttempts == 0)
  {
    NewRoundIsFresh(pick);
    RunKeepsInv(NewRound(pick), acts);
  }

  /** A run of guesses is the first guess followed by the run of the rest. */
  lemma RunGuessesStep(s: Snapshot, letters: string)
    requires letters != []
    ensures Run(s, Guesses(letters)) == Run(Guess(s, letters[0]), Guesses(letters[1..]))
  {
    assert Guesses(letters)[1..] == Guesses(letters[1..]);
  }

  /**
    Wrong guesses, no more than the attempts left, each cost one attempt and
    are all recorded; the round is LOST exactly when they use up the budget.
   */
  lemma {:induction false} WrongGuessesCharge(s: Snapshot, letters: string)
    requires Inv(s) && s.gameState == PLAYING
    requires |letters| <= s.remainingAttempts as int
    requires forall k :: 0 <= k < |letters| ==> letters[k] !in s.word
    ensures var r := Run(s, Guesses(letters));
      && r.remainingAttempts as int == s.remainingAttempts as int - |letters|
      && r.gameState == (if |letters| == s.remainingAttempts as int then LOST else PLAYING)
      && r.guessedLetters == s.guessedLetters + (set k | 0 <= k < |letters| :: letters[k])
      && r.hintState == s.hintState && r.word == s.word
    decreases |letters|
  {
    if letters != [] {
      var t := Guess(s, letters[0]);
      GuessKeepsInv(s, letters[0]);
      RunGuessesStep(s, letters);
      assert forall k :: 0 <= k < |letters[1..]| ==> letters[1..][k] == letters[k + 1];
      if |letters| > 1 {
        WrongGuessesCharge(t, letters[1..]);
      }
      var rest := set k | 0 <= k < |letters[1..]| :: letters[1..][k];
      var all := set k | 0 <= k < |letters| :: letters[k];
      assert all == {letters[0]} + rest by {
        forall c | c in all ensures c in {letters[0]} + rest {
          var k :| 0 <= k < |letters| && letters[k] == c;
          if k > 0 { assert letters[1..][k - 1] == c; }
        }
      }
    }
  }

  /** As many wrong guesses as attempts remain end the round as LOST with nothing left. */
  lemma WrongGuessesLose(s: Snapshot, letters: string)
    requires Inv(s) && s.gameState == PLAYING
    requires |letters| == s.remainingAttempts as int
    requires forall k :: 0 <= k < |letters| ==> letters[k] !in s.word
    ensures Run(s, Guesses(letters)).gameState == LOST
    ensures Run(s, Guesses(letters)).remainingAttempts == 0
  {
    WrongGuessesCharge(s, letters);
  }

  /** Six wrong guesses from a new game lose it; the letters need not even be distinct. */
  lemma SixWrongGuessesLose(pick: int, letters: string)
    requires 0 <= pick < |Words|
    requires |letters| == 6
    requires forall k :: 0 <= k < 6 ==> letters[k] !in Words[pick]
    ensures Run(NewRound(pick), Guesses(letters)).gameState == LOST
    ensures Run(NewRound(pick), Guesses(letters)).remainingAttempts == 0
  {
    NewRoundIsFresh(pick);
    WrongGuessesLose(NewRound(pick), letters);
  }

  /**
    Guessing only letters of the word, covering what is not yet guessed, wins
    the round without spending an attempt.
   */
  lemma {:induction false} CorrectGuessesWin(s: Snapshot, letters: string)
    requires Inv(s) && s.gameState != LOST
    requires forall k :: 0 <= k < |letters| ==> letters[k] in s.word
    requires forall c :: c in s.word ==> c in s.guessedLetters || c in letters
    ensures Run(s, Guesses(letters)).gameState == WON
    ensures Run(s, Guesses(letters)).remainingAttempts == s.remainingAttempts
    ensures Run(s, Guesses(letters)).word == s.word
    decreases |letters|
  {
    if letters == [] {
      assert AllGuessed(s.word, s.guessedLetters);
    } else {
      var t := Guess(s, letters[0]);
      GuessKeepsInv(s, letters[0]);
      RunGuessesStep(s, letters);
      forall c | c in t.word
        ensures c in t.guessedLetters || c in letters[1..]
      {
        if c !in s.guessedLetters && c != letters[0] {
          var k :| 0 <= k < |letters| && letters[k] == c;
          assert letters[1..][k - 1] == c;
        }
      }
      CorrectGuessesWin(t, letters[1..]);
    }
  }

  /** Three hints from a new game pass through every tier and leave four attempts. */
  lemma ThreeHintsFromNewGame(pick: int)
    requires 0 <= pick < |Words|
    ensures var s0 := NewRound(pick);
      var s1 := Hint(s0); var s2 := Hint(s1); var s3 := Hint(s2);
      && s1.hintState == HINT_SHOWN && s1.remainingAttempts == 6
      && s2.hintState == HALF_LETTERS_DISABLED && s2.remainingAttempts == 5
      && s3.hintState == VOWELS_SHOWN && s3.remainingAttempts == 4
      && s3.gameState == PLAYING
      && Run(s0, HintCalls(3)) == s3
  {
    var s0 := NewRound(pick);
    assert Words[pick][0] in s0.word;
    assert HintCalls(3)[1..] == HintCalls(2) && HintCalls(2)[1..] == HintCalls(1) && HintCalls(1)[1..] == [];
  }

  /** With one attempt left, hints past the first tier change nothing. */
  lemma HintAtLastAttempt(s: Snapshot)
    requires Inv(s) && s.remainingAttempts == 1 && s.hintState != INITIAL
    ensures Hint(s) == s
  {
  }

  /** Any number of hints neither ends a round in progress nor exhausts its budget. */
  lemma {:induction false} HintsAloneNeverLose(s: Snapshot, n: nat)
    requires Inv(s) && s.gameState == PLAYING
    ensures Run(s, HintCalls(n)).gameState == PLAYING
    ensures Run(s, HintCalls(n)).remainingAttempts >= 1
    ensures Run(s, HintCalls(n)).guessedLetters == s.guessedLetters
    decreases n
  {
    if n > 0 {
      HintKeepsInv(s);
      HintNeverEndsRound(s);
      assert HintCalls(n)[1..] == HintCalls(n - 1);
      HintsAloneNeverLose(Hint(s), n - 1);
    }
  }
}
