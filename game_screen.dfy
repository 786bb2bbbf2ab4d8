/**
  The values the screen derives from the engine's fields: the masked word,
  the outcome line, the enabled state of the letter and hint buttons, and
  the hint message.
 */
module GameScreen {
  import opened HangmanEngine
  import opened HangmanProperties

  /** One slot of the masked word: the letter once guessed, else an underscore. */
  function Slot(c: char, guessed: set<char>): char {
    if c in guessed then c else '_'
  }

  /** `joinToString` with a one-character separator. */
  function JoinToString(cs: seq<char>, sep: char): (r: string)
    ensures |r| == if cs == [] then 0 else 2 * |cs| - 1
    decreases |cs|
  {
    if |cs| <= 1 then cs else [cs[0], sep] + JoinToString(cs[1..], sep)
  }

  /** `word.map { if (it in guessedLetters) it else '_' }.joinToString(" ")` */
  function MaskedWord(s: Snapshot): string {
    JoinToString(seq(|s.word|, i requires 0 <= i < |s.word| => Slot(s.word[i], s.guessedLetters)), ' ')
  }

  /** The joined string alternates the elements with the separator. */
  lemma {:induction false} JoinLayout(cs: seq<char>, sep: char)
    ensures forall k :: 0 <= k < |JoinToString(cs, sep)| ==>
      JoinToString(cs, sep)[k] == if k % 2 == 0 then cs[k / 2] else sep
    decreases |cs|
  {
    if |cs| > 1 {
      var rest := JoinToString(cs[1..], sep);
      JoinLayout(cs[1..], sep);
      var j := JoinToString(cs, sep);
      assert j == [cs[0], sep] + rest;
      forall k | 2 <= k < |j|
        ensures j[k] == if k % 2 == 0 then cs[k / 2] else sep
      {
        assert j[k] == rest[k - 2];
        assert (k - 2) % 2 == k % 2 && (k - 2) / 2 == k / 2 - 1;
      }
    }
  }

  /**
    One slot per letter: slot i is the letter when guessed and `_` otherwise,
    and slots are separated by single spaces.
   */
  lemma MaskedWordLayout(s: Snapshot)
    ensures |MaskedWord(s)| == if s.word == [] then 0 else 2 * |s.word| - 1
    ensures forall i :: 0 <= i < |s.word| ==>
      MaskedWord(s)[2 * i] == if s.word[i] in s.guessedLetters then s.word[i] else '_'
    ensures forall i :: 0 <= i < |s.word| - 1 ==> MaskedWord(s)[2 * i + 1] == ' '
  {
    var cs := seq(|s.word|, i requires 0 <= i < |s.word| => Slot(s.word[i], s.guessedLetters));
    JoinLayout(cs, ' ');
    forall i | 0 <= i < |s.word|
      ensures MaskedWord(s)[2 * i] == Slot(s.word[i], s.guessedLetters)
    {
      assert (2 * i) % 2 == 0 && (2 * i) / 2 == i;
    }
    forall i | 0 <= i < |s.word| - 1
      ensures MaskedWord(s)[2 * i + 1] == ' '
    {
      assert (2 * i + 1) % 2 == 1;
    }
  }

  /** For a word without underscores, an underscore shows exactly while a letter is unguessed. */
  lemma MaskedWordHidesIffUnguessed(s: Snapshot)
    requires '_' !in s.word
    ensures '_' in MaskedWord(s) <==> !AllGuessed(s.word, s.guessedLetters)
  {
    var cs := seq(|s.word|, i requires 0 <= i < |s.word| => Slot(s.word[i], s.guessedLetters));
    var m := MaskedWord(s);
    JoinLayout(cs, ' ');
    MaskedWordLayout(s);
    if '_' in m {
      var k :| 0 <= k < |m| && m[k] == '_';
      assert k % 2 == 0;
      assert s.word[k / 2] !in s.guessedLetters;
    }
    if !AllGuessed(s.word, s.guessedLetters) {
      var c :| c in s.word && c !in s.guessedLetters;
      var i :| 0 <= i < |s.word| && s.word[i] == c;
      assert m[2 * i] == '_';
    }
  }

  /** In every round of the game, the round is won exactly when no underscore is left. */
  lemma WonIffFullyRevealed(s: Snapshot)
    requires Inv(s)
    ensures s.gameState == WON <==> '_' !in MaskedWord(s)
  {
    assert forall i :: 0 <= i < |Words| ==> '_' !in Words[i];
    MaskedWordHidesIffUnguessed(s);
  }

  /** A new round shows one hidden slot per letter of its word. */
  lemma NewRoundHidesEverySlot(pick: int)
    requires 0 <= pick < |Words|
    ensures forall i :: 0 <= i < |Words[pick]| ==> MaskedWord(NewRound(pick))[2 * i] == '_'
  {
    MaskedWordLayout(NewRound(pick));
  }

  /** A guess while playing reveals exactly the slots that hold the guessed letter. */
  lemma GuessRevealsSlots(s: Snapshot, letter: char)
    requires s.gameState == PLAYING
    ensures forall i :: 0 <= i < |s.word| ==>
      MaskedWord(Guess(s, letter))[2 * i] ==
        if s.word[i] == letter then letter else MaskedWord(s)[2 * i]
  {
    MaskedWordLayout(s);
    MaskedWordLayout(Guess(s, letter));
  }

  /** Once every letter is guessed, the masked word is the word spelled out with spaces. */
  lemma MaskedWordWhenAllGuessed(s: Snapshot)
    requires AllGuessed(s.word, s.guessedLetters)
    ensures MaskedWord(s) == JoinToString(s.word, ' ')
  {
    var cs := seq(|s.word|, i requires 0 <= i < |s.word| => Slot(s.word[i], s.guessedLetters));
    assert cs == s.word;
  }

  /**
    Guessing the letters of the word in order (for MOBILE: M, O, B, I, L, E)
    wins a round that has not been lost, spends no attempt and shows the
    whole word.
   */
  lemma GuessingTheWordWins(s: Snapshot)
    requires Inv(s) && s.gameState != LOST
    ensures Run(s, Guesses(s.word)).gameState == WON
    ensures Run(s, Guesses(s.word)).remainingAttempts == s.remainingAttempts
    ensures MaskedWord(Run(s, Guesses(s.word))) == JoinToString(s.word, ' ')
  {
    var r := Run(s, Guesses(s.word));
    CorrectGuessesWin(s, s.word);
    RunKeepsInv(s, Guesses(s.word));
    MaskedWordWhenAllGuessed(r);
  }

  /** The outcome line under the attempts counter. */
  function OutcomeMessage(s: Snapshot): string {
    match s.gameState
    case WON => "Congratulations! You won!"
    case LOST => "Game Over. The word was " + s.word
    case PLAYING => ""
  }

  /** The outcome line is empty exactly while the round is in progress, and names the word on a loss. */
  lemma OutcomeMessageShown(s: Snapshot)
    ensures OutcomeMessage(s) == "" <==> s.gameState == PLAYING
    ensures s.gameState == LOST ==> OutcomeMessage(s)[|OutcomeMessage(s)| - |s.word|..] == s.word
  {
  }

  /** A letter button is enabled while its letter is unguessed and the round is in progress. */
  predicate LetterEnabled(s: Snapshot, letter: char) {
    letter !in s.guessedLetters && s.gameState == PLAYING
  }

  /** The hint button is enabled while playing, before the last tier, with more than one attempt left. */
  predicate HintEnabled(s: Snapshot) {
    s.gameState == PLAYING && s.hintState != VOWELS_SHOWN && s.remainingAttempts > 1
  }

  /** A click on an enabled letter records one new letter, and disables that button. */
  lemma EnabledLetterGuess(s: Snapshot, letter: char)
    requires LetterEnabled(s, letter)
    ensures Guess(s, letter).guessedLetters == s.guessedLetters + {letter}
    ensures |Guess(s, letter).guessedLetters| == |s.guessedLetters| + 1
    ensures !LetterEnabled(Guess(s, letter), letter)
  {
  }

  /** Letters clicked one after another on enabled buttons. */
  predicate ClickableRun(s: Snapshot, letters: string)
    decreases |letters|
  {
    letters == [] || (LetterEnabled(s, letters[0]) && ClickableRun(Guess(s, letters[0]), letters[1..]))
  }

  /**
    Through the buttons no letter is guessed twice in a round, so the engine's
    missing repeat guard never charges a wrong letter twice.
   */
  lemma {:induction false} ClickedLettersAreNew(s: Snapshot, letters: string)
    requires ClickableRun(s, letters)
    ensures forall k :: 0 <= k < |letters| ==> letters[k] !in s.guessedLetters
    ensures forall i, j :: 0 <= i < j < |letters| ==> letters[i] != letters[j]
    decreases |letters|
  {
    if letters != [] {
      var t := Guess(s, letters[0]);
      ClickedLettersAreNew(t, letters[1..]);
      forall k | 1 <= k < |letters|
        ensures letters[k] !in s.guessedLetters && letters[k] != letters[0]
      {
        assert letters[k] == letters[1..][k - 1];
      }
      forall i, j | 0 <= i < j < |letters|
        ensures letters[i] != letters[j]
      {
        if i > 0 {
          assert letters[i] == letters[1..][i - 1] && letters[j] == letters[1..][j - 1];
        }
      }
    }
  }

  /**
    Conversely, distinct wrong letters not yet guessed can all be clicked in
    turn while the budget lasts: each button is still enabled when its turn
    comes.
   */
  lemma {:induction false} DistinctWrongLettersClickable(s: Snapshot, letters: string)
    requires Inv(s) && s.gameState == PLAYING
    requires |letters| <= s.remainingAttempts as int
    requires forall k :: 0 <= k < |letters| ==> letters[k] !in s.word && letters[k] !in s.guessedLetters
    requires forall i, j :: 0 <= i < j < |letters| ==> letters[i] != letters[j]
    ensures ClickableRun(s, letters)
    decreases |letters|
  {
    if |letters| > 1 {
      var t := Guess(s, letters[0]);
      GuessKeepsInv(s, letters[0]);
      GuessWhilePlaying(s, letters[0]);
      assert t.remainingAttempts as int == s.remainingAttempts as int - 1;
      forall k | 0 <= k < |letters| - 1
        ensures letters[1..][k] !in t.word && letters[1..][k] !in t.guessedLetters
      {
        assert letters[1..][k] == letters[k + 1] && letters[k + 1] != letters[0];
      }
      forall i, j | 0 <= i < j < |letters| - 1
        ensures letters[1..][i] != letters[1..][j]
      {
        assert letters[1..][i] == letters[i + 1] && letters[1..][j] == letters[j + 1];
      }
      DistinctWrongLettersClickable(t, letters[1..]);
    }
  }

  /** Under the invariant, a click on the enabled hint button reaches the next tier and keeps the round going. */
  lemma EnabledHintAdvances(s: Snapshot)
    requires Inv(s) && HintEnabled(s)
    ensures Rank(Hint(s).hintState) == Rank(s.hintState) + 1
    ensures Hint(s).gameState == PLAYING
  {
  }

  /** While playing with more than one attempt, the hint button is enabled exactly when a hint would change something. */
  lemma HintEnabledIffEffective(s: Snapshot)
    requires Inv(s) && s.gameState == PLAYING && s.remainingAttempts > 1
    ensures HintEnabled(s) <==> Hint(s) != s
  {
  }

  /** Five distinct wrong letters can be clicked one after another at the start of a MOBILE round. */
  lemma FiveWrongClicksAtMobile()
    ensures ClickableRun(NewRound(4), "ZQXWV")
  {
    var s0, letters := NewRound(4), "ZQXWV";
    NewRoundIsFresh(4);
    assert s0.word == "MOBILE" && s0.guessedLetters == {};
    DistinctWrongLettersClickable(s0, letters);
  }

  /**
    The button is stricter than the engine: after the five wrong clicks of
    `FiveWrongClicksAtMobile` the free first hint is still available to
    `useHint`, but the button is disabled.
   */
  lemma HintButtonWithholdsFreeHint()
    ensures var s := Run(NewRound(4), Guesses("ZQXWV"));
      && s.gameState == PLAYING && s.remainingAttempts == 1 && s.hintState == INITIAL
      && !HintEnabled(s)
      && Hint(s).hintState == HINT_SHOWN && Hint(s).remainingAttempts == 1
  {
    NewRoundIsFresh(4);
    assert Words[4] == "MOBILE";
    WrongGuessesCharge(NewRound(4), "ZQXWV");
  }

  /** `HintDisplay`: the hint text, a fixed message for the two later tiers, or nothing. */
  function HintMessage(s: Snapshot): string {
    match s.hintState
    case HINT_SHOWN => s.hint
    case HALF_LETTERS_DISABLED => "Half of the remaining letters have been disabled"
    case VOWELS_SHOWN => "All vowels have been revealed"
    case INITIAL => ""
  }

  /**
    For a catalog entry the message tells the tiers apart: it is empty before
    the first hint and is the hint text exactly at the first tier.
   */
  lemma HintMessageByTier(s: Snapshot)
    requires Inv(s)
    ensures HintMessage(s) == "" <==> s.hintState == INITIAL
    ensures HintMessage(s) == s.hint <==> s.hintState == HINT_SHOWN
    ensures forall t: HintState :: HintMessage(s.(hintState := t)) == HintMessage(s) ==> t == s.hintState
  {
  }
}
