/**
  The hangman game engine: the catalog of words and hints, the two enums,
  a value type holding the seven fields of one round, the transitions on
  that value, and the class `HangmanState` whose methods update its fields
  in place exactly as those transitions say.
 */
module HangmanEngine {

  /** Kotlin's `Int`: a 32-bit two's-complement integer. */
  newtype int32 = x: int | -0x8000_0000 <= x < 0x8000_0000

  const IntMin: int32 := -0x8000_0000
  const IntMax: int32 := 0x7fff_ffff

  /** Kotlin's `x--` on an `Int`: wraps from the smallest value to the largest. */
  function Dec(x: int32): (r: int32)
    ensures r as int == (x as int - 1 - IntMin as int) % 0x1_0000_0000 + IntMin as int
  {
    if x == IntMin then IntMax else x - 1
  }

  datatype GameState = PLAYING | WON | LOST
  datatype HintState = INITIAL | HINT_SHOWN | HALF_LETTERS_DISABLED | VOWELS_SHOWN

  /** Position of a hint tier in the order the tiers are reached. */
  function Rank(h: HintState): nat {
    match h
    case INITIAL => 0
    case HINT_SHOWN => 1
    case HALF_LETTERS_DISABLED => 2
    case VOWELS_SHOWN => 3
  }

  /** Attempts that reaching a tier from INITIAL costs. */
  function Charge(h: HintState): nat {
    match h
    case INITIAL => 0
    case HINT_SHOWN => 0
    case HALF_LETTERS_DISABLED => 1
    case VOWELS_SHOWN => 2
  }

  const Words: seq<string> := ["KOTLIN", "COMPOSE", "ANDROID", "JETPACK", "MOBILE"]
  const Hints: seq<string> := [
    "A modern programming language",
    "A declarative UI toolkit",
    "A mobile operating system",
    "A suite of libraries for Android development",
    "Relating to portable devices"
  ]

  const InitialAttempts: int32 := 6

  /** The seven fields of a `HangmanState`, as one value. */
  datatype Snapshot = Snapshot(
    index: int32,
    word: string,
    hint: string,
    guessedLetters: set<char>,
    remainingAttempts: int32,
    gameState: GameState,
    hintState: HintState)

  /** `word.all { it in guessedLetters }` */
  predicate AllGuessed(word: string, guessed: set<char>) {
    forall c :: c in word ==> c in guessed
  }

  /** The round `newGame` starts when the random choice is `pick`. */
  function NewRound(pick: int): (s: Snapshot)
    requires 0 <= pick < |Words|
  {
    Snapshot(pick as int32, Words[pick], Hints[pick], {}, InitialAttempts, PLAYING, INITIAL)
  }

  /** `updateGameState`: WON is tested first, then LOST; otherwise nothing changes. */
  function Evaluate(s: Snapshot): Snapshot {
    if AllGuessed(s.word, s.guessedLetters) then s.(gameState := WON)
    else if s.remainingAttempts == 0 then s.(gameState := LOST)
    else s
  }

  /** `guessLetter(letter)`: ignored once the round is over; no repeat guard. */
  function Guess(s: Snapshot, letter: char): Snapshot {
    if s.gameState != PLAYING then s
    else
      Evaluate(s.(guessedLetters := s.guessedLetters + {letter},
                  remainingAttempts := if letter in s.word then s.remainingAttempts
                                       else Dec(s.remainingAttempts)))
  }

  /** The `when (hintState)` table of `useHint`, before the outcome is re-evaluated. */
  function AdvanceHint(s: Snapshot): Snapshot {
    match s.hintState
    case INITIAL => s.(hintState := HINT_SHOWN)
    case HINT_SHOWN =>
      if s.remainingAttempts > 1
      then s.(hintState := HALF_LETTERS_DISABLED, remainingAttempts := s.remainingAttempts - 1)
      else s
    case HALF_LETTERS_DISABLED =>
      if s.remainingAttempts > 1
      then s.(hintState := VOWELS_SHOWN, remainingAttempts := s.remainingAttempts - 1)
      else s
    case VOWELS_SHOWN => s
  }

  /** `useHint()`: does not look at `gameState`; always re-evaluates the outcome. */
  function Hint(s: Snapshot): Snapshot {
    Evaluate(AdvanceHint(s))
  }

  /**
    The invariant of every round that `newGame` starts and `guessLetter` and
    `useHint` continue: the catalog entry is fixed, the budget lies in 0..6 and
    has paid for the hint tiers reached, WON means every letter is guessed,
    and LOST means the budget is spent.
   */
  predicate Inv(s: Snapshot) {
    && 0 <= s.index as int < |Words|
    && s.word == Words[s.index]
    && s.hint == Hints[s.index]
    && 0 <= s.remainingAttempts as int
    && s.remainingAttempts as int + Charge(s.hintState) <= InitialAttempts as int
    && (s.gameState == WON <==> AllGuessed(s.word, s.guessedLetters))
    && (s.gameState == LOST <==> s.remainingAttempts == 0)
  }

  class HangmanState {
    var word: string
    var hint: string
    var guessedLetters: set<char>
    var remainingAttempts: int32
    var gameState: GameState
    var hintState: HintState
    var index: int32

    function Snap(): Snapshot
      reads this
    {
      Snapshot(index, word, hint, guessedLetters, remainingAttempts, gameState, hintState)
    }

    /**
      The primary constructor with its default arguments and the `init` block:
      an index of -1 starts a new round, with `pick` as the random choice;
      any other index keeps the fields as given.
     */
    constructor (pick: int,
                 index: int32 := -1,
                 initialWord: string := "",
                 initialHint: string := "",
                 initialGuessedLetters: set<char> := {},
                 initialRemainingAttempts: int32 := 6,
                 initialGameState: GameState := PLAYING,
                 initialHintState: HintState := INITIAL)
      requires index == -1 ==> 0 <= pick < |Words|
      ensures index == -1 ==> Snap() == NewRound(pick) && Inv(Snap())
      ensures index != -1 ==>
        Snap() == Snapshot(index, initialWord, initialHint, initialGuessedLetters,
                           initialRemainingAttempts, initialGameState, initialHintState)
    {
      this.word := initialWord;
      this.hint := initialHint;
      this.guessedLetters := initialGuessedLetters;
      this.remainingAttempts := initialRemainingAttempts;
      this.gameState := initialGameState;
      this.hintState := initialHintState;
      this.index := index;
      new;
      if index == -1 {
        NewGame(pick);
      }
    }

    /** `newGame()`, with `pick` standing for `words.indices.random()`. */
    method NewGame(pick: int)
      requires 0 <= pick < |Words|
      modifies this
      ensures index as int == pick && word == Words[pick] && hint == Hints[pick]
      ensures guessedLetters == {} && remainingAttempts == InitialAttempts
      ensures gameState == PLAYING && hintState == INITIAL
      ensures Snap() == NewRound(pick) && Inv(Snap())
    {
      index := pick as int32;
      word := Words[index];
      hint := Hints[index];
      guessedLetters := {};
      remainingAttempts := 6;
      gameState := PLAYING;
      hintState := INITIAL;
      assert Words[pick][0] in word;
    }

    method GuessLetter(letter: char)
      modifies this
      ensures old(gameState) != PLAYING ==> Snap() == old(Snap())
      ensures old(gameState) == PLAYING ==>
        && guessedLetters == old(guessedLetters) + {letter}
        && remainingAttempts == (if letter in word then old(remainingAttempts)
                                 else Dec(old(remainingAttempts)))
        && word == old(word) && hint == old(hint)
        && index == old(index) && hintState == old(hintState)
      ensures Snap() == Guess(old(Snap()), letter)
      ensures Inv(old(Snap())) ==> Inv(Snap())
    {
      if gameState != PLAYING {
        return;
      }
      guessedLetters := guessedLetters + {letter};
      if letter !in word {
        remainingAttempts := Dec(remainingAttempts);
      }
      UpdateGameState();
      assert letter !in word ==>
        (AllGuessed(word, guessedLetters) <==> AllGuessed(word, old(guessedLetters)));
    }

    method UseHint()
      modifies this
      ensures Rank(hintState) >= Rank(old(hintState))
      ensures remainingAttempts < old(remainingAttempts) ==>
        remainingAttempts == old(remainingAttempts) - 1 && remainingAttempts >= 1
      ensures word == old(word) && hint == old(hint) && index == old(index)
      ensures guessedLetters == old(guessedLetters)
      ensures Snap() == Hint(old(Snap()))
      ensures Inv(old(Snap())) ==> Inv(Snap())
    {
      match hintState {
        case INITIAL =>
          hintState := HINT_SHOWN;
        case HINT_SHOWN =>
          if remainingAttempts > 1 {
            hintState := HALF_LETTERS_DISABLED;
            remainingAttempts := remainingAttempts - 1;
          }
        case HALF_LETTERS_DISABLED =>
          if remainingAttempts > 1 {
            hintState := VOWELS_SHOWN;
            remainingAttempts := remainingAttempts - 1;
          }
        case VOWELS_SHOWN =>
      }
      UpdateGameState();
    }

    /** `updateGameState()`: only `gameState` may change. */
    method UpdateGameState()
      modifies this
      ensures AllGuessed(word, guessedLetters) ==> gameState == WON
      ensures !AllGuessed(word, guessedLetters) && remainingAttempts == 0 ==> gameState == LOST
      ensures !AllGuessed(word, guessedLetters) && remainingAttempts != 0 ==>
        gameState == old(gameState)
      ensures Snap() == Evaluate(old(Snap()))
    {
      if forall c :: c in word ==> c in guessedLetters {
        gameState := WON;
      } else if remainingAttempts == 0 {
        gameState := LOST;
      }
    }
  }
}
