# Hangman game engine, modelled in Dafny

This project models the logic of an Android hangman game. The game keeps one
round in a `HangmanState` object with seven fields: the catalog `index`, the
`word` and its `hint`, the set of `guessedLetters`, the `remainingAttempts`
budget (6 at the start), the `gameState` (PLAYING, WON, LOST) and the
`hintState` tier (INITIAL, HINT_SHOWN, HALF_LETTERS_DISABLED, VOWELS_SHOWN).
The round is driven by `newGame`, `guessLetter` and `useHint`, and
`updateGameState` decides the outcome afterwards. Around the engine sit
pure helpers: the saver that writes the state into an Android `Bundle` and
reads it back, the masked word shown on screen, the enabled state of the
letter and hint buttons, and the hint message.

Files and modules:

- `hangman_engine.dfy`, module `HangmanEngine`. It holds the enums and the
  five-entry catalog. `Snapshot` is the seven fields as one value.
  `NewRound`, `Guess`, `Hint` and `Evaluate` are the transitions on that
  value, and `Inv` is the invariant of every round in play. The class
  `HangmanState` has the seven fields and `modifies this` methods. Each
  method's `ensures` ties the new fields to the transition of the old ones
  and also states its effect field by field.
- `hangman_properties.dfy`, module `HangmanProperties`, holds what the
  transitions promise. Some lemmas are about one call. Others are about
  every state reachable from `newGame` through a sequence of intents (`Run`),
  or about whole rounds (six wrong guesses, three hints, guessing the whole
  word).
- `state_saver.dfy`, module `StateSaver`, holds the save/restore pair. A
  bundle is a map from key strings to typed values. Its getters return 0 or
  `null` for a missing or mistyped key. The round trip is proved, and so are
  the `null` and default cases.
- `game_screen.dfy`, module `GameScreen`, holds the values the screen
  derives from a snapshot: the masked word, the outcome line, the two
  enable predicates and the hint message.

Kotlin's `Int` is the newtype `int32`, and `remainingAttempts--` wraps at the
smallest value (`Dec`). That case can only arise from restored input.
The random choice in `newGame` is the parameter `pick`. The constructor needs
`pick` only when its `index` argument is -1, because only then does its
`init` block call `newGame`.

Where the code does not do what one might expect of hangman, the model
follows the code:

- `useHint` does not check `gameState`. Only the hint button does. So a hint
  tier can still move on, and cost an attempt, after the round has ended.
- Reaching VOWELS_SHOWN does not add any vowel to `guessedLetters`.
  HALF_LETTERS_DISABLED does not disable any letter. Both only change the
  enum and the message.
- `guessLetter` has no repeat guard, so guessing a wrong letter again costs
  another attempt. Only the disabled letter buttons prevent this
  (`ClickedLettersAreNew`).
- Letters are compared case-sensitively. The engine does not convert input
  to upper case.
- The hint button is disabled once one attempt is left, even at INITIAL.
  The engine itself would still give that first hint for free
  (`HintButtonWithholdsFreeHint`).

## Model

| member | source | states |
|---|---|---|
| HangmanEngine.Dec | app/src/main/java/com/example/sarahmalikaleksandarsekulovskiefimsokolov_hangmanapp/MainActivity.kt:86 | `remainingAttempts--` is a two's-complement decrement: the result is x - 1 taken modulo 2^32 into the 32-bit range -2^31..2^31-1 |
| HangmanEngine.Words | app/src/main/java/com/example/sarahmalikaleksandarsekulovskiefimsokolov_hangmanapp/MainActivity.kt:48 | the five catalog words, entry by entry; no contract of its own, used by `NewRound` and `Inv` |
| HangmanEngine.Hints | app/src/main/java/com/example/sarahmalikaleksandarsekulovskiefimsokolov_hangmanapp/MainActivity.kt:49-55 | the five catalog hints, entry by entry and in the order of the words; no contract of its own, used by `NewRound` and `Inv` |
| HangmanEngine.AllGuessed | app/src/main/java/com/example/sarahmalikaleksandarsekulovskiefimsokolov_hangmanapp/MainActivity.kt:113 | `word.all { it in guessedLetters }`: every letter of the word is in the set; no contract of its own, used by `Evaluate` and `Inv` |
| HangmanEngine.NewRound | app/src/main/java/com/example/sarahmalikaleksandarsekulovskiefimsokolov_hangmanapp/MainActivity.kt:71-79 | the seven fields `newGame` assigns for the random choice `pick`; no contract of its own, contract in `NewRoundIsFresh` and `HangmanState.NewGame` |
| HangmanEngine.Evaluate | app/src/main/java/com/example/sarahmalikaleksandarsekulovskiefimsokolov_hangmanapp/MainActivity.kt:112-118 | the branches of `updateGameState` on a value; no contract of its own, contract in `EvaluateOutcome` and `HangmanState.UpdateGameState` |
| HangmanEngine.Guess | app/src/main/java/com/example/sarahmalikaleksandarsekulovskiefimsokolov_hangmanapp/MainActivity.kt:81-90 | `guessLetter` on a value; no contract of its own, contract in `GuessFrozen`, `GuessWhilePlaying`, `GuessKeepsInv` and `HangmanState.GuessLetter` |
| HangmanEngine.AdvanceHint | app/src/main/java/com/example/sarahmalikaleksandarsekulovskiefimsokolov_hangmanapp/MainActivity.kt:93-107 | the `when (hintState)` table of `useHint`; no contract of its own, contract in `HintTransitions` |
| HangmanEngine.Hint | app/src/main/java/com/example/sarahmalikaleksandarsekulovskiefimsokolov_hangmanapp/MainActivity.kt:92-110 | `useHint` on a value: the table, then the outcome re-evaluated; no contract of its own, contract in `HintTransitions`, `HintMonotone`, `HintKeepsInv` and `HangmanState.UseHint` |
| HangmanEngine.HangmanState.constructor | app/src/main/java/com/example/sarahmalikaleksandarsekulovskiefimsokolov_hangmanapp/MainActivity.kt:39-69 | index -1 (the default) starts a new round that satisfies the invariant; any other index keeps exactly the seven given fields |
| HangmanEngine.HangmanState.NewGame | app/src/main/java/com/example/sarahmalikaleksandarsekulovskiefimsokolov_hangmanapp/MainActivity.kt:71-79 | a fresh round: catalog entry `pick` for word and hint, no letters, 6 attempts, PLAYING, INITIAL, invariant established |
| HangmanEngine.HangmanState.GuessLetter | app/src/main/java/com/example/sarahmalikaleksandarsekulovskiefimsokolov_hangmanapp/MainActivity.kt:81-90 | no field changes once the round is over; while playing, the letter is added and one attempt is charged exactly when the word lacks it; word, hint, index and tier stay the same; the invariant is kept |
| HangmanEngine.HangmanState.UseHint | app/src/main/java/com/example/sarahmalikaleksandarsekulovskiefimsokolov_hangmanapp/MainActivity.kt:92-110 | the tier never goes back; attempts drop only by one and never below 1; letters, word, hint and index stay the same; the invariant is kept |
| HangmanEngine.HangmanState.UpdateGameState | app/src/main/java/com/example/sarahmalikaleksandarsekulovskiefimsokolov_hangmanapp/MainActivity.kt:112-118 | WON when every letter is guessed; otherwise LOST at 0 attempts; otherwise `gameState` stays; nothing else changes |
| HangmanProperties.NewRoundIsFresh | app/src/main/java/com/example/sarahmalikaleksandarsekulovskiefimsokolov_hangmanapp/MainActivity.kt:71-79 | a new round has no letters, 6 attempts, PLAYING, INITIAL, index in 0..4 with the word and hint of that entry, and satisfies the invariant |
| HangmanProperties.EvaluateOutcome | app/src/main/java/com/example/sarahmalikaleksandarsekulovskiefimsokolov_hangmanapp/MainActivity.kt:112-118 | WON is tested before LOST; otherwise the state is unchanged; a finished round never returns to PLAYING; only `gameState` changes |
| HangmanProperties.GuessFrozen | app/src/main/java/com/example/sarahmalikaleksandarsekulovskiefimsokolov_hangmanapp/MainActivity.kt:81-82 | a guess after the round has ended changes nothing |
| HangmanProperties.GuessWhilePlaying | app/src/main/java/com/example/sarahmalikaleksandarsekulovskiefimsokolov_hangmanapp/MainActivity.kt:84-87 | letters become old + {letter}; attempts take one `Dec` step (exactly one less except at `IntMin`, which wraps to `IntMax`) if and only if the letter is not in the word; word, hint, index and tier are unchanged |
| HangmanProperties.RepeatedWrongGuessChargesAgain | app/src/main/java/com/example/sarahmalikaleksandarsekulovskiefimsokolov_hangmanapp/MainActivity.kt:84-87 | with no repeat guard, a wrong letter already guessed costs one more attempt, leaves the set unchanged, and loses the round when it was the last attempt |
| HangmanProperties.GuessKeepsInv | app/src/main/java/com/example/sarahmalikaleksandarsekulovskiefimsokolov_hangmanapp/MainActivity.kt:81-90 | a guess keeps the invariant (catalog entry fixed, 0..6 attempts, WON iff all letters guessed, LOST iff 0 attempts) |
| HangmanProperties.HintTransitions | app/src/main/java/com/example/sarahmalikaleksandarsekulovskiefimsokolov_hangmanapp/MainActivity.kt:92-109 | the tier table: INITIAL moves on for free; the two later tiers move on only with more than 1 attempt and cost exactly 1; a failed guard or VOWELS_SHOWN changes neither tier nor attempts |
| HangmanProperties.HintMonotone | app/src/main/java/com/example/sarahmalikaleksandarsekulovskiefimsokolov_hangmanapp/MainActivity.kt:92-108 | the tier only moves forward; when a hint costs, it moves up exactly one tier and leaves at least 1 attempt |
| HangmanProperties.HintKeepsInv | app/src/main/java/com/example/sarahmalikaleksandarsekulovskiefimsokolov_hangmanapp/MainActivity.kt:92-110 | a hint keeps the invariant, including attempts plus the cost of the tiers reached staying at most 6 |
| HangmanProperties.HintNeverEndsRound | app/src/main/java/com/example/sarahmalikaleksandarsekulovskiefimsokolov_hangmanapp/MainActivity.kt:109-118 | under the invariant, the re-evaluation after a hint leaves the outcome as it was |
| HangmanProperties.StepKeepsInv | app/src/main/java/com/example/sarahmalikaleksandarsekulovskiefimsokolov_hangmanapp/MainActivity.kt:71-110 | each intent (new game, guess, hint) keeps the invariant |
| HangmanProperties.RunKeepsInv | app/src/main/java/com/example/sarahmalikaleksandarsekulovskiefimsokolov_hangmanapp/MainActivity.kt:71-110 | any sequence of intents keeps the invariant |
| HangmanProperties.ReachableBounds | app/src/main/java/com/example/sarahmalikaleksandarsekulovskiefimsokolov_hangmanapp/MainActivity.kt:76-118 | every state reachable from `newGame` has 0..6 attempts, at least 1 attempt while PLAYING, WON iff all letters guessed, and LOST iff 0 attempts |
| HangmanProperties.WrongGuessesCharge | app/src/main/java/com/example/sarahmalikaleksandarsekulovskiefimsokolov_hangmanapp/MainActivity.kt:84-89 | k wrong guesses with at least k attempts left cost exactly k and record every letter; the round is LOST exactly when they use up the budget |
| HangmanProperties.WrongGuessesLose | app/src/main/java/com/example/sarahmalikaleksandarsekulovskiefimsokolov_hangmanapp/MainActivity.kt:84-89 | as many wrong guesses as attempts remain give LOST with 0 attempts |
| HangmanProperties.SixWrongGuessesLose | app/src/main/java/com/example/sarahmalikaleksandarsekulovskiefimsokolov_hangmanapp/MainActivity.kt:76-89 | six wrong guesses from a new round give LOST with 0 attempts, even if the letters repeat |
| HangmanProperties.CorrectGuessesWin | app/src/main/java/com/example/sarahmalikaleksandarsekulovskiefimsokolov_hangmanapp/MainActivity.kt:84-89 | letters all from the word and covering its unguessed letters give WON, with attempts and word unchanged |
| HangmanProperties.ThreeHintsFromNewGame | app/src/main/java/com/example/sarahmalikaleksandarsekulovskiefimsokolov_hangmanapp/MainActivity.kt:92-109 | three hints from a new round pass HINT_SHOWN (6 attempts), HALF_LETTERS_DISABLED (5) and VOWELS_SHOWN (4), and the round is still PLAYING |
| HangmanProperties.HintAtLastAttempt | app/src/main/java/com/example/sarahmalikaleksandarsekulovskiefimsokolov_hangmanapp/MainActivity.kt:95-106 | with 1 attempt left and past INITIAL, a hint changes nothing |
| HangmanProperties.HintsAloneNeverLose | app/src/main/java/com/example/sarahmalikaleksandarsekulovskiefimsokolov_hangmanapp/MainActivity.kt:92-118 | any number of hints while playing leaves the round PLAYING with at least 1 attempt and the same letters |
| StateSaver.GetInt | app/src/main/java/com/example/sarahmalikaleksandarsekulovskiefimsokolov_hangmanapp/MainActivity.kt:139-143 | `getInt`: the stored `Int`, or 0 for a missing key or one of another type; no contract of its own, contract in `SavedEntries` and `RestoreDefaults` |
| StateSaver.GetString | app/src/main/java/com/example/sarahmalikaleksandarsekulovskiefimsokolov_hangmanapp/MainActivity.kt:140-145 | `getString`: the stored `String`, or null; no contract of its own, contract in `SavedEntries` and `RestoreNullIffWordOrHintMissing` |
| StateSaver.GetCharArray | app/src/main/java/com/example/sarahmalikaleksandarsekulovskiefimsokolov_hangmanapp/MainActivity.kt:142 | `getCharArray`: the stored `CharArray`, or null; no contract of its own, contract in `SavedEntries` and `RestoreDefaults` |
| StateSaver.GameStateName | app/src/main/java/com/example/sarahmalikaleksandarsekulovskiefimsokolov_hangmanapp/MainActivity.kt:133 | `gameState.name`; no contract of its own, inverted by `GameStateOf`, whose contract states the round trip |
| StateSaver.HintStateName | app/src/main/java/com/example/sarahmalikaleksandarsekulovskiefimsokolov_hangmanapp/MainActivity.kt:134 | `hintState.name`; no contract of its own, inverted by `HintStateOf`, whose contract states the round trip |
| StateSaver.ArrayToLetters | app/src/main/java/com/example/sarahmalikaleksandarsekulovskiefimsokolov_hangmanapp/MainActivity.kt:142 | `toSet()`: the set of the array's characters; no contract of its own, contract in `LettersRoundTrip` and `RestoreReadsBack` |
| StateSaver.Save | app/src/main/java/com/example/sarahmalikaleksandarsekulovskiefimsokolov_hangmanapp/MainActivity.kt:126-136 | the `save` lambda: a bundle with the seven keys; no contract of its own, contract in `SavedEntries` and `RestoreSave` |
| StateSaver.RestoreArgs | app/src/main/java/com/example/sarahmalikaleksandarsekulovskiefimsokolov_hangmanapp/MainActivity.kt:138-145 | the `restore` lambda up to the constructor call; no contract of its own, contract in `RestoreSave`, `RestoreNullIffWordOrHintMissing`, `RestoreDefaults`, `RestoreBadName` and `Restore` |
| StateSaver.GameStateOf | app/src/main/java/com/example/sarahmalikaleksandarsekulovskiefimsokolov_hangmanapp/MainActivity.kt:144 | `valueOf` returns the constant whose `name` is the string, and fails on any other string |
| StateSaver.HintStateOf | app/src/main/java/com/example/sarahmalikaleksandarsekulovskiefimsokolov_hangmanapp/MainActivity.kt:145 | `valueOf` returns the constant whose `name` is the string, and fails on any other string |
| StateSaver.LettersToArray | app/src/main/java/com/example/sarahmalikaleksandarsekulovskiefimsokolov_hangmanapp/MainActivity.kt:131 | the array holds each letter of the set exactly once and nothing else |
| StateSaver.SavedEntries | app/src/main/java/com/example/sarahmalikaleksandarsekulovskiefimsokolov_hangmanapp/MainActivity.kt:126-135 | each getter reads back from a saved bundle the value stored under its key |
| StateSaver.LettersRoundTrip | app/src/main/java/com/example/sarahmalikaleksandarsekulovskiefimsokolov_hangmanapp/MainActivity.kt:131-142 | writing the guessed letters as a `CharArray` and reading it back with `toSet()` gives the same set |
| StateSaver.RestoreReadsBack | app/src/main/java/com/example/sarahmalikaleksandarsekulovskiefimsokolov_hangmanapp/MainActivity.kt:139-145 | any bundle whose getters give the seven fields of a snapshot, with its enums stored by name, restores to exactly that snapshot |
| StateSaver.RestoreSave | app/src/main/java/com/example/sarahmalikaleksandarsekulovskiefimsokolov_hangmanapp/MainActivity.kt:125-156 | restoring a saved state gives back all seven fields exactly |
| StateSaver.Restore | app/src/main/java/com/example/sarahmalikaleksandarsekulovskiefimsokolov_hangmanapp/MainActivity.kt:138-156 | returns null, throws on a bad enum name, or builds a fresh state holding the read fields (a new round when the stored index is -1) |
| StateSaver.SaveThenRestore | app/src/main/java/com/example/sarahmalikaleksandarsekulovskiefimsokolov_hangmanapp/MainActivity.kt:125-156 | any state whose index is not -1 is reproduced field for field by save then restore |
| StateSaver.RestoreNullIffWordOrHintMissing | app/src/main/java/com/example/sarahmalikaleksandarsekulovskiefimsokolov_hangmanapp/MainActivity.kt:140-141 | restore yields null exactly when the word or the hint is missing or not a string |
| StateSaver.RestoreDefaults | app/src/main/java/com/example/sarahmalikaleksandarsekulovskiefimsokolov_hangmanapp/MainActivity.kt:139-145 | in any bundle that restores, each missing key takes its own default: the empty set of letters, PLAYING, INITIAL, or 0 for each integer; word and hint are the stored strings |
| StateSaver.RestoreBadName | app/src/main/java/com/example/sarahmalikaleksandarsekulovskiefimsokolov_hangmanapp/MainActivity.kt:144 | a stored game-state name that is no constant's makes restore throw, naming that string |
| StateSaver.RestoreBadHintName | app/src/main/java/com/example/sarahmalikaleksandarsekulovskiefimsokolov_hangmanapp/MainActivity.kt:145 | with word and hint present and the game state missing or a valid name, a stored hint-state string that names no constant makes restore fail with that string, as `HintState.valueOf` throws |
| GameScreen.Slot | app/src/main/java/com/example/sarahmalikaleksandarsekulovskiefimsokolov_hangmanapp/MainActivity.kt:229 | the `map` lambda of line 229: the letter once guessed, else `_`; no contract of its own, contract in `MaskedWordLayout` |
| GameScreen.MaskedWord | app/src/main/java/com/example/sarahmalikaleksandarsekulovskiefimsokolov_hangmanapp/MainActivity.kt:229 | the expression at line 229; no contract of its own, contract in `MaskedWordLayout`, `MaskedWordHidesIffUnguessed` and `WonIffFullyRevealed` |
| GameScreen.OutcomeMessage | app/src/main/java/com/example/sarahmalikaleksandarsekulovskiefimsokolov_hangmanapp/MainActivity.kt:236-240 | the line the `when (gameState)` shows; no contract of its own, contract in `OutcomeMessageShown` |
| GameScreen.LetterEnabled | app/src/main/java/com/example/sarahmalikaleksandarsekulovskiefimsokolov_hangmanapp/MainActivity.kt:259 | the `enabled` condition of a letter button; no contract of its own, contract in `EnabledLetterGuess`, `ClickedLettersAreNew` and `DistinctWrongLettersClickable` |
| GameScreen.HintEnabled | app/src/main/java/com/example/sarahmalikaleksandarsekulovskiefimsokolov_hangmanapp/MainActivity.kt:295 | the `enabled` condition of the hint button; no contract of its own, contract in `EnabledHintAdvances` and `HintEnabledIffEffective` |
| GameScreen.HintMessage | app/src/main/java/com/example/sarahmalikaleksandarsekulovskiefimsokolov_hangmanapp/MainActivity.kt:304-309 | the message `HintDisplay` chooses; no contract of its own, contract in `HintMessageByTier` |
| GameScreen.JoinToString | app/src/main/java/com/example/sarahmalikaleksandarsekulovskiefimsokolov_hangmanapp/MainActivity.kt:229 | n elements joined by a separator give 2n-1 characters (none for n = 0) |
| GameScreen.JoinLayout | app/src/main/java/com/example/sarahmalikaleksandarsekulovskiefimsokolov_hangmanapp/MainActivity.kt:229 | even positions hold the elements in order and odd positions hold the separator |
| GameScreen.MaskedWordLayout | app/src/main/java/com/example/sarahmalikaleksandarsekulovskiefimsokolov_hangmanapp/MainActivity.kt:229 | one slot per letter, so length 2\*\|word\|-1 for a non-empty word; slot i is `word[i]` if guessed, else `_`; slots are separated by single spaces |
| GameScreen.MaskedWordHidesIffUnguessed | app/src/main/java/com/example/sarahmalikaleksandarsekulovskiefimsokolov_hangmanapp/MainActivity.kt:229 | for a word without `_`, an underscore shows if and only if some letter is unguessed |
| GameScreen.WonIffFullyRevealed | app/src/main/java/com/example/sarahmalikaleksandarsekulovskiefimsokolov_hangmanapp/MainActivity.kt:229 | in any round in play, WON holds exactly when the masked word has no underscore |
| GameScreen.NewRoundHidesEverySlot | app/src/main/java/com/example/sarahmalikaleksandarsekulovskiefimsokolov_hangmanapp/MainActivity.kt:71-79 | a new round shows every slot as `_` |
| GameScreen.GuessRevealsSlots | app/src/main/java/com/example/sarahmalikaleksandarsekulovskiefimsokolov_hangmanapp/MainActivity.kt:84-89 | a guess while playing reveals exactly the slots that hold the guessed letter, and every other slot stays as it was |
| GameScreen.MaskedWordWhenAllGuessed | app/src/main/java/com/example/sarahmalikaleksandarsekulovskiefimsokolov_hangmanapp/MainActivity.kt:229 | once every letter is guessed, the masked word is the word spelled out with spaces |
| GameScreen.GuessingTheWordWins | app/src/main/java/com/example/sarahmalikaleksandarsekulovskiefimsokolov_hangmanapp/MainActivity.kt:84-89 | guessing the word's letters in order (M, O, B, I, L, E for MOBILE) wins a round not yet lost, costs no attempt and shows the whole word |
| GameScreen.OutcomeMessageShown | app/src/main/java/com/example/sarahmalikaleksandarsekulovskiefimsokolov_hangmanapp/MainActivity.kt:236-240 | the outcome line is empty exactly while PLAYING, and on a loss it ends with the word |
| GameScreen.EnabledLetterGuess | app/src/main/java/com/example/sarahmalikaleksandarsekulovskiefimsokolov_hangmanapp/MainActivity.kt:255-259 | clicking an enabled letter adds exactly one new letter and disables that button |
| GameScreen.ClickedLettersAreNew | app/src/main/java/com/example/sarahmalikaleksandarsekulovskiefimsokolov_hangmanapp/MainActivity.kt:255-259 | letters clicked on enabled buttons are pairwise distinct and were not guessed before, so no letter is charged twice |
| GameScreen.DistinctWrongLettersClickable | app/src/main/java/com/example/sarahmalikaleksandarsekulovskiefimsokolov_hangmanapp/MainActivity.kt:255-259 | conversely, pairwise distinct letters that are not in the word and not yet guessed can all be clicked in turn while the budget lasts |
| GameScreen.EnabledHintAdvances | app/src/main/java/com/example/sarahmalikaleksandarsekulovskiefimsokolov_hangmanapp/MainActivity.kt:293-295 | a click on the enabled hint button moves up exactly one tier and keeps the round PLAYING |
| GameScreen.HintEnabledIffEffective | app/src/main/java/com/example/sarahmalikaleksandarsekulovskiefimsokolov_hangmanapp/MainActivity.kt:295 | while playing with more than 1 attempt, the hint button is enabled if and only if a hint would change the state |
| GameScreen.FiveWrongClicksAtMobile | app/src/main/java/com/example/sarahmalikaleksandarsekulovskiefimsokolov_hangmanapp/MainActivity.kt:255-259 | the five distinct wrong letters Z, Q, X, W, V can each be clicked in turn at the start of a MOBILE round, so the screen can reach the state of `HintButtonWithholdsFreeHint` |
| GameScreen.HintButtonWithholdsFreeHint | app/src/main/java/com/example/sarahmalikaleksandarsekulovskiefimsokolov_hangmanapp/MainActivity.kt:295 | after five distinct wrong letters clicked at MOBILE the button is disabled, although `useHint` would still reach HINT_SHOWN for free |
| GameScreen.HintMessageByTier | app/src/main/java/com/example/sarahmalikaleksandarsekulovskiefimsokolov_hangmanapp/MainActivity.kt:304-309 | for a catalog entry the message is empty exactly at INITIAL, is the hint text exactly at HINT_SHOWN, and differs between tiers |

## Left out

- The activity, the Compose layouts (landscape and portrait), orientation detection, theme, colours, sizes and the preview are left out. They are presentation only.
- The grid of letter buttons (`'A'..'Z'` in rows of five) and the `onClick` wiring are left out. The wiring is modelled as the intents of `Run`. `LetterEnabled` is defined for any character.
- The "Remaining attempts: N" line is left out, because it only formats an integer as text.
- `mutableStateOf` and `rememberSaveable` are treated as plain fields and a plain call. Their observation and recomposition are not modelled.
- `words.indices.random()` is the caller-supplied `pick`. Nothing is claimed about uniformity.
- Android's `Bundle` is a map from keys to typed values. Its getters' defaults (0 for `getInt`, `null` for `getString` and `getCharArray`) are modelled. Its parcelling and internals are not.
- `valueOf` throwing on an unknown name is modelled as a `BadEnumName` result, not as an exception.
- StateSaver.LettersToArray: writes the letters in ascending order. Kotlin's `toCharArray()` on a set keeps insertion order. Restore turns the array back into a set, so the order does not affect the round trip.
- Kotlin's `Char` is a UTF-16 code unit, while a Dafny `char` is a Unicode scalar value. A restored word with characters outside the Basic Multilingual Plane would render and compare differently in the two. The catalog words and the letter buttons `'A'..'Z'` are not affected.
- Nothing is modelled for which letters HALF_LETTERS_DISABLED affects, or for revealing vowels. The code implements neither: it only shows a message.
