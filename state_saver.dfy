/**
  `hangmanStateSaver`: the pair of lambdas that writes a `HangmanState` into
  an Android `Bundle` and reads one back. A bundle is a map from keys to
  typed values; its getters return a default when a key is missing or holds
  a value of another type.
 */
module StateSaver {
  import opened HangmanEngine

  datatype Option<+T> = None | Some(value: T)

  datatype BundleValue = IntValue(i: int32) | StringValue(s: string) | CharArrayValue(cs: seq<char>)

  type Bundle = map<string, BundleValue>

  /** `Bundle.getInt`: 0 for a missing key or one that holds no `Int`. */
  function GetInt(b: Bundle, key: string): int32
  {
    if key in b && b[key].IntValue? then b[key].i else 0
  }

  /** `Bundle.getString`: null for a missing key or one that holds no `String`. */
  function GetString(b: Bundle, key: string): Option<string>
  {
    if key in b && b[key].StringValue? then Some(b[key].s) else None
  }

  /** `Bundle.getCharArray`: null for a missing key or one that holds no `CharArray`. */
  function GetCharArray(b: Bundle, key: string): Option<seq<char>>
  {
    if key in b && b[key].CharArrayValue? then Some(b[key].cs) else None
  }

  /** The `name` of a `GameState`. */
  function GameStateName(g: GameState): string {
    match g
    case PLAYING => "PLAYING"
    case WON => "WON"
    case LOST => "LOST"
  }

  /** The `name` of a `HintState`. */
  function HintStateName(h: HintState): string {
    match h
    case INITIAL => "INITIAL"
    case HINT_SHOWN => "HINT_SHOWN"
    case HALF_LETTERS_DISABLED => "HALF_LETTERS_DISABLED"
    case VOWELS_SHOWN => "VOWELS_SHOWN"
  }

  /** `GameState.valueOf`: None where Kotlin throws for a name that is no constant's. */
  function GameStateOf(name: string): (r: Option<GameState>)
    ensures r.Some? ==> GameStateName(r.value) == name
    ensures forall g :: GameStateName(g) == name ==> r == Some(g)
  {
    if name == "PLAYING" then Some(PLAYING)
    else if name == "WON" then Some(WON)
    else if name == "LOST" then Some(LOST)
    else None
  }

  /** `HintState.valueOf`: None where Kotlin throws for a name that is no constant's. */
  function HintStateOf(name: string): (r: Option<HintState>)
    ensures r.Some? ==> HintStateName(r.value) == name
    ensures forall h :: HintStateName(h) == name ==> r == Some(h)
  {
    if name == "INITIAL" then Some(INITIAL)
    else if name == "HINT_SHOWN" then Some(HINT_SHOWN)
    else if name == "HALF_LETTERS_DISABLED" then Some(HALF_LETTERS_DISABLED)
    else if name == "VOWELS_SHOWN" then Some(VOWELS_SHOWN)
    else None
  }

  lemma {:induction false} LeastExists(s: set<char>)
    requires s != {}
    ensures exists m :: m in s && forall c :: c in s ==> m <= c
    decreases |s|
  {
    var c :| c in s;
    if s != {c} {
      LeastExists(s - {c});
      var m' :| m' in s - {c} && forall d :: d in s - {c} ==> m' <= d;
      var least := if c < m' then c else m';
      forall d | d in s
        ensures least <= d
      {
        if d != c {
          assert d in s - {c};
        }
      }
    }
  }

  /** The smallest character of a non-empty set. */
  function Least(s: set<char>): (m: char)
    requires s != {}
    ensures m in s && forall c :: c in s ==> m <= c
  {
    LeastExists(s);
    var m :| m in s && forall c :: c in s ==> m <= c;
    m
  }

  /**
    `Set<Char>.toCharArray()`: every letter once. The model lists them in
    ascending order; Kotlin lists them in the order they were added.
   */
  function LettersToArray(s: set<char>): (r: seq<char>)
    ensures |r| == |s|
    ensures forall c :: c in r <==> c in s
    ensures forall i, j :: 0 <= i < j < |r| ==> r[i] < r[j]
    decreases |s|
  {
    if s == {} then []
    else
      var m := Least(s);
      [m] + LettersToArray(s - {m})
  }

  /** `CharArray.toSet()` */
  function ArrayToLetters(cs: seq<char>): (r: set<char>)
    ensures forall c :: c in r <==> c in cs
  {
    set c | c in cs
  }

  /** The `save` lambda. */
  function Save(s: Snapshot): Bundle {
    map[
      "index" := IntValue(s.index),
      "word" := StringValue(s.word),
      "hint" := StringValue(s.hint),
      "guessedLetters" := CharArrayValue(LettersToArray(s.guessedLetters)),
      "remainingAttempts" := IntValue(s.remainingAttempts),
      "gameState" := StringValue(GameStateName(s.gameState)),
      "hintState" := StringValue(HintStateName(s.hintState))
    ]
  }

  /**
    What the `restore` lambda ends in: `null`, an exception from `valueOf`
    naming the string it could not read, or the arguments it passes to the
    `HangmanState` constructor.
   */
  datatype RestoreResult = NoState | BadEnumName(name: string) | Restored(args: Snapshot)

  /** The `restore` lambda up to the constructor call, reading keys in the order it does. */
  function RestoreArgs(b: Bundle): RestoreResult {
    var index := GetInt(b, "index");
    match GetString(b, "word")
    case None => NoState
    case Some(word) =>
      match GetString(b, "hint")
      case None => NoState
      case Some(hint) =>
        var guessed := match GetCharArray(b, "guessedLetters")
                       case Some(cs) => ArrayToLetters(cs)
                       case None => {};
        var remaining := GetInt(b, "remainingAttempts");
        var gameName := GetString(b, "gameState");
        var hintName := GetString(b, "hintState");
        if gameName.Some? && GameStateOf(gameName.value).None? then BadEnumName(gameName.value)
        else if hintName.Some? && HintStateOf(hintName.value).None? then BadEnumName(hintName.value)
        else
          var gameState := if gameName.Some? then GameStateOf(gameName.value).value else PLAYING;
          var hintState := if hintName.Some? then HintStateOf(hintName.value).value else INITIAL;
          Restored(Snapshot(index, word, hint, guessed, remaining, gameState, hintState))
  }

  /** The outcome of `restore` once the constructor has run. */
  datatype Restoration = Null | Threw(name: string) | State(state: HangmanState)

  /**
    The `restore` lambda. The constructor's `init` block starts a new round
    when the stored index is -1; `pick` stands for its random choice.
   */
  method Restore(b: Bundle, pick: int) returns (r: Restoration)
    requires RestoreArgs(b).Restored? && RestoreArgs(b).args.index == -1 ==> 0 <= pick < |Words|
    ensures RestoreArgs(b).NoState? <==> r.Null?
    ensures RestoreArgs(b).BadEnumName? ==> r == Threw(RestoreArgs(b).name)
    ensures RestoreArgs(b).Restored? ==> r.State? && fresh(r.state)
    ensures RestoreArgs(b).Restored? && RestoreArgs(b).args.index != -1 ==>
      r.state.Snap() == RestoreArgs(b).args
    ensures RestoreArgs(b).Restored? && RestoreArgs(b).args.index == -1 ==>
      r.state.Snap() == NewRound(pick)
  {
    match RestoreArgs(b)
    case NoState =>
      r := Null;
    case BadEnumName(name) =>
      r := Threw(name);
    case Restored(a) =>
      var st := new HangmanState(pick, a.index, a.word, a.hint, a.guessedLetters,
                                 a.remainingAttempts, a.gameState, a.hintState);
      r := State(st);
  }

  // ---- properties ----

  /** Each getter reads back from a saved bundle what was put under its key. */
  lemma SavedEntries(s: Snapshot)
    ensures GetInt(Save(s), "index") == s.index
    ensures GetString(Save(s), "word") == Some(s.word)
    ensures GetString(Save(s), "hint") == Some(s.hint)
    ensures GetCharArray(Save(s), "guessedLetters") == Some(LettersToArray(s.guessedLetters))
    ensures GetInt(Save(s), "remainingAttempts") == s.remainingAttempts
    ensures GetString(Save(s), "gameState") == Some(GameStateName(s.gameState))
    ensures GetString(Save(s), "hintState") == Some(HintStateName(s.hintState))
  {
  }

  /** The guessed letters survive the trip through a `CharArray`. */
  lemma LettersRoundTrip(g: set<char>)
    ensures ArrayToLetters(LettersToArray(g)) == g
  {
  }

  /** A bundle whose getters read back the fields of `s` and the names of its enums restores to `s`. */
  lemma RestoreReadsBack(b: Bundle, s: Snapshot)
    requires GetInt(b, "index") == s.index
    requires GetString(b, "word") == Some(s.word) && GetString(b, "hint") == Some(s.hint)
    requires GetCharArray(b, "guessedLetters").Some?
    requires ArrayToLetters(GetCharArray(b, "guessedLetters").value) == s.guessedLetters
    requires GetInt(b, "remainingAttempts") == s.remainingAttempts
    requires GetString(b, "gameState") == Some(GameStateName(s.gameState))
    requires GetString(b, "hintState") == Some(HintStateName(s.hintState))
    ensures RestoreArgs(b) == Restored(s)
  {
    assert GameStateOf(GameStateName(s.gameState)) == Some(s.gameState);
    assert HintStateOf(HintStateName(s.hintState)) == Some(s.hintState);
  }

  /** Restoring what was saved gives back all seven fields. */
  lemma RestoreSave(s: Snapshot)
    ensures RestoreArgs(Save(s)) == Restored(s)
  {
    SavedEntries(s);
    LettersRoundTrip(s.guessedLetters);
    RestoreReadsBack(Save(s), s);
  }

  /**
    A state whose index is not -1 (every state the game holds after its
    constructor has run) is reproduced exactly by a save and a restore.
   */
  method SaveThenRestore(st: HangmanState) returns (copy: HangmanState)
    requires st.index != -1
    ensures fresh(copy) && copy.Snap() == st.Snap()
  {
    RestoreSave(st.Snap());
    var r := Restore(Save(st.Snap()), 0);
    copy := r.state;
  }

  /** `restore` yields null exactly when the word or the hint cannot be read. */
  lemma RestoreNullIffWordOrHintMissing(b: Bundle)
    ensures RestoreArgs(b).NoState? <==>
      !("word" in b && b["word"].StringValue?) || !("hint" in b && b["hint"].StringValue?)
  {
  }

  /** Missing entries other than the word and hint take their defaults, key by key. */
  lemma RestoreDefaults(b: Bundle)
    requires RestoreArgs(b).Restored?
    ensures "guessedLetters" !in b ==> RestoreArgs(b).args.guessedLetters == {}
    ensures "gameState" !in b ==> RestoreArgs(b).args.gameState == PLAYING
    ensures "hintState" !in b ==> RestoreArgs(b).args.hintState == INITIAL
    ensures "index" !in b ==> RestoreArgs(b).args.index == 0
    ensures "remainingAttempts" !in b ==> RestoreArgs(b).args.remainingAttempts == 0
    ensures RestoreArgs(b).args.word == b["word"].s && RestoreArgs(b).args.hint == b["hint"].s
  {
  }

  /** A stored enum name that is no constant's makes `valueOf` throw, once word and hint are present. */
  lemma RestoreBadName(b: Bundle)
    requires "word" in b && b["word"].StringValue?
    requires "hint" in b && b["hint"].StringValue?
    requires "gameState" in b && b["gameState"].StringValue?
    requires GameStateOf(b["gameState"].s).None?
    ensures RestoreArgs(b) == BadEnumName(b["gameState"].s)
  {
  }

  /**
    A stored hint-state string that is no constant's name makes the second
    `valueOf` throw, once word and hint are present and the game state is
    missing or readable.
   */
  lemma RestoreBadHintName(b: Bundle)
    requires "word" in b && b["word"].StringValue?
    requires "hint" in b && b["hint"].StringValue?
    requires GetString(b, "gameState").None? || GameStateOf(GetString(b, "gameState").value).Some?
    requires "hintState" in b && b["hintState"].StringValue?
    requires HintStateOf(b["hintState"].s).None?
    ensures RestoreArgs(b) == BadEnumName(b["hintState"].s)
  {
  }
}
