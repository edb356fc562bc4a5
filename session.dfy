/** The game session held by the `App` component (App.tsx:50-192): its state
    slots, the guess handler with the two timer bodies it schedules, the
    buttons that start a game, go home, skip a round or apply a generated
    theme, and the two effects that react to a level change.

    React runs effects after the state change that triggers them; the model
    runs them at the end of the operation that changed the state. Scheduled
    timer bodies wait in `timers`, oldest first, and run when the caller
    fires them. */
module Session {
  import opened Levels
  import opened Rounds

  datatype Option<T> = None | Some(value: T)

  /** Which screen is shown: the menu or the game. */
  datatype Screen = Menu | Playing

  /** `GameState` (types.ts:16-22). `isCorrect` is `null` while the round
      waits for an answer and `true` once it has been answered; `wrongGuess`
      marks the button to shake after a wrong guess. */
  datatype GameState = GameState(
    currentNumber: int,
    options: seq<int>,
    score: int,
    isCorrect: Option<bool>,
    wrongGuess: Option<int>)

  /** The active theme: one of the presets of services/gemini.ts:15-62 by
      index (index 0 is the default theme), or a generated one. */
  datatype Theme = Preset(index: int) | Generated(id: string)

  predicate ValidTheme(t: Theme)
  {
    t.Preset? ==> 0 <= t.index < PRESET_THEME_COUNT
  }

  /** A scheduled `setTimeout` body with the values its closure captured:
      clearing the shake marker (App.tsx:183-185), or the level-up check with
      the progress the correct guess computed (App.tsx:169-178). */
  datatype Timer = ClearWrong | LevelUpCheck(newProgress: int)

  class Game {
    var screen: Screen
    var level: int
    var levelProgress: int
    var gameState: GameState
    var theme: Theme
    var timers: seq<Timer>

    /** The counters of the session, as the level bookkeeping sees them. */
    function Counters(): Tally
      reads this
    {
      Tally(level, levelProgress, gameState.score)
    }

    /** The round has been answered correctly and takes no more guesses. */
    predicate Latched()
      reads this
    {
      gameState.isCorrect == Some(true)
    }

    function CurrentRound(): Round
      reads this
    {
      Round(gameState.currentNumber, gameState.options)
    }

    /** The session invariant. Progress stays within the level, and reaches
        QUESTIONS_PER_LEVEL only while a correct answer waits for its level-up
        check; a round is latched exactly while that check is pending, and it
        is the last timer; a shake marker always has a timer that clears it;
        the round on screen fits the level. */
    ghost predicate Valid()
      reads this
    {
      && level >= 1
      && gameState.score >= 0
      && 0 <= levelProgress <= QUESTIONS_PER_LEVEL
      && ValidTheme(theme)
      && gameState.isCorrect != Some(false)
      && (screen == Playing ==> Fits(CurrentRound(), level))
      && (timers != [] ==> screen == Playing)
      && (forall k :: 0 <= k < |timers| - 1 ==> timers[k] == ClearWrong)
      && (Latched() <==> timers != [] && timers[|timers| - 1].LevelUpCheck?)
      && (Latched() ==> timers[|timers| - 1] == LevelUpCheck(levelProgress) && levelProgress >= 1)
      && (!Latched() ==> levelProgress < QUESTIONS_PER_LEVEL)
      && (gameState.wrongGuess.Some? ==> ClearWrong in timers)
    }

    /** The initial state of `App` (App.tsx:51-66), after the level effect of
        the first render has selected the first preset theme (App.tsx:108-111). */
    constructor ()
      ensures Valid()
      ensures screen == Menu && Counters() == START
      ensures gameState == GameState(1, [], 0, None, None)
      ensures theme == Preset(ThemeIndex(1)) && timers == []
    {
      screen := Menu;
      level := 1;
      levelProgress := 0;
      gameState := GameState(1, [], 0, None, None);
      theme := Preset(ThemeIndex(1));
      timers := [];
    }

    /** `generateNewRound` (App.tsx:74-98): a fresh round for the current level
        with the feedback reset; score, level and progress are left alone. */
    method GenerateNewRound(dice: Dice)
      requires EnoughDraws(dice, level)
      modifies this`gameState
      ensures Fits(CurrentRound(), level)
      ensures gameState.currentNumber
        == RandomInt(DifficultyRange(level).min, DifficultyRange(level).max, dice.target)
      ensures gameState.score == old(gameState.score)
      ensures gameState.isCorrect == None && gameState.wrongGuess == None
    {
      var round := NewRound(level, dice);
      gameState := gameState.(
        currentNumber := round.target,
        options := round.options,
        isCorrect := None,
        wrongGuess := None);
    }

    /** `handleGuess` (App.tsx:135-187). A latched round ignores the guess. A
        correct guess latches the round, adds a point and a unit of progress,
        and schedules the level-up check with the new progress. A wrong guess
        only sets the shake marker and schedules its clearing. */
    method HandleGuess(number: int)
      requires Valid() && screen == Playing
      modifies this`gameState, this`levelProgress, this`timers
      ensures Valid()
      ensures old(Latched()) ==>
        gameState == old(gameState) && levelProgress == old(levelProgress) && timers == old(timers)
      ensures !old(Latched()) && number == old(gameState.currentNumber) ==>
        && Counters() == Credit(old(Counters()))
        && gameState == old(gameState).(isCorrect := Some(true), score := old(gameState.score) + 1)
        && timers == old(timers) + [LevelUpCheck(levelProgress)]
      ensures !old(Latched()) && number != old(gameState.currentNumber) ==>
        && Counters() == old(Counters())
        && gameState == old(gameState).(wrongGuess := Some(number))
        && timers == old(timers) + [ClearWrong]
    {
      if gameState.isCorrect == Some(true) {
        return;
      }
      if number == gameState.currentNumber {
        var newScore := gameState.score + 1;
        var newProgress := levelProgress + 1;
        gameState := gameState.(isCorrect := Some(true), score := newScore);
        levelProgress := newProgress;
        timers := timers + [LevelUpCheck(newProgress)];
      } else {
        gameState := gameState.(wrongGuess := Some(number));
        timers := timers + [ClearWrong];
      }
    }

    /** The body of the 500 ms timer of a wrong guess (App.tsx:183-185): it
        clears the shake marker and touches nothing else. */
    method FireClearWrong()
      requires Valid() && timers != [] && timers[0] == ClearWrong
      modifies this`gameState, this`timers
      ensures Valid()
      ensures gameState == old(gameState).(wrongGuess := None)
      ensures timers == old(timers)[1..]
    {
      gameState := gameState.(wrongGuess := None);
      timers := timers[1..];
    }

    /** The body of the 2000 ms timer of a correct guess (App.tsx:169-178) and
        what it sets off. With the level's quota reached, the level goes up and
        progress restarts at 0; the level change makes the theme effect pick
        the level's preset (App.tsx:108-111) and the round effect draw a round
        for the new level (App.tsx:101-105, through the `level` dependency of
        `generateNewRound`, App.tsx:98). Otherwise a new round is drawn at the
        same level. */
    method FireLevelUpCheck(dice: Dice)
      requires Valid() && timers != [] && timers[0].LevelUpCheck?
      requires EnoughDraws(dice, if timers[0].newProgress >= QUESTIONS_PER_LEVEL then level + 1 else level)
      modifies this
      ensures Valid()
      ensures Counters() == Settle(old(Counters()))
      ensures timers == [] && !Latched() && gameState.wrongGuess == None
      ensures screen == old(screen)
      ensures old(timers[0].newProgress) >= QUESTIONS_PER_LEVEL ==> theme == Preset(ThemeIndex(level))
      ensures old(timers[0].newProgress) < QUESTIONS_PER_LEVEL ==> theme == old(theme)
    {
      var newProgress := timers[0].newProgress;
      timers := timers[1..];
      if newProgress >= QUESTIONS_PER_LEVEL {
        level := level + 1;
        levelProgress := 0;
        theme := Preset(ThemeIndex(level));
        GenerateNewRound(dice);
      } else {
        GenerateNewRound(dice);
      }
    }

    /** `startGame` (App.tsx:122-128): a new session at level 1 with no
        progress and no points, on the game screen. Entering the game screen
        draws a round (App.tsx:101-105); a level that was not 1 before also
        brings back the first preset theme (App.tsx:108-111). */
    method StartGame(dice: Dice)
      requires Valid() && screen == Menu
      requires EnoughDraws(dice, 1)
      modifies this
      ensures Valid()
      ensures Counters() == START && screen == Playing && timers == []
      ensures !Latched() && gameState.wrongGuess == None
      ensures theme == (if old(level) != 1 then Preset(ThemeIndex(1)) else old(theme))
    {
      var levelChanged := level != 1;
      level := 1;
      levelProgress := 0;
      gameState := gameState.(score := 0);
      screen := Playing;
      if levelChanged {
        theme := Preset(ThemeIndex(level));
      }
      GenerateNewRound(dice);
    }

    /** `goHome` (App.tsx:130-133): back to the menu; the counters stay until
        the next game starts. */
    method GoHome()
      requires Valid() && timers == []
      modifies this`screen
      ensures Valid() && screen == Menu
    {
      screen := Menu;
    }

    /** The skip button (App.tsx:285), which calls `generateNewRound`
        directly: a new round at the same level, counters untouched. */
    method Skip(dice: Dice)
      requires Valid() && screen == Playing && timers == []
      requires EnoughDraws(dice, level)
      modifies this`gameState
      ensures Valid()
      ensures Counters() == old(Counters())
      ensures !Latched() && gameState.wrongGuess == None
    {
      GenerateNewRound(dice);
    }

    /** `handleThemeGenerated` (App.tsx:189-192): adopt the theme and draw a
        fresh round; level, progress and score are untouched. */
    method ThemeGenerated(newTheme: Theme, dice: Dice)
      requires Valid() && timers == []
      requires ValidTheme(newTheme)
      requires EnoughDraws(dice, level)
      modifies this`theme, this`gameState
      ensures Valid()
      ensures theme == newTheme && Counters() == old(Counters())
      ensures Fits(CurrentRound(), level)
      ensures !Latched() && gameState.wrongGuess == None
    {
      theme := newTheme;
      GenerateNewRound(dice);
    }
  }

  /** With targets drawn from [1, hi], the draws 0, 1, 2 give 1, 2 and 3. */
  lemma SmallDraws(hi: int)
    requires hi >= 3
    ensures RandomInt(1, hi, 0) == 1
    ensures WrongSet(1, hi, [1, 2], 1) == [2, 3]
  {
    var d: seq<nat> := [1, 2];
    var e: seq<nat> := [1];
    assert d[..1] == e;
    assert e[..0] == [];
    assert RandomInt(1, hi, 1) == 2 by { assert 1 % hi == 1; }
    assert RandomInt(1, hi, 2) == 3 by { assert 2 % hi == 2; }
    assert WrongSet(1, hi, e, 1) == [2];
    assert WrongSet(1, hi, d, 1) == [2] + [3];
  }

  /** A draw that fits every level: target 1, wrong answers 2 and 3. */
  lemma SmallDiceFinish()
    ensures forall level :: EnoughDraws(Dice(0, [1, 2]), level)
  {
    forall level ensures EnoughDraws(Dice(0, [1, 2]), level) {
      SmallDraws(DifficultyRange(level).max);
    }
  }

  /** A correct answer followed by its level-up check moves the counters as
      `Answer` says, and leaves the session waiting for the next guess. */
  method AnswerCorrectly(g: Game, dice: Dice)
    requires g.Valid() && g.screen == Playing && g.timers == []
    requires EnoughDraws(dice, g.level) && EnoughDraws(dice, g.level + 1)
    modifies g
    ensures g.Valid() && g.screen == Playing && g.timers == []
    ensures g.Counters() == Answer(old(g.Counters()))
  {
    g.HandleGuess(g.gameState.currentNumber);
    g.FireLevelUpCheck(dice);
  }

  /** A wrong guess followed by its timer leaves the session as it was,
      shake marker cleared. */
  method MissOnce(g: Game, number: int)
    requires g.Valid() && g.screen == Playing && g.timers == []
    requires number != g.gameState.currentNumber
    modifies g
    ensures g.Valid() && g.screen == Playing && g.timers == []
    ensures g.Counters() == old(g.Counters())
    ensures g.gameState == old(g.gameState)
    ensures g.level == old(g.level) && g.levelProgress == old(g.levelProgress) && g.theme == old(g.theme)
  {
    g.HandleGuess(number);
    g.FireClearWrong();
  }

  /** Tapping the right answer twice before the level-up check counts once. */
  method AnswerTwice(g: Game, dice: Dice)
    requires g.Valid() && g.screen == Playing && g.timers == []
    requires EnoughDraws(dice, g.level) && EnoughDraws(dice, g.level + 1)
    modifies g
    ensures g.Valid() && g.screen == Playing && g.timers == []
    ensures g.Counters() == Answer(old(g.Counters()))
  {
    g.HandleGuess(g.gameState.currentNumber);
    g.HandleGuess(g.gameState.currentNumber);
    g.FireLevelUpCheck(dice);
  }

  /** A session played through the class: a new game, a wrong guess, then
      three correct answers, the first of them tapped twice, ends at level 2
      with no progress and a score of 3. */
  method PlayToLevelTwo() returns (g: Game)
    ensures g.Valid() && g.Counters() == Tally(2, 0, 3) && g.screen == Playing
  {
    var dice := Dice(0, [1, 2]);
    SmallDiceFinish();
    g := new Game();
    g.StartGame(dice);
    MissOnce(g, g.gameState.currentNumber + 1);
    assert g.Counters() == START;
    AnswerTwice(g, dice);
    assert g.Counters() == Tally(1, 1, 1);
    AnswerCorrectly(g, dice);
    assert g.Counters() == Tally(1, 2, 2);
    AnswerCorrectly(g, dice);
  }
}
