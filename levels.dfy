/** Level bookkeeping of the counting game (App.tsx): the difficulty table,
    the preset theme chosen for a level, and the three counters a session
    keeps (level, progress within the level, score) with the way correct
    answers move them. */
module Levels {

  /** Correct answers needed to finish a level (App.tsx:13). */
  const QUESTIONS_PER_LEVEL: int := 3

  /** Number of preset themes (services/gemini.ts:15-62). */
  const PRESET_THEME_COUNT: int := 6

  /** The inclusive range the counted number is drawn from. */
  datatype Range = Range(min: int, max: int)

  /** `getDifficultyRange` (App.tsx:68-72). Every level offers a range of at
      least three numbers starting at 1, so a round can always show three
      distinct options. */
  function DifficultyRange(level: int): (r: Range)
    ensures r.min == 1 && r.max - r.min >= 2
    ensures level == 1 ==> r.max == 3
    ensures level == 2 ==> r.max == 5
    ensures level >= 3 ==> r.max == 9
  {
    if level == 1 then Range(1, 3)
    else if level == 2 then Range(1, 5)
    else Range(1, 9)
  }

  /** Difficulty never drops as the player levels up: the range of a later
      level contains the range of an earlier one. */
  lemma DifficultyGrows(level: int, later: int)
    requires 1 <= level <= later
    ensures DifficultyRange(later).min <= DifficultyRange(level).min
    ensures DifficultyRange(level).max <= DifficultyRange(later).max
  {
  }

  /** JavaScript's `%`, which truncates toward zero (a negative dividend gives a
      non-positive remainder), unlike Dafny's Euclidean `%`. */
  function JsRemainder(a: int, b: int): (r: int)
    requires b > 0
    ensures a >= 0 ==> 0 <= r < b
    ensures a < 0 ==> -b < r <= 0
    ensures (a - r) % b == 0
  {
    if a >= 0 then
      MultipleRemainder(a - a % b, b, a / b);
      a % b
    else
      MultipleRemainder(a + (-a) % b, b, -((-a) / b));
      -((-a) % b)
  }

  /** A multiple of `b` leaves no remainder. */
  lemma MultipleRemainder(x: int, b: int, q: int)
    requires b > 0 && x == b * q
    ensures x % b == 0
  {
    var d, r := x / b, x % b;
    assert b * (q - d) == r;
    ScaledAway(b, q - d);
  }

  /** A non-zero multiple of a positive `b` is at least `b` away from zero. */
  lemma {:induction false} ScaledAway(b: int, k: int)
    requires b > 0
    ensures k >= 1 ==> b * k >= b
    ensures k <= -1 ==> b * k <= -b
    decreases if k < 0 then -k else k
  {
    if k > 1 {
      ScaledAway(b, k - 1);
      assert b * k == b * (k - 1) + b;
    } else if k < -1 {
      ScaledAway(b, k + 1);
      assert b * k == b * (k + 1) - b;
    }
  }

  /** `(level - 1) % PRESET_THEMES.length` (App.tsx:109): the preset theme a level
      shows. For every reachable level it is a valid index; level 1 shows the
      first preset (the default theme). */
  function ThemeIndex(level: int): (i: int)
    ensures level >= 1 ==> 0 <= i < PRESET_THEME_COUNT
    ensures level == 1 ==> i == 0
    ensures level < 1 ==> i <= 0
    ensures (level - 1 - i) % PRESET_THEME_COUNT == 0
  {
    JsRemainder(level - 1, PRESET_THEME_COUNT)
  }

  /** Each level up shows the next preset, wrapping from the last preset back
      to the first. */
  lemma ThemesAdvance(level: int)
    requires level >= 1
    ensures ThemeIndex(level + 1) ==
      if ThemeIndex(level) == PRESET_THEME_COUNT - 1 then 0 else ThemeIndex(level) + 1
  {
    var i, j := ThemeIndex(level), ThemeIndex(level + 1);
    assert (level - 1 - i) % PRESET_THEME_COUNT == 0;
    assert (level - j) % PRESET_THEME_COUNT == 0;
  }

  /** The presets cycle: a level shows the same theme as the level six below it. */
  lemma ThemesCycle(level: int)
    requires level >= 1
    ensures ThemeIndex(level + PRESET_THEME_COUNT) == ThemeIndex(level)
  {
  }

  /** The counters of a session: `level`, `levelProgress` and `gameState.score`. */
  datatype Tally = Tally(level: int, progress: int, score: int)

  /** The counters right after `startGame` (App.tsx:124-126). */
  const START: Tally := Tally(1, 0, 0)

  /** A correct guess (App.tsx:144-148): one more point, one more answer in the level. */
  function Credit(t: Tally): Tally
  {
    Tally(t.level, t.progress + 1, t.score + 1)
  }

  /** The continuation scheduled by a correct guess (App.tsx:169-178): once the
      level's quota is reached, the next level starts with no progress. */
  function Settle(t: Tally): Tally
  {
    if t.progress >= QUESTIONS_PER_LEVEL then Tally(t.level + 1, 0, t.score) else t
  }

  /** A correct answer together with its continuation. */
  function Answer(t: Tally): Tally
  {
    Settle(Credit(t))
  }

  /** The counters after a run of guesses, `true` for a correct one and `false`
      for a wrong one (a wrong guess and its continuation leave the counters
      alone, App.tsx:179-185). */
  function Play(t: Tally, guesses: seq<bool>): Tally
    decreases guesses
  {
    if guesses == [] then t
    else Play(if guesses[0] then Answer(t) else t, guesses[1..])
  }

  /** How many of the guesses were correct. */
  function CountCorrect(guesses: seq<bool>): (n: nat)
    ensures n <= |guesses|
  {
    if guesses == [] then 0 else (if guesses[0] then 1 else 0) + CountCorrect(guesses[1..])
  }

  /** One answer keeps progress inside the level, adds exactly one point, and
      raises the level by one exactly when it completes the level. */
  lemma AnswerStep(t: Tally)
    requires 0 <= t.progress < QUESTIONS_PER_LEVEL
    ensures 0 <= Answer(t).progress < QUESTIONS_PER_LEVEL
    ensures Answer(t).score == t.score + 1
    ensures Answer(t).level == t.level + 1 <==> t.progress == QUESTIONS_PER_LEVEL - 1
    ensures Answer(t).level == t.level <==> t.progress < QUESTIONS_PER_LEVEL - 1
  {
  }

  /** Over any run of guesses the score grows by the number of correct ones,
      and every QUESTIONS_PER_LEVEL correct answers make one level, however the
      wrong guesses are interleaved. */
  lemma {:induction false} PlayTally(t: Tally, guesses: seq<bool>)
    requires 0 <= t.progress < QUESTIONS_PER_LEVEL
    decreases guesses
    ensures var n := CountCorrect(guesses);
      Play(t, guesses) == Tally(t.level + (t.progress + n) / QUESTIONS_PER_LEVEL,
                                (t.progress + n) % QUESTIONS_PER_LEVEL,
                                t.score + n)
  {
    if guesses != [] {
      var next := if guesses[0] then Answer(t) else t;
      AnswerStep(t);
      PlayTally(next, guesses[1..]);
    }
  }

  /** The scores never go down along a run of guesses. */
  lemma {:induction false} PlayScoreGrows(t: Tally, guesses: seq<bool>, k: nat)
    requires 0 <= t.progress < QUESTIONS_PER_LEVEL
    requires k <= |guesses|
    ensures Play(t, guesses[..k]).score <= Play(t, guesses).score
    ensures Play(t, guesses).score - Play(t, guesses[..k]).score == CountCorrect(guesses[k..])
  {
    PlayTally(t, guesses[..k]);
    PlayTally(t, guesses);
    CountSplits(guesses, k);
  }

  lemma {:induction false} CountSplits(guesses: seq<bool>, k: nat)
    requires k <= |guesses|
    ensures CountCorrect(guesses) == CountCorrect(guesses[..k]) + CountCorrect(guesses[k..])
  {
    if k > 0 {
      CountSplits(guesses[1..], k - 1);
      assert guesses[1..][..k - 1] == guesses[..k][1..];
      assert guesses[1..][k - 1..] == guesses[k..];
    }
  }

  /** A new game that sees three correct answers, with any wrong guesses in
      between, is at level 2 with no progress and a score of 3. */
  lemma ThreeCorrectReachLevelTwo(guesses: seq<bool>)
    requires CountCorrect(guesses) == 3
    ensures Play(START, guesses) == Tally(2, 0, 3)
  {
    PlayTally(START, guesses);
  }
}
