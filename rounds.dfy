/** Round generation (`generateNewRound`, App.tsx:74-98): a target count drawn
    from the level's range, distinct wrong answers added to a `Set` by a
    rejection loop, and the options shuffled.

    Randomness is an input. A draw `u: nat` stands for one call of
    `Math.random()`, and `RandomInt` lands it in the range as `randomInt`
    does. The rejection loop consumes a finite prefix of a stream of draws;
    the stream is required to hold enough distinct wrong values, which every
    run of the source that terminates does. */
module Rounds {
  import opened Levels

  /** No value occurs twice. */
  predicate NoDup(s: seq<int>)
  {
    forall i, j :: 0 <= i < j < |s| ==> s[i] != s[j]
  }

  /** `randomInt(min, max)` (App.tsx:43) for the draw `u`: a value of the
      inclusive range. */
  function RandomInt(lo: int, hi: int, u: nat): (r: int)
    requires lo <= hi
    ensures lo <= r <= hi
  {
    lo + u % (hi - lo + 1)
  }

  /** Every value of the range is the outcome of some draw. */
  lemma RandomIntReaches(lo: int, hi: int, v: int)
    requires lo <= v <= hi
    ensures RandomInt(lo, hi, v - lo) == v
  {
  }

  /** `Math.min(2, max - min)` (App.tsx:80-81): how many wrong answers a round shows. */
  function Needed(lo: int, hi: int): int
  {
    if hi - lo < 2 then hi - lo else 2
  }

  /** The contents of the `Set` of wrong answers after the rejection loop has
      seen `draws`, in insertion order (a JavaScript `Set` iterates in
      insertion order): every drawn value other than the target, once. */
  function WrongSet(lo: int, hi: int, draws: seq<nat>, target: int): (d: seq<int>)
    requires lo <= hi
    ensures NoDup(d)
    ensures forall x :: x in d ==> lo <= x <= hi && x != target
  {
    if draws == [] then []
    else
      var d := WrongSet(lo, hi, draws[..|draws| - 1], target);
      var r := RandomInt(lo, hi, draws[|draws| - 1]);
      if r == target || r in d then d else d + [r]
  }

  /** `WrongSet` holds exactly the drawn values other than the target. */
  lemma {:induction false} WrongSetHoldsDrawn(lo: int, hi: int, draws: seq<nat>, target: int, x: int)
    requires lo <= hi
    ensures x in WrongSet(lo, hi, draws, target) <==>
      x != target && exists k :: 0 <= k < |draws| && RandomInt(lo, hi, draws[k]) == x
  {
    if draws != [] {
      var init := draws[..|draws| - 1];
      WrongSetHoldsDrawn(lo, hi, init, target, x);
      assert forall k :: 0 <= k < |init| ==> init[k] == draws[k];
      if x != target && RandomInt(lo, hi, draws[|draws| - 1]) != x {
        if exists k :: 0 <= k < |draws| && RandomInt(lo, hi, draws[k]) == x {
          var k :| 0 <= k < |draws| && RandomInt(lo, hi, draws[k]) == x;
          assert RandomInt(lo, hi, init[k]) == x;
        }
      }
    }
  }

  /** The random input of one round: the draw for the target and the stream
      the rejection loop reads. */
  datatype Dice = Dice(target: nat, draws: seq<nat>)

  /** The stream is long enough for the rejection loop at `level` to finish. */
  predicate EnoughDraws(dice: Dice, level: int)
  {
    var range := DifficultyRange(level);
    var target := RandomInt(range.min, range.max, dice.target);
    |WrongSet(range.min, range.max, dice.draws, target)| >= Needed(range.min, range.max)
  }

  /** The rejection loop of App.tsx:79-86: draw until the set holds `Needed`
      values, dropping the target and values already present. The result is
      exactly the wrong values offered by the first `used` draws, and the loop
      stops at the first draw that fills the set. */
  method DrawDistractors(lo: int, hi: int, target: int, draws: seq<nat>) returns (wrong: seq<int>, used: nat)
    requires lo <= hi
    requires |WrongSet(lo, hi, draws, target)| >= Needed(lo, hi)
    ensures |wrong| == Needed(lo, hi)
    ensures NoDup(wrong)
    ensures forall x :: x in wrong ==> lo <= x <= hi && x != target
    ensures used <= |draws| && wrong == WrongSet(lo, hi, draws[..used], target)
    ensures used > 0 ==> |WrongSet(lo, hi, draws[..used - 1], target)| < |wrong|
  {
    var needed := Needed(lo, hi);
    wrong := [];
    used := 0;
    while |wrong| < needed
      invariant 0 <= used <= |draws|
      invariant wrong == WrongSet(lo, hi, draws[..used], target)
      invariant |wrong| <= needed
      invariant used > 0 ==> |WrongSet(lo, hi, draws[..used - 1], target)| < needed
      decreases |draws| - used
    {
      assert draws[..|draws|] == draws;
      var r := RandomInt(lo, hi, draws[used]);
      if r != target && r !in wrong {
        wrong := wrong + [r];
      }
      assert draws[..used + 1][..used] == draws[..used];
      used := used + 1;
    }
  }

  /** Reordering keeps a sequence free of duplicates. */
  lemma NoDupPermutation(a: seq<int>, b: seq<int>)
    requires multiset(a) == multiset(b)
    requires NoDup(a)
    ensures NoDup(b)
  {
    SingleOccurrences(a);
    forall i, j | 0 <= i < j < |b| ensures b[i] != b[j] {
      assert b == b[..j] + [b[j]] + b[j + 1..];
      assert multiset(b) == multiset(b[..j]) + multiset{b[j]} + multiset(b[j + 1..]);
      assert b[..j][i] == b[i];
      assert multiset(b[..j])[b[i]] >= 1;
      assert multiset(a)[b[i]] <= 1;
    }
  }

  /** A sequence without duplicates holds each of its values once. */
  lemma {:induction false} SingleOccurrences(s: seq<int>)
    requires NoDup(s)
    ensures forall x :: multiset(s)[x] <= 1
  {
    if s != [] {
      SingleOccurrences(s[1..]);
      assert s == [s[0]] + s[1..];
      assert s[0] !in s[1..];
    }
  }

  /** One round: the number of icons to count and the answer buttons. */
  datatype Round = Round(target: int, options: seq<int>)

  /** What every generated round satisfies (App.tsx:74-88): the target and all
      options lie in the level's range, the options hold the target and
      `Needed` distinct wrong answers, and nothing twice. */
  predicate Fits(round: Round, level: int)
  {
    var range := DifficultyRange(level);
    && range.min <= round.target <= range.max
    && round.target in round.options
    && NoDup(round.options)
    && (forall x :: x in round.options ==> range.min <= x <= range.max)
    && |round.options| == Needed(range.min, range.max) + 1
  }

  /** `shuffle` (App.tsx:46-48) sorts a copy with a random comparator; whatever
      order the sort settles on, the result is a permutation of its input. */
  method Shuffle(s: seq<int>) returns (r: seq<int>)
    ensures multiset(r) == multiset(s)
  {
    r :| multiset(r) == multiset(s);
  }

  /** Shuffling the target and the wrong answers gives a round that fits the level. */
  lemma ShuffledFits(level: int, target: int, wrong: seq<int>, options: seq<int>)
    requires var range := DifficultyRange(level);
      && range.min <= target <= range.max
      && |wrong| == Needed(range.min, range.max)
      && NoDup(wrong)
      && (forall x :: x in wrong ==> range.min <= x <= range.max && x != target)
    requires multiset(options) == multiset([target] + wrong)
    ensures Fits(Round(target, options), level)
  {
    var range := DifficultyRange(level);
    var ordered := [target] + wrong;
    forall i, j | 0 <= i < j < |ordered| ensures ordered[i] != ordered[j] {
      assert ordered[j] == wrong[j - 1] && ordered[j] in wrong;
      if i > 0 {
        assert ordered[i] == wrong[i - 1];
      }
    }
    NoDupPermutation(ordered, options);
    assert target in multiset(options);
    forall x | x in options ensures range.min <= x <= range.max {
      assert x in multiset(ordered);
      assert x in ordered;
      assert x == target || x in wrong;
    }
    assert |options| == |multiset(options)| == |ordered|;
  }

  /** The computation of `generateNewRound` (App.tsx:75-88) at `level`: the
      target comes from the first draw, the options are the target and the
      wrong answers the rejection loop collects, in any order (the shuffle
      sorts with a random comparator; the model allows every permutation). */
  method NewRound(level: int, dice: Dice) returns (round: Round)
    requires EnoughDraws(dice, level)
    ensures Fits(round, level)
    ensures round.target == RandomInt(DifficultyRange(level).min, DifficultyRange(level).max, dice.target)
    ensures exists used :: 0 <= used <= |dice.draws| &&
      multiset(round.options) == multiset([round.target] + WrongSet(DifficultyRange(level).min, DifficultyRange(level).max, dice.draws[..used], round.target))
  {
    var range := DifficultyRange(level);
    var target := RandomInt(range.min, range.max, dice.target);
    var wrong, used := DrawDistractors(range.min, range.max, target, dice.draws);
    var options := Shuffle([target] + wrong);
    ShuffledFits(level, target, wrong, options);
    round := Round(target, options);
    assert wrong == WrongSet(range.min, range.max, dice.draws[..used], target);
  }

  /** Every level shows exactly three answer buttons. */
  lemma ThreeOptions(round: Round, level: int)
    requires Fits(round, level)
    ensures |round.options| == 3
  {
  }
}
