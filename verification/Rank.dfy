/**
 app/services/rank.py: the engagement score. Exact reals instead of floats; `round(x, 1)` rounds half
 to even.
 */
module Rank {
  import opened Common
  import opened Order

  datatype Level = VeryLow | Low | High | VeryHigh

  const DIMENSIONS: seq<string> :=
    ["emotional_salience", "audience_breadth", "impact", "novelty", "human_interest", "timeliness", "visual_potential"]

  function LevelName(l: Level): string {
    match l
    case VeryLow => "very_low"
    case Low => "low"
    case High => "high"
    case VeryHigh => "very_high"
  }

  /** `EngagementLevel(stored)`, None where it raises ValueError. */
  function ParseLevel(s: string): Option<Level> {
    if s == "very_low" then Some(VeryLow)
    else if s == "low" then Some(Low)
    else if s == "high" then Some(High)
    else if s == "very_high" then Some(VeryHigh)
    else None
  }

  function Value(l: Level): real {
    match l
    case VeryLow => 0.0
    case Low => 0.33
    case High => 0.67
    case VeryHigh => 1.0
  }

  /** The columns of an article that are not NULL. */
  type Columns = map<string, string>

  type Levels = map<string, Level>

  predicate Complete(levels: Levels) {
    forall d :: d in DIMENSIONS ==> d in levels
  }

  predicate IsRated(stored: Columns) {
    forall d :: d in DIMENSIONS ==> d in stored && ParseLevel(stored[d]).Some?
  }

  function LevelsOf(stored: Columns): Option<Levels> {
    if IsRated(stored) then Some(map d | d in DIMENSIONS :: ParseLevel(stored[d]).value) else None
  }

  method EngagementLevels(stored: Columns) returns (result: Option<Levels>)
    ensures result == LevelsOf(stored)
  {
    var levels: Levels := map[];
    for i := 0 to |DIMENSIONS|
      invariant levels.Keys == set d | d in DIMENSIONS[..i]
      invariant forall d :: d in DIMENSIONS[..i] ==> d in stored && ParseLevel(stored[d]) == Some(levels[d])
    {
      var name := DIMENSIONS[i];
      assert name in DIMENSIONS;
      assert DIMENSIONS[..i + 1] == DIMENSIONS[..i] + [name];
      if name !in stored {
        return None;
      }
      var level := ParseLevel(stored[name]);
      if level.None? {
        return None;
      }
      levels := levels[name := level.value];
    }
    assert DIMENSIONS[..|DIMENSIONS|] == DIMENSIONS;
    assert levels == LevelsOf(stored).value;
    result := Some(levels);
  }

  // --- the score ------------------------------------------------------------------------------

  type Weights = map<string, real>

  const SCORE_MIN: real := 1.0
  const SCORE_MAX: real := 10.0
  const WEIGHT_TOLERANCE: real := 0.000000001

  function Total(w: Weights, names: seq<string>): real
    requires forall d :: d in names ==> d in w
  {
    if names == [] then 0.0 else w[names[0]] + Total(w, names[1..])
  }

  /** What the settings validator lets through: it looks at the sum only. */
  predicate Validated(w: Weights) {
    && (forall d :: d in DIMENSIONS ==> d in w)
    && -WEIGHT_TOLERANCE <= Total(w, DIMENSIONS) - 1.0 <= WEIGHT_TOLERANCE
  }

  predicate NonNegative(w: Weights) {
    forall d :: d in DIMENSIONS && d in w ==> w[d] >= 0.0
  }

  function Contribution(w: Weights, levels: Levels, d: string): real
    requires d in w && d in levels
  {
    w[d] * Value(levels[d])
  }

  function Unit(w: Weights, levels: Levels, names: seq<string>): real
    requires forall d :: d in names ==> d in w && d in levels
  {
    if names == [] then 0.0 else Contribution(w, levels, names[0]) + Unit(w, levels, names[1..])
  }

  function Stretch(unit: real): real {
    SCORE_MIN + unit * (SCORE_MAX - SCORE_MIN)
  }

  /** `round(x, 1)`. */
  function RoundTenth(x: real): real {
    var t := (x * 10.0).Floor;
    var rest := x * 10.0 - t as real;
    (if rest < 0.5 || (rest == 0.5 && t % 2 == 0) then t else t + 1) as real / 10.0
  }

  function ArticleScore(w: Weights, levels: Option<Levels>): real
    requires Validated(w) && (levels.Some? ==> Complete(levels.value))
  {
    if levels.None? then SCORE_MIN else RoundTenth(Stretch(Unit(w, levels.value, DIMENSIONS)))
  }

  lemma RoundIsMonotone(x: real, y: real)
    requires x <= y
    ensures RoundTenth(x) <= RoundTenth(y)
  {
    var s, t := (x * 10.0).Floor, (y * 10.0).Floor;
    assert s <= t;
  }

  lemma RoundFixesTenths(k: int)
    ensures RoundTenth(k as real / 10.0) == k as real / 10.0
  {
    assert (k as real / 10.0) * 10.0 == k as real;
  }

  /** A higher unit score never comes out lower: neither the stretch nor the rounding inverts a pair. */
  lemma DisplayNeverInverts(unit: real, other: real)
    requires unit <= other
    ensures RoundTenth(Stretch(unit)) <= RoundTenth(Stretch(other))
  {
    RoundIsMonotone(Stretch(unit), Stretch(other));
  }

  lemma ContributionBounds(w: Weights, levels: Levels, d: string)
    requires d in w && d in levels && w[d] >= 0.0
    ensures 0.0 <= Contribution(w, levels, d) <= w[d]
  {
  }

  lemma {:induction false} UnitBounds(w: Weights, levels: Levels, names: seq<string>)
    requires forall d :: d in names ==> d in w && d in levels && w[d] >= 0.0
    ensures 0.0 <= Unit(w, levels, names) <= Total(w, names)
  {
    if names != [] {
      ContributionBounds(w, levels, names[0]);
      UnitBounds(w, levels, names[1..]);
      hide Contribution;
    }
  }

  /** The number on a card is between 1 and 10, tolerance of the validator included. */
  lemma ScoreInRange(w: Weights, levels: Option<Levels>)
    requires Validated(w) && NonNegative(w) && (levels.Some? ==> Complete(levels.value))
    ensures SCORE_MIN <= ArticleScore(w, levels) <= SCORE_MAX
  {
    if levels.Some? {
      UnitBounds(w, levels.value, DIMENSIONS);
      var raw := Stretch(Unit(w, levels.value, DIMENSIONS));
      RoundFixesTenths(10);
      RoundIsMonotone(1.0, raw);
      RoundIsMonotone(raw, 10.01);
      assert (10.01 * 10.0).Floor == 100;
    }
  }

  lemma {:induction false} UnitOfConstant(w: Weights, levels: Levels, level: Level, names: seq<string>)
    requires forall d :: d in names ==> d in w && d in levels && levels[d] == level
    ensures Unit(w, levels, names) == Total(w, names) * Value(level)
  {
    if names != [] {
      UnitOfConstant(w, levels, level, names[1..]);
    }
  }

  /** The scale is used in full: a story that is highest on everything shows 10, lowest on everything 1. */
  lemma EndsOfTheScale(w: Weights, levels: Levels)
    requires Validated(w) && Complete(levels)
    ensures (forall d :: d in DIMENSIONS ==> levels[d] == VeryHigh) ==> ArticleScore(w, Some(levels)) == SCORE_MAX
    ensures (forall d :: d in DIMENSIONS ==> levels[d] == VeryLow) ==> ArticleScore(w, Some(levels)) == SCORE_MIN
  {
    if forall d :: d in DIMENSIONS ==> levels[d] == VeryHigh {
      UnitOfConstant(w, levels, VeryHigh, DIMENSIONS);
      RoundsToTen(Stretch(Total(w, DIMENSIONS)));
    }
    if forall d :: d in DIMENSIONS ==> levels[d] == VeryLow {
      UnitOfConstant(w, levels, VeryLow, DIMENSIONS);
      RoundFixesTenths(10);
    }
  }

  lemma RoundsToTen(x: real)
    requires 9.99 <= x <= 10.01
    ensures RoundTenth(x) == 10.0
  {
    RoundIsMonotone(9.99, x);
    RoundIsMonotone(x, 10.01);
    assert (9.99 * 10.0).Floor == 99 && (10.01 * 10.0).Floor == 100;
  }

  /** The levels in the order their names give them. */
  function Height(l: Level): nat {
    match l
    case VeryLow => 0
    case Low => 1
    case High => 2
    case VeryHigh => 3
  }

  lemma ValuesRise(a: Level, b: Level)
    ensures Height(a) <= Height(b) <==> Value(a) <= Value(b)
  {
  }

  /** Judging one story at least as high on every dimension never scores it lower. */
  lemma ScoreIsMonotone(w: Weights, a: Levels, b: Levels)
    requires Validated(w) && NonNegative(w) && Complete(a) && Complete(b)
    requires forall d :: d in DIMENSIONS ==> Height(a[d]) <= Height(b[d])
    ensures ArticleScore(w, Some(a)) <= ArticleScore(w, Some(b))
  {
    forall d | d in DIMENSIONS ensures Value(a[d]) <= Value(b[d]) {
      ValuesRise(a[d], b[d]);
    }
    UnitIsMonotone(w, a, b, DIMENSIONS);
    DisplayNeverInverts(Unit(w, a, DIMENSIONS), Unit(w, b, DIMENSIONS));
  }

  lemma {:induction false} UnitIsMonotone(w: Weights, a: Levels, b: Levels, names: seq<string>)
    requires forall d :: d in names ==> d in w && d in a && d in b && w[d] >= 0.0 && Value(a[d]) <= Value(b[d])
    ensures Unit(w, a, names) <= Unit(w, b, names)
  {
    if names != [] {
      ScaleReal(w[names[0]], Value(a[names[0]]), Value(b[names[0]]));
      UnitIsMonotone(w, a, b, names[1..]);
    }
  }

  lemma ScaleReal(k: real, x: real, y: real)
    requires k >= 0.0 && x <= y
    ensures k * x <= k * y
  {
  }

  // --- negative weights -----------------------------------------------------------------------

  function Negative(w: Weights, names: seq<string>): real
    requires forall d :: d in names ==> d in w
  {
    if names == [] then 0.0 else (if w[names[0]] < 0.0 then w[names[0]] else 0.0) + Negative(w, names[1..])
  }

  lemma {:induction false} UnitBetween(w: Weights, levels: Levels, names: seq<string>)
    requires forall d :: d in names ==> d in w && d in levels
    ensures Negative(w, names) <= Unit(w, levels, names) <= Total(w, names) - Negative(w, names)
  {
    if names != [] {
      UnitBetween(w, levels, names[1..]);
      ContributionBetween(w, levels, names[0]);
      hide Contribution;
    }
  }

  lemma ContributionBetween(w: Weights, levels: Levels, d: string)
    requires d in w && d in levels
    ensures w[d] >= 0.0 ==> 0.0 <= Contribution(w, levels, d) <= w[d]
    ensures w[d] < 0.0 ==> w[d] <= Contribution(w, levels, d) <= 0.0
  {
  }

  /** `on` on the dimensions of negative weight, the opposite end on the others. */
  function Split(w: Weights, on: Level, off: Level): Levels
    requires forall d :: d in DIMENSIONS ==> d in w
  {
    map d | d in DIMENSIONS :: if w[d] < 0.0 then on else off
  }

  lemma {:induction false} UnitOfSplit(w: Weights, names: seq<string>)
    requires forall d :: d in DIMENSIONS ==> d in w
    requires forall d :: d in names ==> d in DIMENSIONS
    ensures Unit(w, Split(w, VeryHigh, VeryLow), names) == Negative(w, names)
    ensures Unit(w, Split(w, VeryLow, VeryHigh), names) == Total(w, names) - Negative(w, names)
  {
    if names != [] {
      UnitOfSplit(w, names[1..]);
    }
  }

  lemma RoundsToOneOrMoreIff(x: real)
    ensures RoundTenth(x) >= 1.0 <==> x >= 0.95
  {
    var t := (x * 10.0).Floor;
    assert x >= 0.95 <==> x * 10.0 >= 9.5;
    assert t <= 8 || t == 9 || t >= 10;
  }

  lemma RoundsToTenOrLessIff(x: real)
    ensures RoundTenth(x) <= 10.0 <==> x <= 10.05
  {
    var t := (x * 10.0).Floor;
    assert x <= 10.05 <==> x * 10.0 <= 100.5;
    assert t <= 99 || t == 100 || t >= 101;
  }

  /** The negative weights are small enough for rounding to hide them, at both ends of the scale. */
  predicate Hides(w: Weights)
    requires forall d :: d in DIMENSIONS ==> d in w
  {
    var negative := Negative(w, DIMENSIONS);
    180.0 * negative >= -1.0 && 180.0 * (Total(w, DIMENSIONS) - negative) <= 181.0
  }

  lemma ScoreBetween(w: Weights, levels: Levels)
    requires Validated(w) && Complete(levels)
    ensures var negative := Negative(w, DIMENSIONS);
            RoundTenth(Stretch(negative)) <= ArticleScore(w, Some(levels))
            <= RoundTenth(Stretch(Total(w, DIMENSIONS) - negative))
  {
    UnitBetween(w, levels, DIMENSIONS);
    var negative, unit := Negative(w, DIMENSIONS), Unit(w, levels, DIMENSIONS);
    DisplayNeverInverts(negative, unit);
    DisplayNeverInverts(unit, Total(w, DIMENSIONS) - negative);
  }

  /**
   The settings check looks at the sum only, so negative weights pass. For every weight vector it
   lets through, all scores lie between 1 and 10 exactly when the negative weights together are no
   less than -1/180, and the others no more than 181/180.
   */
  lemma ScoresInRangeIff(w: Weights)
    requires Validated(w)
    ensures (forall levels: Levels :: Complete(levels) ==> SCORE_MIN <= ArticleScore(w, Some(levels)) <= SCORE_MAX)
       <==> Hides(w)
  {
    var least := RoundTenth(Stretch(Negative(w, DIMENSIONS)));
    var most := RoundTenth(Stretch(Total(w, DIMENSIONS) - Negative(w, DIMENSIONS)));
    RoundsToOneOrMoreIff(Stretch(Negative(w, DIMENSIONS)));
    RoundsToTenOrLessIff(Stretch(Total(w, DIMENSIONS) - Negative(w, DIMENSIONS)));
    assert Hides(w) <==> SCORE_MIN <= least && most <= SCORE_MAX;
    var lowest, highest := ExtremeScores(w);
    hide RoundTenth, Hides, Total, Negative;
    forall levels: Levels | Complete(levels) ensures least <= ArticleScore(w, Some(levels)) <= most {
      ScoreBetween(w, levels);
    }
  }

  lemma ExtremeScores(w: Weights) returns (lowest: Levels, highest: Levels)
    requires Validated(w)
    ensures Complete(lowest) && ArticleScore(w, Some(lowest)) == RoundTenth(Stretch(Negative(w, DIMENSIONS)))
    ensures Complete(highest)
    ensures ArticleScore(w, Some(highest)) == RoundTenth(Stretch(Total(w, DIMENSIONS) - Negative(w, DIMENSIONS)))
  {
    UnitOfSplit(w, DIMENSIONS);
    lowest, highest := Split(w, VeryHigh, VeryLow), Split(w, VeryLow, VeryHigh);
  }

  /** All the weight on the second dimension but for `x`, which the first has below zero. */
  function Skewed(x: real): Weights {
    map d | d in DIMENSIONS :: if d == DIMENSIONS[0] then -x else if d == DIMENSIONS[1] then 1.0 + x else 0.0
  }

  lemma SkewedSums(x: real)
    requires x > 0.0
    ensures Validated(Skewed(x)) && Negative(Skewed(x), DIMENSIONS) == -x && Total(Skewed(x), DIMENSIONS) == 1.0
  {
    var w := Skewed(x);
    assert DIMENSIONS[0] in w && DIMENSIONS[1] in w;
    calc {
      Total(w, DIMENSIONS);
      w[DIMENSIONS[0]] + Total(w, DIMENSIONS[1..]);
      { assert DIMENSIONS[1..][0] == DIMENSIONS[1]; }
      1.0 + Total(w, DIMENSIONS[1..][1..]);
      { NoWeightLeft(w, DIMENSIONS[1..][1..]); }
      1.0;
    }
    NoWeightLeft(w, DIMENSIONS[1..][1..]);
    assert Negative(w, DIMENSIONS) == -x + (0.0 + Negative(w, DIMENSIONS[1..][1..]));
  }

  lemma {:induction false} NoWeightLeft(w: Weights, names: seq<string>)
    requires forall d :: d in names ==> d in w && w[d] == 0.0
    ensures Total(w, names) == 0.0 && Negative(w, names) == 0.0
  {
    if names != [] {
      NoWeightLeft(w, names[1..]);
    }
  }

  /** A hundredth below zero is accepted and shows; a thousandth is accepted and does not. */
  lemma NegativeWeightsMayShow()
    ensures Validated(Skewed(0.01))
    ensures exists levels :: Complete(levels) && ArticleScore(Skewed(0.01), Some(levels)) < SCORE_MIN
    ensures Validated(Skewed(0.001)) && !NonNegative(Skewed(0.001)) && Hides(Skewed(0.001))
  {
    SkewedSums(0.01);
    SkewedSums(0.001);
    var w := Skewed(0.01);
    var levels := Split(w, VeryHigh, VeryLow);
    UnitOfSplit(w, DIMENSIONS);
    RoundsToOneOrMoreIff(Stretch(Negative(w, DIMENSIONS)));
    assert Complete(levels) && ArticleScore(w, Some(levels)) < SCORE_MIN;
    assert DIMENSIONS[0] in Skewed(0.001) && Skewed(0.001)[DIMENSIONS[0]] < 0.0;
  }

  // --- the explanation ------------------------------------------------------------------------

  type Share = (string, real)

  function Shares(w: Weights, levels: Levels, names: seq<string>): seq<Share>
    requires forall d :: d in names ==> d in w && d in levels
  {
    if names == [] then [] else [(names[0], Contribution(w, levels, names[0]))] + Shares(w, levels, names[1..])
  }

  predicate LargerFirst(a: Share, b: Share) {
    a.1 >= b.1
  }

  function ScoreContributions(w: Weights, levels: Option<Levels>): seq<Share>
    requires Validated(w) && (levels.Some? ==> Complete(levels.value))
  {
    if levels.None? then [] else Sort(LargerFirst, Shares(w, levels.value, DIMENSIONS))
  }

  function SumShares(s: seq<Share>): real {
    if s == [] then 0.0 else s[0].1 + SumShares(s[1..])
  }

  lemma {:induction false} InsertAddsShare(x: Share, s: seq<Share>)
    ensures SumShares(Insert(LargerFirst, x, s)) == x.1 + SumShares(s)
  {
    if s == [] || LargerFirst(x, s[0]) {
      assert ([x] + s)[1..] == s;
    } else {
      InsertAddsShare(x, s[1..]);
    }
  }

  lemma {:induction false} SortKeepsSum(s: seq<Share>)
    ensures SumShares(Sort(LargerFirst, s)) == SumShares(s)
  {
    if s != [] {
      SortKeepsSum(s[1..]);
      InsertAddsShare(s[0], Sort(LargerFirst, s[1..]));
    }
  }

  lemma {:induction false} SharesSumToUnit(w: Weights, levels: Levels, names: seq<string>)
    requires forall d :: d in names ==> d in w && d in levels
    ensures SumShares(Shares(w, levels, names)) == Unit(w, levels, names)
  {
    if names != [] {
      SharesSumToUnit(w, levels, names[1..]);
    }
  }

  /** The hover explains the number on the card: each dimension's share, largest first, adding up to it. */
  lemma ContributionsExplainTheScore(w: Weights, levels: Levels)
    requires Validated(w) && Complete(levels)
    ensures var shares := ScoreContributions(w, Some(levels));
            && multiset(shares) == multiset(Shares(w, levels, DIMENSIONS))
            && Sorted(LargerFirst, shares)
            && ArticleScore(w, Some(levels)) == RoundTenth(Stretch(SumShares(shares)))
  {
    SortSorts(LargerFirst, Shares(w, levels, DIMENSIONS));
    SortKeepsSum(Shares(w, levels, DIMENSIONS));
    SharesSumToUnit(w, levels, DIMENSIONS);
  }

  // --- what is stored -------------------------------------------------------------------------

  ghost predicate StoredAs(stored: Columns, level: string) {
    forall d :: d in DIMENSIONS ==> d in stored && stored[d] == level
  }

  lemma RoundsToFour(x: real)
    requires 3.96 <= x <= 3.98
    ensures RoundTenth(x) == 4.0
  {
    RoundIsMonotone(3.96, x);
    RoundIsMonotone(x, 3.98);
    assert (3.96 * 10.0).Floor == 39 && (3.98 * 10.0).Floor == 39;
  }

  lemma RoundsToSeven(x: real)
    requires 7.02 <= x <= 7.04
    ensures RoundTenth(x) == 7.0
  {
    RoundIsMonotone(7.02, x);
    RoundIsMonotone(x, 7.04);
    assert (7.02 * 10.0).Floor == 70 && (7.04 * 10.0).Floor == 70;
  }

  /** The scale as the columns spell it: the four levels show 1, 4, 7 and 10, whatever the weights. */
  lemma LevelsOnTheScale(w: Weights, stored: Columns)
    requires Validated(w)
    ensures StoredAs(stored, "very_low") ==> ArticleScore(w, LevelsOf(stored)) == 1.0
    ensures StoredAs(stored, "low") ==> ArticleScore(w, LevelsOf(stored)) == 4.0
    ensures StoredAs(stored, "high") ==> ArticleScore(w, LevelsOf(stored)) == 7.0
    ensures StoredAs(stored, "very_high") ==> ArticleScore(w, LevelsOf(stored)) == 10.0
    ensures (exists d :: d in DIMENSIONS && d !in stored) ==> LevelsOf(stored) == None
  {
    if StoredAs(stored, "low") {
      LowShowsFour(w, LevelsOf(stored).value);
    }
    if StoredAs(stored, "high") {
      HighShowsSeven(w, LevelsOf(stored).value);
    }
    if StoredAs(stored, "very_low") || StoredAs(stored, "very_high") {
      EndsOfTheScale(w, LevelsOf(stored).value);
    }
  }

  lemma LowShowsFour(w: Weights, levels: Levels)
    requires Validated(w) && Complete(levels) && forall d :: d in DIMENSIONS ==> levels[d] == Low
    ensures ArticleScore(w, Some(levels)) == 4.0
  {
    UnitOfConstant(w, levels, Low, DIMENSIONS);
    RoundsToFour(Stretch(Total(w, DIMENSIONS) * 0.33));
  }

  lemma HighShowsSeven(w: Weights, levels: Levels)
    requires Validated(w) && Complete(levels) && forall d :: d in DIMENSIONS ==> levels[d] == High
    ensures ArticleScore(w, Some(levels)) == 7.0
  {
    UnitOfConstant(w, levels, High, DIMENSIONS);
    RoundsToSeven(Stretch(Total(w, DIMENSIONS) * 0.67));
  }

  lemma {:induction false} UnitOfOne(w: Weights, levels: Levels, names: seq<string>, d: string)
    requires forall n :: n in names ==> n in w && n in levels
    requires forall i, j :: 0 <= i < j < |names| ==> names[i] != names[j]
    requires forall n :: n in names && n != d ==> levels[n] == VeryLow
    ensures Unit(w, levels, names) == if d in names then Contribution(w, levels, d) else 0.0
  {
    if names != [] {
      UnitOfOne(w, levels, names[1..], d);
      assert names == [names[0]] + names[1..];
      assert names[0] !in names[1..];
    }
  }

  /** Each dimension counts with its own weight: a story very high on it alone scores by that weight. */
  lemma OneDimensionSpeaks(w: Weights, levels: Levels, d: string)
    requires Validated(w) && Complete(levels) && d in DIMENSIONS && levels[d] == VeryHigh
    requires forall n :: n in DIMENSIONS && n != d ==> levels[n] == VeryLow
    ensures ArticleScore(w, Some(levels)) == RoundTenth(1.0 + 9.0 * w[d])
  {
    UnitOfOne(w, levels, DIMENSIONS, d);
  }

  /** A score shown is a number of tenths, the nearest one, and of two equally near the even one. */
  lemma RoundIsNearest(x: real) returns (tenths: int)
    ensures RoundTenth(x) == tenths as real / 10.0
    ensures -0.5 <= tenths as real - x * 10.0 <= 0.5
    ensures tenths as real - x * 10.0 in {-0.5, 0.5} ==> tenths % 2 == 0
  {
    var t := (x * 10.0).Floor;
    var rest := x * 10.0 - t as real;
    tenths := if rest < 0.5 || (rest == 0.5 && t % 2 == 0) then t else t + 1;
  }
}
