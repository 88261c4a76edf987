/** How the migration scores an opportunity. */
module OpportunityScore {
  import opened Options

  /** The natural logarithm is a parameter; the formula divides by its value at 100001. */
  type Logarithm = f: real -> real | f(100001.0) > 0.0 witness (x: real) => x

  function Least(a: real, b: real): real {
    if a <= b then a else b
  }

  /** The nearest number of hundredths, halves up. */
  function Hundredths(x: real): int {
    (x * 100.0 + 0.5).Floor
  }

  /** `round(numeric, 2)`: halves are rounded away from zero. */
  function Round2(x: real): real {
    if x >= 0.0 then Hundredths(x) as real / 100.0 else -(Hundredths(-x) as real / 100.0)
  }

  function VolumePart(ln: Logarithm, volume: Option<int>): real {
    if volume.None? || volume.value <= 0 then 0.0
    else Least(45.0, ln((volume.value + 1) as real) / ln(100001.0) * 45.0)
  }

  function DifficultyPart(difficulty: Option<int>): real {
    if difficulty.None? then 15.0 else (100 - difficulty.value) as real / 100.0 * 30.0
  }

  function CountPart(count: nat): real {
    Least(count as real, 5.0) / 5.0 * 15.0
  }

  function RankPart(rank: Option<int>): real {
    if rank.None? then 0.0 else (101.0 - Least(rank.value as real, 100.0)) / 100.0 * 10.0
  }

  function Score(ln: Logarithm, volume: Option<int>, difficulty: Option<int>, rank: Option<int>, count: nat): real {
    Least(100.0, Round2(VolumePart(ln, volume) + DifficultyPart(difficulty) + CountPart(count) + RankPart(rank)))
  }

  // ----- What the score means ------------------------------------------------------

  ghost predicate IsIncreasing(ln: Logarithm) {
    ln(1.0) == 0.0 && forall x: real, y: real | 0.0 < x <= y :: ln(x) <= ln(y)
  }

  lemma HundredthsAreClose(x: real)
    ensures -0.005 <= Hundredths(x) as real / 100.0 - x <= 0.005
    ensures x >= 0.0 ==> Hundredths(x) >= 0
  {
    var a := x * 100.0 + 0.5;
    assert a.Floor as real <= a < a.Floor as real + 1.0;
  }

  lemma HundredthsKeepOrder(x: real, y: real)
    requires x <= y
    ensures Hundredths(x) <= Hundredths(y)
  {
    var a, b := x * 100.0 + 0.5, y * 100.0 + 0.5;
    assert a.Floor as real <= a <= b < b.Floor as real + 1.0;
  }

  /** A rounded value is within half a hundredth, and rounding keeps the order. */
  lemma RoundingIsClose(x: real, y: real)
    ensures -0.005 <= Round2(x) - x <= 0.005
    ensures x <= y ==> Round2(x) <= Round2(y)
  {
    HundredthsAreClose(x);
    HundredthsAreClose(-x);
    HundredthsAreClose(y);
    if 0.0 <= x <= y {
      HundredthsKeepOrder(x, y);
    } else if x <= y < 0.0 {
      HundredthsKeepOrder(-y, -x);
    }
  }

  lemma DivisionKeepsOrder(x: real, y: real, unit: real)
    requires x <= y && unit > 0.0
    ensures x / unit <= y / unit
  {
    assert y / unit - x / unit == (y - x) / unit;
  }

  /** More searches do not lower the volume part, which lies between 0 and 45. */
  lemma VolumePartIncreases(ln: Logarithm, v: int, w: int)
    requires IsIncreasing(ln) && v <= w
    ensures 0.0 <= VolumePart(ln, Some(v)) <= VolumePart(ln, Some(w)) <= 45.0
  {
    if v > 0 {
      DivisionKeepsOrder(ln(1.0), ln((v + 1) as real), ln(100001.0));
      DivisionKeepsOrder(ln((v + 1) as real), ln((w + 1) as real), ln(100001.0));
    } else if w > 0 {
      DivisionKeepsOrder(ln(1.0), ln((w + 1) as real), ln(100001.0));
    }
  }

  /** A missing volume counts like none. */
  function Searches(volume: Option<int>): int {
    if volume.Some? then volume.value else 0
  }

  /** The order in which ranks get better; no rank is worse than any. */
  predicate RanksNoWorse(a: Option<int>, b: Option<int>) {
    b.None? || (a.Some? && a.value <= b.value)
  }

  /** An opportunity that is no worse in any respect scores no less. */
  lemma ScoreIsMonotone(
    ln: Logarithm, volume: Option<int>, difficulty: int, rank: Option<int>, count: nat,
    volume': Option<int>, difficulty': int, rank': Option<int>, count': nat)
    requires IsIncreasing(ln)
    requires Searches(volume) <= Searches(volume') && difficulty' <= difficulty
    requires RanksNoWorse(rank', rank) && count <= count'
    ensures Score(ln, volume, Some(difficulty), rank, count) <= Score(ln, volume', Some(difficulty'), rank', count')
  {
    VolumePartIncreases(ln, Searches(volume), Searches(volume'));
    RoundingIsClose(
      VolumePart(ln, volume) + DifficultyPart(Some(difficulty)) + CountPart(count) + RankPart(rank),
      VolumePart(ln, volume') + DifficultyPart(Some(difficulty')) + CountPart(count') + RankPart(rank'));
  }

  /** The score never exceeds 100, and it is not negative when the difficulty is at most 100. */
  lemma ScoreIsInRange(ln: Logarithm, volume: Option<int>, difficulty: Option<int>, rank: Option<int>, count: nat)
    requires IsIncreasing(ln)
    ensures Score(ln, volume, difficulty, rank, count) <= 100.0
    ensures difficulty.None? || difficulty.value <= 100 ==> 0.0 <= Score(ln, volume, difficulty, rank, count)
  {
    VolumePartIncreases(ln, Searches(volume), Searches(volume));
    RoundingIsClose(0.0, VolumePart(ln, volume) + DifficultyPart(difficulty) + CountPart(count) + RankPart(rank));
  }

  // ----- What a score is -----------------------------------------------------------

  lemma TenthsStay(k: int)
    ensures Round2(k as real / 10.0) == k as real / 10.0
  {
    if k >= 0 {
      assert k as real / 10.0 * 100.0 + 0.5 == (10 * k) as real + 0.5;
      assert Hundredths(k as real / 10.0) == 10 * k;
    } else {
      assert -(k as real / 10.0) * 100.0 + 0.5 == (-10 * k) as real + 0.5;
      assert Hundredths(-(k as real / 10.0)) == -10 * k;
    }
  }

  /** Thirty points for the lowest difficulty, 0.3 less for each step; none counts as 50. Three
      points for each competitor up to the fifth. 0.1 for each rank from 100 up to the first. In
      tenths of a point. */
  function Tenths(difficulty: Option<int>, rank: Option<int>, count: nat): int {
    3 * (100 - if difficulty.Some? then difficulty.value else 50)
    + 30 * (if count < 5 then count else 5)
    + (if rank.None? then 0 else if rank.value >= 100 then 1 else 101 - rank.value)
  }

  lemma PartsInTenths(difficulty: Option<int>, rank: Option<int>, count: nat)
    ensures DifficultyPart(difficulty) + CountPart(count) + RankPart(rank) ==
            Tenths(difficulty, rank, count) as real / 10.0
  {
    assert CountPart(count) == (if count < 5 then count else 5) as real * 3.0;
  }

  /** Without searches the score is those points, at most 100. */
  lemma ScoreWithoutVolume(ln: Logarithm, volume: Option<int>, difficulty: Option<int>, rank: Option<int>, count: nat)
    requires volume.None? || volume.value <= 0
    ensures var tenths := Tenths(difficulty, rank, count);
            Score(ln, volume, difficulty, rank, count) == if tenths <= 1000 then tenths as real / 10.0 else 100.0
  {
    PartsInTenths(difficulty, rank, count);
    TenthsStay(Tenths(difficulty, rank, count));
  }

  /** From 100000 searches on there are 45 points more. */
  lemma ScoreWithFullVolume(ln: Logarithm, volume: int, difficulty: Option<int>, rank: Option<int>, count: nat)
    requires IsIncreasing(ln) && volume >= 100_000
    ensures var tenths := 450 + Tenths(difficulty, rank, count);
            Score(ln, Some(volume), difficulty, rank, count) == if tenths <= 1000 then tenths as real / 10.0 else 100.0
  {
    DivisionKeepsOrder(ln(100001.0), ln((volume + 1) as real), ln(100001.0));
    assert VolumePart(ln, Some(volume)) == 45.0;
    PartsInTenths(difficulty, rank, count);
    TenthsStay(450 + Tenths(difficulty, rank, count));
  }

  /** In between, the share of the 45 points is that of the logarithms, up to rounding. */
  lemma ScoreWithVolume(ln: Logarithm, volume: int, difficulty: Option<int>, rank: Option<int>, count: nat)
    requires IsIncreasing(ln) && 0 < volume <= 100_000
    ensures var share := ln((volume + 1) as real) / ln(100001.0);
            var points := share * 45.0 + Tenths(difficulty, rank, count) as real / 10.0;
            var score := Score(ln, Some(volume), difficulty, rank, count);
            if score < 100.0 then -0.005 <= score - points <= 0.005 else score == 100.0 && points >= 99.995
  {
    DivisionKeepsOrder(ln((volume + 1) as real), ln(100001.0), ln(100001.0));
    PartsInTenths(difficulty, rank, count);
    var points := ln((volume + 1) as real) / ln(100001.0) * 45.0 + Tenths(difficulty, rank, count) as real / 10.0;
    assert VolumePart(ln, Some(volume)) == ln((volume + 1) as real) / ln(100001.0) * 45.0;
    RoundingIsClose(points, points);
  }

  /** The best score there is, and the score of an opportunity of which nothing is known. */
  lemma BestAndUnknownScores(ln: Logarithm)
    requires IsIncreasing(ln)
    ensures Score(ln, Some(100_000), Some(0), Some(1), 5) == 100.0
    ensures Score(ln, None, None, None, 0) == 15.0
  {
    ScoreWithFullVolume(ln, 100_000, Some(0), Some(1), 5);
    ScoreWithoutVolume(ln, None, None, None, 0);
  }

  /** There are such functions. */
  lemma SomeLogarithmIncreases() returns (ln: Logarithm)
    ensures IsIncreasing(ln)
  {
    ln := (x: real) => x - 1.0;
  }
}
