/**
 * Folding a submitted score into the learner's profile (src/pages/Quiz.tsx,
 * the `profiles` update of `submitQuiz`): the new point total and the level
 * derived from it, one level per hundred points starting at level 1.
 */
module Progression {
  import opened Optional

  const PointsPerLevel := 100

  /** `Math.floor(points / 100) + 1`. Dafny's `/` by a positive divisor rounds
      toward negative infinity, as `Math.floor` does. */
  function Level(points: int): (l: int)
    ensures PointsPerLevel * (l - 1) <= points < PointsPerLevel * l
  {
    points / PointsPerLevel + 1
  }

  /** Points and level as written back to the profile row. */
  datatype Standing = Standing(points: int, level: int)

  /** The profile update after a submission: skipped when the profile row
      could not be read back, otherwise the score is added to the points read
      and the level recomputed from the new total. */
  function Credit(profilePoints: Option<int>, finalScore: int): (r: Option<Standing>)
    ensures r.Some? <==> profilePoints.Some?
    ensures r.Some? ==> r.value.points - profilePoints.value == finalScore
    ensures r.Some? ==> PointsPerLevel * (r.value.level - 1) <= r.value.points < PointsPerLevel * r.value.level
  {
    match profilePoints
    case None => None
    case Some(current) =>
      var newPoints := current + finalScore;
      Some(Standing(newPoints, Level(newPoints)))
  }

  /** The level is at least 1 for any non-negative point total. */
  lemma LevelAtLeastOne(points: int)
    requires points >= 0
    ensures Level(points) >= 1
  {
  }

  /** More points never mean a lower level. */
  lemma LevelMonotone(p: int, q: int)
    requires p <= q
    ensures Level(p) <= Level(q)
  {
  }

  /** A non-negative score never lowers the points or the level, and the
      stored level stays the one derived from the stored points. */
  lemma CreditNeverLowers(oldPoints: int, finalScore: int)
    requires finalScore >= 0
    ensures Credit(Some(oldPoints), finalScore).Some?
    ensures Credit(Some(oldPoints), finalScore).value.points >= oldPoints
    ensures Credit(Some(oldPoints), finalScore).value.level >= Level(oldPoints)
    ensures Credit(Some(oldPoints), finalScore).value.level == Level(Credit(Some(oldPoints), finalScore).value.points)
    ensures oldPoints >= 0 ==> Credit(Some(oldPoints), finalScore).value.level >= 1
  {
    LevelMonotone(oldPoints, oldPoints + finalScore);
  }

  /** A learner at 95 points who scores 10 moves to 105 points and level 2. */
  lemma CreditCrossesLevel()
    ensures Credit(Some(95), 10) == Some(Standing(105, 2))
  {
  }
}
