/** The achievement statistics shown on the dashboard: the points summed over a user's
    achievements and how many there are. JavaScript's `+` converts a `null` points value to 0
    and an absent (`undefined`) one to `NaN`, which every later addition keeps; `None` stands
    for that `NaN`. */
module UseAchievements {
  import opened Collections
  import opened Schema

  /** What a points value adds once it is defined: the number, or 0 for `null`. */
  function PointsOr0(p: JsonInt): int
  {
    if p.Number? then p.n else 0
  }

  /** One step of the `reduce`: `sum + achievement.points`. */
  function AddPoints(sum: Option<int>, a: Achievement): (r: Option<int>)
    ensures r.Some? <==> sum.Some? && !a.points.Undefined?
    ensures r.Some? ==> r.value == sum.value + PointsOr0(a.points)
  {
    match a.points
    case Number(n) => if sum.Some? then Some(sum.value + n) else None
    case Null => sum
    case Undefined => None
  }

  /** No achievement lacks its points field. */
  predicate DefinedPoints(achievements: seq<Achievement>)
  {
    forall k :: 0 <= k < |achievements| ==> !achievements[k].points.Undefined?
  }

  /** The plain sum of the points, `null` as 0, folding from the right: the reference the
      `reduce` is held to. */
  function SumPoints(achievements: seq<Achievement>): int
  {
    if achievements == [] then 0 else PointsOr0(achievements[0].points) + SumPoints(achievements[1..])
  }

  lemma {:induction false} SumPointsAppend(a: seq<Achievement>, b: seq<Achievement>)
    ensures SumPoints(a + b) == SumPoints(a) + SumPoints(b)
  {
    if a == [] {
      assert a + b == b;
    } else {
      SumPointsAppend(a[1..], b);
      assert (a + b)[1..] == a[1..] + b;
    }
  }

  lemma DefinedPointsSnoc(init: seq<Achievement>, last: Achievement)
    ensures DefinedPoints(init + [last]) <==> DefinedPoints(init) && !last.points.Undefined?
  {
    var s := init + [last];
    if DefinedPoints(s) {
      forall k | 0 <= k < |init| ensures !init[k].points.Undefined? {
        assert init[k] == s[k];
      }
      assert s[|init|] == last;
    }
  }

  /** `achievements.reduce((sum, a) => sum + a.points, 0)`, folding from the left: a number
      exactly when no achievement lacks its points, and then the sum of the points. */
  function TotalPoints(achievements: seq<Achievement>): (r: Option<int>)
    ensures r.Some? <==> DefinedPoints(achievements)
    ensures r.Some? ==> r.value == SumPoints(achievements)
  {
    if achievements == [] then Some(0)
    else
      var init := achievements[..|achievements| - 1];
      var last := achievements[|achievements| - 1];
      assert init + [last] == achievements;
      DefinedPointsSnoc(init, last);
      SumPointsAppend(init, [last]);
      assert [last][1..] == [];
      AddPoints(TotalPoints(init), last)
  }

  /** No achievements: 0 points. */
  lemma TotalPointsEmpty()
    ensures TotalPoints([]) == Some(0)
  {
  }

  /** One achievement without a points field makes the whole total `NaN`, wherever it sits. */
  lemma MissingPointsPoisonTotal(achievements: seq<Achievement>, k: nat)
    requires k < |achievements| && achievements[k].points.Undefined?
    ensures TotalPoints(achievements).None?
  {
  }

  /** An achievement whose points are `null` adds nothing to the total. */
  lemma NullPointsAddNothing(achievements: seq<Achievement>, a: Achievement)
    requires a.points.Null?
    ensures TotalPoints(achievements + [a]) == TotalPoints(achievements)
  {
    assert (achievements + [a])[..|achievements|] == achievements;
  }

  /** `null` points next to 10 points total 10, not `NaN`. */
  lemma NullPointsExample(x: Achievement, y: Achievement)
    requires x.points == Null && y.points == Number(10)
    ensures TotalPoints([x, y]) == Some(10)
  {
    assert [x, y][..1] == [x];
    assert [x][..0] == [];
  }

  /** Points that are all non-negative give a non-negative sum. */
  lemma {:induction false} TotalPointsNonNegative(achievements: seq<Achievement>)
    requires forall k :: 0 <= k < |achievements| ==> PointsOr0(achievements[k].points) >= 0
    ensures SumPoints(achievements) >= 0
  {
    if achievements != [] {
      TotalPointsNonNegative(achievements[1..]);
    }
  }

  datatype AchievementStats = AchievementStats(totalPoints: Option<int>, completedCount: nat)

  /** The `stats` of the hook: total points and the number of achievements. */
  function Stats(achievements: seq<Achievement>): (r: AchievementStats)
    ensures r.completedCount == |achievements|
    ensures r.totalPoints.Some? <==> DefinedPoints(achievements)
    ensures r.totalPoints.Some? ==> r.totalPoints.value == SumPoints(achievements)
  {
    AchievementStats(TotalPoints(achievements), |achievements|)
  }
}
