/** The "next goal" shown under the biohack score: the next multiple of five strictly above
    the score (at most 100), or 60 when there is no score yet. */
module BiohackScore {
  import opened Collections
  import opened JsBuiltins

  /** A score that JavaScript treats as false: missing, or 0. */
  predicate Falsy(score: Option<int>)
  {
    score.None? || score.value == 0
  }

  /** `score ? Math.min(100, Math.ceil(score / 5) * 5 + 5) : 60`. */
  function NextGoal(score: Option<int>): (goal: int)
    ensures goal <= 100
    ensures Falsy(score) ==> goal == 60
    ensures !Falsy(score) && score.value <= 95 ==> goal % 5 == 0
  {
    if Falsy(score) then 60 else Min(100, CeilDiv(score.value, 5) * 5 + 5)
  }

  /** A score of at most 95 gets a goal 5 to 9 points above it. */
  lemma GoalAboveScore(s: int)
    requires s != 0 && s <= 95
    ensures s + 5 <= NextGoal(Some(s)) <= s + 9
  {
    var c := CeilDiv(s, 5);
    assert 5 * (c - 1) < s <= 5 * c;
  }

  /** Scores above 95 are capped at the maximum goal of 100. */
  lemma GoalCapped(s: int)
    requires s > 95
    ensures NextGoal(Some(s)) == 100
  {
    var c := CeilDiv(s, 5);
    assert 5 * (c - 1) < s <= 5 * c;
  }

  /** The goal never decreases as the score rises (once there is a score). */
  lemma GoalMonotone(s: int, t: int)
    requires 0 < s <= t
    ensures NextGoal(Some(s)) <= NextGoal(Some(t))
  {
    var c, d := CeilDiv(s, 5), CeilDiv(t, 5);
    assert 5 * (c - 1) < s <= 5 * c;
    assert 5 * (d - 1) < t <= 5 * d;
  }
}
