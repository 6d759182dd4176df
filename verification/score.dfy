/** The biohack score: the rounded mean, over a window of biometric entries, of each entry's
    composite `(sleep + energy + (100 - stress) + focus + mood) / 5`, an absent metric counting
    as 0. The in-memory server store and the static-hosting mock both compute it with the same
    loop, over different windows. */
module Score {
  import opened Collections
  import opened JsBuiltins
  import opened Schema

  /** Five times an entry's composite. An absent stress level counts as 0, so the entry's
      `100 - stress` term is then 100. */
  function MetricSum(r: Readings): (m: int)
    ensures ValidReadings(r) ==> 0 <= m <= 500
  {
    Or0(r.sleepQuality) + Or0(r.energyLevel) + (100 - Or0(r.stressLevel))
      + Or0(r.focusLevel) + Or0(r.moodLevel)
  }

  /** Sum of `MetricSum` over a window, accumulated front to back. */
  function WindowSum(w: seq<Biometric>): int
  {
    if w == [] then 0 else WindowSum(w[..|w| - 1]) + MetricSum(w[|w| - 1].readings)
  }

  /** The score of a window: `None` when it is empty (the stored score is then left alone),
      otherwise the mean composite `WindowSum / (5 * |w|)` rounded to the nearest integer,
      halves up. */
  function WindowScore(w: seq<Biometric>): (r: Option<int>)
    ensures r.Some? <==> |w| > 0
    ensures r.Some? ==>
      5 * |w| * (2 * r.value - 1) <= 2 * WindowSum(w) < 5 * |w| * (2 * r.value + 1)
  {
    if |w| == 0 then None else Some(RoundDiv(WindowSum(w), 5 * |w|))
  }

  /** The `forEach` that accumulates `scoreSum` and the `Math.round` after it. */
  method ComputeScore(w: seq<Biometric>) returns (score: Option<int>)
    ensures score == WindowScore(w)
  {
    if |w| == 0 {
      return None;
    }
    var sum := 0;
    var i := 0;
    while i < |w|
      invariant 0 <= i <= |w|
      invariant sum == WindowSum(w[..i])
    {
      assert w[..i + 1][..i] == w[..i];
      sum := sum + MetricSum(w[i].readings);
      i := i + 1;
    }
    assert w[..i] == w;
    score := Some(RoundDiv(sum, 5 * |w|));
  }

  /** Every present metric lies in [0, 100] (the range the form offers; the store itself does
      not check it). */
  predicate InRange(o: Option<int>)
  {
    o.None? || 0 <= o.value <= 100
  }

  predicate ValidReadings(r: Readings)
  {
    InRange(r.sleepQuality) && InRange(r.energyLevel) && InRange(r.stressLevel)
      && InRange(r.focusLevel) && InRange(r.moodLevel)
  }

  lemma {:induction false} WindowSumBounds(w: seq<Biometric>)
    requires forall k :: 0 <= k < |w| ==> ValidReadings(w[k].readings)
    ensures 0 <= WindowSum(w) <= 500 * |w|
  {
    if w != [] {
      WindowSumBounds(w[..|w| - 1]);
    }
  }

  /** With metrics in [0, 100] every score lies in [0, 100]. */
  lemma ScoreInRange(w: seq<Biometric>)
    requires |w| > 0
    requires forall k :: 0 <= k < |w| ==> ValidReadings(w[k].readings)
    ensures 0 <= WindowScore(w).value <= 100
  {
    WindowSumBounds(w);
    var s, n, total := WindowScore(w).value, 5 * |w|, WindowSum(w);
    assert n * (2 * s - 1) <= 2 * total < n * (2 * s + 1);
    assert 0 <= total <= 100 * n;
    if s > 100 {
      MulMonotone(n, 201, 2 * s - 1);
    }
    if s < 0 {
      MulMonotone(n, 2 * s + 1, -1);
    }
  }

  lemma MulMonotone(a: int, x: int, y: int)
    requires a > 0 && x <= y
    ensures a * x <= a * y
  {
    assert a * y - a * x == a * (y - x);
  }

  lemma {:induction false} WindowSumAppend(a: seq<Biometric>, b: seq<Biometric>)
    ensures WindowSum(a + b) == WindowSum(a) + WindowSum(b)
    decreases |b|
  {
    if b != [] {
      WindowSumAppend(a, b[..|b| - 1]);
      assert (a + b)[..|a + b| - 1] == a + b[..|b| - 1];
      assert (a + b)[|a + b| - 1] == b[|b| - 1];
      assert WindowSum(a + b) == WindowSum(a + b[..|b| - 1]) + MetricSum(b[|b| - 1].readings);
      assert WindowSum(b) == WindowSum(b[..|b| - 1]) + MetricSum(b[|b| - 1].readings);
    } else {
      assert a + b == a;
    }
  }

  /** The sum, and so the score, does not depend on the order of the window. */
  lemma {:induction false} WindowSumPermutation(v: seq<Biometric>, w: seq<Biometric>)
    requires multiset(v) == multiset(w)
    ensures WindowSum(v) == WindowSum(w)
    decreases |v|
  {
    if v != [] {
      var x := v[|v| - 1];
      assert x in multiset(w);
      var k :| 0 <= k < |w| && w[k] == x;
      var rest := w[..k] + w[k + 1..];
      assert w == w[..k] + [x] + w[k + 1..];
      assert v == v[..|v| - 1] + [x];
      assert multiset(v) == multiset(v[..|v| - 1]) + multiset{x};
      assert multiset(w) == multiset(w[..k]) + multiset{x} + multiset(w[k + 1..]);
      assert multiset(rest) == multiset(w[..k]) + multiset(w[k + 1..]);
      assert multiset(v[..|v| - 1]) == multiset(v) - multiset{x};
      assert multiset(rest) == multiset(w) - multiset{x};
      WindowSumPermutation(v[..|v| - 1], rest);
      WindowSumAppend(w[..k] + [x], w[k + 1..]);
      WindowSumAppend(w[..k], [x]);
      WindowSumAppend(w[..k], w[k + 1..]);
      assert WindowSum([x]) == MetricSum(x.readings) by {
        assert [x][..0] == [];
      }
    }
  }

  lemma ScorePermutation(v: seq<Biometric>, w: seq<Biometric>)
    requires multiset(v) == multiset(w)
    ensures WindowScore(v) == WindowScore(w)
  {
    WindowSumPermutation(v, w);
    assert |v| == |multiset(v)| == |multiset(w)| == |w|;
  }

  /** One entry {sleep 80, energy 70, stress 30, focus 60, mood 75} alone in the window gives
      the score 71. */
  lemma SingleEntryScore(b: Biometric)
    requires b.readings == Readings(Some(80), Some(70), Some(30), Some(60), Some(75))
    ensures WindowScore([b]) == Some(71)
  {
    assert [b][..0] == [];
    assert MetricSum(b.readings) == 355;
    assert WindowSum([b]) == 355;
    assert RoundDiv(355, 5) == 71;
  }
}
