/** The client-side statistics over a user's biometric entries: per-metric value lists,
    their rounded averages and maxima, and the split of the entries into chronological
    buckets ("weeks") with one set of averages per bucket. */
module UseBiometrics {
  import opened Collections
  import opened JsBuiltins
  import opened Schema

  datatype Metric = SleepQuality | EnergyLevel | StressLevel | FocusLevel | MoodLevel

  function Reading(r: Readings, m: Metric): Option<int>
  {
    match m
    case SleepQuality => r.sleepQuality
    case EnergyLevel => r.energyLevel
    case StressLevel => r.stressLevel
    case FocusLevel => r.focusLevel
    case MoodLevel => r.moodLevel
  }

  /** The values of metric `m` over `bs`, in order, skipping the entries where it is absent. */
  function Collected(bs: seq<Biometric>, m: Metric): (r: seq<int>)
    ensures |r| <= |bs|
  {
    if bs == [] then []
    else
      var last := Reading(bs[|bs| - 1].readings, m);
      Collected(bs[..|bs| - 1], m) + (if last.Some? then [last.value] else [])
  }

  /** A value is collected exactly when some entry holds it. */
  lemma {:induction false} CollectedValues(bs: seq<Biometric>, m: Metric, v: int)
    ensures v in Collected(bs, m) <==> exists k :: 0 <= k < |bs| && Reading(bs[k].readings, m) == Some(v)
  {
    if bs != [] {
      var init := bs[..|bs| - 1];
      CollectedValues(init, m, v);
      if exists k :: 0 <= k < |init| && Reading(init[k].readings, m) == Some(v) {
        var k :| 0 <= k < |init| && Reading(init[k].readings, m) == Some(v);
        assert bs[k] == init[k];
      }
      if exists k :: 0 <= k < |bs| && Reading(bs[k].readings, m) == Some(v) {
        var k :| 0 <= k < |bs| && Reading(bs[k].readings, m) == Some(v);
        if k < |init| {
          assert init[k] == bs[k];
        }
      }
    }
  }

  /** When every entry has the metric, one value is collected per entry. */
  lemma {:induction false} CollectedAllPresent(bs: seq<Biometric>, m: Metric)
    requires forall k :: 0 <= k < |bs| ==> Reading(bs[k].readings, m).Some?
    ensures |Collected(bs, m)| == |bs|
  {
    if bs != [] {
      CollectedAllPresent(bs[..|bs| - 1], m);
    }
  }

  /** Collecting distributes over concatenation. */
  lemma {:induction false} CollectedAppend(a: seq<Biometric>, b: seq<Biometric>, m: Metric)
    ensures Collected(a + b, m) == Collected(a, m) + Collected(b, m)
    decreases |b|
  {
    if b == [] {
      assert a + b == a;
    } else {
      CollectedAppend(a, b[..|b| - 1], m);
      assert (a + b)[..|a + b| - 1] == a + b[..|b| - 1];
      assert (a + b)[|a + b| - 1] == b[|b| - 1];
    }
  }

  /** The five value lists of `calculateMetrics`. */
  datatype MetricLists = MetricLists(sleep: seq<int>, energy: seq<int>, stress: seq<int>,
                                     focus: seq<int>, mood: seq<int>)

  function ListsOf(bs: seq<Biometric>): MetricLists
  {
    MetricLists(Collected(bs, SleepQuality), Collected(bs, EnergyLevel), Collected(bs, StressLevel),
                Collected(bs, FocusLevel), Collected(bs, MoodLevel))
  }

  /** The `forEach` that pushes each present metric value onto its list. */
  method CollectMetrics(bs: seq<Biometric>) returns (lists: MetricLists)
    ensures lists == ListsOf(bs)
  {
    lists := MetricLists([], [], [], [], []);
    var i := 0;
    while i < |bs|
      invariant 0 <= i <= |bs|
      invariant lists == ListsOf(bs[..i])
    {
      assert bs[..i + 1][..i] == bs[..i];
      var r := bs[i].readings;
      if r.sleepQuality.Some? { lists := lists.(sleep := lists.sleep + [r.sleepQuality.value]); }
      if r.energyLevel.Some? { lists := lists.(energy := lists.energy + [r.energyLevel.value]); }
      if r.stressLevel.Some? { lists := lists.(stress := lists.stress + [r.stressLevel.value]); }
      if r.focusLevel.Some? { lists := lists.(focus := lists.focus + [r.focusLevel.value]); }
      if r.moodLevel.Some? { lists := lists.(mood := lists.mood + [r.moodLevel.value]); }
      i := i + 1;
    }
    assert bs[..i] == bs;
  }

  function Sum(s: seq<int>): int
  {
    if s == [] then 0 else Sum(s[..|s| - 1]) + s[|s| - 1]
  }

  function SeqMin(s: seq<int>): (r: int)
    requires s != []
    ensures r in s && forall k :: 0 <= k < |s| ==> r <= s[k]
  {
    if |s| == 1 then s[0]
    else
      var m := SeqMin(s[..|s| - 1]);
      assert forall k :: 0 <= k < |s| - 1 ==> s[..|s| - 1][k] == s[k];
      if s[|s| - 1] < m then s[|s| - 1] else m
  }

  function SeqMax(s: seq<int>): (r: int)
    requires s != []
    ensures r in s && forall k :: 0 <= k < |s| ==> s[k] <= r
  {
    if |s| == 1 then s[0]
    else
      var m := SeqMax(s[..|s| - 1]);
      assert forall k :: 0 <= k < |s| - 1 ==> s[..|s| - 1][k] == s[k];
      if s[|s| - 1] > m then s[|s| - 1] else m
  }

  /** `calculateAverage`: 0 for no values, otherwise the mean rounded half up. */
  function CalculateAverage(values: seq<int>): (r: int)
    ensures values == [] ==> r == 0
    ensures values != [] ==> |values| * (2 * r - 1) <= 2 * Sum(values) < |values| * (2 * r + 1)
  {
    if |values| == 0 then 0 else RoundDiv(Sum(values), |values|)
  }

  lemma {:induction false} SumBounds(s: seq<int>, lo: int, hi: int)
    requires forall k :: 0 <= k < |s| ==> lo <= s[k] <= hi
    ensures |s| * lo <= Sum(s) <= |s| * hi
  {
    if s != [] {
      SumBounds(s[..|s| - 1], lo, hi);
    }
  }

  /** The average of a non-empty list lies between its smallest and largest value. */
  lemma AverageBetweenMinAndMax(values: seq<int>)
    requires values != []
    ensures SeqMin(values) <= CalculateAverage(values) <= SeqMax(values)
  {
    SumBounds(values, SeqMin(values), SeqMax(values));
    RoundedBetween(|values|, Sum(values), CalculateAverage(values), SeqMin(values), SeqMax(values));
  }

  /** A quotient rounded to the nearest integer stays within integer bounds of the quotient. */
  lemma RoundedBetween(n: int, sum: int, r: int, lo: int, hi: int)
    requires n > 0
    requires n * lo <= sum <= n * hi
    requires n * (2 * r - 1) <= 2 * sum < n * (2 * r + 1)
    ensures lo <= r <= hi
  {
    assert n * (2 * hi) == 2 * (n * hi);
    assert n * (2 * lo) == 2 * (n * lo);
    MulOrder(n, 2 * r - 1, 2 * hi);
    MulOrder(n, 2 * lo, 2 * r + 1);
  }

  /** Multiplying by a positive factor keeps the order. */
  lemma MulOrder(n: int, x: int, y: int)
    requires n > 0
    ensures x < y <==> n * x < n * y
    ensures x <= y <==> n * x <= n * y
  {
    if x < y {
      assert n * y - n * x == n * (y - x);
    } else {
      assert n * x - n * y == n * (x - y);
    }
  }

  /** `Math.max(...values, 0)`. */
  function MaxWith0(values: seq<int>): (r: int)
    ensures r >= 0
    ensures forall k :: 0 <= k < |values| ==> values[k] <= r
    ensures r == 0 || r in values
  {
    if values == [] then 0 else Max(SeqMax(values), 0)
  }

  /** No data gives 0. */
  lemma MaxWith0Empty()
    ensures MaxWith0([]) == 0
  {
  }

  /** Averages, maxima or per-bucket averages of the five metrics. */
  datatype MetricSummary = MetricSummary(sleep: int, energy: int, stress: int, focus: int, mood: int)

  function AveragesOf(l: MetricLists): MetricSummary
  {
    MetricSummary(CalculateAverage(l.sleep), CalculateAverage(l.energy), CalculateAverage(l.stress),
                  CalculateAverage(l.focus), CalculateAverage(l.mood))
  }

  function HighestOf(l: MetricLists): MetricSummary
  {
    MetricSummary(MaxWith0(l.sleep), MaxWith0(l.energy), MaxWith0(l.stress),
                  MaxWith0(l.focus), MaxWith0(l.mood))
  }

  /** The buckets laid end to end. */
  function Flatten(buckets: seq<seq<Biometric>>): seq<Biometric>
  {
    if buckets == [] then [] else Flatten(buckets[..|buckets| - 1]) + buckets[|buckets| - 1]
  }

  lemma {:induction false} FlattenAllEmpty(buckets: seq<seq<Biometric>>)
    requires forall k :: 0 <= k < |buckets| ==> buckets[k] == []
    ensures Flatten(buckets) == []
  {
    if buckets != [] {
      FlattenAllEmpty(buckets[..|buckets| - 1]);
    }
  }

  /** The bucket that starts at entry `start`: up to `chunk` entries, none past the end. */
  function Piece(sorted: seq<Biometric>, start: nat, chunk: nat): (r: seq<Biometric>)
    ensures |r| <= chunk
    ensures start < |sorted| ==> r != [] || chunk == 0
    ensures start + chunk <= |sorted| ==> |r| == chunk
  {
    if start < |sorted| then sorted[start..Min(start + chunk, |sorted|)] else []
  }

  /** What the buckets filled so far satisfy once the next one would start at `start`. */
  ghost predicate SplitSoFar(done: seq<seq<Biometric>>, sorted: seq<Biometric>, chunk: nat, start: nat)
  {
    && Flatten(done) == sorted[..Min(start, |sorted|)]
    && (forall k :: 0 <= k < |done| ==> |done[k]| <= chunk)
    && (start <= |sorted| ==> forall k :: 0 <= k < |done| ==> |done[k]| == chunk)
    && (forall a, b :: 0 <= a < b < |done| && done[b] != [] ==> |done[a]| == chunk)
    && (forall a, b :: 0 <= a < b < |done| && done[a] == [] ==> done[b] == [])
  }

  /** One more bucket keeps `SplitSoFar`. */
  lemma SplitStep(done: seq<seq<Biometric>>, sorted: seq<Biometric>, chunk: nat, start: nat)
    requires chunk >= 1 && SplitSoFar(done, sorted, chunk, start)
    ensures SplitSoFar(done + [Piece(sorted, start, chunk)], sorted, chunk, start + chunk)
  {
    var next := done + [Piece(sorted, start, chunk)];
    assert next[..|next| - 1] == done;
    if start < |sorted| {
      var end := Min(start + chunk, |sorted|);
      assert sorted[..start] + sorted[start..end] == sorted[..end];
    }
  }

  /** `splitByWeeks`: `weeks` buckets which, laid end to end, are the entries sorted oldest
      first (ties in input order); each holds at most `ceil(n / weeks)` entries, every bucket
      before a non-empty one holds exactly that many, and after an empty bucket all are empty. */
  method SplitByWeeks(bs: seq<Biometric>, weeks: nat) returns (buckets: seq<seq<Biometric>>)
    ensures |buckets| == weeks
    ensures bs == [] ==> forall k :: 0 <= k < weeks ==> buckets[k] == []
    ensures weeks >= 1 ==> Flatten(buckets) == SortByKey(bs, BiometricDate)
    ensures weeks >= 1 ==> forall k :: 0 <= k < weeks ==> |buckets[k]| <= CeilDiv(|bs|, weeks)
    ensures weeks >= 1 ==> forall i, j :: 0 <= i < j < weeks && buckets[j] != [] ==>
      |buckets[i]| == CeilDiv(|bs|, weeks)
    ensures forall i, j :: 0 <= i < j < weeks && buckets[i] == [] ==> buckets[j] == []
  {
    if |bs| == 0 || weeks == 0 {
      var result := new seq<Biometric>[weeks](_ => []);
      buckets := result[..];
      FlattenAllEmpty(buckets);
      return;
    }
    var sorted := SortByKey(bs, BiometricDate);
    var chunk := CeilDiv(|sorted|, weeks);
    buckets := FillBuckets(sorted, weeks, chunk);
    SplitComplete(buckets, sorted, weeks, chunk);
  }

  /** Once `weeks` buckets of `ceil(n / weeks)` have been filled, every entry is placed. */
  lemma SplitComplete(buckets: seq<seq<Biometric>>, sorted: seq<Biometric>, weeks: nat, chunk: nat)
    requires weeks >= 1 && chunk == CeilDiv(|sorted|, weeks)
    requires |buckets| == weeks && SplitSoFar(buckets, sorted, chunk, weeks * chunk)
    ensures Flatten(buckets) == sorted
    ensures forall k :: 0 <= k < weeks ==> |buckets[k]| <= chunk
    ensures forall i, j :: 0 <= i < j < weeks && buckets[j] != [] ==> |buckets[i]| == chunk
    ensures forall i, j :: 0 <= i < j < weeks && buckets[i] == [] ==> buckets[j] == []
  {
    assert Min(weeks * chunk, |sorted|) == |sorted|;
  }

  lemma MulSucc(i: nat, chunk: nat)
    ensures (i + 1) * chunk == i * chunk + chunk
  {
  }

  /** The loop of `splitByWeeks` over the pre-sorted entries. */
  method FillBuckets(sorted: seq<Biometric>, weeks: nat, chunk: nat) returns (buckets: seq<seq<Biometric>>)
    requires chunk >= 1
    ensures |buckets| == weeks
    ensures SplitSoFar(buckets, sorted, chunk, weeks * chunk)
  {
    var result := new seq<Biometric>[weeks](_ => []);
    var n := |sorted|;
    var i, start := 0, 0;
    while i < weeks
      invariant 0 <= i <= weeks && start == i * chunk
      invariant forall k :: i <= k < weeks ==> result[k] == []
      invariant SplitSoFar(result[..i], sorted, chunk, start)
    {
      ghost var done := result[..i];
      var piece: seq<Biometric> := [];
      if start < n {
        piece := sorted[start..Min(start + chunk, n)];
        result[i] := piece;
      }
      assert piece == Piece(sorted, start, chunk);
      assert result[..i + 1] == done + [piece];
      SplitStep(done, sorted, chunk, start);
      MulSucc(i, chunk);
      i, start := i + 1, start + chunk;
    }
    buckets := result[..];
    assert buckets == result[..i];
  }

  /** The dashboard's statistics: averages and maxima over all entries, and the averages of
      each of four buckets. */
  datatype Metrics = Metrics(averages: MetricSummary, highest: MetricSummary, weeklyAverages: seq<MetricSummary>)

  /** The averages of each bucket, in bucket order. */
  method WeeklyAverages(buckets: seq<seq<Biometric>>) returns (weekly: seq<MetricSummary>)
    ensures |weekly| == |buckets|
    ensures forall k :: 0 <= k < |buckets| ==> weekly[k] == AveragesOf(ListsOf(buckets[k]))
  {
    weekly := [];
    var i := 0;
    while i < |buckets|
      invariant 0 <= i <= |buckets|
      invariant |weekly| == i
      invariant forall k :: 0 <= k < i ==> weekly[k] == AveragesOf(ListsOf(buckets[k]))
    {
      var weekLists := CollectMetrics(buckets[i]);
      weekly := weekly + [AveragesOf(weekLists)];
      i := i + 1;
    }
  }

  /** `calculateMetrics`, without the consistency figures. */
  method CalculateMetrics(bs: seq<Biometric>) returns (m: Metrics)
    ensures m.averages == AveragesOf(ListsOf(bs))
    ensures m.highest == HighestOf(ListsOf(bs))
    ensures |m.weeklyAverages| == 4
    ensures exists buckets: seq<seq<Biometric>> ::
      && |buckets| == 4 && Flatten(buckets) == SortByKey(bs, BiometricDate)
      && (forall k :: 0 <= k < 4 ==> |buckets[k]| <= CeilDiv(|bs|, 4))
      && (forall i, j :: 0 <= i < j < 4 && buckets[j] != [] ==> |buckets[i]| == CeilDiv(|bs|, 4))
      && (forall i, j :: 0 <= i < j < 4 && buckets[i] == [] ==> buckets[j] == [])
      && forall k :: 0 <= k < 4 ==> m.weeklyAverages[k] == AveragesOf(ListsOf(buckets[k]))
  {
    var lists := CollectMetrics(bs);
    var byWeek := SplitByWeeks(bs, 4);
    var weekly := WeeklyAverages(byWeek);
    m := Metrics(AveragesOf(lists), HighestOf(lists), weekly);
    assert |byWeek| == 4 && Flatten(byWeek) == SortByKey(bs, BiometricDate);
  }
}
