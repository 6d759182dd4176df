/** The daily-tips card: a fixed list of four tips and a refresh button that moves to the
    next tip, wrapping around after the last. */
module DailyTips {

  datatype Tip = Tip(title: string, content: string)

  const MorningContent := "Try 5 minutes of cold exposure followed by a 10-minute meditation to boost your cognitive performance and stress resilience."
  const FocusContent := "Try the Pomodoro Technique: 25 minutes of focused work followed by a 5-minute break. Repeat 4 times, then take a longer break."
  const SleepContent := "Avoid blue light 2 hours before bed and keep your bedroom temperature between 65-68°F (18-20°C) for optimal sleep quality."
  const NutritionContent := "Consider eating your meals within an 8-10 hour window to give your digestive system time to rest and optimize metabolic health."

  const Tips: seq<Tip> := [
    Tip("Optimize Your Morning", MorningContent),
    Tip("Enhance Focus", FocusContent),
    Tip("Sleep Optimization", SleepContent),
    Tip("Nutrition Hack", NutritionContent)
  ]

  /** The index shown after `k` refreshes starting from index `start`. */
  function IndexAfter(start: nat, k: nat): (r: nat)
    requires start < |Tips|
    ensures r < |Tips|
    ensures r == (start + k) % |Tips|
  {
    if k == 0 then start else (IndexAfter(start, k - 1) + 1) % |Tips|
  }

  /** Refreshing as many times as there are tips comes back to the same tip. */
  lemma RefreshCycle(start: nat)
    requires start < |Tips|
    ensures IndexAfter(start, |Tips|) == start
  {
  }

  /** Within one cycle every tip is shown, whatever tip the cycle starts from. */
  lemma EveryTipShown(start: nat, t: nat)
    requires start < |Tips| && t < |Tips|
    ensures exists k :: 0 <= k < |Tips| && IndexAfter(start, k) == t
  {
    var k: nat := (t - start + |Tips|) % |Tips|;
    assert IndexAfter(start, k) == t;
  }

  /** The card's state: which tip is on screen. */
  class TipsCard {
    var currentTipIndex: int

    ghost predicate Valid()
      reads this
    {
      0 <= currentTipIndex < |Tips|
    }

    /** The card opens on the first tip. */
    constructor()
      ensures Valid() && currentTipIndex == 0
      ensures CurrentTip() == Tip("Optimize Your Morning", MorningContent)
    {
      currentTipIndex := 0;
    }

    /** The tip on screen. */
    function CurrentTip(): (t: Tip)
      reads this
      requires Valid()
      ensures t in Tips
    {
      Tips[currentTipIndex]
    }

    /** The refresh button: the next tip, the first again after the last. */
    method RefreshTip()
      requires Valid()
      modifies this
      ensures Valid()
      ensures currentTipIndex == IndexAfter(old(currentTipIndex), 1)
      ensures old(currentTipIndex) == |Tips| - 1 ==> currentTipIndex == 0
    {
      currentTipIndex := (currentTipIndex + 1) % |Tips|;
    }
  }
}
