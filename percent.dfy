/**
 * The progress percentages the client draws as bar widths and icon fills.
 * Two formulas appear: the quest bars (`DailyQuestItem`, `MonthlyReward`)
 * cap the ratio at 100 only from above, and the habit icons
 * (`calculatePercentage`, copied verbatim into the dashboard page, the home
 * page and both `HabitProgress` components) clamp it to [0, 100] and treat a
 * missing value as 0. JavaScript numbers are modelled as exact reals.
 */
module Percent {
  import opened Wrappers

  function Min(a: real, b: real): real { if a <= b then a else b }
  function Max(a: real, b: real): real { if a >= b then a else b }

  /** The quest progress bar: `target > 0 ? min(100, current / target * 100) : 0`. */
  function QuestPercentage(current: real, target: real): (p: real)
    ensures p <= 100.0
    ensures target <= 0.0 ==> p == 0.0
  {
    if target > 0.0 then Min(100.0, current / target * 100.0) else 0.0
  }

  /** The habit icon fill: 0 for a missing value or a non-positive goal, else the ratio clamped to [0, 100]. */
  function CalculatePercentage(consumed: Option<real>, goal: Option<real>): (p: real)
    ensures 0.0 <= p <= 100.0
    ensures goal.None? || consumed.None? || goal.value <= 0.0 ==> p == 0.0
  {
    if goal.None? || consumed.None? || goal.value <= 0.0 then 0.0
    else Min(Max(consumed.value / goal.value * 100.0, 0.0), 100.0)
  }

  lemma RatioBelowHundred(current: real, target: real)
    requires 0.0 < target && current < target
    ensures current / target * 100.0 < 100.0
  {
    assert current / target < 1.0;
  }

  lemma RatioMonotone(a: real, b: real, target: real)
    requires 0.0 < target && a <= b
    ensures a / target * 100.0 <= b / target * 100.0
  {
    assert a / target <= b / target;
  }

  /** A quest whose progress reaches its positive target shows a full bar; below the target the bar is the exact ratio. */
  lemma QuestPercentageFull(current: real, target: real)
    requires target > 0.0
    ensures current >= target ==> QuestPercentage(current, target) == 100.0
    ensures current < target ==> QuestPercentage(current, target) == current / target * 100.0
  {
    if current >= target {
      RatioMonotone(target, current, target);
      assert target / target == 1.0;
    } else {
      RatioBelowHundred(current, target);
    }
  }

  /** For a fixed positive target the quest bar never shrinks as progress grows. */
  lemma QuestPercentageMonotone(a: real, b: real, target: real)
    requires target > 0.0 && a <= b
    ensures QuestPercentage(a, target) <= QuestPercentage(b, target)
  {
    RatioMonotone(a, b, target);
  }

  /** The quest bar is not clamped from below: negative progress yields a negative width. */
  lemma QuestPercentageCanBeNegative()
    ensures QuestPercentage(-1.0, 4.0) == -25.0
  {
  }

  /** Where the ratio already lies in [0, 100] the icon fill is exactly that ratio. */
  lemma CalculatePercentageExact(consumed: real, goal: real)
    requires goal > 0.0 && 0.0 <= consumed / goal * 100.0 <= 100.0
    ensures CalculatePercentage(Some(consumed), Some(goal)) == consumed / goal * 100.0
  {
  }

  /**
   * The two formulas agree on non-negative progress: the icon fill equals
   * the quest bar whenever both numbers are present and the progress is not
   * negative.
   */
  lemma FormulasAgreeOnNonNegative(current: real, target: real)
    requires current >= 0.0
    ensures CalculatePercentage(Some(current), Some(target)) == QuestPercentage(current, target)
  {
    if target > 0.0 {
      RatioMonotone(0.0, current, target);
      assert 0.0 / target * 100.0 == 0.0;
    }
  }
}
