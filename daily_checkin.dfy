/**
 * The daily check-in calendar of the rewards page (`DailyCheckin`): seven
 * boxes built from the rewards row the server reports, the position of
 * today in the cycle, which boxes read as claimed, and the claim button.
 * The browser's local date is passed in; date differences are taken in
 * whole calendar days (daylight-saving shifts are not modelled).
 */
module DailyCheckin {
  import opened Wrappers
  import opened Dates
  import opened QuestModels
  import opened XpRewards

  datatype CheckinDay = CheckinDay(
    dayIndex: int,
    isToday: bool,
    isClaimed: bool,
    isClaimable: bool,
    rewardCoins: int,
    rewardDiamonds: Option<int>)

  datatype SlotReward = SlotReward(coins: int, diamonds: Option<int>)

  /** The rewards the calendar displays for its seven boxes. */
  const REWARDS: seq<SlotReward> := [
    SlotReward(10, None), SlotReward(10, None), SlotReward(10, None), SlotReward(10, None),
    SlotReward(10, None), SlotReward(10, None), SlotReward(100, Some(1))]

  /** JavaScript's `%`: the remainder takes the sign of the dividend. */
  function JsRem(a: int, b: int): (r: int)
    requires b > 0
    ensures a >= 0 ==> r == a % b
    ensures -b < r < b && (r < 0 ==> a < 0)
  {
    if a >= 0 then a % b else -((-a) % b)
  }

  /**
   * `currentDayIndex`: the box of today. Once checked in today it is the
   * box just completed; the day after a check-in it is the next box; after
   * a longer gap the cycle starts again at the first box.
   */
  function CurrentDayIndex(dailyCheckin: int, checkedInToday: bool, daysSince: int): (idx: int)
    ensures 0 <= dailyCheckin <= 6 ==> 0 <= idx <= 6
    ensures checkedInToday && 1 <= dailyCheckin <= 6 ==> idx == dailyCheckin - 1
    ensures checkedInToday && dailyCheckin == 0 ==> idx == 6
    ensures !checkedInToday && daysSince != 1 ==> idx == 0
    ensures !checkedInToday && daysSince == 1 && 0 <= dailyCheckin ==> idx == dailyCheckin % 7
  {
    if checkedInToday then (if dailyCheckin == 0 then 6 else dailyCheckin - 1)
    else if daysSince == 1 then JsRem(dailyCheckin, 7)
    else 0
  }

  /** The box of index `i` when today's box is `current`. */
  function DaySlot(i: int, current: int, canClaimToday: bool): CheckinDay
    requires 0 <= i < 7
  {
    CheckinDay(i, i == current, if !canClaimToday then i <= current else i < current,
               i == current && canClaimToday, REWARDS[i].coins, REWARDS[i].diamonds)
  }

  /** Today's box for a rewards row, with whether today may still be claimed. */
  function TodayIndex(row: XpRewardsData, today: Date): int
    requires RowValid(row) && Dates.Valid(today)
  {
    CurrentDayIndex(row.dailyCheckin, row.lastCheckinDate == today, DaysBetween(row.lastCheckinDate, today))
  }

  /** The seven boxes `getCheckinDays` builds, or none without a rewards row. */
  function Calendar(data: Option<XpRewardsData>, today: Date): (days: seq<CheckinDay>)
    requires data.Some? ==> RowValid(data.value)
    requires Dates.Valid(today)
    ensures data.None? ==> days == []
    ensures data.Some? ==> |days| == 7
  {
    if data.None? then []
    else (seq(7, i requires 0 <= i < 7 =>
            DaySlot(i, TodayIndex(data.value, today), data.value.lastCheckinDate != today)))
  }

  /** `getCheckinDays`, with its loop over the seven boxes. */
  method GetCheckinDays(data: Option<XpRewardsData>, today: Date) returns (days: seq<CheckinDay>)
    requires data.Some? ==> RowValid(data.value)
    requires Dates.Valid(today)
    ensures days == Calendar(data, today)
  {
    if data.None? {
      return [];
    }
    var row := data.value;
    var checkedIn := row.lastCheckinDate == today;
    var daysSince := DaysBetween(row.lastCheckinDate, today);
    var current := 0;
    if checkedIn {
      current := if row.dailyCheckin == 0 then 6 else row.dailyCheckin - 1;
    } else if daysSince == 1 {
      current := JsRem(row.dailyCheckin, 7);
    } else if daysSince > 1 {
      current := 0;
    }
    var canClaimToday := !checkedIn;
    days := [];
    var i := 0;
    while i < 7
      invariant 0 <= i <= 7 && |days| == i
      invariant forall k | 0 <= k < i :: days[k] == DaySlot(k, TodayIndex(row, today), row.lastCheckinDate != today)
    {
      var isToday := i == current;
      var isClaimed := if !canClaimToday then i <= current else i < current;
      var isClaimable := isToday && canClaimToday;
      days := days + [CheckinDay(i, isToday, isClaimed, isClaimable, REWARDS[i].coins, REWARDS[i].diamonds)];
      i := i + 1;
    }
  }

  /** `checkinDays.find(d => d.isToday)`. */
  function FindToday(days: seq<CheckinDay>): (r: Option<CheckinDay>)
    ensures r.None? <==> forall i | 0 <= i < |days| :: !days[i].isToday
    ensures r.Some? ==> exists i | 0 <= i < |days| :: days[i] == r.value && r.value.isToday
                                   && forall j | 0 <= j < i :: !days[j].isToday
  {
    if |days| == 0 then None
    else if days[0].isToday then Some(days[0])
    else
      var r := FindToday(days[1..]);
      assert r.Some? ==> exists i | 0 <= i < |days[1..]| :: days[1..][i] == r.value && r.value.isToday
                                   && forall j | 0 <= j < i :: !days[1..][j].isToday;
      assert r.Some? ==> exists i | 0 <= i < |days| :: days[i] == r.value && r.value.isToday
                                   && forall j | 0 <= j < i :: !days[j].isToday by {
        if r.Some? {
          var i :| 0 <= i < |days[1..]| && days[1..][i] == r.value && r.value.isToday
                   && forall j | 0 <= j < i :: !days[1..][j].isToday;
          assert days[i + 1] == r.value;
          assert forall j | 0 <= j < i + 1 :: !days[j].isToday by {
            forall j | 0 <= j < i + 1 ensures !days[j].isToday {
              if j > 0 { assert days[j] == days[1..][j - 1]; }
            }
          }
        }
      }
      r
  }

  /** `isButtonDisabled`: disabled while a claim is in flight or when today's box cannot be claimed. */
  function ButtonDisabled(isClaiming: bool, days: seq<CheckinDay>): bool
  {
    isClaiming || !(FindToday(days).Some? && FindToday(days).value.isClaimable)
  }

  /** How the check-in request ends: a response with data, an error response, or a thrown error. */
  datatype FetchOutcome = Data | ErrorResponse | Thrown

  /** The component's `isClaiming` state and `handleClaimCheckin`. */
  class CheckinButton {
    var isClaiming: bool

    constructor ()
      ensures !isClaiming
    {
      isClaiming := false;
    }

    /**
     * A click: ignored while a claim is in flight; otherwise the request is
     * sent and the button stays disabled after a success (the parent
     * refetches) and is re-enabled after a failure.
     */
    method Click(outcome: FetchOutcome) returns (requestSent: bool, refetch: bool)
      modifies this
      ensures requestSent == !old(isClaiming)
      ensures refetch <==> requestSent && outcome == Data
      ensures isClaiming == (old(isClaiming) || outcome == Data)
    {
      if isClaiming {
        return false, false;
      }
      isClaiming := true;
      requestSent := true;
      refetch := false;
      if outcome == Data {
        refetch := true;
      } else {
        isClaiming := false;
      }
    }
  }

  // ---------------------------------------------------------------- lemmas

  function CountClaimed(days: seq<CheckinDay>): (n: nat)
    ensures n <= |days|
  {
    if |days| == 0 then 0 else (if days[|days| - 1].isClaimed then 1 else 0) + CountClaimed(days[..|days| - 1])
  }

  /** Box `i` of the calendar: its index, whether it is today's, claimed or claimable, and its rewards. */
  lemma CalendarAt(row: XpRewardsData, today: Date, i: int)
    requires RowValid(row) && Dates.Valid(today) && 0 <= i < 7
    ensures Calendar(Some(row), today)[i] == DaySlot(i, TodayIndex(row, today), row.lastCheckinDate != today)
    ensures Calendar(Some(row), today)[i].dayIndex == i
    ensures Calendar(Some(row), today)[i].rewardCoins == REWARDS[i].coins
  {
  }

  lemma {:induction false} FindTodayUnique(days: seq<CheckinDay>, k: int)
    requires 0 <= k < |days| && days[k].isToday
    requires forall i | 0 <= i < |days| && i != k :: !days[i].isToday
    ensures FindToday(days) == Some(days[k])
  {
    if k > 0 {
      FindTodayUnique(days[1..], k - 1);
    }
  }

  /** For a row whose cycle position is in range, exactly one box is today's, and it is the one `find` returns. */
  lemma ExactlyOneToday(row: XpRewardsData, today: Date)
    requires RowValid(row) && Dates.Valid(today) && 0 <= row.dailyCheckin <= 6
    ensures var days := Calendar(Some(row), today);
            var k := TodayIndex(row, today);
            0 <= k <= 6 && days[k].isToday && (forall i | 0 <= i < 7 && i != k :: !days[i].isToday)
            && FindToday(days) == Some(days[k])
  {
    var days := Calendar(Some(row), today);
    var k := TodayIndex(row, today);
    forall i | 0 <= i < 7
      ensures days[i].isToday <==> i == k
    {
      CalendarAt(row, today, i);
    }
    FindTodayUnique(days, k);
  }

  /** A box is never both claimed and claimable; only today's box can be claimable, and only before checking in. */
  lemma BoxStates(row: XpRewardsData, today: Date, i: int)
    requires RowValid(row) && Dates.Valid(today) && 0 <= i < 7
    ensures var d := Calendar(Some(row), today)[i];
            !(d.isClaimed && d.isClaimable)
            && (d.isClaimable <==> d.isToday && row.lastCheckinDate != today)
            && (d.isToday && row.lastCheckinDate == today ==> d.isClaimed)
  {
    CalendarAt(row, today, i);
  }

  /**
   * The claim button: always disabled while a claim is in flight;
   * otherwise enabled exactly when `update_checkin` would accept a
   * check-in for the row the calendar was drawn from.
   */
  lemma ButtonEnabledIffCheckinAccepted(row: XpRewardsData, today: Date, isClaiming: bool)
    requires RowValid(row) && Dates.Valid(today) && 0 <= row.dailyCheckin <= 6
    ensures isClaiming ==> ButtonDisabled(isClaiming, Calendar(Some(row), today))
    ensures !isClaiming ==> (!ButtonDisabled(isClaiming, Calendar(Some(row), today)) <==> CheckinStep(row, today).Success?)
  {
    ExactlyOneToday(row, today);
    BoxStates(row, today, TodayIndex(row, today));
  }

  lemma {:induction false} CountClaimedPrefix(days: seq<CheckinDay>, n: nat, bound: int, strict: bool)
    requires n <= |days|
    requires forall i | 0 <= i < |days| :: days[i].isClaimed == (if strict then i < bound else i <= bound)
    ensures CountClaimed(days[..n]) == if strict then Clamp(bound, n) else Clamp(bound + 1, n)
    decreases n
  {
    if n > 0 {
      assert days[..n][..n - 1] == days[..n - 1];
      CountClaimedPrefix(days, n - 1, bound, strict);
    }
  }

  function Clamp(x: int, hi: nat): nat
  {
    if x < 0 then 0 else if x > hi then hi else x
  }

  /**
   * The calendar shows as many claimed boxes as check-ins completed in the
   * current cycle: the boxes before today's, plus today's once checked in.
   */
  lemma ClaimedCount(row: XpRewardsData, today: Date)
    requires RowValid(row) && Dates.Valid(today) && 0 <= row.dailyCheckin <= 6
    ensures var k := TodayIndex(row, today);
            CountClaimed(Calendar(Some(row), today)) == if row.lastCheckinDate == today then k + 1 else k
  {
    var days := Calendar(Some(row), today);
    var k := TodayIndex(row, today);
    var strict := row.lastCheckinDate != today;
    forall i | 0 <= i < |days|
      ensures days[i].isClaimed == (if strict then i < k else i <= k)
    {
      CalendarAt(row, today, i);
    }
    CountClaimedPrefix(days, 7, k, strict);
    assert days[..7] == days;
  }

  /** Before checking in, today's box is the next box after yesterday's check-in, or the first box after a gap. */
  lemma IndexBeforeCheckin(row: XpRewardsData, today: Date)
    requires RowValid(row) && Dates.Valid(today) && 0 <= row.dailyCheckin <= 6
    requires row.lastCheckinDate != today
    ensures TodayIndex(RewardsView(row, today), today) == if today == NextDay(row.lastCheckinDate) then row.dailyCheckin else 0
  {
    var gap := DaysBetween(row.lastCheckinDate, today);
    var v := RewardsView(row, today);
    assert v.lastCheckinDate == row.lastCheckinDate && v.dailyCheckin == if gap > 1 then 0 else row.dailyCheckin;
    assert TodayIndex(v, today) == CurrentDayIndex(v.dailyCheckin, false, gap);
    IndexFromGap(row.dailyCheckin, gap);
    OneDayGapIffNextDay(row.lastCheckinDate, today);
  }

  /** Today's index before checking in, from the number of days since the last check-in. */
  lemma IndexFromGap(d: int, gap: int)
    requires 0 <= d <= 6
    ensures CurrentDayIndex(if gap > 1 then 0 else d, false, gap) == if gap == 1 then d else 0
  {
  }

  /** After checking in today, today's box is the one the stored cycle position just completed. */
  lemma IndexAfterCheckin(after: XpRewardsData, today: Date)
    requires RowValid(after) && Dates.Valid(today) && 0 <= after.dailyCheckin <= 6
    requires after.lastCheckinDate == today
    ensures TodayIndex(RewardsView(after, today), today) == if after.dailyCheckin == 0 then 6 else after.dailyCheckin - 1
  {
    assert DaysBetween(after.lastCheckinDate, today) == 0;
  }

  /**
   * Server and calendar agree on a check-in. Before it, the box the
   * calendar offers is today's, built from the row `get_rewards` reports;
   * after `update_checkin` the calendar, built from the new report, keeps
   * today on the same box and shows it claimed; the server credits a
   * diamond exactly when that box is the seventh.
   */
  lemma {:induction false} CheckinFillsOfferedBox(row: XpRewardsData, today: Date)
    requires RowValid(row) && Dates.Valid(today) && 0 <= row.dailyCheckin <= 6
    requires row.lastCheckinDate != today
    ensures CheckinStep(row, today).Success?
    ensures var after := CheckinStep(row, today).value;
            var before := RewardsView(row, today);
            var shownAfter := RewardsView(after, today);
            var k := TodayIndex(before, today);
            k == TodayIndex(shownAfter, today)
            && Calendar(Some(before), today)[k].isClaimable
            && Calendar(Some(shownAfter), today)[k].isClaimed
            && !Calendar(Some(shownAfter), today)[k].isClaimable
            && (after.diamonds == row.diamonds + 1 <==> k == 6)
  {
    var after := CheckinStep(row, today).value;
    var before := RewardsView(row, today);
    var shownAfter := RewardsView(after, today);
    CheckinKeepsTodayIndex(row, today);
    var k := TodayIndex(before, today);
    CalendarAt(before, today, k);
    assert Calendar(Some(before), today)[k].isClaimable;
    CalendarAt(shownAfter, today, k);
  }

  /** A check-in leaves today on the box it was offered in, and credits a diamond exactly on the seventh box. */
  lemma CheckinKeepsTodayIndex(row: XpRewardsData, today: Date)
    requires RowValid(row) && Dates.Valid(today) && 0 <= row.dailyCheckin <= 6
    requires row.lastCheckinDate != today
    ensures CheckinStep(row, today).Success?
    ensures var after := CheckinStep(row, today).value;
            var k := TodayIndex(RewardsView(row, today), today);
            k == TodayIndex(RewardsView(after, today), today)
            && (after.diamonds == row.diamonds + 1 <==> k == 6)
  {
    var after := CheckinStep(row, today).value;
    IndexBeforeCheckin(row, today);
    IndexAfterCheckin(after, today);
    CycleStep(row.dailyCheckin, today == NextDay(row.lastCheckinDate));
  }

  /**
   * The cycle arithmetic of a check-in: the position `d` (or 0 after a gap)
   * offered before it is the box the new position has just completed, and
   * the new position wraps to 0 exactly on the seventh box.
   */
  lemma CycleStep(d: int, consecutive: bool)
    requires 0 <= d <= 6
    ensures var a := if consecutive then (d + 1) % 7 else 1;
            var k := if consecutive then d else 0;
            (if a == 0 then 6 else a - 1) == k && (a == 0 <==> k == 6)
  {
  }

  /**
   * The seventh box advertises 100 coins and a diamond, but the check-in
   * that fills it credits 10 coins and the diamond.
   */
  lemma SeventhBoxOverstatesCoins(row: XpRewardsData, today: Date)
    requires RowValid(row) && Dates.Valid(today) && 0 <= row.dailyCheckin <= 6
    requires row.lastCheckinDate != today && TodayIndex(RewardsView(row, today), today) == 6
    ensures CheckinStep(row, today).Success?
    ensures CheckinStep(row, today).value.coins - row.coins == CHECKIN_COINS != REWARDS[6].coins
    ensures CheckinStep(row, today).value.diamonds - row.diamonds == 1 && REWARDS[6].diamonds == Some(1)
  {
    CheckinFillsOfferedBox(row, today);
  }
}
