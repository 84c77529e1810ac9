/**
 * The XP reward ledger (`XPRewardService`): one `xp_rewards` row per user
 * holding coins, diamonds, the activity streak and the position in the
 * seven-day check-in cycle. "Today" is the calendar date in UTC+7 and is
 * passed in by the caller.
 */
module XpRewards {
  import opened Wrappers
  import opened Dates
  import opened QuestModels

  /** Both dates of a row are real calendar dates. */
  predicate RowValid(r: XpRewardsData) {
    Valid(r.lastCheckinDate) && Valid(r.lastStreakDate)
  }

  const NOT_FOUND_MSG: string := "XP Rewards not found"
  const ALREADY_CHECKED_IN_MSG: string := "Already checked in today"

  /** Coins credited by every daily check-in. */
  const CHECKIN_COINS: int := 10

  /**
   * The row as `get_rewards` reports it: the cycle position and the streak
   * read as 0 once more than one day has passed since they were last
   * advanced. Nothing is written back.
   */
  function RewardsView(row: XpRewardsData, today: Date): (v: XpRewardsData)
    requires RowValid(row) && Valid(today)
    ensures v == row.(dailyCheckin := v.dailyCheckin, streak := v.streak)
    ensures v.dailyCheckin == row.dailyCheckin || v.dailyCheckin == 0
    ensures v.streak == row.streak || v.streak == 0
    ensures v.dailyCheckin != row.dailyCheckin ==> DaysBetween(row.lastCheckinDate, today) >= 2
    ensures v.streak != row.streak ==> DaysBetween(row.lastStreakDate, today) >= 2
    ensures DaysBetween(row.lastCheckinDate, today) >= 2 ==> v.dailyCheckin == 0
    ensures DaysBetween(row.lastStreakDate, today) >= 2 ==> v.streak == 0
  {
    var r1 := if DaysBetween(row.lastCheckinDate, today) > 1 then row.(dailyCheckin := 0) else row;
    if DaysBetween(row.lastStreakDate, today) > 1 then r1.(streak := 0) else r1
  }

  /**
   * `update_checkin` on an existing row: refused when the user already
   * checked in today; otherwise the cycle advances when the last check-in
   * was yesterday and restarts at 1 after any other gap, 10 coins are
   * credited, and a diamond is credited when the cycle wraps to 0.
   */
  function CheckinStep(row: XpRewardsData, today: Date): (r: Result<XpRewardsData>)
    requires RowValid(row) && Valid(today)
    ensures r.Failure? <==> row.lastCheckinDate == today
    ensures r.Failure? ==> r.error == Error(BAD_REQUEST, ALREADY_CHECKED_IN_MSG)
    ensures r.Success? ==> RowValid(r.value) && r.value.lastCheckinDate == today
    ensures r.Success? ==> 0 <= r.value.dailyCheckin <= 6
    ensures r.Success? ==>
              r.value.dailyCheckin == (if today == NextDay(row.lastCheckinDate) then (row.dailyCheckin + 1) % 7 else 1)
    ensures r.Success? ==> r.value.coins == row.coins + CHECKIN_COINS
    ensures r.Success? ==> r.value.diamonds == row.diamonds + (if r.value.dailyCheckin == 0 then 1 else 0)
    ensures r.Success? ==> r.value.userId == row.userId && r.value.streak == row.streak
                           && r.value.lastStreakDate == row.lastStreakDate
  {
    OneDayGapIffNextDay(row.lastCheckinDate, today);
    if row.lastCheckinDate == today then
      Failure(Error(BAD_REQUEST, ALREADY_CHECKED_IN_MSG))
    else
      var d := if DaysBetween(row.lastCheckinDate, today) == 1 then (row.dailyCheckin + 1) % 7 else 1;
      var diamonds := if d == 0 then row.diamonds + 1 else row.diamonds;
      Success(row.(dailyCheckin := d, coins := row.coins + CHECKIN_COINS, diamonds := diamonds,
                   lastCheckinDate := today))
  }

  /**
   * `update_streak` on an existing row: the streak grows by one the first
   * time it is updated on a calendar day and stays put on later calls that
   * day; the streak date becomes today either way.
   */
  function StreakStep(row: XpRewardsData, today: Date): (r: XpRewardsData)
    requires RowValid(row) && Valid(today)
    ensures RowValid(r) && r.lastStreakDate == today
    ensures r.streak == row.streak + 1 <==> row.lastStreakDate != today
    ensures r.streak == row.streak <==> row.lastStreakDate == today
    ensures r == row.(streak := r.streak, lastStreakDate := today)
  {
    var streak := if row.lastStreakDate != today then row.streak + 1 else row.streak;
    row.(streak := streak, lastStreakDate := today)
  }

  /** The `xp_rewards` table. */
  class RewardLedger {
    var rows: map<UserId, XpRewardsData>

    ghost predicate Valid()
      reads this
    {
      forall u | u in rows :: rows[u].userId == u && RowValid(rows[u]) && 0 <= rows[u].dailyCheckin <= 6
    }

    constructor ()
      ensures Valid() && rows == map[]
    {
      rows := map[];
    }

    /**
     * `get_rewards`: a user without a row gets one with the default values,
     * which is returned as inserted; otherwise the stored row is returned as
     * `RewardsView` reports it.
     */
    method GetRewards(user: UserId, today: Date) returns (r: XpRewardsData)
      requires Valid() && Dates.Valid(today)
      modifies this
      ensures Valid()
      ensures rows == if user in old(rows) then old(rows) else old(rows)[user := DefaultXpRewards(user)]
      ensures r == RewardsView(rows[user], today)
    {
      if user !in rows {
        var row := DefaultXpRewards(user);
        rows := rows[user := row];
        DefaultIsOwnView(user, today);
        r := row;
      } else {
        r := RewardsView(rows[user], today);
      }
    }

    /** An update of a row's two balances, as a claim writes them. */
    method SetBalances(user: UserId, coins: int, diamonds: int)
      requires Valid() && user in rows
      modifies this
      ensures Valid()
      ensures rows == old(rows)[user := old(rows)[user].(coins := coins, diamonds := diamonds)]
    {
      rows := rows[user := rows[user].(coins := coins, diamonds := diamonds)];
    }

    /** `update_checkin`: 404 without a row, otherwise `CheckinStep`, written back on success. */
    method UpdateCheckin(user: UserId, today: Date) returns (r: Result<XpRewardsData>)
      requires Valid() && Dates.Valid(today)
      modifies this
      ensures Valid()
      ensures user !in old(rows) ==> r == Failure(Error(NOT_FOUND, NOT_FOUND_MSG)) && rows == old(rows)
      ensures user in old(rows) ==> r == CheckinStep(old(rows)[user], today)
      ensures rows == if r.Success? then old(rows)[user := r.value] else old(rows)
    {
      if user !in rows {
        return Failure(Error(NOT_FOUND, NOT_FOUND_MSG));
      }
      r := CheckinStep(rows[user], today);
      if r.Success? {
        rows := rows[user := r.value];
      }
    }

    /** `update_streak`: 404 without a row, otherwise `StreakStep`, written back. */
    method UpdateStreak(user: UserId, today: Date) returns (r: Result<XpRewardsData>)
      requires Valid() && Dates.Valid(today)
      modifies this
      ensures Valid()
      ensures user !in old(rows) ==> r == Failure(Error(NOT_FOUND, NOT_FOUND_MSG)) && rows == old(rows)
      ensures user in old(rows) ==> r == Success(StreakStep(old(rows)[user], today))
      ensures rows == if r.Success? then old(rows)[user := r.value] else old(rows)
    {
      if user !in rows {
        return Failure(Error(NOT_FOUND, NOT_FOUND_MSG));
      }
      var row := StreakStep(rows[user], today);
      rows := rows[user := row];
      r := Success(row);
    }
  }

  // ---------------------------------------------------------------- lemmas

  /** A freshly inserted row already reads as its own view: nothing to reset. */
  lemma DefaultIsOwnView(user: UserId, today: Date)
    requires Dates.Valid(today)
    ensures RowValid(DefaultXpRewards(user))
    ensures RewardsView(DefaultXpRewards(user), today) == DefaultXpRewards(user)
  {
  }

  /** Checking in twice on one day: the second attempt is refused. */
  lemma CheckinOncePerDay(row: XpRewardsData, today: Date)
    requires RowValid(row) && Dates.Valid(today) && CheckinStep(row, today).Success?
    ensures CheckinStep(CheckinStep(row, today).value, today) == Failure(Error(BAD_REQUEST, ALREADY_CHECKED_IN_MSG))
  {
  }

  /** Updating the streak twice on one day is the same as updating it once. */
  lemma StreakIdempotent(row: XpRewardsData, today: Date)
    requires RowValid(row) && Dates.Valid(today)
    ensures StreakStep(StreakStep(row, today), today) == StreakStep(row, today)
  {
  }

  /** Check in on `n` consecutive days starting at `start`, stopping at the first refusal. */
  function CheckinDays(row: XpRewardsData, start: Date, n: nat): Result<XpRewardsData>
    requires RowValid(row) && Dates.Valid(start)
    decreases n
  {
    if n == 0 then Success(row)
    else match CheckinStep(row, start)
      case Failure(e) => Failure(e)
      case Success(next) => CheckinDays(next, NextDay(start), n - 1)
  }

  lemma ModSucc(c: nat)
    ensures (c % 7 + 1) % 7 == (c + 1) % 7
  {
    var q, r := c / 7, c % 7;
    if r < 6 {
      DivModUnique(c + 1, 7, q, r + 1);
    } else {
      DivModUnique(c + 1, 7, q + 1, 0);
    }
  }

  /** A run of `n` check-ins is its first day followed by the remaining `n - 1`. */
  lemma CheckinDaysUnfold(row: XpRewardsData, start: Date, n: nat)
    requires RowValid(row) && Dates.Valid(start) && n > 0 && CheckinStep(row, start).Success?
    ensures CheckinDays(row, start, n) == CheckinDays(CheckinStep(row, start).value, NextDay(start), n - 1)
  {
  }

  /** One more day of a run of `c` consecutive check-ins. */
  lemma RunStep(row: XpRewardsData, start: Date, c: nat)
    requires RowValid(row) && Dates.Valid(start)
    requires start == NextDay(row.lastCheckinDate) && row.dailyCheckin == c % 7
    ensures CheckinStep(row, start).Success?
    ensures var next := CheckinStep(row, start).value;
            RowValid(next) && next.lastCheckinDate == start
            && next.dailyCheckin == (c + 1) % 7 && next.coins == row.coins + CHECKIN_COINS
            && next.diamonds == row.diamonds + ((c + 1) / 7 - c / 7)
            && next.streak == row.streak && next.lastStreakDate == row.lastStreakDate
  {
    NextDayOrdinal(row.lastCheckinDate);
    ModSucc(c);
    DivStep(c, 7);
  }

  /** Continuing a run of `c` consecutive check-ins for `n` more days. */
  lemma {:induction false} ContinueRun(row: XpRewardsData, start: Date, n: nat, c: nat)
    requires RowValid(row) && Dates.Valid(start)
    requires start == NextDay(row.lastCheckinDate) && row.dailyCheckin == c % 7
    ensures CheckinDays(row, start, n).Success?
    ensures var r := CheckinDays(row, start, n).value;
            r.dailyCheckin == (c + n) % 7 && r.coins == row.coins + CHECKIN_COINS * n
            && r.diamonds == row.diamonds + ((c + n) / 7 - c / 7)
            && r.streak == row.streak && r.lastStreakDate == row.lastStreakDate
    decreases n
  {
    if n > 0 {
      RunStep(row, start, c);
      var next := CheckinStep(row, start).value;
      ContinueRun(next, NextDay(start), n - 1, c + 1);
    }
  }

  /**
   * After a break (the last check-in was neither today nor yesterday),
   * checking in on `n` consecutive days leaves the cycle at `n % 7`, credits
   * `10 * n` coins and one diamond for every seventh day.
   */
  lemma {:induction false} ConsecutiveCheckins(row: XpRewardsData, start: Date, n: nat)
    requires RowValid(row) && Dates.Valid(start) && 1 <= n
    requires row.lastCheckinDate != start && start != NextDay(row.lastCheckinDate)
    ensures CheckinDays(row, start, n).Success?
    ensures var r := CheckinDays(row, start, n).value;
            r.dailyCheckin == n % 7 && r.coins == row.coins + CHECKIN_COINS * n
            && r.diamonds == row.diamonds + n / 7
  {
    var first := CheckinStep(row, start).value;
    assert first.dailyCheckin == 1 && first.diamonds == row.diamonds;
    CheckinDaysUnfold(row, start, n);
    ContinueRun(first, NextDay(start), n - 1, 1);
  }

  /**
   * `get_rewards` reports a broken streak as 0, but `update_streak`
   * increments the stored value: a user whose stored streak is 5 and whose
   * last activity was three days ago sees 0, and the next activity makes it 6.
   */
  lemma StreakViewDisagreesWithUpdate()
    ensures var row := XpRewardsData("u", 0, 0, 5, 0, NEVER, Date(2024, 5, 1));
            var today := Date(2024, 5, 4);
            RewardsView(row, today).streak == 0 && StreakStep(row, today).streak == 6
  {
    var row := XpRewardsData("u", 0, 0, 5, 0, NEVER, Date(2024, 5, 1));
    assert DaysBetween(row.lastStreakDate, Date(2024, 5, 4)) == 3;
  }
}
