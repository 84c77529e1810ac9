# meow-care: reward, quest and habit rules in Dafny

meow-care is a habit tracker with a cat theme. Users set four habits: sleep and wake-up times, a water goal and cup size, a
calorie goal, and a focus goal in minutes. Each day the backend keeps one log per habit. Logging activity earns a
streak, daily check-ins move through a seven-day reward cycle, and quests pay coins or diamonds once per day or month.

This project models the rules behind those features and proves properties about them.

On the backend (Flask over Supabase tables):
- the XP reward ledger: check-in cycle, streak, coins and diamonds;
- the quest engine: period starts, the live figures read from the habit tables, automatic progress, completion and claimable flags, the claim transaction;
- the four habit services: the goal check, replacing today's log, and updating a log.

On the frontend (React):
- the check-in calendar and the daily quest cards;
- the rewards page's check-in quest;
- the dashboard's and home page's task lists and habit panels;
- the focus timer;
- the settings forms (profile, password, habits);
- the dish modal;
- the navigation bar's active-item rule.

Each database table is a `map` field of a class that reassigns it. "Today" and every awaited response are parameters.
Backend counters are `int`. Client-side numbers are `real`.

Modules, one per source component:

- `Wrappers`: `Option`, `Result` and HTTP-style errors.
- `Dates`: Python's `date` arithmetic (`toordinal`, `weekday`, `timedelta`, `replace`).
- `QuestModels`: the Pydantic records of quests, progress and rewards.
- `XpRewards`, `Quests`, `Habits`, `Hydrate`, `Diet`, `Focus`, `Sleep`: the backend services.
- `Percent`: the clamped percentage formulas.
- `DailyCheckin`, `ClientQuests`, `RewardsPage`: the rewards screens.
- `Todos`, `DashboardPage`, `HomePage`, `HabitIcons`: the task list, the two pages and their habit panels.
- `FocusTimer`.
- `Text`: JavaScript `trim` and `startsWith`.
- `Profile`, `Password`, `HabitSettings`, `DietModal`: the settings forms and the dish modal.
- `Navbar`.

## Model

| member | source | states |
|---|---|---|
| XpRewards.RewardsView | backend/src/services/xp_reward_services.py:31-41 | the reported row differs from the stored one only in cycle position and streak. Each of those reads as 0 exactly when more than one day has passed since it was last advanced. |
| XpRewards.CheckinStep | backend/src/services/xp_reward_services.py:52-76 | refused with 400 "Already checked in today" iff the last check-in is today. Otherwise: the cycle becomes `(d+1) % 7` when the last check-in was yesterday and 1 after any other gap, so it always lies in [0,6]; exactly 10 coins are added; one diamond is added iff the new cycle is 0; the check-in date becomes today; the streak and its date are untouched. |
| XpRewards.StreakStep | backend/src/services/xp_reward_services.py:95-107 | the streak grows by one iff the last streak date is not today, and is kept otherwise. The streak date becomes today. Nothing else changes. |
| XpRewards.RewardLedger.GetRewards | backend/src/services/xp_reward_services.py:15-41 | a user without a row gets the default row inserted and returned. Otherwise the table is unchanged and the result is `RewardsView` of the stored row. |
| XpRewards.RewardLedger.SetBalances | backend/src/services/quest_services.py:300 | only the user's coins and diamonds are rewritten. |
| XpRewards.RewardLedger.UpdateCheckin | backend/src/services/xp_reward_services.py:45-82 | 404 "XP Rewards not found" without a row. Otherwise the result is `CheckinStep`, written back only on success. |
| XpRewards.RewardLedger.UpdateStreak | backend/src/services/xp_reward_services.py:88-113 | 404 without a row. Otherwise `StreakStep` is written back and returned. |
| XpRewards.DefaultIsOwnView | backend/src/services/xp_reward_services.py:20-29 | a freshly inserted row (counters 0, both dates 2000-01-01) is valid and reads as itself. |
| XpRewards.CheckinOncePerDay | backend/src/services/xp_reward_services.py:55-56 | after a successful check-in, a second one on the same day is refused. |
| XpRewards.StreakIdempotent | backend/src/services/xp_reward_services.py:98-106 | updating the streak twice on one day equals updating it once. |
| XpRewards.RunStep | backend/src/services/xp_reward_services.py:62-69 | one more consecutive day advances a run of `c` check-ins to cycle `(c+1) % 7`. It adds 10 coins and one diamond exactly when `c+1` is a multiple of 7. |
| XpRewards.ContinueRun | backend/src/services/xp_reward_services.py:62-69 | `n` more consecutive days after a run of `c` leave the cycle at `(c+n) % 7`, add `10n` coins and one diamond per multiple of 7 passed. The streak is untouched. |
| XpRewards.ConsecutiveCheckins | backend/src/services/xp_reward_services.py:62-69 | after a break, `n` consecutive daily check-ins leave the cycle at `n % 7` and credit `10n` coins and `n / 7` diamonds. |
| XpRewards.StreakViewDisagreesWithUpdate | backend/src/services/xp_reward_services.py:36-39 | a stored streak of 5 with its last date three days back reads as 0, yet the next update makes it 6. |
| Quests.PeriodStart | backend/src/services/quest_services.py:15-20 | the period of a daily quest is today; that of a monthly quest is the first of today's month. |
| Quests.MonthWindowEnd | backend/src/services/quest_services.py:121 | "day 28, plus four days, then day 1" is the first day of the next month. |
| Quests.Refresh | backend/src/services/quest_services.py:169-195 | a claimed row is left alone. An unclaimed row changes only its progress, which is at most the trigger's live figure and at most the effective target (1 for check-in and meal quests). |
| Quests.QuestView | backend/src/services/quest_services.py:209-228 | completed iff a progress row exists with progress at least the target. Claimable iff completed and unclaimed. The quest and row are carried unchanged. |
| Quests.ProgressForPeriod | backend/src/services/quest_services.py:33-60 | a row from an earlier period is reset for the new period (progress 0, unclaimed). A current row is kept. A missing row is created empty. |
| Quests.ActiveQuests | backend/src/services/quest_services.py:147 | the active list is no longer than the catalogue. |
| Quests.FindActiveQuest | backend/src/services/quest_services.py:265-266 | a found quest is in the catalogue, has the id and is active. None means no such quest exists. |
| Quests.Credit | backend/src/services/quest_services.py:295-299 | only the quest's reward currency grows, by exactly the reward amount. |
| Quests.ClaimCheck | backend/src/services/quest_services.py:264-292 | the four refusals in order, each stated as an iff: unknown or inactive (404), no current-period row (404), already claimed (400), not completed (400). Success means the quest is found, its current row exists unclaimed, and it is completed: a monthly-claims quest by the fetched monthly figure, any other by its stored progress. |
| Quests.QuestStore.GetOrCreateProgress | backend/src/services/quest_services.py:22-71 | the row for (user, quest, period) is `ProgressForPeriod` of what the filter finds, stored under that key. Nothing else changes. |
| Quests.QuestStore.GetQuestsWithProgress | backend/src/services/quest_services.py:138-230 | the result has one view per active quest, in order. The progress table is `RefreshPrefix` over the active quests, refreshed with `DependentData` of the hydrate, sleep, diet and focus tables, the ledger and the progress table as they were. |
| Quests.QuestStore.ClaimQuestReward | backend/src/services/quest_services.py:258-309 | the checks are `ClaimCheck` with the monthly figure of `DependentData`. On a failed check nothing is written. On success the ledger row is `Credit`ed, the progress row gets `claimed_at`, and the result is the updated ledger view. |
| Quests.RefreshAll | backend/src/services/quest_services.py:154-228 | the loop's table equals `RefreshPrefix` of the old table and stays valid. The results are the quests' views of their refreshed rows. |
| Quests.ActiveQuestsMembers | backend/src/services/quest_services.py:147 | the active list holds exactly the catalogue's active quests. |
| Quests.ActiveQuestsDistinct | backend/src/services/quest_services.py:147 | filtering keeps quest ids distinct. |
| Quests.RefreshPrefixOwnRow | backend/src/services/quest_services.py:154-207 | after `n` quests, quest `i < n`'s row is its stored (or new) row refreshed. |
| Quests.RefreshPrefixValid | backend/src/services/quest_services.py:154-207 | the fold keeps every row under its own key. |
| Quests.RefreshPrefixOther | backend/src/services/quest_services.py:154-207 | rows of no processed quest are untouched. |
| Quests.RefreshAllSpec | backend/src/services/quest_services.py:154-207 | each active quest's row is refreshed from the table as it was before the fetch, and every other row is unchanged. |
| Quests.NoResetUnderPeriodFilter | backend/src/services/quest_services.py:29-37 | a row found under the period-equality filter belongs to the current period, so the reset branch never runs. |
| Quests.FreshProgressNotClaimable | backend/src/services/quest_services.py:54-60 | a new progress row of a quest with a positive target is neither completed nor claimable. |
| Quests.CappedQuestNeverCompletes | backend/src/services/quest_services.py:189-190 | a check-in or meal quest with target above 1 never completes by automatic progress. |
| Quests.RefreshCanLowerProgress | backend/src/services/quest_services.py:190-195 | automatic progress follows the live figure down: 1500 becomes 0 when today's water is 0. |
| Quests.ClaimableCanBeClaimed | backend/src/services/quest_services.py:276-292 | an entry the list shows as claimable passes every claim check, provided the claim sees the same monthly-claims figure as the list. |
| Quests.ClaimPaysOnlyCompleted | backend/src/services/quest_services.py:279-292 | a successful check means a non-monthly quest's stored progress reaches its target, and a row as the list refreshed it from the same live data was shown claimable. |
| Quests.ClaimOncePerPeriod | backend/src/services/quest_services.py:276 | after a successful claim the same quest is refused as already claimed in that period. |
| Quests.FetchDependentData | backend/src/services/quest_services.py:73-136 | the figures gathered equal `DependentData`: today's single hydrate row's water (0 without one), the completed sleep tasks of today, today's diet logs with dishes, the sum of today's focus minutes, the check-in flag and the monthly claims. A second hydrate row leaves every figure at its default. |
| Quests.FocusSumRemove | backend/src/services/quest_services.py:107-108 | any focus log of the set can be taken out of the sum first. |
| Quests.FocusSumAgree | backend/src/services/quest_services.py:107-108 | the focus sum reads only the minutes of the logs it adds. |
| Quests.DrinkRaisesHydrateFigure | backend/src/services/quest_services.py:85-87 | one more cup on today's hydrate row raises the hydration figure by the cup size; every other figure is unchanged. |
| Quests.FocusRaisesFocusFigure | backend/src/services/quest_services.py:102-109 | minutes added to one of today's focus logs raise the focus figure by exactly those minutes; every other figure is unchanged. |
| Quests.CompletingTaskRaisesTaskFigure | backend/src/services/quest_services.py:90-92 | completing one of today's open sleep tasks raises the task figure by one; every other figure is unchanged. |
| Quests.DuplicateHydrateRowHidesCheckin | backend/src/services/quest_services.py:84-136 | two hydrate rows for the day make every figure its default, so a user who checked in today is reported as not checked in. |
| Quests.SingletonHasOneElement | backend/src/services/quest_services.py:85 | a set of at most one row has no two different members, so the row `maybe_single` returns is determined. |
| Quests.MonthWindowIsCalendarMonth | backend/src/services/quest_services.py:120-129 | the claims window `[month start, next month start)` holds exactly this month's periods. |
| Dates.DaysInMonth | backend/src/services/quest_services.py:121 | months have 28 to 31 days, and February has 29 iff the year is leap. |
| Dates.NextDay | backend/src/services/xp_reward_services.py:62 | the day after a valid date is a valid date. |
| Dates.AddDays | backend/src/services/quest_services.py:121 | adding days to a valid date gives a valid date. |
| Dates.PrevDay | backend/src/services/hydrate_services.py:91 | the previous day is valid and its next day is the original. |
| Dates.SubDays | backend/src/services/hydrate_services.py:91 | `d - timedelta(n)` is valid, and its ordinal is `n` less. |
| Dates.WeekStart | backend/src/services/hydrate_services.py:91 | `today - weekday` is valid and lies `weekday(today)` days before today. |
| Dates.MonthStart | backend/src/services/quest_services.py:19 | `d.replace(day=1)` is day 1 of the same month. |
| Dates.NextMonthStart | backend/src/services/quest_services.py:121 | the first day of the next month is later than `d` and has the following month number. |
| Dates.ReplaceDay | backend/src/services/quest_services.py:121 | `replace(day=k)` keeps the date valid with day `k`. |
| Dates.Weekday | backend/src/services/hydrate_services.py:91 | `weekday()` lies in [0,6]. |
| Dates.NextDayOrdinal | backend/src/services/xp_reward_services.py:62 | the next day's ordinal is one more. |
| Dates.AddDaysOrdinal | backend/src/services/quest_services.py:121 | adding `n` days adds `n` to the ordinal. |
| Dates.OrdinalInjective | backend/src/services/xp_reward_services.py:55 | two dates have the same ordinal iff they are equal. |
| Dates.SameDayIffNoGap | backend/src/services/xp_reward_services.py:36 | a day gap of 0 means the same date. |
| Dates.OneDayGapIffNextDay | backend/src/services/xp_reward_services.py:62 | a day gap of 1 means the next day. |
| Dates.BeforeIffOrdinal | backend/src/services/quest_services.py:37 | date order is ordinal order. |
| Dates.NextMonthTrick | backend/src/services/quest_services.py:121 | day 28 plus four days lands in the next month, and its day 1 is the next month start. |
| Dates.InMonthIffSameMonth | backend/src/services/quest_services.py:127-128 | a date is in `[month start, next month start)` iff it has the same year and month. |
| Dates.WeekWindow | backend/src/services/hydrate_services.py:91-97 | a date up to `weekday(today)` days back has weekday `weekday(today)` minus the gap. |
| Dates.InWeekIffGap | backend/src/services/hydrate_services.py:91-97 | the week start is a Monday. A date is between it and today iff it is 0 to `weekday(today)` days back. |
| Hydrate.CheckHabit | backend/src/services/hydrate_services.py:9-14 | succeeds iff both water goal and cup size are truthy, and then carries them. Otherwise 400 "Missing required fields". |
| Hydrate.WithoutDay | backend/src/services/hydrate_services.py:31-32 | exactly the user's logs of today are deleted, and the rest are kept unchanged. |
| Hydrate.DrinkCup | backend/src/services/hydrate_services.py:122-130 | consumed water grows by exactly the cup size. Completed iff the new total reaches the goal. No other field changes. |
| Hydrate.HydrateService.SetHydrateHabit | backend/src/services/hydrate_services.py:8-47 | a failed check writes nothing. Otherwise the habit is upserted and today's logs are replaced by one fresh log (0 drunk, not completed). |
| Hydrate.HydrateService.UpdateHydrateLog | backend/src/services/hydrate_services.py:111-135 | 404 "Hydrate log not found" unless the log exists and is the user's. Otherwise `DrinkCup` is written and returned. |
| Hydrate.HydrateService.GetHydrateLogsWeek | backend/src/services/hydrate_services.py:88-102 | the user's logs from this week's Monday to today. 404 iff there are none. |
| Hydrate.ReplaceLeavesOneLog | backend/src/services/hydrate_services.py:31-43 | after saving a habit the user has exactly one log today, the fresh one. Other users' and days' logs are kept. |
| Hydrate.CupsAccumulate | backend/src/services/hydrate_services.py:123-125 | `n` updates add `n` cup sizes and change nothing else. Completion reflects the total. |
| Hydrate.FreshLogCompletion | backend/src/services/hydrate_services.py:123-125 | `k > 0` cups complete a fresh log iff `k * cupSize >= waterGoal`. |
| Hydrate.WeekLogsInWindow | backend/src/services/hydrate_services.py:90-98 | every returned log is the user's, at most `weekday(today)` (≤ 6) days back. Every such log is returned. |
| Diet.CheckHabit | backend/src/services/diet_services.py:11-15 | succeeds iff the calorie goal is truthy. Otherwise 400. |
| Diet.WithoutDay | backend/src/services/diet_services.py:30-31 | exactly the user's logs of today are deleted. |
| Diet.AddDishes | backend/src/services/diet_services.py:111-125 | the dishes become the stored ones (null as empty) followed by the new ones. Calories are the sum over all of them (missing counts 0). Completed iff the sum reaches the goal. Nothing else changes. |
| Diet.DietService.SetDietHabit | backend/src/services/diet_services.py:10-46 | a failed check writes nothing. Otherwise the habit is upserted and today's logs are replaced by one empty log. |
| Diet.DietService.UpdateDietLog | backend/src/services/diet_services.py:101-132 | 404 unless the log is the user's. Otherwise `AddDishes` is written, then the streak is updated; without a ledger row the request fails although the log was written. The meal quest is called only when dishes were added. |
| Diet.TotalCaloriesAppend | backend/src/services/diet_services.py:115-118 | the calorie sum of two lists joined is the sum of their sums. |
| Diet.AddDishesTwice | backend/src/services/diet_services.py:113-119 | two updates equal one update with both lists in order. |
| Diet.NoDishesKeepsLog | backend/src/services/diet_services.py:113 | a request without dishes changes a consistent log only by turning null dishes into `[]`. |
| Diet.ReplaceLeavesOneLog | backend/src/services/diet_services.py:30-42 | after saving a habit the user has exactly one log today, with no dishes and 0 calories. |
| Diet.DishWithoutCaloriesAddsNothing | backend/src/services/diet_services.py:118 | a dish without calories leaves the total at the stored sum. |
| Focus.CheckHabit | backend/src/services/focus_services.py:10-12 | succeeds iff the goal is truthy. Otherwise 400 "Missing focus_goal field". |
| Focus.CheckMinutes | backend/src/routes/focus_routes.py:51-53 | succeeds iff `minutes` is a positive integer. Otherwise 400 "Invalid minutes". |
| Focus.WithoutDay | backend/src/services/focus_services.py:26-27 | exactly the user's logs of today are deleted. |
| Focus.AddMinutes | backend/src/services/focus_services.py:85-91 | focus done grows by exactly `minutes`. Completed iff it reaches the given goal. Nothing else changes. |
| Focus.FocusService.SetFocusHabit | backend/src/services/focus_services.py:9-40 | a failed check writes nothing. Otherwise the habit is upserted and today's logs are replaced by one log at 0 minutes. |
| Focus.FocusService.UpdateFocusLog | backend/src/services/focus_services.py:71-98 | 400 for bad minutes, 404 for a missing or foreign log, 404 without a habit. Otherwise `AddMinutes` against the current goal is written, then the streak is updated. |
| Focus.ReplaceLeavesOneLog | backend/src/services/focus_services.py:26-36 | after saving a habit the user has exactly one log today, at 0 minutes. |
| Focus.AddMinutesTwice | backend/src/services/focus_services.py:85-86 | two updates under one goal are one update with the minutes summed. |
| Focus.CompletionFollowsCurrentGoal | backend/src/services/focus_services.py:80-86 | completion is judged against the habit's current goal: a log completed at 25 minutes is not completed after one more minute once the goal is 60. |
| Sleep.CheckHabit | backend/src/services/sleep_services.py:9-15 | succeeds iff both times are non-empty and the sleep time sorts before the wake-up time. A missing time gives 400 "Missing required fields"; the wrong order gives 400 "Sleep time must be before wakeup time". |
| Sleep.WithoutFromDay | backend/src/services/sleep_services.py:26-27 | exactly the user's logs scheduled today or later are deleted. |
| Sleep.SleepService.SetSleepHabit | backend/src/services/sleep_services.py:8-44 | a failed check writes nothing. Otherwise the habit stores both times unchanged and `NewLogs` replaces the logs from today on. |
| Sleep.StringBeforeAt | backend/src/services/sleep_services.py:14 | one step of Python's string comparison. |
| Sleep.ClockOrder | backend/src/services/sleep_services.py:14 | on `HH:MM:SS` strings, string order is time-of-day order. |
| Sleep.OvernightHabitRefused | backend/src/services/sleep_services.py:14-15 | 23:00:00 → 06:30:00 is refused with the order error. |
| Sleep.NewLogsFromToday | backend/src/services/sleep_services.py:25-40 | after saving, the user's logs from today on are exactly a sleep task and a wake-up task at the habit's times. Other logs are kept. |
| DailyCheckin.JsRem | frontend/src/components/rewards/DailyCheckin.tsx:59 | JavaScript's `%`: equal to Dafny's `%` on non-negative dividends, and a negative remainder only for a negative dividend. |
| DailyCheckin.CurrentDayIndex | frontend/src/components/rewards/DailyCheckin.tsx:55-62 | a stored position in [0,6] gives an index in [0,6]. Checked in today gives `d == 0 ? 6 : d-1`, a one-day gap gives `d % 7`, and any other gap gives 0. |
| DailyCheckin.Calendar | frontend/src/components/rewards/DailyCheckin.tsx:48-73 | no rewards row gives an empty calendar; a row gives exactly seven boxes. |
| DailyCheckin.GetCheckinDays | frontend/src/components/rewards/DailyCheckin.tsx:48-73 | the loop pushing seven boxes builds exactly `Calendar`. |
| DailyCheckin.FindToday | frontend/src/components/rewards/DailyCheckin.tsx:76 | `find` returns the first box marked today, and None iff no box is marked today. |
| DailyCheckin.CheckinButton.constructor | frontend/src/components/rewards/DailyCheckin.tsx:17 | a mounted button is not claiming. |
| DailyCheckin.CheckinButton.Click | frontend/src/components/rewards/DailyCheckin.tsx:19-42 | a click while claiming sends nothing. Otherwise one request is sent. Only a response with data triggers the parent's refetch and keeps the button disabled; a failure re-enables it. |
| DailyCheckin.CalendarAt | frontend/src/components/rewards/DailyCheckin.tsx:66-71 | box `i` has index `i`, the slot's reward, and today/claimed/claimable flags from today's index. |
| DailyCheckin.FindTodayUnique | frontend/src/components/rewards/DailyCheckin.tsx:76 | when exactly one box is today's, `find` returns it. |
| DailyCheckin.ExactlyOneToday | frontend/src/components/rewards/DailyCheckin.tsx:66-76 | for a stored position in [0,6], exactly one box is today's and the button area uses that box. |
| DailyCheckin.BoxStates | frontend/src/components/rewards/DailyCheckin.tsx:63-69 | no box is both claimed and claimable. A box is claimable iff it is today's and today is not checked in. Today's box reads claimed once checked in. |
| DailyCheckin.ButtonEnabledIffCheckinAccepted | frontend/src/components/rewards/DailyCheckin.tsx:76-77 | the button is disabled while a claim is in flight; otherwise it is enabled iff `update_checkin` would accept a check-in for the row shown. |
| DailyCheckin.CountClaimedPrefix | frontend/src/components/rewards/DailyCheckin.tsx:68 | counting claimed boxes over a prefix under the threshold rule. |
| DailyCheckin.ClaimedCount | frontend/src/components/rewards/DailyCheckin.tsx:68 | the calendar shows `k` claimed boxes before today's check-in and `k+1` after it, where `k` is today's index. |
| DailyCheckin.IndexBeforeCheckin | frontend/src/components/rewards/DailyCheckin.tsx:58-61 | on the reported row, before checking in, today's index is the stored position the day after a check-in, else 0. |
| DailyCheckin.IndexAfterCheckin | frontend/src/components/rewards/DailyCheckin.tsx:56-57 | after checking in today, today's index is the box the stored position just completed. |
| DailyCheckin.CheckinFillsOfferedBox | frontend/src/components/rewards/DailyCheckin.tsx:57-69 | the box offered before a server check-in is today's box afterwards and shows claimed and not claimable. The server adds a diamond iff that box is the seventh. |
| DailyCheckin.CheckinKeepsTodayIndex | frontend/src/components/rewards/DailyCheckin.tsx:55-62 | a check-in leaves today on the box offered before it, and the server credits a diamond exactly when that box is the seventh. |
| DailyCheckin.SeventhBoxOverstatesCoins | frontend/src/components/rewards/DailyCheckin.tsx:65 | filling the seventh box credits 10 coins and 1 diamond, while the box advertises 100 coins. |
| ClientQuests.Click | frontend/src/components/rewards/DailyQuestItem.tsx:23-34 | a claim starts iff the button is enabled (claimable, not locally claimed, not claiming) and then only sets the claiming flag. An ignored click changes nothing. |
| ClientQuests.Resolve | frontend/src/components/rewards/DailyQuestItem.tsx:53-61 | after the mock delay the card is locally claimed and no longer claiming. |
| ClientQuests.QuestItem.constructor | frontend/src/components/rewards/DailyQuestItem.tsx:17-19 | a mounted card is neither claimed locally nor claiming. |
| ClientQuests.QuestItem.HandleClaim | frontend/src/components/rewards/DailyQuestItem.tsx:31-34 | the fields move exactly as `Click` says. |
| ClientQuests.QuestItem.ClaimDelayEnds | frontend/src/components/rewards/DailyQuestItem.tsx:52-61 | the fields move exactly as `Resolve` says. |
| ClientQuests.ClickWhileClaimingIgnored | frontend/src/components/rewards/DailyQuestItem.tsx:32 | a click during a claim changes nothing. |
| ClientQuests.ClaimedStaysClaimed | frontend/src/components/rewards/DailyQuestItem.tsx:23-25 | once locally claimed, after any events the card stays claimed, disabled and labelled "Claimed", and starts no claim. |
| ClientQuests.StartsBound | frontend/src/components/rewards/DailyQuestItem.tsx:23-34 | from a claiming or claimed state no claim starts; otherwise at most one. |
| ClientQuests.AtMostOneClaim | frontend/src/components/rewards/DailyQuestItem.tsx:23-61 | a mounted card starts at most one claim over any sequence of clicks and delays. |
| ClientQuests.ClaimableCardClaims | frontend/src/components/rewards/DailyQuestItem.tsx:31-61 | for a claimable quest, a click then the delay starts one claim and ends claimed. |
| ClientQuests.UnclaimableNeverStarts | frontend/src/components/rewards/DailyQuestItem.tsx:23-32 | a card whose quest is not claimable never starts a claim. |
| RewardsPage.MarkCheckin | frontend/src/pages/rewards.tsx:43-54 | the mapped quest list has the mock list's length. |
| RewardsPage.RewardsScreen.constructor | frontend/src/pages/rewards.tsx:27-31 | the page starts loading, with no row, no quests and no error. |
| RewardsPage.RewardsScreen.FetchRewardsData | frontend/src/pages/rewards.tsx:33-71 | with data: the row is stored and the quests are the mock list marked for that date. After an error response or an exception the quests are the unmodified mock list and the error text is set. Loading ends in every case. |
| RewardsPage.CheckinQuestStatus | frontend/src/pages/rewards.tsx:44-49 | the check-in quest is completed and claimable with progress 1 iff the reported date (UTC today when absent) is the local date; otherwise progress 0 and neither flag. |
| RewardsPage.OtherQuestsUnchanged | frontend/src/pages/rewards.tsx:51-53 | every other quest is unchanged and in its place. |
| RewardsPage.MarkingKeepsIdentity | frontend/src/pages/rewards.tsx:43-49 | ids, titles, targets, rewards and types are kept. |
| RewardsPage.MissingDateReadsAsUtcToday | frontend/src/pages/rewards.tsx:46 | an absent date counts as checked in iff the UTC date equals the local date. |
| RewardsPage.MockCheckinQuest | frontend/src/pages/rewards.tsx:16-54 | only the mock list's last entry (dq3) depends on the row. |
| RewardsPage.CheckedInCardIsClaimable | frontend/src/pages/rewards.tsx:49 | after checking in, the check-in card shows an enabled claim button. |
| Percent.QuestPercentage | frontend/src/components/rewards/MonthlyReward.tsx:17-19 | the quest bar never exceeds 100 and is 0 for a non-positive target. |
| Percent.CalculatePercentage | frontend/src/pages/dashboard/index.tsx:40-45 | the icon fill lies in [0,100], and is 0 when a value is missing or the goal is not positive. |
| Percent.QuestPercentageFull | frontend/src/components/rewards/DailyQuestItem.tsx:27-29 | for a positive target: 100 once progress reaches it, else exactly `current / target * 100`. |
| Percent.QuestPercentageMonotone | frontend/src/components/rewards/MonthlyReward.tsx:17-19 | for a fixed positive target the bar never shrinks as progress grows. |
| Percent.QuestPercentageCanBeNegative | frontend/src/components/rewards/MonthlyReward.tsx:17-19 | progress -1 of 4 gives -25: the bar is not clamped from below. |
| Percent.CalculatePercentageExact | frontend/src/pages/home.tsx:39-43 | where the ratio is already in [0,100] the fill is exactly that ratio. |
| Percent.FormulasAgreeOnNonNegative | frontend/src/components/home/HabitProgress.tsx:29-33 | on non-negative progress the icon fill equals the quest bar. |
| Percent.RatioBelowHundred | frontend/src/components/rewards/MonthlyReward.tsx:18 | progress below a positive target gives a ratio below 100. |
| Percent.RatioMonotone | frontend/src/components/rewards/MonthlyReward.tsx:18 | the ratio is monotone in progress. |
| Todos.NormaliseDishes | frontend/src/pages/home.tsx:84-87 | the result always has a dish array. An array is kept, and no other field changes. |
| Todos.SleepItems | frontend/src/pages/dashboard/index.tsx:78 | every sleep log becomes a sleep task, in order. |
| Todos.ReplaceById | frontend/src/pages/dashboard/index.tsx:148-152 | the list keeps its length. |
| Todos.ReplaceForHome | frontend/src/pages/home.tsx:122-126 | the list keeps its length. |
| Todos.SleepLogs | frontend/src/components/dashboard/HabitProgress.tsx:59 | the filtered list is no longer than the task list. |
| Todos.FindTask | frontend/src/components/dashboard/HabitProgress.tsx:63-64 | a found log is the first log of the list with that task type. None iff no log has that type. |
| Todos.FirstHydrate | frontend/src/components/dashboard/HabitProgress.tsx:60 | a found log is the first hydrate task of the list. None iff there is none. |
| Todos.FirstDiet | frontend/src/components/dashboard/HabitProgress.tsx:61 | a found log is the first diet task of the list. None iff there is none. |
| Todos.CompareAntisymmetric | frontend/src/pages/dashboard/index.tsx:106-118 | swapping the comparator's arguments flips its sign. |
| Todos.CompareTransitive | frontend/src/pages/dashboard/index.tsx:106-118 | the comparator is transitive. |
| Todos.SortedCons | frontend/src/pages/dashboard/index.tsx:106 | an item not after any element of a sorted list keeps it sorted when put in front. |
| Todos.InsertElements | frontend/src/pages/dashboard/index.tsx:106 | inserting adds exactly the one item. |
| Todos.InsertSorted | frontend/src/pages/dashboard/index.tsx:106-118 | insertion keeps a list sorted. |
| Todos.CombineTodos | frontend/src/pages/dashboard/index.tsx:77-99 | the list holds one task per returned sleep log, plus one hydrate and one diet task when those responses are non-empty, and no focus task. |
| Todos.ApiErrors | frontend/src/pages/dashboard/index.tsx:79-101 | at most four error lines, and none iff every source either returned data or failed silently (404 or no error text). |
| Todos.SortTodos | frontend/src/pages/dashboard/index.tsx:106-118 | the sorted list is as long as its input. |
| Todos.SortTodosCorrect | frontend/src/pages/dashboard/index.tsx:106-118 | the sorted list is ordered by the comparator and is a permutation of its input. |
| Todos.SortTodosSorted | frontend/src/pages/dashboard/index.tsx:106-118 | the sorted list is ordered by the comparator. |
| Todos.SortTodosPermutes | frontend/src/pages/dashboard/index.tsx:106-118 | the sorted list holds the same items as its input, each as often. |
| Todos.SortedOrderMeaning | frontend/src/pages/dashboard/index.tsx:106-118 | in sorted order timed items come first, in time order, and untimed ones go sleep, hydrate, diet, focus. |
| Todos.CombineContents | frontend/src/pages/dashboard/index.tsx:77-103 | every returned sleep log is a task. Any hydrate or diet task is the first log of its response. No focus tasks. |
| Todos.CombineKeepsFirstOnly | frontend/src/pages/dashboard/index.tsx:90-100 | a second hydrate log is dropped. |
| Todos.NotFoundIsSilent | frontend/src/pages/dashboard/index.tsx:79-101 | 404s and sources that returned data add no error line. |
| Todos.SleepErrorReported | frontend/src/pages/dashboard/index.tsx:79-80 | a failed sleep-log request is the first error line, with its text. |
| Todos.ReplaceByIdSpec | frontend/src/pages/dashboard/index.tsx:148-152 | each item with the updated id becomes the updated item, and every other item stays in place. |
| Todos.ReplaceByIdIdempotent | frontend/src/pages/dashboard/index.tsx:148-152 | replacing twice equals replacing once, and ids are kept. |
| Todos.ReplaceUnknownIdNoop | frontend/src/pages/dashboard/index.tsx:148-152 | an unknown id leaves the list unchanged. |
| Todos.HomeAgreesWithDashboard | frontend/src/pages/home.tsx:122-126 | when ids name exactly the items of their type, the home list update equals the dashboard's. |
| Todos.HomeReplacesByType | frontend/src/pages/home.tsx:124 | the home page replaces a hydrate task whose id differs, and the dashboard does not. |
| Todos.HomeKeepsOtherSleepItems | frontend/src/pages/home.tsx:123-125 | a sleep task is replaced only by a sleep log with its id. |
| Todos.SleepLogsMembers | frontend/src/components/dashboard/HabitProgress.tsx:59 | the filter keeps exactly the sleep tasks' logs. |
| Todos.SelectedTaskLogs | frontend/src/components/dashboard/HabitProgress.tsx:59-64 | the panel's wake-up (or sleep) log is a sleep task with that type. There is none iff the list has no such task. |
| Todos.HomeDietDishesNormalised | frontend/src/pages/home.tsx:84-87 | the home list's diet task always has a dish array. |
| DashboardPage.ErrorBanner | frontend/src/pages/dashboard/index.tsx:128 | a banner is shown iff there is an error line. |
| DashboardPage.Dashboard.constructor | frontend/src/pages/dashboard/index.tsx:50-56 | the page starts loading, with no tasks and no error. |
| DashboardPage.Dashboard.FetchData | frontend/src/pages/dashboard/index.tsx:59-136 | the tasks become the sorted combined list. The habit is kept unless a new one arrived. The error is the banner of the reportable lines, or the fixed message on an exception. Loading ends and per-item flags are cleared. |
| DashboardPage.Dashboard.SetItemLoading | frontend/src/pages/dashboard/index.tsx:143-145 | only that item's flag changes. |
| DashboardPage.Dashboard.UpdateTodoInState | frontend/src/pages/dashboard/index.tsx:148-152 | the tasks become `ReplaceById`, and nothing else changes. |
| DashboardPage.Dashboard.HandleCompleteSleep | frontend/src/pages/dashboard/index.tsx:154-169 | the item flag ends false. Data updates the task by id with no error; otherwise the list is kept and the error (or its fallback) is shown. |
| DashboardPage.Dashboard.HandleUpdateHydrate | frontend/src/pages/dashboard/index.tsx:171-186 | the same for a hydrate update. |
| DashboardPage.FetchedListSortedPermutation | frontend/src/pages/dashboard/index.tsx:77-120 | the fetched list is in sorted order and holds each combined task once. |
| DashboardPage.NotFoundLeavesNoBanner | frontend/src/pages/dashboard/index.tsx:79-128 | all-404 responses leave no banner. |
| DashboardPage.TimedSleepBeforeHydrate | frontend/src/pages/dashboard/index.tsx:106-113 | a timed sleep task sorts before the hydrate task. |
| HomePage.HomeBanner | frontend/src/pages/home.tsx:102 | a banner is shown iff there is an error line. |
| HomePage.Home.constructor | frontend/src/pages/home.tsx:48-54 | the page starts loading, with no tasks, no row, no flags and the modal closed. |
| HomePage.Home.FetchData | frontend/src/pages/home.tsx:58-112 | the tasks are the combined list with dishes normalised, in build order. The habit and the rewards row are replaced only when present. The error covers the task sources and a missing rewards row, or the exception's message. Loading ends. |
| HomePage.Home.UpdateStateAndRefetchRewards | frontend/src/pages/home.tsx:120-144 | the tasks become `ReplaceForHome`. The rewards row is re-read iff the action is sleep or hydrate, and replaced only when the re-read returned one. |
| HomePage.Home.HandleCompleteSleep | frontend/src/pages/home.tsx:146-156 | the item flag ends false. On data the list update and refetch run; otherwise nothing changes. |
| HomePage.Home.HandleUpdateHydrate | frontend/src/pages/home.tsx:158-167 | the same for a hydrate update. |
| HomePage.Home.HandleOpenDietModal | frontend/src/pages/home.tsx:170-172 | the modal opens for that log. |
| HomePage.Home.HandleCloseDietModal | frontend/src/pages/home.tsx:174 | the modal closes. |
| HomePage.Home.HandleFoodAddedToLog | frontend/src/pages/home.tsx:177-179 | the diet task is replaced, and the rewards row is not re-read. |
| HomePage.HomeListOrder | frontend/src/pages/home.tsx:75-92 | the home list is the sleep tasks, then the first hydrate log. |
| HomePage.MissingRewardsReported | frontend/src/pages/home.tsx:95-102 | a missing rewards row always produces a banner. |
| HabitIcons.Fill | frontend/src/components/home/HabitProgress.tsx:66-73 | an icon fill lies in [0,100]. |
| HabitIcons.RenderIcon | frontend/src/components/home/HabitProgress.tsx:57-153 | a click is attached only as the icon's own handler and never while loading; the focus icon has no log and no fill. |
| HabitIcons.RenderDashboardPanel | frontend/src/components/dashboard/HabitProgress.tsx:53-55 | the spinner is returned iff loading. |
| HabitIcons.SleepIconsClickable | frontend/src/components/home/HabitProgress.tsx:93-107 | wake-up and sleep icons accept a click iff their log exists with an id and is not completed. The click completes that log. |
| HabitIcons.IntakeIconsClickable | frontend/src/components/home/HabitProgress.tsx:119-145 | hydrate and diet icons accept a click iff their log exists with an id, completed or not. They are disabled only while loading. |
| HabitIcons.FocusIconInert | frontend/src/components/home/HabitProgress.tsx:134-139 | the focus icon has no handler, is no button and is never disabled. |
| HabitIcons.IconRules | frontend/src/components/home/HabitProgress.tsx:144-153 | disabled iff loading or a completed non-intake habit. A button iff it has a handler. A click is attached iff enabled. |
| HabitIcons.ClickableIconEnabled | frontend/src/components/home/HabitProgress.tsx:144-153 | an icon with a handler that is not loading has its click attached. |
| HabitIcons.IconFill | frontend/src/components/home/HabitProgress.tsx:66-73 | the fill is in [0,100] and present exactly for an available hydrate or diet log. |
| HabitIcons.PanelsAgree | frontend/src/components/dashboard/HabitProgress.tsx:59-76 | the dashboard and home panels select the same logs and fills. |
| FocusTimer.InitialDuration | frontend/src/components/home/FocusTimer.tsx:37 | the habit's goal when truthy, else the initial duration. |
| FocusTimer.ChangeDuration | frontend/src/components/home/FocusTimer.tsx:68-77 | only when idle: one step up (capped at 120) or down (floored at 1), with the countdown reset. Otherwise nothing changes. |
| FocusTimer.ShownAction | frontend/src/components/home/FocusTimer.tsx:150-169 | "Done" shows iff the session finished, and "Start" iff idle. |
| FocusTimer.DecimalString | frontend/src/components/home/FocusTimer.tsx:124 | `String(n)` is a non-empty digit string, one digit iff `n < 10`. |
| FocusTimer.PadStart2 | frontend/src/components/home/FocusTimer.tsx:124 | strings of two or more characters are kept; shorter ones get leading zeros up to two. |
| FocusTimer.FormatDisplayTime | frontend/src/components/home/FocusTimer.tsx:121-125 | the display ends in ":ss min". |
| FocusTimer.Timer.constructor | frontend/src/components/home/FocusTimer.tsx:28-40 | the state after mounting and the habit effect, which satisfies `Inv`. |
| FocusTimer.Timer.OnHabitChange | frontend/src/components/home/FocusTimer.tsx:36-40 | the duration comes from the habit and the countdown is full; status and minutes are kept. |
| FocusTimer.Timer.HandleDurationChange | frontend/src/components/home/FocusTimer.tsx:68-77 | the state moves as `ChangeDuration`. |
| FocusTimer.Timer.HandleStart | frontend/src/components/home/FocusTimer.tsx:79-89 | from idle a new session with a full countdown and 0 minutes; from paused a resumption; otherwise nothing. |
| FocusTimer.Timer.HandlePause | frontend/src/components/home/FocusTimer.tsx:91-98 | only when running: paused, minutes grow by the whole minutes since the countdown began. |
| FocusTimer.Timer.HandleResume | frontend/src/components/home/FocusTimer.tsx:100-104 | only when paused: running again. |
| FocusTimer.Timer.OnTick | frontend/src/components/home/FocusTimer.tsx:46-54 | only when running: one second off. The last second finishes with the full duration as minutes. |
| FocusTimer.Timer.HandleDone | frontend/src/components/home/FocusTimer.tsx:106-118 | without a log, idle with a full countdown and nothing reported. With one, the minutes are reported once and the session cleared. |
| FocusTimer.StepsKeepInv | frontend/src/components/home/FocusTimer.tsx:46-118 | every handler and the tick keep `Inv`, and so does the habit effect except on a finished timer. |
| FocusTimer.DurationStaysInRange | frontend/src/components/home/FocusTimer.tsx:68-77 | a duration in [1,120] stays there, moving in the button's direction. |
| FocusTimer.HabitGoalBypassesRange | frontend/src/components/home/FocusTimer.tsx:37 | a 200-minute habit goal becomes the duration, and the up button then lowers it to 120. |
| FocusTimer.TicksCountDown | frontend/src/components/home/FocusTimer.tsx:54 | `k` seconds before the end take exactly `k` off the countdown. |
| FocusTimer.FullSession | frontend/src/components/home/FocusTimer.tsx:79-118 | a session started from idle finishes after exactly `duration * 60` ticks, and Done then reports exactly the duration. |
| FocusTimer.PauseCountsFromCountdownStart | frontend/src/components/home/FocusTimer.tsx:95-96 | two minutes, a pause, a resume and a second pause leave four minutes recorded. |
| FocusTimer.FinishOverridesPauses | frontend/src/components/home/FocusTimer.tsx:46-54 | after the last tick Done reports the duration, whatever the pauses added. |
| FocusTimer.DecimalRoundTrip | frontend/src/components/home/FocusTimer.tsx:124 | a decimal string reads back as its number. |
| FocusTimer.LeadingZero | frontend/src/components/home/FocusTimer.tsx:124 | a leading zero does not change a digit string's value. |
| FocusTimer.PadKeepsValue | frontend/src/components/home/FocusTimer.tsx:124 | padding keeps the value. |
| FocusTimer.SmallDecimal | frontend/src/components/home/FocusTimer.tsx:123 | the seconds part has at most two digits. |
| FocusTimer.ParseShape | frontend/src/components/home/FocusTimer.tsx:124 | reading back a "m:ss min" string gives `m * 60 + ss`. |
| FocusTimer.DisplayRoundTrip | frontend/src/components/home/FocusTimer.tsx:121-125 | the display determines the countdown: reading it back gives the seconds it showed. |
| Text.TrimStart | frontend/src/components/settings/PersonalInformationSettings.tsx:91 | the result is a suffix with no leading white space, and only white space was removed. |
| Text.TrimEnd | frontend/src/components/settings/PersonalInformationSettings.tsx:91 | the result is a prefix with no trailing white space, and only white space was removed. |
| Text.TrimEmptyIffBlank | frontend/src/components/dashboard/DietUpdateModal.tsx:34 | a string trims to empty iff it is all white space. |
| Text.TrimIdempotent | frontend/src/components/settings/PersonalInformationSettings.tsx:91 | a trimmed string has no white space at either end and is its own trim. |
| Profile.ParseUsername | backend/src/models/profile_models.py:7 | accepted iff absent, null, or text of 3 to 50 characters. A missing field takes "Human". |
| Profile.ParseGender | backend/src/models/profile_models.py:8 | accepted iff absent, null, "male" or "female". A missing field takes "female". |
| Profile.ParsePositive | backend/src/models/profile_models.py:9-10 | accepted iff absent, null, or a number above 0. |
| Profile.ParseAge | backend/src/models/profile_models.py:11 | accepted iff absent, null, or a whole number in [1,100]. |
| Profile.ValidateBody | backend/src/routes/profile_routes.py:33-39 | a refused body gives 400 "Invalid input data". An accepted profile has each present field within its constraint. |
| Profile.NormaliseEntry | frontend/src/components/settings/PersonalInformationSettings.tsx:82-98 | a numeric field is sent iff it holds a number. A username is trimmed and sent iff the trim is non-empty. An undefined value is never sent. |
| Profile.CollectPayload | frontend/src/components/settings/PersonalInformationSettings.tsx:82-98 | the `forEach` loop builds exactly `PayloadOf` of the form's entries. |
| Profile.ProfileSettings.constructor | frontend/src/components/settings/PersonalInformationSettings.tsx:10-14 | an empty form, no profile, not saving. |
| Profile.ValidateProfileData | frontend/src/components/settings/PersonalInformationSettings.tsx:17-31 | a refusal is one of the four field messages, and a body with no text and no number passes. |
| Profile.ProfileSettings.HandleSubmit | frontend/src/components/settings/PersonalInformationSettings.tsx:76-133 | a request is sent iff the normalised payload passes `ValidateProfileData`, and it carries that payload. The profile and form are refreshed only from a saved response. Saving ends in all cases. |
| Profile.EmptyBodyGivesDefaults | backend/src/models/profile_models.py:7-11 | an empty body becomes Human, female, 50 kg, 160 cm, age 20. |
| Profile.NegativeWeightRefused | backend/tests/test_profile.py:47-51 | weight -5 is refused with 400 by the server and with the weight message by the client. |
| Profile.UsernameCheckedFirst | frontend/src/components/settings/PersonalInformationSettings.tsx:17-23 | with a short username and a zero weight the username message is returned. |
| Profile.PayloadShape | frontend/src/components/settings/PersonalInformationSettings.tsx:82-98 | the sent body has numbers in its numeric fields and a trimmed, non-empty username. |
| Profile.EmptyNumericFieldDropped | frontend/src/components/settings/PersonalInformationSettings.tsx:84-86 | a numeric field that never holds a number is not sent. |
| Profile.ClientAndServerAgree | frontend/src/components/settings/PersonalInformationSettings.tsx:17-31 | on well-typed bodies the client's checks and the server's constraints accept exactly the same bodies. |
| Profile.FractionalAgeOnlyServerRefuses | backend/src/models/profile_models.py:11 | age 25.5 passes the client and is refused by the server. |
| Profile.BlankUsernameNotSent | frontend/src/components/settings/PersonalInformationSettings.tsx:90-92 | a username of spaces is not sent. |
| Password.ValidatePasswords | frontend/src/components/settings/ChangePasswordForm.tsx:19-34 | no error iff all three fields are non-empty, the new password has at least 6 characters, matches the confirmation and differs from the old one. Any error is one of the four messages. |
| Password.CheckChangeBody | backend/src/routes/profile_routes.py:50-54 | accepted iff both passwords are present and non-empty. Otherwise 400 "Old and new password are required". |
| Password.PasswordForm.constructor | frontend/src/components/settings/ChangePasswordForm.tsx:9-12 | empty fields, not loading. |
| Password.PasswordForm.HandleSubmit | frontend/src/components/settings/ChangePasswordForm.tsx:15-60 | a request is sent iff the checks pass, with the old and new passwords. The fields are cleared iff the answer carries no error. Loading ends after a request. |
| Password.SentBodyPassesRoute | backend/src/routes/profile_routes.py:53-54 | every body the form sends passes the route's presence check. |
| Password.EmptyFieldReportedFirst | frontend/src/components/settings/ChangePasswordForm.tsx:19-22 | an empty old password is reported as "fill in all fields", whatever else. |
| Password.ShortReportedBeforeMismatch | frontend/src/components/settings/ChangePasswordForm.tsx:23-30 | a short and mismatched password is reported as too short. |
| Password.ReuseRefused | frontend/src/components/settings/ChangePasswordForm.tsx:31-34 | a valid new password equal to the old one is refused. |
| HabitSettings.ValidateHabit | frontend/src/components/settings/HabitSettings.tsx:130-135 | per habit: sleep needs both times; hydrate a positive goal and cup (the goal reported first); diet a positive goal; focus a positive whole goal. |
| HabitSettings.PayloadFor | frontend/src/components/settings/HabitSettings.tsx:122-127 | hydrate and diet payloads carry their own reminder lists; the others carry none. |
| HabitSettings.HabitSettingsForm.constructor | frontend/src/components/settings/HabitSettings.tsx:12-25 | empty forms and four cleared saving flags. |
| HabitSettings.HabitSettingsForm.HandleSaveHabit | frontend/src/components/settings/HabitSettings.tsx:109-166 | a request is sent iff that habit validates, and it carries the habit's payload. The habit's saving flag ends false. The forms are unchanged. |
| HabitSettings.AcceptedHydrateFormPassesServer | backend/src/services/hydrate_services.py:13-14 | a whole-number hydrate form the client accepts passes the server with the same values. |
| HabitSettings.AcceptedGoalsPassServer | backend/src/services/focus_services.py:11-12 | accepted diet and focus goals pass the server's truthiness checks. |
| HabitSettings.NegativeGoalOnlyClientRefuses | backend/src/services/hydrate_services.py:13-14 | negative goals are refused by the client but accepted by the server. |
| HabitSettings.FractionalFocusGoalRefused | frontend/src/components/settings/HabitSettings.tsx:135 | a 25.5-minute focus goal is refused. |
| HabitSettings.OvernightSleepOnlyServerRefuses | frontend/src/components/settings/HabitSettings.tsx:131 | 23:00 → 06:30 passes the client and is refused by the server's order check. |
| HabitSettings.WaterGoalReportedFirst | frontend/src/components/settings/HabitSettings.tsx:132 | with both hydrate numbers missing the goal message is given. |
| DietModal.DishesBody | frontend/src/components/dashboard/DietUpdateModal.tsx:29-44 | exactly one dish, with the name as typed and the calories. |
| DietModal.DietUpdateModal.constructor | frontend/src/components/dashboard/DietUpdateModal.tsx:16-19 | empty fields, no error, not loading. |
| DietModal.DietUpdateModal.HandleSubmit | frontend/src/components/dashboard/DietUpdateModal.tsx:23-62 | a request is sent iff the entry is valid, with one dish. An invalid entry shows the entry error. Data is handed to the parent and closes the dialog. Any other answer or a network failure shows the matching error. Loading ends; the fields are kept. |
| DietModal.BlankNameRefused | frontend/src/components/dashboard/DietUpdateModal.tsx:34 | a name of white space alone is refused. |
| DietModal.VisibleCharKeepsName | frontend/src/components/dashboard/DietUpdateModal.tsx:34 | a name with a visible character passes the trim test. |
| DietModal.PaddedNameSentAsTyped | frontend/src/components/dashboard/DietUpdateModal.tsx:30-34 | " rice " passes and is sent as typed, spaces included. |
| DietModal.NonPositiveCaloriesRefused | frontend/src/components/dashboard/DietUpdateModal.tsx:34 | zero or negative calories are refused. |
| DietModal.SentDishAddsItsCalories | backend/src/services/diet_services.py:113-119 | the sent dish, once stored, is appended to the log and raises its calories by exactly its amount. |
| Navbar.ActiveItems | frontend/src/components/navigation/Navbar.tsx:19-22 | the highlighted items are exactly the active ones. |
| Navbar.ActiveFrom | frontend/src/components/navigation/Navbar.tsx:19-22 | from item `i` on, the highlighted items are exactly the active ones. |
| Navbar.HomeOnlyOnExactPath | frontend/src/components/navigation/Navbar.tsx:22 | Home is active iff the path is exactly "/dashboard". |
| Navbar.SubrouteHighlightsSection | frontend/src/components/navigation/Navbar.tsx:6-22 | "/dashboard/habits/sleep" highlights Habits and not Home. |
| Navbar.PrefixNotSegment | frontend/src/components/navigation/Navbar.tsx:22 | "/dashboard/focusmode" highlights Focus: matching is on raw prefixes. |
| Navbar.SectionExcludes | frontend/src/components/navigation/Navbar.tsx:22 | a route starting with one section's path does not start with a path that differs from it at character 11. |
| Navbar.ActiveExcludesOthers | frontend/src/components/navigation/Navbar.tsx:6-22 | when one item is highlighted, no other item is. |
| Navbar.AtMostOneActive | frontend/src/components/navigation/Navbar.tsx:6-22 | no path highlights two items. |

## Left out

- Supabase I/O. Queries, upserts and deletes are modelled as reassignments of in-memory maps. Database failures (the 500 paths) are not modelled, and new log ids come from a counter.
- `.single()` on a missing row: it raises, and is modelled as the explicit 404 that follows it.
- The clock and time zones. "Today" (UTC+7 in the services, UTC for sleep), the browser's local date and the UTC date are parameters. Daylight-saving shifts in the client's day differences are not modelled.
- Supabase's column defaults for a new rewards row are taken to be the record's defaults (counters 0). Inserted sleep logs are taken to start not completed.
- Flask routing, JWT, password hashing and the auth services: these are framework and cryptographic code. The route-level checks that shape the modelled services (minutes, profile validation, password presence) are included.
- `update_quest_progress` is a documented no-op, so it is not modelled, and neither is `QuestProgressUpdate`, which only it uses.
- The read-only `get_*_habit`, `get_*_logs_today` and sleep-log completion services: plain selects with no rule beyond the filters already modelled.
- Non-integer JSON values in the services' numeric fields: hydrate, diet and focus take whole numbers.
- Numeric strings in profile fields: Pydantic's lax mode may accept `"70"`; the model treats any text in a numeric field as refused.
- Concurrency: `Promise.all`, the focus timer's `setInterval` (an explicit tick), and concurrent claims (`claim_quest_reward` credits before marking the claim and is not atomic; modelled sequentially).
- `fetchApi`, toasts, loading spinners, layout, routing and the `CatRoom`, `TodoList`, sidebar and login screens: presentation or I/O.
- Formatting: `formatTime` (`toLocaleTimeString`), `formatAmount` (`toFixed`), and `parseFloat` on input. Client numbers are exact reals, and NaN is an absent value.
- HabitSettings: `fetchHabits` and `handleInputChange` are not modelled; the forms are given as values.
- ProfileSettings: the initial profile load is not modelled.
- DietModal: the calories arrive already parsed.
- The home page's sort: its comparator returns `undefined`, which the sort reads as "equal", so the list keeps build order and no sort is modelled there.
- JavaScript string lengths are UTF-16 code units; the model counts characters. `trim`'s white space is the listed characters, not every Unicode space separator.
- Diet: a dish entry without `calories` counts as 0. Non-dict entries in `dishes` are not modelled.
- DailyCheckin.Calendar: states only the calendar's length. What each box holds is stated by `CalendarAt`, `BoxStates`, `ExactlyOneToday` and `ClaimedCount`.
- RewardsPage.MarkCheckin: states only the list's length. What each entry holds is stated by `CheckinQuestStatus`, `OtherQuestsUnchanged` and `MarkingKeepsIdentity`.
- Todos.ReplaceById: states only the length. The contents are stated by `ReplaceByIdSpec`.
- Quests.FetchDependentData: an empty `maybe_single` result is read as "no row", so hydration is 0; a client library that returns no response there would make the query fail and leave every figure at its default. Dishes stored as `{}` have no counterpart, since dishes are a list or null. The sleep-task window from today 00:00 to tomorrow 00:00 is the log's scheduled date. The error's `print` is not modelled.
- Todos.ReplaceForHome: states only the length. The contents are stated by `HomeReplacesByType` and `HomeKeepsOtherSleepItems`.

## Notes

Places where the code's behaviour differs from what its surroundings suggest. Each is stated as a lemma. None has one evident intended fix, so the model follows the code.

- **Seventh check-in box.** The calendar advertises 100 coins and a diamond for the seventh box. The backend credits 10 coins and the diamond (`SeventhBoxOverstatesCoins`).
- **Streak after a gap.** After a gap, `get_rewards` reports the streak as 0, but `update_streak` adds one to the stored value (`StreakViewDisagreesWithUpdate`).
- **Overnight sleep.** The sleep check compares `HH:MM:SS` strings, so an overnight habit (23:00 → 06:30) is refused (`OvernightHabitRefused`). The repository's sleep test expects it to succeed, and the client's form lets it through (`OvernightSleepOnlyServerRefuses`).
- **Negative goals.** The habit services test goals only for truthiness, so negative goals reach the database when sent directly (`NegativeGoalOnlyClientRefuses`).
- **Fractional age.** The profile form accepts a fractional age that the server refuses (`FractionalAgeOnlyServerRefuses`). On well-typed bodies the two checks agree (`ClientAndServerAgree`).
- **Focus timer pauses.** Pausing adds the minutes since the countdown began, not since the last resume, so repeated pauses count time twice (`PauseCountsFromCountdownStart`). The last tick overwrites the total with the duration (`FinishOverridesPauses`). A habit goal bypasses the [1,120] range (`HabitGoalBypassesRange`).
- **Missing check-in date.** An absent `last_checkin_date` defaults to the UTC date rather than the local one (`MissingDateReadsAsUtcToday`).
- **Writes before a failing streak update.** The diet and focus updates write the log before updating the streak. A user without a rewards row gets a 404 although the log changed (`Diet.DietService.UpdateDietLog`, `Focus.FocusService.UpdateFocusLog`).
- **Home page list update.** The home page replaces hydrate and diet tasks by type, not by id (`HomeReplacesByType`).
- **Dead reset branch.** The progress lookup filters on the period start, so its reset branch is unreachable (`NoResetUnderPeriodFilter`).
- **One failed query hides every figure.** `_fetch_dependent_data` reads all figures inside one `try`. A second hydrate row for the day makes `maybe_single` fail, and the check-in flag, the task, meal and focus figures and the monthly claims all stay at their defaults (`DuplicateHydrateRowHidesCheckin`).
- **Automatic progress can fall.** Automatic progress follows the live figure down as well as up (`RefreshCanLowerProgress`).
