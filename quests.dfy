/**
 * The quest engine (`QuestService`): daily and monthly quests whose
 * progress is recomputed from the user's activity whenever the quest list
 * is fetched, one progress row per user, quest and period, and the claim
 * that pays a completed quest's reward into the XP ledger. "Today" (UTC+7)
 * and the claim time are passed in.
 */
module Quests {
  import opened Wrappers
  import opened Dates
  import opened QuestModels
  import opened XpRewards
  import opened Habits
  import Hydrate
  import Sleep
  import Diet
  import Focus

  /** The key of a `user_quest_progress` row: the service looks rows up by user, quest and period start. */
  datatype ProgressKey = ProgressKey(user: UserId, quest: QuestId, period: Date)

  /**
   * The activity figures `_fetch_dependent_data` reads from the habit
   * tables for today: millilitres drunk, completed sleep tasks, non-empty
   * meal logs and focus minutes.
   */
  datatype Activity = Activity(hydrateMl: int, tasksCompleted: int, mealsLogged: int, focusMinutes: int)

  /** Everything the automatic progress rules read. */
  datatype LiveData = LiveData(activity: Activity, checkinDone: bool, monthlyDailyQuestsClaimed: int)

  const QUEST_NOT_FOUND_MSG: string := "Quest not found or not active"
  const PROGRESS_NOT_FOUND_MSG: string := "Quest progress not found for the current period"
  const ALREADY_CLAIMED_MSG: string := "Reward already claimed for this period"
  const NOT_COMPLETED_MSG: string := "Quest not completed yet"

  /** The period a quest's progress belongs to: today for a daily quest, the first of the month for a monthly one. */
  function PeriodStart(t: QuestType, today: Date): (p: Date)
    requires Dates.Valid(today)
    ensures Dates.Valid(p)
    ensures t == Daily ==> p == today
    ensures t == Monthly ==> p.day == 1 && p.year == today.year && p.month == today.month
  {
    if t == Daily then today else MonthStart(today)
  }

  /** The end of the monthly-claims window as the service computes it: 28th of the month, plus four days, then day 1. */
  function MonthWindowEnd(monthStart: Date): (e: Date)
    requires Dates.Valid(monthStart)
    ensures e == NextMonthStart(monthStart)
  {
    NextMonthTrick(monthStart);
    ReplaceDay(AddDays(ReplaceDay(monthStart, 28), 4), 1)
  }

  /** The claimed progress rows of `user` whose period starts in the month of `monthStart`. */
  function ClaimedThisMonth(progress: map<ProgressKey, UserQuestProgress>, user: UserId, monthStart: Date): set<ProgressKey>
    requires Dates.Valid(monthStart)
    requires forall k | k in progress :: Dates.Valid(k.period)
  {
    var end := MonthWindowEnd(monthStart);
    set k | k in progress && k.user == user && progress[k].claimedAt.Some?
                && OnOrBefore(monthStart, k.period) && Before(k.period, end)
  }

  /** `monthly_daily_quests_claimed`: how many quest rewards the user claimed for periods of this month. */
  function MonthlyClaimedCount(progress: map<ProgressKey, UserQuestProgress>, user: UserId, monthStart: Date): (n: nat)
    requires Dates.Valid(monthStart)
    requires forall k | k in progress :: Dates.Valid(k.period)
  {
    |ClaimedThisMonth(progress, user, monthStart)|
  }

  /** The live figure a trigger follows; 0 for a quest without a recognised trigger. */
  function TriggerValue(trigger: Option<Trigger>, live: LiveData): int
  {
    match trigger
    case Some(HydrateGoal) => live.activity.hydrateMl
    case Some(TasksCompleted) => live.activity.tasksCompleted
    case Some(LogMeal) => live.activity.mealsLogged
    case Some(FocusTime) => live.activity.focusMinutes
    case Some(Checkin) => if live.checkinDone then 1 else 0
    case Some(MonthlyDailyQuests) => live.monthlyDailyQuestsClaimed
    case _ => 0
  }

  /** The cap on automatic progress: 1 for check-in and meal quests, the quest's target otherwise. */
  function EffectiveTarget(q: Quest): int
  {
    if q.triggerType == Some(Checkin) || q.triggerType == Some(LogMeal) then 1 else q.targetProgress
  }

  /**
   * Automatic progress: an unclaimed row follows its trigger's live figure,
   * capped at the effective target; a claimed row is left alone.
   */
  function Refresh(q: Quest, row: UserQuestProgress, live: LiveData): (r: UserQuestProgress)
    ensures r == row.(currentProgress := r.currentProgress)
    ensures row.claimedAt.Some? ==> r == row
    ensures row.claimedAt.None? ==> r.currentProgress <= EffectiveTarget(q) && r.currentProgress <= TriggerValue(q.triggerType, live)
    ensures row.claimedAt.None? ==> r.currentProgress == EffectiveTarget(q) || r.currentProgress == TriggerValue(q.triggerType, live)
  {
    if row.claimedAt.None? then
      var v := TriggerValue(q.triggerType, live);
      var cap := EffectiveTarget(q);
      row.(currentProgress := if v < cap then v else cap)
    else row
  }

  predicate IsCompleted(q: Quest, row: UserQuestProgress) {
    row.currentProgress >= q.targetProgress
  }

  /** The entry GET /quests returns for a quest; without a progress row it is neither completed nor claimable. */
  function QuestView(q: Quest, row: Option<UserQuestProgress>): (v: QuestWithProgress)
    ensures v.quest == q && v.userProgress == row
    ensures v.isCompleted <==> row.Some? && IsCompleted(q, row.value)
    ensures v.isClaimable <==> v.isCompleted && row.value.claimedAt.None?
  {
    match row
    case None => DefaultQuestWithProgress(q)
    case Some(p) => QuestWithProgress(q, row, IsCompleted(q, p), IsCompleted(q, p) && p.claimedAt.None?)
  }

  /**
   * What `_get_or_create_user_progress` returns for the row found under
   * the period filter: a row from an earlier period is reset for the new
   * period, a current row is kept, and a missing row is created empty.
   */
  function ProgressForPeriod(found: Option<UserQuestProgress>, user: UserId, quest: QuestId, period: Date): (p: UserQuestProgress)
    ensures p.periodStartDate == (if found.Some? && !Before(found.value.periodStartDate, period) then found.value.periodStartDate else period)
    ensures found.None? || Before(found.value.periodStartDate, period) ==> p.currentProgress == 0 && p.claimedAt.None?
    ensures found.Some? && !Before(found.value.periodStartDate, period) ==> p == found.value
  {
    match found
    case None => NewProgress(user, quest, period)
    case Some(row) =>
      if Before(row.periodStartDate, period) then row.(currentProgress := 0, claimedAt := None, periodStartDate := period)
      else row
  }

  /** The catalogue filtered by `is_active`, in catalogue order. */
  function ActiveQuests(quests: seq<Quest>): (a: seq<Quest>)
    ensures |a| <= |quests|
  {
    if |quests| == 0 then []
    else (if quests[0].isActive then [quests[0]] else []) + ActiveQuests(quests[1..])
  }

  /** The first active quest with identifier `id`. */
  function FindActiveQuest(quests: seq<Quest>, id: QuestId): (r: Option<Quest>)
    ensures r.Some? ==> r.value in quests && r.value.id == id && r.value.isActive
    ensures r.None? ==> forall q | q in quests :: !(q.id == id && q.isActive)
  {
    if |quests| == 0 then None
    else if quests[0].id == id && quests[0].isActive then Some(quests[0])
    else FindActiveQuest(quests[1..], id)
  }

  /** The row a successful claim writes into the ledger: one currency credited by the reward amount. */
  function Credit(row: XpRewardsData, q: Quest): (r: XpRewardsData)
    ensures q.rewardType == Coins ==> r == row.(coins := row.coins + q.rewardAmount)
    ensures q.rewardType == Diamonds ==> r == row.(diamonds := row.diamonds + q.rewardAmount)
  {
    match q.rewardType
    case Coins => row.(coins := row.coins + q.rewardAmount)
    case Diamonds => row.(diamonds := row.diamonds + q.rewardAmount)
  }

  /** Ids of quests are distinct, so each quest has its own progress row per period. */
  predicate DistinctIds(quests: seq<Quest>) {
    forall i, j | 0 <= i < j < |quests| :: quests[i].id != quests[j].id
  }

  predicate ProgressValid(progress: map<ProgressKey, UserQuestProgress>) {
    forall k | k in progress ::
      Dates.Valid(k.period) && progress[k].userId == k.user && progress[k].questId == k.quest
      && progress[k].periodStartDate == k.period
  }

  /**
   * The completion test of `claim_quest_reward`: a monthly-claims quest is
   * judged on the live count of this month's claims, any other quest on
   * its stored progress.
   */
  predicate ClaimCompleted(q: Quest, row: UserQuestProgress, monthlyClaimed: int) {
    if q.triggerType == Some(MonthlyDailyQuests) then monthlyClaimed >= q.targetProgress
    else row.currentProgress >= q.targetProgress
  }

  /**
   * The checks `claim_quest_reward` makes before paying, in the order it
   * makes them; on success the quest and the key of its current row.
   * `monthlyClaimed` is the monthly-claims figure of the live data fetched
   * for the claim.
   */
  function ClaimCheck(quests: seq<Quest>, progress: map<ProgressKey, UserQuestProgress>, user: UserId,
                      questId: QuestId, today: Date, monthlyClaimed: int): (r: Result<(Quest, ProgressKey)>)
    requires Dates.Valid(today)
    ensures r.Success? ==> FindActiveQuest(quests, questId).Some? && r.value.0 == FindActiveQuest(quests, questId).value
                           && r.value.1 == ProgressKey(user, questId, PeriodStart(r.value.0.questType, today))
                           && r.value.1 in progress && progress[r.value.1].claimedAt.None?
    ensures r.Success? ==> ClaimCompleted(r.value.0, progress[r.value.1], monthlyClaimed)
    ensures FindActiveQuest(quests, questId).None? <==> r == Failure(Error(NOT_FOUND, QUEST_NOT_FOUND_MSG))
    ensures FindActiveQuest(quests, questId).Some? ==>
              var q := FindActiveQuest(quests, questId).value;
              var key := ProgressKey(user, questId, PeriodStart(q.questType, today));
              (key !in progress <==> r == Failure(Error(NOT_FOUND, PROGRESS_NOT_FOUND_MSG)))
              && (key in progress && progress[key].claimedAt.Some? <==> r == Failure(Error(BAD_REQUEST, ALREADY_CLAIMED_MSG)))
              && (key in progress && progress[key].claimedAt.None? && !ClaimCompleted(q, progress[key], monthlyClaimed)
                  <==> r == Failure(Error(BAD_REQUEST, NOT_COMPLETED_MSG)))
  {
    match FindActiveQuest(quests, questId)
    case None => Failure(Error(NOT_FOUND, QUEST_NOT_FOUND_MSG))
    case Some(q) =>
      var key := ProgressKey(user, questId, PeriodStart(q.questType, today));
      if key !in progress then Failure(Error(NOT_FOUND, PROGRESS_NOT_FOUND_MSG))
      else if progress[key].claimedAt.Some? then Failure(Error(BAD_REQUEST, ALREADY_CLAIMED_MSG))
      else if !ClaimCompleted(q, progress[key], monthlyClaimed) then
        Failure(Error(BAD_REQUEST, NOT_COMPLETED_MSG))
      else Success((q, key))
  }

  /** The `quests` and `user_quest_progress` tables. */
  class QuestStore {
    var quests: seq<Quest>
    var progress: map<ProgressKey, UserQuestProgress>

    ghost predicate Valid()
      reads this
    {
      DistinctIds(quests) && ProgressValid(progress)
    }

    constructor (catalogue: seq<Quest>)
      requires DistinctIds(catalogue)
      ensures Valid() && quests == catalogue && progress == map[]
    {
      quests := catalogue;
      progress := map[];
    }

    /** `_get_or_create_user_progress`: the row for the period is fetched, reset or created, and stored. */
    method GetOrCreateProgress(user: UserId, quest: QuestId, period: Date) returns (p: UserQuestProgress)
      requires Valid() && Dates.Valid(period)
      modifies this
      ensures Valid() && quests == old(quests)
      ensures var key := ProgressKey(user, quest, period);
              p == ProgressForPeriod(if key in old(progress) then Some(old(progress)[key]) else None, user, quest, period)
              && progress == old(progress)[key := p]
      ensures p == (var key := ProgressKey(user, quest, period);
                    if key in old(progress) then old(progress)[key] else NewProgress(user, quest, period))
    {
      var key := ProgressKey(user, quest, period);
      if key in progress {
        var row := progress[key];
        p := ProgressForPeriod(Some(row), user, quest, period);
      } else {
        p := ProgressForPeriod(None, user, quest, period);
      }
      progress := progress[key := p];
    }

    /**
     * `get_quests_with_progress`: for every active quest, in catalogue
     * order, the row of the current period is fetched or created, its
     * progress refreshed from the live data, stored, and reported.
     */
    method GetQuestsWithProgress(user: UserId, today: Date, hydrate: Hydrate.HydrateService, sleep: Sleep.SleepService,
                                 diet: Diet.DietService, focus: Focus.FocusService, ledger: RewardLedger)
      returns (results: seq<QuestWithProgress>)
      requires Valid() && Dates.Valid(today)
      modifies this
      ensures Valid() && quests == old(quests)
      ensures var live := DependentData(hydrate.logs, sleep.logs, diet.logs, focus.logs, ledger.rows, old(progress), user, today);
              var active := ActiveQuests(quests);
              progress == RefreshPrefix(old(progress), user, active, today, live, |active|)
              && |results| == |active|
              && (forall i | 0 <= i < |active| ::
                    results[i] == QuestView(active[i], Some(RefreshedRow(old(progress), user, active[i], today, live))))
    {
      var live := FetchDependentData(hydrate, sleep, diet, focus, ledger.rows, progress, user, today);
      var active := ActiveQuests(quests);
      ActiveQuestsDistinct(quests);
      var p;
      p, results := RefreshAll(progress, user, active, today, live);
      progress := p;
    }

    /**
     * `claim_quest_reward`: refused as `ClaimCheck` says; otherwise the
     * reward is credited to the user's ledger row (created with defaults
     * when missing), the progress row is marked claimed at `now`, and the
     * rewards are reported as `get_rewards` reports them.
     */
    method ClaimQuestReward(user: UserId, questId: QuestId, today: Date, now: Timestamp, hydrate: Hydrate.HydrateService,
                            sleep: Sleep.SleepService, diet: Diet.DietService, focus: Focus.FocusService,
                            ledger: RewardLedger)
      returns (r: Result<XpRewardsData>)
      requires Valid() && ledger.Valid() && Dates.Valid(today)
      modifies this, ledger
      ensures Valid() && ledger.Valid() && quests == old(quests)
      ensures var live := DependentData(hydrate.logs, sleep.logs, diet.logs, focus.logs, old(ledger.rows), old(progress),
                                        user, today);
              var check := ClaimCheck(old(quests), old(progress), user, questId, today, live.monthlyDailyQuestsClaimed);
              if check.Failure? then
                r == Failure(check.error) && progress == old(progress) && ledger.rows == old(ledger.rows)
              else
                var (q, key) := check.value;
                var before := if user in old(ledger.rows) then old(ledger.rows)[user] else DefaultXpRewards(user);
                progress == old(progress)[key := old(progress)[key].(claimedAt := Some(now))]
                && ledger.rows == old(ledger.rows)[user := Credit(before, q)]
                && r == Success(RewardsView(ledger.rows[user], today))
    {
      var live := FetchDependentData(hydrate, sleep, diet, focus, ledger.rows, progress, user, today);
      var check := ClaimCheck(quests, progress, user, questId, today, live.monthlyDailyQuestsClaimed);
      if check.Failure? {
        return Failure(check.error);
      }
      var (q, key) := check.value;
      ghost var rows0 := ledger.rows;
      ghost var before := if user in rows0 then rows0[user] else DefaultXpRewards(user);
      var current := ledger.GetRewards(user, today);
      assert ledger.rows[user] == before;
      assert current.coins == before.coins && current.diamonds == before.diamonds;
      var newCoins := current.coins;
      var newDiamonds := current.diamonds;
      if q.rewardType == Coins {
        newCoins := newCoins + q.rewardAmount;
      } else {
        newDiamonds := newDiamonds + q.rewardAmount;
      }
      ledger.SetBalances(user, newCoins, newDiamonds);
      assert ledger.rows[user] == Credit(before, q);
      assert ledger.rows == rows0[user := Credit(before, q)];
      progress := progress[key := progress[key].(claimedAt := Some(now))];
      var updated := ledger.GetRewards(user, today);
      r := Success(updated);
    }
  }

  /**
   * The loop of `get_quests_with_progress` over the active quests: each
   * quest's row is fetched or created, refreshed and written back, and its
   * view appended to the result.
   */
  method RefreshAll(p0: map<ProgressKey, UserQuestProgress>, user: UserId, active: seq<Quest>, today: Date, live: LiveData)
    returns (p: map<ProgressKey, UserQuestProgress>, results: seq<QuestWithProgress>)
    requires Dates.Valid(today) && DistinctIds(active) && ProgressValid(p0)
    ensures ProgressValid(p) && p == RefreshPrefix(p0, user, active, today, live, |active|)
    ensures |results| == |active|
    ensures forall i | 0 <= i < |active| ::
              results[i] == QuestView(active[i], Some(RefreshedRow(p0, user, active[i], today, live)))
  {
    p := p0;
    results := [];
    var i := 0;
    while i < |active|
      invariant 0 <= i <= |active|
      invariant p == RefreshPrefix(p0, user, active, today, live, i)
      invariant results == ViewsPrefix(p0, user, active, today, live, i)
    {
      var q := active[i];
      var refreshed := RefreshedRow(p, user, q, today, live);
      RefreshLoopStep(p0, user, active, today, live, i);
      p := p[KeyOf(user, q, today) := refreshed];
      results := results + [QuestView(q, Some(refreshed))];
      i := i + 1;
    }
    RefreshPrefixValid(p0, user, active, today, live, |active|);
    forall j | 0 <= j < |active|
      ensures results[j] == QuestView(active[j], Some(RefreshedRow(p0, user, active[j], today, live)))
    {
      ViewsPrefixAt(p0, user, active, today, live, |active|, j);
    }
  }

  /** One turn of the loop in `RefreshAll`: the table and the result list grow by the next quest's refreshed row. */
  lemma RefreshLoopStep(p0: map<ProgressKey, UserQuestProgress>, user: UserId, active: seq<Quest>,
                        today: Date, live: LiveData, i: nat)
    requires Dates.Valid(today) && DistinctIds(active) && i < |active|
    ensures var p := RefreshPrefix(p0, user, active, today, live, i);
            var refreshed := RefreshedRow(p, user, active[i], today, live);
            RefreshPrefix(p0, user, active, today, live, i + 1) == p[KeyOf(user, active[i], today) := refreshed]
            && ViewsPrefix(p0, user, active, today, live, i + 1)
               == ViewsPrefix(p0, user, active, today, live, i) + [QuestView(active[i], Some(refreshed))]
  {
    RefreshStep(p0, user, active, today, live, i);
  }

  /** The entries returned for the first `n` active quests, each built from its refreshed row. */
  function ViewsPrefix(p0: map<ProgressKey, UserQuestProgress>, user: UserId, active: seq<Quest>, today: Date,
                       live: LiveData, n: nat): (r: seq<QuestWithProgress>)
    requires Dates.Valid(today) && n <= |active|
    ensures |r| == n
  {
    if n == 0 then []
    else ViewsPrefix(p0, user, active, today, live, n - 1) + [QuestView(active[n - 1], Some(RefreshedRow(p0, user, active[n - 1], today, live)))]
  }

  lemma {:induction false} ViewsPrefixAt(p0: map<ProgressKey, UserQuestProgress>, user: UserId, active: seq<Quest>,
                                        today: Date, live: LiveData, n: nat, j: nat)
    requires Dates.Valid(today) && j < n <= |active|
    ensures ViewsPrefix(p0, user, active, today, live, n)[j] == QuestView(active[j], Some(RefreshedRow(p0, user, active[j], today, live)))
    decreases n
  {
    if j < n - 1 {
      ViewsPrefixAt(p0, user, active, today, live, n - 1, j);
    }
  }

  function KeyOf(user: UserId, q: Quest, today: Date): ProgressKey
    requires Dates.Valid(today)
  {
    ProgressKey(user, q.id, PeriodStart(q.questType, today))
  }

  function KeysOf(user: UserId, active: seq<Quest>, today: Date): set<ProgressKey>
    requires Dates.Valid(today)
  {
    set i | 0 <= i < |active| :: KeyOf(user, active[i], today)
  }

  /** The row of `q` for the current period after a refresh: the stored row, or a new one, refreshed. */
  function RefreshedRow(progress: map<ProgressKey, UserQuestProgress>, user: UserId, q: Quest, today: Date, live: LiveData)
    : UserQuestProgress
    requires Dates.Valid(today)
  {
    var key := KeyOf(user, q, today);
    Refresh(q, ProgressForPeriod(if key in progress then Some(progress[key]) else None, user, q.id, key.period), live)
  }

  /** The progress table after the first `n` active quests have been processed. */
  function RefreshPrefix(p0: map<ProgressKey, UserQuestProgress>, user: UserId, active: seq<Quest>, today: Date,
                         live: LiveData, n: nat): map<ProgressKey, UserQuestProgress>
    requires Dates.Valid(today) && n <= |active|
  {
    if n == 0 then p0
    else
      var p := RefreshPrefix(p0, user, active, today, live, n - 1);
      p[KeyOf(user, active[n - 1], today) := RefreshedRow(p, user, active[n - 1], today, live)]
  }

  /** `daily_checkin_done`: the user's ledger row records a check-in today. */
  predicate CheckedInToday(rows: map<UserId, XpRewardsData>, user: UserId, today: Date) {
    user in rows && rows[user].lastCheckinDate == today
  }

  /** What `_fetch_dependent_data` returns when a query fails: every figure at its default. */
  const NO_LIVE_DATA: LiveData := LiveData(Activity(0, 0, 0, 0), false, 0)

  /** The ids of `user`'s sleep tasks scheduled `today` and marked completed. */
  function TasksDoneToday(logs: map<LogId, Sleep.SleepLog>, user: UserId, today: Date): set<LogId>
  {
    set id | id in logs && logs[id].userId == user && logs[id].completed && logs[id].scheduledDate == today
  }

  /** The ids of `user`'s diet logs of `today` whose dishes are neither null nor empty. */
  function MealsToday(logs: map<LogId, Diet.DietLog>, user: UserId, today: Date): set<LogId>
  {
    set id | id in logs && logs[id].userId == user && logs[id].date == today
                && logs[id].dishes.Some? && logs[id].dishes.value != []
  }

  /** The water drunk as the single hydrate row of `ids` reports it; 0 without a row. */
  ghost function WaterOf(logs: map<LogId, Hydrate.HydrateLog>, ids: set<LogId>): int
    requires ids <= logs.Keys
  {
    if ids == {} then 0 else var id :| id in ids; logs[id].consumedWater
  }

  /** The sum of `focusDone` over the focus logs `ids`. */
  ghost function FocusSum(logs: map<LogId, Focus.FocusLog>, ids: set<LogId>): int
    requires ids <= logs.Keys
    decreases ids
  {
    if ids == {} then 0 else var id :| id in ids; logs[id].focusDone + FocusSum(logs, ids - {id})
  }

  /**
   * The live data `_fetch_dependent_data` gathers for `user` and `today`.
   * The hydrate query expects at most one row: a second row for the day
   * makes it fail, and the failure leaves every figure at its default.
   */
  ghost function DependentData(hydrate: map<LogId, Hydrate.HydrateLog>, sleep: map<LogId, Sleep.SleepLog>,
                               diet: map<LogId, Diet.DietLog>, focus: map<LogId, Focus.FocusLog>,
                               rows: map<UserId, XpRewardsData>, progress: map<ProgressKey, UserQuestProgress>,
                               user: UserId, today: Date): LiveData
    requires Dates.Valid(today) && ProgressValid(progress)
  {
    var water := Hydrate.LogsOn(hydrate, user, today);
    if |water| > 1 then NO_LIVE_DATA
    else
      LiveData(Activity(WaterOf(hydrate, water), |TasksDoneToday(sleep, user, today)|, |MealsToday(diet, user, today)|,
                        FocusSum(focus, Focus.LogsOn(focus, user, today))),
               CheckedInToday(rows, user, today), MonthlyClaimedCount(progress, user, MonthStart(today)))
  }

  /**
   * `_fetch_dependent_data`: the figures read from the hydrate, sleep,
   * diet and focus tables, the ledger row and the progress table.
   */
  method FetchDependentData(hydrate: Hydrate.HydrateService, sleep: Sleep.SleepService, diet: Diet.DietService,
                            focus: Focus.FocusService, rows: map<UserId, XpRewardsData>,
                            progress: map<ProgressKey, UserQuestProgress>, user: UserId, today: Date)
    returns (live: LiveData)
    requires Dates.Valid(today) && ProgressValid(progress)
    ensures live == DependentData(hydrate.logs, sleep.logs, diet.logs, focus.logs, rows, progress, user, today)
  {
    var water := Hydrate.LogsOn(hydrate.logs, user, today);
    if |water| > 1 {
      return NO_LIVE_DATA;
    }
    var ml := 0;
    if water != {} {
      var id :| id in water;
      ghost var chosen :| chosen in water && WaterOf(hydrate.logs, water) == hydrate.logs[chosen].consumedWater;
      SingletonHasOneElement(water, id, chosen);
      ml := hydrate.logs[id].consumedWater;
    }
    var ids := Focus.LogsOn(focus.logs, user, today);
    ghost var all := ids;
    var minutes := 0;
    while ids != {}
      invariant ids <= all <= focus.logs.Keys
      invariant minutes + FocusSum(focus.logs, ids) == FocusSum(focus.logs, all)
      decreases ids
    {
      var id :| id in ids;
      FocusSumRemove(focus.logs, ids, id);
      minutes := minutes + focus.logs[id].focusDone;
      ids := ids - {id};
    }
    var activity := Activity(ml, |TasksDoneToday(sleep.logs, user, today)|, |MealsToday(diet.logs, user, today)|, minutes);
    live := LiveData(activity, CheckedInToday(rows, user, today), MonthlyClaimedCount(progress, user, MonthStart(today)));
  }

  /** The focus sum only reads the `focusDone` of the logs it adds up. */
  lemma {:induction false} FocusSumAgree(a: map<LogId, Focus.FocusLog>, b: map<LogId, Focus.FocusLog>, ids: set<LogId>)
    requires ids <= a.Keys && ids <= b.Keys
    requires forall id | id in ids :: a[id].focusDone == b[id].focusDone
    ensures FocusSum(a, ids) == FocusSum(b, ids)
    decreases ids
  {
    if ids != {} {
      var y :| y in ids;
      FocusSumRemove(a, ids, y);
      FocusSumRemove(b, ids, y);
      FocusSumAgree(a, b, ids - {y});
    }
  }

  /**
   * One more cup on today's hydrate row raises the hydration figure by the
   * cup size and leaves every other figure as it was.
   */
  lemma DrinkRaisesHydrateFigure(hydrate: map<LogId, Hydrate.HydrateLog>, sleep: map<LogId, Sleep.SleepLog>,
                                 diet: map<LogId, Diet.DietLog>, focus: map<LogId, Focus.FocusLog>,
                                 rows: map<UserId, XpRewardsData>, progress: map<ProgressKey, UserQuestProgress>,
                                 user: UserId, today: Date, id: LogId)
    requires Dates.Valid(today) && ProgressValid(progress)
    requires |Hydrate.LogsOn(hydrate, user, today)| <= 1
    requires id in hydrate && hydrate[id].userId == user && hydrate[id].date == today
    ensures var before := DependentData(hydrate, sleep, diet, focus, rows, progress, user, today);
            var after := DependentData(hydrate[id := Hydrate.DrinkCup(hydrate[id])], sleep, diet, focus, rows, progress, user, today);
            after == before.(activity := before.activity.(hydrateMl := before.activity.hydrateMl + hydrate[id].cupSize))
  {
    var drunk := hydrate[id := Hydrate.DrinkCup(hydrate[id])];
    var water := Hydrate.LogsOn(hydrate, user, today);
    assert Hydrate.LogsOn(drunk, user, today) == water;
    forall x | x in water ensures x == id {
      SingletonHasOneElement(water, x, id);
    }
    assert water == {id};
  }

  /**
   * Minutes added to one of today's focus logs raise the focus figure by
   * exactly those minutes and leave every other figure as it was.
   */
  lemma FocusRaisesFocusFigure(hydrate: map<LogId, Hydrate.HydrateLog>, sleep: map<LogId, Sleep.SleepLog>,
                               diet: map<LogId, Diet.DietLog>, focus: map<LogId, Focus.FocusLog>,
                               rows: map<UserId, XpRewardsData>, progress: map<ProgressKey, UserQuestProgress>,
                               user: UserId, today: Date, id: LogId, minutes: int, goal: int)
    requires Dates.Valid(today) && ProgressValid(progress)
    requires |Hydrate.LogsOn(hydrate, user, today)| <= 1
    requires id in focus && focus[id].userId == user && focus[id].date == today
    ensures var before := DependentData(hydrate, sleep, diet, focus, rows, progress, user, today);
            var after := DependentData(hydrate, sleep, diet, focus[id := Focus.AddMinutes(focus[id], minutes, goal)],
                                       rows, progress, user, today);
            after == before.(activity := before.activity.(focusMinutes := before.activity.focusMinutes + minutes))
  {
    var added := focus[id := Focus.AddMinutes(focus[id], minutes, goal)];
    var ids := Focus.LogsOn(focus, user, today);
    assert Focus.LogsOn(added, user, today) == ids;
    FocusSumRemove(focus, ids, id);
    FocusSumRemove(added, ids, id);
    FocusSumAgree(focus, added, ids - {id});
  }

  /** Completing one of today's open sleep tasks raises the task figure by one. */
  lemma CompletingTaskRaisesTaskFigure(hydrate: map<LogId, Hydrate.HydrateLog>, sleep: map<LogId, Sleep.SleepLog>,
                                       diet: map<LogId, Diet.DietLog>, focus: map<LogId, Focus.FocusLog>,
                                       rows: map<UserId, XpRewardsData>, progress: map<ProgressKey, UserQuestProgress>,
                                       user: UserId, today: Date, id: LogId)
    requires Dates.Valid(today) && ProgressValid(progress)
    requires |Hydrate.LogsOn(hydrate, user, today)| <= 1
    requires id in sleep && sleep[id].userId == user && sleep[id].scheduledDate == today && !sleep[id].completed
    ensures var before := DependentData(hydrate, sleep, diet, focus, rows, progress, user, today);
            var after := DependentData(hydrate, sleep[id := sleep[id].(completed := true)], diet, focus, rows, progress, user, today);
            after == before.(activity := before.activity.(tasksCompleted := before.activity.tasksCompleted + 1))
  {
    var done := sleep[id := sleep[id].(completed := true)];
    assert TasksDoneToday(done, user, today) == TasksDoneToday(sleep, user, today) + {id};
  }

  /**
   * A second hydrate row for the day makes the hydrate query fail, and the
   * failure hides every other figure too: a user who checked in today is
   * reported as not checked in.
   */
  lemma DuplicateHydrateRowHidesCheckin(hydrate: map<LogId, Hydrate.HydrateLog>, sleep: map<LogId, Sleep.SleepLog>,
                                        diet: map<LogId, Diet.DietLog>, focus: map<LogId, Focus.FocusLog>,
                                        rows: map<UserId, XpRewardsData>, progress: map<ProgressKey, UserQuestProgress>,
                                        user: UserId, today: Date, a: LogId, b: LogId)
    requires Dates.Valid(today) && ProgressValid(progress)
    requires a != b && a in hydrate && b in hydrate
    requires hydrate[a].userId == user && hydrate[a].date == today && hydrate[b].userId == user && hydrate[b].date == today
    ensures DependentData(hydrate, sleep, diet, focus, rows, progress, user, today) == NO_LIVE_DATA
    ensures CheckedInToday(rows, user, today) ==> !DependentData(hydrate, sleep, diet, focus, rows, progress, user, today).checkinDone
  {
    assert |{a, b}| == 2;
    SubsetSize({a, b}, Hydrate.LogsOn(hydrate, user, today));
  }

  /** Two elements of a one-element set are the same. */
  lemma SingletonHasOneElement<T>(s: set<T>, a: T, b: T)
    requires |s| <= 1 && a in s && b in s
    ensures a == b
  {
    if a != b {
      assert {a, b} <= s;
      assert |{a, b}| == 2;
      SubsetSize({a, b}, s);
    }
  }

  lemma SubsetSize<T>(a: set<T>, b: set<T>)
    requires a <= b
    ensures |a| <= |b|
  {
    assert b == a + (b - a);
  }

  /** Any log of the set can be taken out of the focus sum first. */
  lemma {:induction false} FocusSumRemove(logs: map<LogId, Focus.FocusLog>, ids: set<LogId>, x: LogId)
    requires x in ids && ids <= logs.Keys
    ensures FocusSum(logs, ids) == logs[x].focusDone + FocusSum(logs, ids - {x})
    decreases ids
  {
    var y :| y in ids && FocusSum(logs, ids) == logs[y].focusDone + FocusSum(logs, ids - {y});
    if y != x {
      FocusSumRemove(logs, ids - {y}, x);
      FocusSumRemove(logs, ids - {x}, y);
      assert ids - {y} - {x} == ids - {x} - {y};
    }
  }

  // ---------------------------------------------------------------- lemmas

  /** The active list holds exactly the active quests of the catalogue. */
  lemma {:induction false} ActiveQuestsMembers(quests: seq<Quest>)
    ensures forall q | q in ActiveQuests(quests) :: q in quests && q.isActive
    ensures forall q | q in quests && q.isActive :: q in ActiveQuests(quests)
  {
    if |quests| > 0 {
      ActiveQuestsMembers(quests[1..]);
      assert forall q | q in quests :: q == quests[0] || q in quests[1..];
    }
  }

  lemma {:induction false} ActiveQuestsDistinct(quests: seq<Quest>)
    requires DistinctIds(quests)
    ensures DistinctIds(ActiveQuests(quests))
  {
    if |quests| > 0 {
      ActiveQuestsDistinct(quests[1..]);
      ActiveQuestsMembers(quests[1..]);
      var rest := ActiveQuests(quests[1..]);
      assert forall q | q in rest :: q in quests[1..];
      assert forall q | q in quests[1..] :: q.id != quests[0].id by {
        forall q | q in quests[1..] ensures q.id != quests[0].id {
          var j :| 0 <= j < |quests[1..]| && quests[1..][j] == q;
          assert quests[j + 1] == q;
        }
      }
    }
  }

  /** A refreshed row depends only on the stored row under its own key. */
  lemma RefreshedRowLocal(p1: map<ProgressKey, UserQuestProgress>, p2: map<ProgressKey, UserQuestProgress>,
                          user: UserId, q: Quest, today: Date, live: LiveData)
    requires Dates.Valid(today)
    requires var key := KeyOf(user, q, today); (key in p1 <==> key in p2) && (key in p1 ==> p1[key] == p2[key])
    ensures RefreshedRow(p1, user, q, today, live) == RefreshedRow(p2, user, q, today, live)
  {
  }

  lemma {:induction false} RefreshPrefixOwnRow(p0: map<ProgressKey, UserQuestProgress>, user: UserId, active: seq<Quest>,
                                              today: Date, live: LiveData, n: nat, i: nat)
    requires Dates.Valid(today) && DistinctIds(active) && i < n <= |active|
    ensures var p := RefreshPrefix(p0, user, active, today, live, n);
            var key := KeyOf(user, active[i], today);
            key in p && p[key] == RefreshedRow(p0, user, active[i], today, live)
    decreases n
  {
    var prev := RefreshPrefix(p0, user, active, today, live, n - 1);
    if i == n - 1 {
      var key := KeyOf(user, active[i], today);
      forall j | 0 <= j < n - 1
        ensures key != KeyOf(user, active[j], today)
      {
        assert active[j].id != active[i].id;
      }
      RefreshPrefixOther(p0, user, active, today, live, n - 1, key);
      RefreshedRowLocal(prev, p0, user, active[i], today, live);
    } else {
      RefreshPrefixOwnRow(p0, user, active, today, live, n - 1, i);
      assert active[i].id != active[n - 1].id;
      assert KeyOf(user, active[i], today) != KeyOf(user, active[n - 1], today);
    }
  }

  /** One step of the fold: the next quest's row is refreshed from the table as it was before the fetch. */
  lemma RefreshStep(p0: map<ProgressKey, UserQuestProgress>, user: UserId, active: seq<Quest>,
                    today: Date, live: LiveData, i: nat)
    requires Dates.Valid(today) && DistinctIds(active) && i < |active|
    ensures var p := RefreshPrefix(p0, user, active, today, live, i);
            RefreshedRow(p, user, active[i], today, live) == RefreshedRow(p0, user, active[i], today, live)
            && RefreshPrefix(p0, user, active, today, live, i + 1)
               == p[KeyOf(user, active[i], today) := RefreshedRow(p, user, active[i], today, live)]
  {
    var p := RefreshPrefix(p0, user, active, today, live, i);
    RefreshPrefixOther(p0, user, active, today, live, i, KeyOf(user, active[i], today));
    RefreshedRowLocal(p, p0, user, active[i], today, live);
  }

  lemma {:induction false} RefreshPrefixValid(p0: map<ProgressKey, UserQuestProgress>, user: UserId, active: seq<Quest>,
                                             today: Date, live: LiveData, n: nat)
    requires Dates.Valid(today) && n <= |active| && ProgressValid(p0)
    ensures ProgressValid(RefreshPrefix(p0, user, active, today, live, n))
    decreases n
  {
    if n > 0 { RefreshPrefixValid(p0, user, active, today, live, n - 1); }
  }

  /** A row that belongs to none of the first `n` quests is untouched. */
  lemma {:induction false} RefreshPrefixOther(p0: map<ProgressKey, UserQuestProgress>, user: UserId, active: seq<Quest>,
                                             today: Date, live: LiveData, n: nat, k: ProgressKey)
    requires Dates.Valid(today) && n <= |active|
    requires forall i | 0 <= i < n :: k != KeyOf(user, active[i], today)
    ensures var p := RefreshPrefix(p0, user, active, today, live, n);
            (k in p <==> k in p0) && (k in p ==> p[k] == p0[k])
    decreases n
  {
    if n > 0 { RefreshPrefixOther(p0, user, active, today, live, n - 1, k); }
  }

  /**
   * The table after refreshing the quest list: each active quest's row is
   * its stored row (or a new one) refreshed, every other row is as it was.
   */
  ghost predicate RowsRefreshed(p0: map<ProgressKey, UserQuestProgress>, p: map<ProgressKey, UserQuestProgress>,
                                user: UserId, active: seq<Quest>, today: Date, live: LiveData)
    requires Dates.Valid(today)
  {
    (forall i | 0 <= i < |active| ::
       KeyOf(user, active[i], today) in p && p[KeyOf(user, active[i], today)] == RefreshedRow(p0, user, active[i], today, live))
    && (forall k | k !in KeysOf(user, active, today) :: (k in p <==> k in p0) && (k in p ==> p[k] == p0[k]))
  }

  /**
   * Processing the active quests one after the other refreshes each
   * quest's own row from the table as it was before the fetch and leaves
   * every other row alone: distinct quests never share a row.
   */
  lemma RefreshAllSpec(p0: map<ProgressKey, UserQuestProgress>, user: UserId, active: seq<Quest>,
                       today: Date, live: LiveData)
    requires Dates.Valid(today) && DistinctIds(active)
    ensures RowsRefreshed(p0, RefreshPrefix(p0, user, active, today, live, |active|), user, active, today, live)
  {
    var p := RefreshPrefix(p0, user, active, today, live, |active|);
    forall i | 0 <= i < |active|
      ensures KeyOf(user, active[i], today) in p && p[KeyOf(user, active[i], today)] == RefreshedRow(p0, user, active[i], today, live)
    {
      RefreshPrefixOwnRow(p0, user, active, today, live, |active|, i);
    }
    forall k | k !in KeysOf(user, active, today)
      ensures (k in p <==> k in p0) && (k in p ==> p[k] == p0[k])
    {
      RefreshPrefixOther(p0, user, active, today, live, |active|, k);
    }
  }

  /**
   * Under the period filter the service uses, the row it finds always
   * belongs to the current period, so the reset branch never runs.
   */
  lemma NoResetUnderPeriodFilter(progress: map<ProgressKey, UserQuestProgress>, key: ProgressKey)
    requires ProgressValid(progress) && key in progress
    ensures ProgressForPeriod(Some(progress[key]), key.user, key.quest, key.period) == progress[key]
  {
  }

  /** A quest with no progress row is not shown as completed or claimable. */
  lemma FreshProgressNotClaimable(q: Quest, user: UserId, period: Date)
    requires q.targetProgress > 0
    ensures !QuestView(q, Some(NewProgress(user, q.id, period))).isCompleted
    ensures !QuestView(q, Some(NewProgress(user, q.id, period))).isClaimable
    ensures !QuestView(q, None).isClaimable
  {
  }

  /**
   * A check-in or meal quest whose target is above 1 can never be completed
   * by automatic progress: its progress is capped at 1.
   */
  lemma CappedQuestNeverCompletes(q: Quest, row: UserQuestProgress, live: LiveData)
    requires q.triggerType == Some(Checkin) || q.triggerType == Some(LogMeal)
    requires q.targetProgress > 1 && row.claimedAt.None?
    ensures !IsCompleted(q, Refresh(q, row, live))
  {
  }

  /**
   * Automatic progress follows the live figure down as well as up: a
   * hydration quest at 1500 drops back to 0 when today's log is reset.
   */
  lemma RefreshCanLowerProgress()
    ensures var q := Quest("q", "Drink", None, Daily, Some(HydrateGoal), 1500, Coins, 30, true);
            var row := UserQuestProgress("u", "q", 1500, Date(2024, 5, 1), None);
            var live := LiveData(Activity(0, 0, 0, 0), false, 0);
            Refresh(q, row, live).currentProgress == 0 < row.currentProgress
  {
  }

  /**
   * What GET /quests shows as claimable can be claimed: right after the
   * list is refreshed, an unclaimed, completed entry passes every check of
   * `claim_quest_reward`, provided the claim sees the same monthly-claims
   * figure as the list did.
   */
  lemma {:induction false} ClaimableCanBeClaimed(quests: seq<Quest>, progress: map<ProgressKey, UserQuestProgress>,
                                                 user: UserId, q: Quest, today: Date, live: LiveData)
    requires Dates.Valid(today)
    requires FindActiveQuest(quests, q.id) == Some(q)
    requires var key := KeyOf(user, q, today); key in progress && progress[key].claimedAt.None?
    requires var key := KeyOf(user, q, today); QuestView(q, Some(Refresh(q, progress[key], live))).isClaimable
    requires var key := KeyOf(user, q, today); progress[key] == Refresh(q, progress[key], live)
    ensures ClaimCheck(quests, progress, user, q.id, today, live.monthlyDailyQuestsClaimed) == Success((q, KeyOf(user, q, today)))
  {
  }

  /**
   * `claim_quest_reward` pays only for a completed quest: a quest other than
   * the monthly-claims one passes only when its stored progress reaches the
   * target, and when the row is as GET /quests last refreshed it from the
   * same live data, the list showed it as claimable.
   */
  lemma ClaimPaysOnlyCompleted(quests: seq<Quest>, progress: map<ProgressKey, UserQuestProgress>,
                                                 user: UserId, questId: QuestId, today: Date, live: LiveData)
    requires Dates.Valid(today)
    requires ClaimCheck(quests, progress, user, questId, today, live.monthlyDailyQuestsClaimed).Success?
    ensures var (q, key) := ClaimCheck(quests, progress, user, questId, today, live.monthlyDailyQuestsClaimed).value;
            q.triggerType != Some(MonthlyDailyQuests) ==> IsCompleted(q, progress[key])
    ensures var (q, key) := ClaimCheck(quests, progress, user, questId, today, live.monthlyDailyQuestsClaimed).value;
            progress[key] == Refresh(q, progress[key], live) ==> QuestView(q, Some(progress[key])).isClaimable
  {
  }

  /** After a successful claim the same quest cannot be claimed again in the same period. */
  lemma {:induction false} ClaimOncePerPeriod(quests: seq<Quest>, progress: map<ProgressKey, UserQuestProgress>,
                                             user: UserId, questId: QuestId, today: Date, now: Timestamp,
                                             monthly: int, laterMonthly: int)
    requires Dates.Valid(today) && ProgressValid(progress)
    requires ClaimCheck(quests, progress, user, questId, today, monthly).Success?
    ensures var key := ClaimCheck(quests, progress, user, questId, today, monthly).value.1;
            var after := progress[key := progress[key].(claimedAt := Some(now))];
            ProgressValid(after)
            && ClaimCheck(quests, after, user, questId, today, laterMonthly) == Failure(Error(BAD_REQUEST, ALREADY_CLAIMED_MSG))
  {
  }

  /** The monthly-claims window holds exactly the periods that start in the current month. */
  lemma MonthWindowIsCalendarMonth(progress: map<ProgressKey, UserQuestProgress>, user: UserId, today: Date)
    requires Dates.Valid(today) && ProgressValid(progress)
    ensures ClaimedThisMonth(progress, user, MonthStart(today))
            == set k | k in progress && k.user == user && progress[k].claimedAt.Some?
                       && k.period.year == today.year && k.period.month == today.month
  {
    forall k | k in progress
      ensures (OnOrBefore(MonthStart(today), k.period) && Before(k.period, MonthWindowEnd(MonthStart(today))))
              <==> (k.period.year == today.year && k.period.month == today.month)
    {
      InMonthIffSameMonth(today, k.period);
    }
  }
}
