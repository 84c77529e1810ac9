/**
 * The records the quest and reward services exchange: quest definitions,
 * per-period quest progress rows, the combined quest view returned by
 * GET /quests, and the XP rewards row.
 */
module QuestModels {
  import opened Wrappers
  import opened Dates

  type UserId = string
  type QuestId = string
  /** A `claimed_at` timestamp; only its presence matters to the services. */
  type Timestamp = int

  datatype QuestType = Daily | Monthly
  datatype RewardType = Coins | Diamonds

  /** The `trigger_type` strings the quest engine recognises, and any other string. */
  datatype Trigger =
    | HydrateGoal | TasksCompleted | LogMeal | FocusTime | Checkin | MonthlyDailyQuests
    | OtherTrigger(name: string)

  datatype Quest = Quest(
    id: QuestId,
    title: string,
    description: Option<string>,
    questType: QuestType,
    triggerType: Option<Trigger>,
    targetProgress: int,
    rewardType: RewardType,
    rewardAmount: int,
    isActive: bool)

  datatype UserQuestProgress = UserQuestProgress(
    userId: UserId,
    questId: QuestId,
    currentProgress: int,
    periodStartDate: Date,
    claimedAt: Option<Timestamp>)

  datatype QuestWithProgress = QuestWithProgress(
    quest: Quest,
    userProgress: Option<UserQuestProgress>,
    isCompleted: bool,
    isClaimable: bool)

  datatype XpRewardsData = XpRewardsData(
    userId: UserId,
    coins: int,
    diamonds: int,
    streak: int,
    dailyCheckin: int,
    lastCheckinDate: Date,
    lastStreakDate: Date)

  /** The date a reward row carries before its first check-in and first streak. */
  const NEVER: Date := Date(2000, 1, 1)

  /** A rewards row built from the model's defaults: all counters 0, both dates `NEVER`. */
  function DefaultXpRewards(user: UserId): XpRewardsData
  {
    XpRewardsData(user, 0, 0, 0, 0, NEVER, NEVER)
  }

  /** A progress row as the service creates it: no progress, not claimed. */
  function NewProgress(user: UserId, quest: QuestId, period: Date): UserQuestProgress
  {
    UserQuestProgress(user, quest, 0, period, None)
  }

  /** A combined quest view with the model's defaults: no progress row, neither completed nor claimable. */
  function DefaultQuestWithProgress(q: Quest): QuestWithProgress
  {
    QuestWithProgress(q, None, false, false)
  }
}
