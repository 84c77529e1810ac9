/**
 * The hydrate service (`HydrateService`): a user's water goal and cup size,
 * one log per day that starts empty, an update that drinks one cup, and the
 * logs of the current week. "Today" (UTC+7) is passed in.
 */
module Hydrate {
  import opened Wrappers
  import opened Dates
  import opened QuestModels
  import opened Habits

  datatype HydrateHabit = HydrateHabit(userId: UserId, waterGoal: int, cupSize: int, reminderTimes: seq<string>)

  datatype HydrateLog = HydrateLog(
    userId: UserId,
    waterGoal: int,
    cupSize: int,
    consumedWater: int,
    date: Date,
    completed: bool)

  const LOG_NOT_FOUND_MSG: string := "Hydrate log not found"
  const NO_WEEK_LOGS_MSG: string := "No hydrate logs found for this week"

  /** The log `set_hydrate_habit` inserts for today: nothing drunk yet, not completed. */
  function FreshLog(user: UserId, waterGoal: int, cupSize: int, today: Date): HydrateLog
  {
    HydrateLog(user, waterGoal, cupSize, 0, today, false)
  }

  /** The request check of `set_hydrate_habit`: both the water goal and the cup size must be truthy. */
  function CheckHabit(waterGoal: Option<int>, cupSize: Option<int>): (r: Result<(int, int)>)
    ensures r.Success? <==> Truthy(waterGoal) && Truthy(cupSize)
    ensures r.Success? ==> r.value == (waterGoal.value, cupSize.value)
    ensures r.Failure? ==> r.error == Error(BAD_REQUEST, MISSING_FIELDS_MSG)
  {
    if !Truthy(waterGoal) || !Truthy(cupSize) then Failure(Error(BAD_REQUEST, MISSING_FIELDS_MSG))
    else Success((waterGoal.value, cupSize.value))
  }

  /** The log table after deleting the user's logs of `today`. */
  function WithoutDay(logs: map<LogId, HydrateLog>, user: UserId, today: Date): (r: map<LogId, HydrateLog>)
    ensures forall id | id in r :: id in logs && r[id] == logs[id]
    ensures forall id | id in logs :: id in r <==> !(logs[id].userId == user && logs[id].date == today)
  {
    map id | id in logs && !(logs[id].userId == user && logs[id].date == today) :: logs[id]
  }

  /** The ids of the user's logs dated `day`. */
  function LogsOn(logs: map<LogId, HydrateLog>, user: UserId, day: Date): set<LogId>
  {
    set id | id in logs && logs[id].userId == user && logs[id].date == day
  }

  /** `update_hydrate_log`'s new row: one more cup drunk, completion recomputed, nothing else touched. */
  function DrinkCup(log: HydrateLog): (r: HydrateLog)
    ensures r == log.(consumedWater := r.consumedWater, completed := r.completed)
    ensures r.consumedWater - log.consumedWater == log.cupSize
    ensures r.completed <==> r.consumedWater >= log.waterGoal
  {
    var consumed := log.consumedWater + log.cupSize;
    log.(consumedWater := consumed, completed := consumed >= log.waterGoal)
  }

  /** `n` updates in a row. */
  function DrinkCups(log: HydrateLog, n: nat): HydrateLog
    decreases n
  {
    if n == 0 then log else DrinkCups(DrinkCup(log), n - 1)
  }

  /** The week window of `get_hydrate_logs_week`: from the Monday of this week up to today. */
  predicate InWeek(d: Date, today: Date)
    requires Valid(today)
  {
    OnOrBefore(WeekStart(today), d) && OnOrBefore(d, today)
  }

  /** The user's logs in the week window. */
  function WeekLogs(logs: map<LogId, HydrateLog>, user: UserId, today: Date): map<LogId, HydrateLog>
    requires Valid(today)
  {
    map id | id in logs && logs[id].userId == user && InWeek(logs[id].date, today) :: logs[id]
  }

  /** The `hydrate_habits` and `hydrate_logs` tables. */
  class HydrateService {
    var habits: map<UserId, HydrateHabit>
    var logs: map<LogId, HydrateLog>
    var nextId: LogId

    ghost predicate Valid()
      reads this
    {
      forall id | id in logs :: id < nextId && Dates.Valid(logs[id].date)
    }

    constructor ()
      ensures Valid() && habits == map[] && logs == map[] && nextId == 0
    {
      habits := map[];
      logs := map[];
      nextId := 0;
    }

    /**
     * `set_hydrate_habit`: refused before any write unless both fields are
     * truthy; otherwise the habit is upserted and today's logs of the user
     * are replaced by one fresh log.
     */
    method SetHydrateHabit(user: UserId, waterGoal: Option<int>, cupSize: Option<int>,
                           reminderTimes: Option<seq<string>>, today: Date)
      returns (r: Result<HydrateHabit>)
      requires Valid() && Dates.Valid(today)
      modifies this
      ensures Valid()
      ensures CheckHabit(waterGoal, cupSize).Failure? ==>
                r == Failure(CheckHabit(waterGoal, cupSize).error)
                && habits == old(habits) && logs == old(logs) && nextId == old(nextId)
      ensures CheckHabit(waterGoal, cupSize).Success? ==>
                var habit := HydrateHabit(user, waterGoal.value, cupSize.value, reminderTimes.GetOr([]));
                r == Success(habit) && habits == old(habits)[user := habit]
                && logs == WithoutDay(old(logs), user, today)[old(nextId) := FreshLog(user, waterGoal.value, cupSize.value, today)]
                && nextId == old(nextId) + 1
    {
      var check := CheckHabit(waterGoal, cupSize);
      if check.Failure? {
        return Failure(check.error);
      }
      var (goal, cup) := check.value;
      var habit := HydrateHabit(user, goal, cup, reminderTimes.GetOr([]));
      habits := habits[user := habit];
      logs := WithoutDay(logs, user, today);
      logs := logs[nextId := FreshLog(user, goal, cup, today)];
      nextId := nextId + 1;
      r := Success(habit);
    }

    /** `update_hydrate_log`: 404 unless the log exists and belongs to the user; otherwise one cup is added. */
    method UpdateHydrateLog(user: UserId, logId: LogId) returns (r: Result<HydrateLog>)
      requires Valid()
      modifies this
      ensures Valid() && habits == old(habits) && nextId == old(nextId)
      ensures logId !in old(logs) || old(logs)[logId].userId != user ==>
                r == Failure(Error(NOT_FOUND, LOG_NOT_FOUND_MSG)) && logs == old(logs)
      ensures logId in old(logs) && old(logs)[logId].userId == user ==>
                logs == old(logs)[logId := DrinkCup(old(logs)[logId])] && r == Success(logs[logId])
    {
      if logId !in logs || logs[logId].userId != user {
        return Failure(Error(NOT_FOUND, LOG_NOT_FOUND_MSG));
      }
      var updated := DrinkCup(logs[logId]);
      logs := logs[logId := updated];
      r := Success(updated);
    }

    /** `get_hydrate_logs_week`: the user's logs from this week's Monday to today, or 404 when there are none. */
    method GetHydrateLogsWeek(user: UserId, today: Date) returns (r: Result<map<LogId, HydrateLog>>)
      requires Dates.Valid(today)
      ensures r.Failure? <==> WeekLogs(logs, user, today) == map[]
      ensures r.Failure? ==> r.error == Error(NOT_FOUND, NO_WEEK_LOGS_MSG)
      ensures r.Success? ==> r.value == WeekLogs(logs, user, today)
    {
      var week := WeekLogs(logs, user, today);
      if week == map[] {
        return Failure(Error(NOT_FOUND, NO_WEEK_LOGS_MSG));
      }
      r := Success(week);
    }
  }

  // ---------------------------------------------------------------- lemmas

  /**
   * After a successful `set_hydrate_habit` the user has exactly one log for
   * today, the fresh one, and every other user's or day's log is kept.
   */
  lemma ReplaceLeavesOneLog(logs: map<LogId, HydrateLog>, user: UserId, today: Date, newId: LogId,
                            waterGoal: int, cupSize: int)
    requires newId !in logs
    ensures var after := WithoutDay(logs, user, today)[newId := FreshLog(user, waterGoal, cupSize, today)];
            LogsOn(after, user, today) == {newId}
            && after[newId].consumedWater == 0 && !after[newId].completed
            && forall id | id in logs && !(logs[id].userId == user && logs[id].date == today) ::
                 id in after && after[id] == logs[id]
  {
  }

  /** `n` cups on a log add `n` cup sizes, and the log is completed exactly when that reaches the goal. */
  lemma {:induction false} CupsAccumulate(log: HydrateLog, n: nat)
    ensures DrinkCups(log, n).consumedWater == log.consumedWater + n * log.cupSize
    ensures n > 0 ==> (DrinkCups(log, n).completed <==> log.consumedWater + n * log.cupSize >= log.waterGoal)
    ensures DrinkCups(log, n) == log.(consumedWater := DrinkCups(log, n).consumedWater,
                                       completed := DrinkCups(log, n).completed)
    decreases n
  {
    if n > 0 {
      CupsAccumulate(DrinkCup(log), n - 1);
      if n == 1 {
        assert DrinkCups(log, 1) == DrinkCup(log);
      }
    }
  }

  /** One or more cups on a fresh log complete it exactly when `k * cupSize >= waterGoal`. */
  lemma FreshLogCompletion(user: UserId, waterGoal: int, cupSize: int, today: Date, k: nat)
    requires k > 0
    ensures DrinkCups(FreshLog(user, waterGoal, cupSize, today), k).completed <==> k * cupSize >= waterGoal
  {
    CupsAccumulate(FreshLog(user, waterGoal, cupSize, today), k);
  }

  /** Every log the week query returns is dated this week: at most six days back, and no later than today. */
  lemma WeekLogsInWindow(logs: map<LogId, HydrateLog>, user: UserId, today: Date)
    requires Dates.Valid(today)
    requires forall id | id in logs :: Dates.Valid(logs[id].date)
    ensures forall id | id in WeekLogs(logs, user, today) ::
              logs[id].userId == user
              && 0 <= DaysBetween(logs[id].date, today) <= Weekday(today) <= 6
              && Weekday(logs[id].date) == Weekday(today) - DaysBetween(logs[id].date, today)
    ensures forall id | id in logs && logs[id].userId == user
                        && 0 <= DaysBetween(logs[id].date, today) <= Weekday(today) :: id in WeekLogs(logs, user, today)
  {
    forall id | id in logs
      ensures InWeek(logs[id].date, today) <==> 0 <= DaysBetween(logs[id].date, today) <= Weekday(today)
    {
      InWeekIffGap(today, logs[id].date);
    }
    forall id | id in WeekLogs(logs, user, today)
      ensures Weekday(logs[id].date) == Weekday(today) - DaysBetween(logs[id].date, today)
    {
      WeekWindow(today, logs[id].date);
    }
  }
}
