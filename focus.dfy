/**
 * The focus service (`FocusService`) with the route check in front of its
 * update: a daily focus goal in minutes, one log per day that starts at
 * zero, and an update that adds focused minutes and bumps the user's
 * streak. "Today" (UTC+7) is passed in.
 */
module Focus {
  import opened Wrappers
  import opened Dates
  import opened QuestModels
  import opened Habits
  import opened XpRewards

  datatype FocusHabit = FocusHabit(userId: UserId, focusGoal: int)

  datatype FocusLog = FocusLog(userId: UserId, focusDone: int, date: Date, completed: bool)

  const MISSING_GOAL_MSG: string := "Missing focus_goal field"
  const LOG_NOT_FOUND_MSG: string := "Focus log not found"
  const HABIT_NOT_FOUND_MSG: string := "Focus habit not found"
  const INVALID_MINUTES_MSG: string := "Invalid minutes"

  /** The log `set_focus_habit` inserts for today: no minutes yet, not completed. */
  function FreshLog(user: UserId, today: Date): FocusLog
  {
    FocusLog(user, 0, today, false)
  }

  /** The request check of `set_focus_habit`: the goal must be truthy. */
  function CheckHabit(focusGoal: Option<int>): (r: Result<int>)
    ensures r.Success? <==> Truthy(focusGoal)
    ensures r.Success? ==> r.value == focusGoal.value
    ensures r.Failure? ==> r.error == Error(BAD_REQUEST, MISSING_GOAL_MSG)
  {
    if !Truthy(focusGoal) then Failure(Error(BAD_REQUEST, MISSING_GOAL_MSG)) else Success(focusGoal.value)
  }

  /** The route's check of the update body: `minutes` must be a positive integer. */
  function CheckMinutes(minutes: Option<int>): (r: Result<nat>)
    ensures r.Success? <==> minutes.Some? && minutes.value > 0
    ensures r.Success? ==> r.value == minutes.value
    ensures r.Failure? ==> r.error == Error(BAD_REQUEST, INVALID_MINUTES_MSG)
  {
    if minutes.None? || minutes.value <= 0 then Failure(Error(BAD_REQUEST, INVALID_MINUTES_MSG)) else Success(minutes.value)
  }

  /** The log table after deleting the user's logs of `today`. */
  function WithoutDay(logs: map<LogId, FocusLog>, user: UserId, today: Date): (r: map<LogId, FocusLog>)
    ensures forall id | id in r :: id in logs && r[id] == logs[id]
    ensures forall id | id in logs :: id in r <==> !(logs[id].userId == user && logs[id].date == today)
  {
    map id | id in logs && !(logs[id].userId == user && logs[id].date == today) :: logs[id]
  }

  /** The ids of the user's logs dated `day`. */
  function LogsOn(logs: map<LogId, FocusLog>, user: UserId, day: Date): set<LogId>
  {
    set id | id in logs && logs[id].userId == user && logs[id].date == day
  }

  /**
   * `update_focus_log`'s new row: `minutes` more focus, completion judged
   * against `goal`, the habit's goal at the time of the update.
   */
  function AddMinutes(log: FocusLog, minutes: int, goal: int): (r: FocusLog)
    ensures r == log.(focusDone := r.focusDone, completed := r.completed)
    ensures r.focusDone - log.focusDone == minutes
    ensures r.completed <==> r.focusDone >= goal
  {
    var done := log.focusDone + minutes;
    log.(focusDone := done, completed := done >= goal)
  }

  /** The `focus_habits` and `focus_logs` tables. */
  class FocusService {
    var habits: map<UserId, FocusHabit>
    var logs: map<LogId, FocusLog>
    var nextId: LogId

    ghost predicate Valid()
      reads this
    {
      forall id | id in logs :: id < nextId
    }

    constructor ()
      ensures Valid() && habits == map[] && logs == map[] && nextId == 0
    {
      habits := map[];
      logs := map[];
      nextId := 0;
    }

    /**
     * `set_focus_habit`: refused before any write unless the goal is truthy;
     * otherwise the habit is upserted and today's logs of the user are
     * replaced by one fresh log.
     */
    method SetFocusHabit(user: UserId, focusGoal: Option<int>, today: Date) returns (r: Result<FocusHabit>)
      requires Valid()
      modifies this
      ensures Valid()
      ensures CheckHabit(focusGoal).Failure? ==>
                r == Failure(CheckHabit(focusGoal).error)
                && habits == old(habits) && logs == old(logs) && nextId == old(nextId)
      ensures CheckHabit(focusGoal).Success? ==>
                var habit := FocusHabit(user, focusGoal.value);
                r == Success(habit) && habits == old(habits)[user := habit]
                && logs == WithoutDay(old(logs), user, today)[old(nextId) := FreshLog(user, today)]
                && nextId == old(nextId) + 1
    {
      var check := CheckHabit(focusGoal);
      if check.Failure? {
        return Failure(check.error);
      }
      var habit := FocusHabit(user, check.value);
      habits := habits[user := habit];
      logs := WithoutDay(logs, user, today);
      logs := logs[nextId := FreshLog(user, today)];
      nextId := nextId + 1;
      r := Success(habit);
    }

    /**
     * PUT /focus/logs/<id>/update: 400 unless `minutes` is a positive
     * integer, 404 when the log is missing or not the user's, 404 when the
     * user has no focus habit; otherwise the minutes are added and written
     * back, and then the streak is updated. When that raises, the request
     * fails although the log has been written.
     */
    method UpdateFocusLog(user: UserId, logId: LogId, minutes: Option<int>, today: Date, ledger: RewardLedger)
      returns (r: Result<FocusLog>)
      requires Valid() && ledger.Valid() && Dates.Valid(today)
      modifies this, ledger
      ensures Valid() && ledger.Valid() && habits == old(habits) && nextId == old(nextId)
      ensures var owned := logId in old(logs) && old(logs)[logId].userId == user;
              if CheckMinutes(minutes).Failure? || !owned || user !in habits then
                logs == old(logs) && ledger.rows == old(ledger.rows)
                && r == Failure(if CheckMinutes(minutes).Failure? then CheckMinutes(minutes).error
                                else if !owned then Error(NOT_FOUND, LOG_NOT_FOUND_MSG)
                                else Error(NOT_FOUND, HABIT_NOT_FOUND_MSG))
              else
                var updated := AddMinutes(old(logs)[logId], minutes.value, habits[user].focusGoal);
                logs == old(logs)[logId := updated]
                && (user !in old(ledger.rows) ==>
                      r == Failure(Error(NOT_FOUND, XpRewards.NOT_FOUND_MSG)) && ledger.rows == old(ledger.rows))
                && (user in old(ledger.rows) ==>
                      r == Success(updated) && ledger.rows == old(ledger.rows)[user := StreakStep(old(ledger.rows)[user], today)])
    {
      var check := CheckMinutes(minutes);
      if check.Failure? {
        return Failure(check.error);
      }
      if logId !in logs || logs[logId].userId != user {
        return Failure(Error(NOT_FOUND, LOG_NOT_FOUND_MSG));
      }
      if user !in habits {
        return Failure(Error(NOT_FOUND, HABIT_NOT_FOUND_MSG));
      }
      var updated := AddMinutes(logs[logId], check.value, habits[user].focusGoal);
      logs := logs[logId := updated];
      var streak := ledger.UpdateStreak(user, today);
      if streak.Failure? {
        return Failure(streak.error);
      }
      r := Success(updated);
    }
  }

  // ---------------------------------------------------------------- lemmas

  /** After a successful `set_focus_habit` the user has exactly one log for today, at zero minutes. */
  lemma ReplaceLeavesOneLog(logs: map<LogId, FocusLog>, user: UserId, today: Date, newId: LogId)
    requires newId !in logs
    ensures var after := WithoutDay(logs, user, today)[newId := FreshLog(user, today)];
            LogsOn(after, user, today) == {newId}
            && after[newId].focusDone == 0 && !after[newId].completed
            && forall id | id in logs && !(logs[id].userId == user && logs[id].date == today) ::
                 id in after && after[id] == logs[id]
  {
  }

  /** Two updates under the same goal are one update with the minutes summed. */
  lemma AddMinutesTwice(log: FocusLog, a: int, b: int, goal: int)
    ensures AddMinutes(AddMinutes(log, a, goal), b, goal) == AddMinutes(log, a + b, goal)
  {
  }

  /**
   * Completion follows the current goal, not the goal the log was created
   * under: a log that was completed at a goal of 25 minutes is no longer
   * completed after one more minute once the goal has been raised to 60.
   */
  lemma CompletionFollowsCurrentGoal()
    ensures var log := FocusLog("u", 25, Date(2024, 5, 1), true);
            log.completed && !AddMinutes(log, 1, 60).completed
  {
  }
}
