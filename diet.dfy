/**
 * The diet service (`DietService`): a calorie goal, one log per day that
 * starts with no dishes, and an update that appends dishes, re-sums the
 * calories and bumps the user's streak. "Today" (UTC+7) is passed in.
 */
module Diet {
  import opened Wrappers
  import opened Dates
  import opened QuestModels
  import opened Habits
  import opened XpRewards

  /** A dish as the request sends it; either key may be absent. */
  datatype Dish = Dish(name: Option<string>, calories: Option<int>)

  datatype DietHabit = DietHabit(userId: UserId, caloriesGoal: int, reminderTimes: seq<string>)

  /** A diet log; `dishes` is `None` when the column holds null. */
  datatype DietLog = DietLog(
    userId: UserId,
    caloriesGoal: int,
    dishes: Option<seq<Dish>>,
    consumedCalories: int,
    date: Date,
    completed: bool)

  const LOG_NOT_FOUND_MSG: string := "Diet log not found"

  /** The log `set_diet_habit` inserts for today: no dishes, nothing eaten, not completed. */
  function FreshLog(user: UserId, caloriesGoal: int, today: Date): DietLog
  {
    DietLog(user, caloriesGoal, Some([]), 0, today, false)
  }

  /** The request check of `set_diet_habit`: the calorie goal must be truthy. */
  function CheckHabit(caloriesGoal: Option<int>): (r: Result<int>)
    ensures r.Success? <==> Truthy(caloriesGoal)
    ensures r.Success? ==> r.value == caloriesGoal.value
    ensures r.Failure? ==> r.error == Error(BAD_REQUEST, MISSING_FIELDS_MSG)
  {
    if !Truthy(caloriesGoal) then Failure(Error(BAD_REQUEST, MISSING_FIELDS_MSG)) else Success(caloriesGoal.value)
  }

  /** The log table after deleting the user's logs of `today`. */
  function WithoutDay(logs: map<LogId, DietLog>, user: UserId, today: Date): (r: map<LogId, DietLog>)
    ensures forall id | id in r :: id in logs && r[id] == logs[id]
    ensures forall id | id in logs :: id in r <==> !(logs[id].userId == user && logs[id].date == today)
  {
    map id | id in logs && !(logs[id].userId == user && logs[id].date == today) :: logs[id]
  }

  /** The ids of the user's logs dated `day`. */
  function LogsOn(logs: map<LogId, DietLog>, user: UserId, day: Date): set<LogId>
  {
    set id | id in logs && logs[id].userId == user && logs[id].date == day
  }

  /** `dish.get("calories", 0)`. */
  function DishCalories(d: Dish): int
  {
    d.calories.GetOr(0)
  }

  /** `sum(dish.get("calories", 0) for dish in dishes)`. */
  function TotalCalories(dishes: seq<Dish>): int
  {
    if |dishes| == 0 then 0 else DishCalories(dishes[0]) + TotalCalories(dishes[1..])
  }

  /** The stored dishes, a null column read as the empty list. */
  function StoredDishes(log: DietLog): seq<Dish>
  {
    if log.dishes.Some? then log.dishes.value else []
  }

  /**
   * `update_diet_log`'s new row: the stored dishes followed by the added
   * ones, calories re-summed over all of them, completion recomputed,
   * nothing else touched.
   */
  function AddDishes(log: DietLog, added: seq<Dish>): (r: DietLog)
    ensures r == log.(dishes := r.dishes, consumedCalories := r.consumedCalories, completed := r.completed)
    ensures r.dishes == Some(StoredDishes(log) + added)
    ensures r.consumedCalories == TotalCalories(StoredDishes(log)) + TotalCalories(added)
    ensures r.completed <==> r.consumedCalories >= log.caloriesGoal
  {
    var dishes := StoredDishes(log) + added;
    TotalCaloriesAppend(StoredDishes(log), added);
    var consumed := TotalCalories(dishes);
    log.(dishes := Some(dishes), consumedCalories := consumed, completed := consumed >= log.caloriesGoal)
  }

  /** The `diet_habits` and `diet_logs` tables. */
  class DietService {
    var habits: map<UserId, DietHabit>
    var logs: map<LogId, DietLog>
    var nextId: LogId

    ghost predicate Valid()
      reads this
    {
      forall id | id in logs :: id < nextId
    }

    constructor ()
      ensures Valid() && habits == map[] && logs == map[] && nextId == 0
    {
      habits := map[];
      logs := map[];
      nextId := 0;
    }

    /**
     * `set_diet_habit`: refused before any write unless the goal is truthy;
     * otherwise the habit is upserted and today's logs of the user are
     * replaced by one fresh log.
     */
    method SetDietHabit(user: UserId, caloriesGoal: Option<int>, reminderTimes: Option<seq<string>>, today: Date)
      returns (r: Result<DietHabit>)
      requires Valid()
      modifies this
      ensures Valid()
      ensures CheckHabit(caloriesGoal).Failure? ==>
                r == Failure(CheckHabit(caloriesGoal).error)
                && habits == old(habits) && logs == old(logs) && nextId == old(nextId)
      ensures CheckHabit(caloriesGoal).Success? ==>
                var habit := DietHabit(user, caloriesGoal.value, reminderTimes.GetOr([]));
                r == Success(habit) && habits == old(habits)[user := habit]
                && logs == WithoutDay(old(logs), user, today)[old(nextId) := FreshLog(user, caloriesGoal.value, today)]
                && nextId == old(nextId) + 1
    {
      var check := CheckHabit(caloriesGoal);
      if check.Failure? {
        return Failure(check.error);
      }
      var habit := DietHabit(user, check.value, reminderTimes.GetOr([]));
      habits := habits[user := habit];
      logs := WithoutDay(logs, user, today);
      logs := logs[nextId := FreshLog(user, check.value, today)];
      nextId := nextId + 1;
      r := Success(habit);
    }

    /**
     * `update_diet_log`: 404 unless the log exists and belongs to the user.
     * Otherwise the dishes of the request (none when the key is absent) are
     * appended and written back, and then the streak is updated; when that
     * raises, the request fails although the log has been written.
     * `mealQuestIncrement` is the increment handed to the (placeholder)
     * quest progress update: the number of dishes added, and `None` when no
     * dish was added and no call is made.
     */
    method UpdateDietLog(user: UserId, logId: LogId, dishes: Option<seq<Dish>>, today: Date, ledger: RewardLedger)
      returns (r: Result<DietLog>, mealQuestIncrement: Option<nat>)
      requires Valid() && ledger.Valid() && Dates.Valid(today)
      modifies this, ledger
      ensures Valid() && ledger.Valid() && habits == old(habits) && nextId == old(nextId)
      ensures logId !in old(logs) || old(logs)[logId].userId != user ==>
                r == Failure(Error(NOT_FOUND, LOG_NOT_FOUND_MSG)) && mealQuestIncrement == None
                && logs == old(logs) && ledger.rows == old(ledger.rows)
      ensures logId in old(logs) && old(logs)[logId].userId == user ==>
                var updated := AddDishes(old(logs)[logId], dishes.GetOr([]));
                logs == old(logs)[logId := updated]
                && (user !in old(ledger.rows) ==>
                      r == Failure(Error(NOT_FOUND, XpRewards.NOT_FOUND_MSG)) && mealQuestIncrement == None
                      && ledger.rows == old(ledger.rows))
                && (user in old(ledger.rows) ==>
                      r == Success(updated) && ledger.rows == old(ledger.rows)[user := StreakStep(old(ledger.rows)[user], today)]
                      && mealQuestIncrement == (if |dishes.GetOr([])| > 0 then Some(|dishes.GetOr([])|) else None))
    {
      mealQuestIncrement := None;
      if logId !in logs || logs[logId].userId != user {
        return Failure(Error(NOT_FOUND, LOG_NOT_FOUND_MSG)), None;
      }
      var added := dishes.GetOr([]);
      var updated := AddDishes(logs[logId], added);
      logs := logs[logId := updated];
      var streak := ledger.UpdateStreak(user, today);
      if streak.Failure? {
        return Failure(streak.error), None;
      }
      if |added| > 0 {
        mealQuestIncrement := Some(|added|);
      }
      r := Success(updated);
    }
  }

  // ---------------------------------------------------------------- lemmas

  /** The calorie sum of two dish lists joined is the sum of their sums. */
  lemma {:induction false} TotalCaloriesAppend(a: seq<Dish>, b: seq<Dish>)
    ensures TotalCalories(a + b) == TotalCalories(a) + TotalCalories(b)
  {
    if |a| > 0 {
      assert (a + b)[1..] == a[1..] + b;
      TotalCaloriesAppend(a[1..], b);
    } else {
      assert a + b == b;
    }
  }

  /** Two updates in a row are one update with both dish lists, in order. */
  lemma AddDishesTwice(log: DietLog, a: seq<Dish>, b: seq<Dish>)
    ensures AddDishes(AddDishes(log, a), b) == AddDishes(log, a + b)
  {
    assert StoredDishes(log) + a + b == StoredDishes(log) + (a + b);
    TotalCaloriesAppend(a, b);
  }

  /**
   * A request without dishes re-sums the stored dishes: on a log whose
   * stored total is their sum it changes only a null dishes column into an
   * empty list.
   */
  lemma NoDishesKeepsLog(log: DietLog)
    requires log.consumedCalories == TotalCalories(StoredDishes(log))
    requires log.completed <==> log.consumedCalories >= log.caloriesGoal
    ensures AddDishes(log, []) == log.(dishes := Some(StoredDishes(log)))
  {
    assert StoredDishes(log) + [] == StoredDishes(log);
  }

  /** After a successful `set_diet_habit` the user has exactly one log for today, with no dishes. */
  lemma ReplaceLeavesOneLog(logs: map<LogId, DietLog>, user: UserId, today: Date, newId: LogId, caloriesGoal: int)
    requires newId !in logs
    ensures var after := WithoutDay(logs, user, today)[newId := FreshLog(user, caloriesGoal, today)];
            LogsOn(after, user, today) == {newId}
            && after[newId].dishes == Some([]) && after[newId].consumedCalories == 0 && !after[newId].completed
            && forall id | id in logs && !(logs[id].userId == user && logs[id].date == today) ::
                 id in after && after[id] == logs[id]
  {
  }

  /** A dish without a calorie count adds nothing. */
  lemma DishWithoutCaloriesAddsNothing(log: DietLog, name: Option<string>)
    ensures AddDishes(log, [Dish(name, None)]).consumedCalories == TotalCalories(StoredDishes(log))
  {
    assert TotalCalories([Dish(name, None)]) == 0 by {
      assert [Dish(name, None)][1..] == [];
    }
  }
}
