/**
 * The home page's state and handlers: `fetchData` builds the task list
 * (normalising the diet log's dishes) and loads the rewards row, and
 * `updateStateAndRefetchRewards` puts an updated log back into the list
 * and re-reads the rewards row after sleep and hydrate actions. The
 * comparator this page passes to `sort` returns `undefined`, which the
 * sort reads as "equal", so the list keeps the order it was built in.
 * Toasts are not modelled; each awaited response is a parameter.
 */
module HomePage {
  import opened Wrappers
  import opened QuestModels
  import opened Todos

  const LOAD_FAILED_MSG := "Failed to load dashboard data."
  const REWARDS_FAILED_MSG := "Failed to load user rewards."

  datatype HomeFetch =
    | HomeFetched(sleepLogs: Response<seq<SleepLog>>, hydrateLogs: Response<seq<HydrateLog>>,
                  dietLogs: Response<seq<DietLog>>, sleepHabit: Response<ClientSleepHabit>,
                  xp: Response<XpRewardsData>)
    | HomeThrew(message: Option<string>)

  /** The habit whose action produced an updated log. */
  datatype ActionType = SleepAction | HydrateAction | DietAction

  /** The error lines of a home fetch: the task sources' lines, then one for a missing rewards row. */
  function HomeErrors(f: HomeFetch): seq<string>
    requires f.HomeFetched?
  {
    ApiErrors(f.sleepLogs, f.sleepHabit, f.hydrateLogs, f.dietLogs)
    + (if f.xp.data.None?
       then ["Rewards: " + (if f.xp.error.Some? && f.xp.error.value != "" then f.xp.error.value else REWARDS_FAILED_MSG)]
       else [])
  }

  function HomeBanner(errors: seq<string>): (e: Option<string>)
    ensures e.None? <==> errors == []
  {
    if |errors| > 0 then Some("Errors loading data: " + Join(errors, "; ")) else None
  }

  class Home {
    var todos: seq<Todo>
    var xpRewards: Option<XpRewardsData>
    var sleepHabit: Option<ClientSleepHabit>
    var isLoading: bool
    var isUpdating: map<string, bool>
    var error: Option<string>
    var dietModalOpen: Option<string>

    constructor ()
      ensures todos == [] && xpRewards == None && sleepHabit == None && isLoading
      ensures isUpdating == map[] && error == None && dietModalOpen == None
    {
      todos := [];
      xpRewards := None;
      sleepHabit := None;
      isLoading := true;
      isUpdating := map[];
      error := None;
      dietModalOpen := None;
    }

    method FetchData(outcome: HomeFetch)
      modifies this
      ensures !isLoading && isUpdating == map[] && dietModalOpen == old(dietModalOpen)
      ensures outcome.HomeFetched? ==>
        todos == CombineTodos(outcome.sleepLogs, outcome.hydrateLogs, outcome.dietLogs, true)
        && sleepHabit == (if outcome.sleepHabit.data.Some? then outcome.sleepHabit.data else old(sleepHabit))
        && xpRewards == (if outcome.xp.data.Some? then outcome.xp.data else old(xpRewards))
        && error == HomeBanner(HomeErrors(outcome))
      ensures outcome.HomeThrew? ==>
        todos == old(todos) && sleepHabit == old(sleepHabit) && xpRewards == old(xpRewards)
        && error == Some(if outcome.message.Some? && outcome.message.value != "" then outcome.message.value else LOAD_FAILED_MSG)
    {
      error := None;
      isUpdating := map[];
      isLoading := true;
      match outcome {
        case HomeFetched(sleepLogs, hydrateLogs, dietLogs, habit, xp) =>
          var combined := CombineTodos(sleepLogs, hydrateLogs, dietLogs, true);
          if habit.data.Some? {
            sleepHabit := habit.data;
          }
          todos := combined;
          if xp.data.Some? {
            xpRewards := xp.data;
          }
          error := HomeBanner(HomeErrors(outcome));
        case HomeThrew(message) =>
          error := Some(if message.Some? && message.value != "" then message.value else LOAD_FAILED_MSG);
      }
      isLoading := false;
    }

    /**
     * `updateStateAndRefetchRewards`: the list update, then a re-read of
     * `/xp` after sleep and hydrate actions only. `refetched` is the row
     * that re-read returned, if any; the result says whether it was made.
     */
    method UpdateStateAndRefetchRewards(updated: Todo, action: ActionType, refetched: Option<XpRewardsData>)
      returns (requested: bool)
      modifies this
      ensures todos == ReplaceForHome(old(todos), updated)
      ensures requested <==> action == SleepAction || action == HydrateAction
      ensures xpRewards == if requested && refetched.Some? then refetched else old(xpRewards)
      ensures sleepHabit == old(sleepHabit) && isUpdating == old(isUpdating) && error == old(error)
      ensures dietModalOpen == old(dietModalOpen) && isLoading == old(isLoading)
    {
      todos := ReplaceForHome(todos, updated);
      requested := action == SleepAction || action == HydrateAction;
      if requested && refetched.Some? {
        xpRewards := refetched;
      }
    }

    method HandleCompleteSleep(logId: string, response: Response<SleepLog>, refetched: Option<XpRewardsData>)
      modifies this
      ensures isUpdating == old(isUpdating)[logId := false]
      ensures response.data.Some? ==>
        todos == ReplaceForHome(old(todos), SleepItem(response.data.value))
        && xpRewards == (if refetched.Some? then refetched else old(xpRewards))
      ensures response.data.None? ==> todos == old(todos) && xpRewards == old(xpRewards)
      ensures error == old(error)
    {
      isUpdating := isUpdating[logId := true];
      isUpdating := isUpdating[logId := false];
      if response.data.Some? {
        var _ := UpdateStateAndRefetchRewards(SleepItem(response.data.value), SleepAction, refetched);
      }
    }

    method HandleUpdateHydrate(logId: string, response: Response<HydrateLog>, refetched: Option<XpRewardsData>)
      modifies this
      ensures isUpdating == old(isUpdating)[logId := false]
      ensures response.data.Some? ==>
        todos == ReplaceForHome(old(todos), HydrateItem(response.data.value))
        && xpRewards == (if refetched.Some? then refetched else old(xpRewards))
      ensures response.data.None? ==> todos == old(todos) && xpRewards == old(xpRewards)
      ensures error == old(error)
    {
      isUpdating := isUpdating[logId := true];
      isUpdating := isUpdating[logId := false];
      if response.data.Some? {
        var _ := UpdateStateAndRefetchRewards(HydrateItem(response.data.value), HydrateAction, refetched);
      }
    }

    method HandleOpenDietModal(logId: string)
      modifies this
      ensures dietModalOpen == Some(logId) && todos == old(todos) && xpRewards == old(xpRewards)
    {
      dietModalOpen := Some(logId);
    }

    method HandleCloseDietModal()
      modifies this
      ensures dietModalOpen == None && todos == old(todos) && xpRewards == old(xpRewards)
    {
      dietModalOpen := None;
    }

    /** The modal's callback with the updated diet log: the list changes, the rewards row is not re-read. */
    method HandleFoodAddedToLog(log: DietLog)
      modifies this
      ensures todos == ReplaceForHome(old(todos), DietItem(log)) && xpRewards == old(xpRewards)
    {
      var _ := UpdateStateAndRefetchRewards(DietItem(log), DietAction, None);
    }
  }

  // ----------------------------------------------------------------- lemmas

  /** Only the first hydrate log of the response becomes a task, and the home list keeps the build order. */
  lemma HomeListOrder(sleepLogs: seq<SleepLog>, h: HydrateLog, more: seq<HydrateLog>, dietLogs: Response<seq<DietLog>>)
    ensures var c := CombineTodos(Response(Some(sleepLogs), None, 200), Response(Some([h] + more), None, 200), dietLogs, true);
      c[..|sleepLogs|] == SleepItems(sleepLogs) && c[|sleepLogs|] == HydrateItem(h)
      && |c| <= |sleepLogs| + 2
  {
  }

  /** A missing rewards row is always reported, even when every task source succeeded. */
  lemma MissingRewardsReported(f: HomeFetch)
    requires f.HomeFetched? && f.xp.data.None?
    ensures HomeBanner(HomeErrors(f)).Some?
  {
  }
}
