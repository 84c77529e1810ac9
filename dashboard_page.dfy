/**
 * The dashboard page's state and handlers: `fetchData` builds the sorted
 * task list from today's responses and collects the reportable errors;
 * the sleep and hydrate handlers put the log the server returns back into
 * the list with `updateTodoInState`. Each awaited response is a parameter.
 */
module DashboardPage {
  import opened Wrappers
  import opened Todos

  const FETCH_FAILED_MSG := "Failed to load dashboard data. Please try again."
  const COMPLETE_FAILED_MSG := "Failed to complete task."
  const HYDRATE_FAILED_MSG := "Failed to update water intake."

  /** The four responses `Promise.all` delivered, or an exception. */
  datatype DashboardFetch =
    | Fetched(sleepLogs: Response<seq<SleepLog>>, hydrateLogs: Response<seq<HydrateLog>>,
              dietLogs: Response<seq<DietLog>>, sleepHabit: Response<ClientSleepHabit>)
    | FetchThrew

  /** The page's error banner for a list of error lines. */
  function ErrorBanner(errors: seq<string>): (e: Option<string>)
    ensures e.None? <==> errors == []
  {
    if |errors| > 0 then Some("API Errors: " + Join(errors, "; ")) else None
  }

  /** A handler's error text: the response's error, or the handler's fallback when that is empty. */
  function ErrorOr<T>(r: Response<T>, fallback: string): string
  {
    if r.error.Some? && r.error.value != "" then r.error.value else fallback
  }

  class Dashboard {
    var todos: seq<Todo>
    var sleepHabit: Option<ClientSleepHabit>
    var isLoading: bool
    var isUpdating: map<string, bool>
    var error: Option<string>

    constructor ()
      ensures todos == [] && sleepHabit == None && isLoading && isUpdating == map[] && error == None
    {
      todos := [];
      sleepHabit := None;
      isLoading := true;
      isUpdating := map[];
      error := None;
    }

    method FetchData(outcome: DashboardFetch)
      modifies this
      ensures !isLoading && isUpdating == map[]
      ensures outcome.Fetched? ==>
        todos == SortTodos(CombineTodos(outcome.sleepLogs, outcome.hydrateLogs, outcome.dietLogs, false))
        && sleepHabit == (if outcome.sleepHabit.data.Some? then outcome.sleepHabit.data else old(sleepHabit))
        && error == ErrorBanner(ApiErrors(outcome.sleepLogs, outcome.sleepHabit, outcome.hydrateLogs, outcome.dietLogs))
      ensures outcome.FetchThrew? ==>
        todos == old(todos) && sleepHabit == old(sleepHabit) && error == Some(FETCH_FAILED_MSG)
    {
      isLoading := true;
      error := None;
      isUpdating := map[];
      match outcome {
        case Fetched(sleepLogs, hydrateLogs, dietLogs, habit) =>
          var combined := CombineTodos(sleepLogs, hydrateLogs, dietLogs, false);
          if habit.data.Some? {
            sleepHabit := habit.data;
          }
          todos := SortTodos(combined);
          error := ErrorBanner(ApiErrors(sleepLogs, habit, hydrateLogs, dietLogs));
        case FetchThrew =>
          error := Some(FETCH_FAILED_MSG);
      }
      isLoading := false;
    }

    method SetItemLoading(id: string, loading: bool)
      modifies this
      ensures isUpdating == old(isUpdating)[id := loading]
      ensures todos == old(todos) && sleepHabit == old(sleepHabit) && error == old(error) && isLoading == old(isLoading)
    {
      isUpdating := isUpdating[id := loading];
    }

    method UpdateTodoInState(updated: Todo)
      modifies this
      ensures todos == ReplaceById(old(todos), updated)
      ensures isUpdating == old(isUpdating) && sleepHabit == old(sleepHabit) && error == old(error) && isLoading == old(isLoading)
    {
      todos := ReplaceById(todos, updated);
    }

    /** `handleCompleteSleep` once the PUT has answered with `response`. */
    method HandleCompleteSleep(logId: string, response: Response<SleepLog>)
      modifies this
      ensures isUpdating == old(isUpdating)[logId := false]
      ensures response.data.Some? ==> todos == ReplaceById(old(todos), SleepItem(response.data.value)) && error == None
      ensures response.data.None? ==> todos == old(todos) && error == Some(ErrorOr(response, COMPLETE_FAILED_MSG))
    {
      SetItemLoading(logId, true);
      error := None;
      SetItemLoading(logId, false);
      if response.data.Some? {
        UpdateTodoInState(SleepItem(response.data.value));
      } else {
        error := Some(ErrorOr(response, COMPLETE_FAILED_MSG));
      }
    }

    /** `handleUpdateHydrate` once the PUT has answered with `response`. */
    method HandleUpdateHydrate(logId: string, response: Response<HydrateLog>)
      modifies this
      ensures isUpdating == old(isUpdating)[logId := false]
      ensures response.data.Some? ==> todos == ReplaceById(old(todos), HydrateItem(response.data.value)) && error == None
      ensures response.data.None? ==> todos == old(todos) && error == Some(ErrorOr(response, HYDRATE_FAILED_MSG))
    {
      SetItemLoading(logId, true);
      error := None;
      SetItemLoading(logId, false);
      if response.data.Some? {
        UpdateTodoInState(HydrateItem(response.data.value));
      } else {
        error := Some(ErrorOr(response, HYDRATE_FAILED_MSG));
      }
    }
  }

  // ----------------------------------------------------------------- lemmas

  /** The fetched list is the responses' tasks, each once, in the comparator's order. */
  lemma FetchedListSortedPermutation(sleepLogs: Response<seq<SleepLog>>, hydrateLogs: Response<seq<HydrateLog>>,
                                     dietLogs: Response<seq<DietLog>>)
    ensures var c := CombineTodos(sleepLogs, hydrateLogs, dietLogs, false);
      Sorted(SortTodos(c)) && multiset(SortTodos(c)) == multiset(c)
  {
    SortTodosCorrect(CombineTodos(sleepLogs, hydrateLogs, dietLogs, false));
  }

  /** Responses that only 404 leave no error banner. */
  lemma NotFoundLeavesNoBanner(sleepLogs: Response<seq<SleepLog>>, hydrateLogs: Response<seq<HydrateLog>>,
                               dietLogs: Response<seq<DietLog>>, sleepHabit: Response<ClientSleepHabit>)
    requires sleepLogs.status == 404 && hydrateLogs.status == 404 && dietLogs.status == 404 && sleepHabit.status == 404
    ensures ErrorBanner(ApiErrors(sleepLogs, sleepHabit, hydrateLogs, dietLogs)) == None
  {
    NotFoundIsSilent(sleepLogs, sleepHabit, hydrateLogs, dietLogs);
  }

  /** A scheduled sleep task sorts before the hydrate log even when it comes second. */
  lemma TimedSleepBeforeHydrate(s: SleepLog, h: HydrateLog)
    requires s.scheduledTime.Some?
    ensures SortTodos([HydrateItem(h), SleepItem(s)]) == [SleepItem(s), HydrateItem(h)]
  {
    var input := [HydrateItem(h), SleepItem(s)];
    assert input[1..] == [SleepItem(s)];
    assert SortTodos([SleepItem(s)]) == [SleepItem(s)];
    assert Compare(HydrateItem(h), SleepItem(s)) > 0;
    assert Insert(HydrateItem(h), [SleepItem(s)]) == [SleepItem(s)] + Insert(HydrateItem(h), []);
  }
}
