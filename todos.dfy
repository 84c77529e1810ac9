/**
 * The client's list of today's habit tasks (`TodoItem`): how the dashboard
 * and home pages assemble it from the `/sleep`, `/hydrate` and `/diet`
 * responses, the dashboard's sort order, how one updated task is put back
 * into the list, and how the habit panels pick the logs they show.
 * A sleep log's `scheduled_time` is modelled by the timestamp it parses to
 * (`None` when the field is empty); the `type` tag the pages add to each
 * log is the constructor of `Todo`.
 */
module Todos {
  import opened Wrappers
  import Sleep

  datatype Dish = Dish(name: string, calories: real)

  datatype SleepLog = SleepLog(id: string, taskType: Sleep.TaskType, scheduledTime: Option<int>, completed: bool)
  datatype HydrateLog = HydrateLog(id: string, waterGoal: real, consumedWater: real, cupSize: real, completed: bool)
  /** `dishes` is `None` when the response's field is not an array (null or missing). */
  datatype DietLog = DietLog(id: string, caloriesGoal: real, dishes: Option<seq<Dish>>, consumedCalories: real, completed: bool)
  datatype FocusLog = FocusLog(id: string, focusDone: real, completed: bool)

  datatype Todo =
    | SleepItem(sleep: SleepLog)
    | HydrateItem(hydrate: HydrateLog)
    | DietItem(diet: DietLog)
    | FocusItem(focus: FocusLog)

  function Id(t: Todo): string
  {
    match t
    case SleepItem(l) => l.id
    case HydrateItem(l) => l.id
    case DietItem(l) => l.id
    case FocusItem(l) => l.id
  }

  /** Two items carry the same `type` tag. */
  predicate SameType(a: Todo, b: Todo)
  {
    (a.SleepItem? && b.SleepItem?) || (a.HydrateItem? && b.HydrateItem?)
    || (a.DietItem? && b.DietItem?) || (a.FocusItem? && b.FocusItem?)
  }

  datatype ClientSleepHabit = ClientSleepHabit(sleepTime: string, wakeupTime: string)

  /** What `fetchApi` returns: the parsed body when the request succeeded, else an error text and the status. */
  datatype Response<T> = Response(data: Option<T>, error: Option<string>, status: int)

  /** A failed response the pages report: it carries a non-empty error and its status is not 404. */
  predicate Reported<T>(r: Response<T>)
  {
    r.error.Some? && r.error.value != "" && r.status != 404
  }

  function ErrorText<T>(r: Response<T>): string
  {
    if r.error.Some? then r.error.value else ""
  }

  // ------------------------------------------------------------ aggregation

  /** The home page's normalisation: a diet log's dishes become `[]` unless they are an array. */
  function NormaliseDishes(l: DietLog): (r: DietLog)
    ensures r.dishes.Some?
    ensures l.dishes.Some? ==> r == l
    ensures r == l.(dishes := r.dishes)
  {
    if l.dishes.Some? then l else l.(dishes := Some([]))
  }

  function SleepItems(logs: seq<SleepLog>): (r: seq<Todo>)
    ensures |r| == |logs| && forall i | 0 <= i < |logs| :: r[i] == SleepItem(logs[i])
  {
    seq(|logs|, i requires 0 <= i < |logs| => SleepItem(logs[i]))
  }

  /**
   * The unsorted list a page builds: every sleep log of the response, then
   * the first hydrate log and the first diet log when those lists are
   * non-empty. `normalise` selects the home page's dish normalisation.
   */
  function CombineTodos(sleepLogs: Response<seq<SleepLog>>, hydrateLogs: Response<seq<HydrateLog>>,
                        dietLogs: Response<seq<DietLog>>, normalise: bool): (r: seq<Todo>)
    ensures |r| == (if sleepLogs.data.Some? then |sleepLogs.data.value| else 0)
                   + (if hydrateLogs.data.Some? && |hydrateLogs.data.value| > 0 then 1 else 0)
                   + (if dietLogs.data.Some? && |dietLogs.data.value| > 0 then 1 else 0)
    ensures forall t | t in r :: !t.FocusItem?
  {
    var sleep := if sleepLogs.data.Some? then SleepItems(sleepLogs.data.value) else [];
    var hydrate := if hydrateLogs.data.Some? && |hydrateLogs.data.value| > 0 then [HydrateItem(hydrateLogs.data.value[0])] else [];
    var diet :=
      if dietLogs.data.Some? && |dietLogs.data.value| > 0 then
        [DietItem(if normalise then NormaliseDishes(dietLogs.data.value[0]) else dietLogs.data.value[0])]
      else [];
    sleep + hydrate + diet
  }

  /** The per-source error lines, in the order the pages check them; a source that returned data never reports. */
  function ApiErrors(sleepLogs: Response<seq<SleepLog>>, sleepHabit: Response<ClientSleepHabit>,
                     hydrateLogs: Response<seq<HydrateLog>>, dietLogs: Response<seq<DietLog>>): (r: seq<string>)
    ensures |r| <= 4
    ensures r == [] <==> (sleepLogs.data.Some? || !Reported(sleepLogs)) && (sleepHabit.data.Some? || !Reported(sleepHabit))
                         && ((hydrateLogs.data.Some? && |hydrateLogs.data.value| > 0) || !Reported(hydrateLogs))
                         && ((dietLogs.data.Some? && |dietLogs.data.value| > 0) || !Reported(dietLogs))
  {
    (if sleepLogs.data.None? && Reported(sleepLogs) then ["Sleep Logs: " + ErrorText(sleepLogs)] else [])
    + (if sleepHabit.data.None? && Reported(sleepHabit) then ["Sleep Habit: " + ErrorText(sleepHabit)] else [])
    + (if !(hydrateLogs.data.Some? && |hydrateLogs.data.value| > 0) && Reported(hydrateLogs)
       then ["Hydrate Logs: " + ErrorText(hydrateLogs)] else [])
    + (if !(dietLogs.data.Some? && |dietLogs.data.value| > 0) && Reported(dietLogs)
       then ["Diet Logs: " + ErrorText(dietLogs)] else [])
  }

  /** `parts.join(sep)`. */
  function Join(parts: seq<string>, sep: string): string
    decreases |parts|
  {
    if |parts| == 0 then "" else if |parts| == 1 then parts[0] else parts[0] + sep + Join(parts[1..], sep)
  }

  // ------------------------------------------------------------------- sort

  /** The comparator's `getTime`: a sleep item's scheduled time, or `None` for `Infinity`. */
  function TimeOf(t: Todo): Option<int>
  {
    if t.SleepItem? then t.sleep.scheduledTime else None
  }

  /** `typeOrder[type] || 99`: focus items have no entry. */
  function TypeOrder(t: Todo): int
  {
    match t
    case SleepItem(_) => 1
    case HydrateItem(_) => 2
    case DietItem(_) => 3
    case FocusItem(_) => 99
  }

  /**
   * The dashboard's comparator, up to its sign: `timeA - timeB` when either
   * time is finite (a finite time minus `Infinity` is `-Infinity`, written
   * -1 here, and the reverse 1), else the difference of the type orders.
   */
  function Compare(a: Todo, b: Todo): int
  {
    var ta := TimeOf(a);
    var tb := TimeOf(b);
    if ta.Some? && tb.Some? then ta.value - tb.value
    else if ta.Some? then -1
    else if tb.Some? then 1
    else TypeOrder(a) - TypeOrder(b)
  }

  ghost predicate Sorted(s: seq<Todo>)
  {
    forall i, j | 0 <= i < j < |s| :: Compare(s[i], s[j]) <= 0
  }

  /** Inserts `x` before the first element it does not sort after. */
  function Insert(x: Todo, s: seq<Todo>): (r: seq<Todo>)
    ensures |r| == |s| + 1
    decreases |s|
  {
    if |s| == 0 then [x]
    else if Compare(x, s[0]) <= 0 then [x] + s
    else [s[0]] + Insert(x, s[1..])
  }

  /**
   * `Array.prototype.sort` with this comparator, written as an insertion
   * sort. The result is ordered by the comparator and a permutation of the
   * input (`SortTodosSorted`, `SortTodosPermutes`); the relative order of
   * items the comparator ties is not stated.
   */
  function SortTodos(s: seq<Todo>): (r: seq<Todo>)
    ensures |r| == |s|
    decreases |s|
  {
    if |s| == 0 then [] else Insert(s[0], SortTodos(s[1..]))
  }

  // ---------------------------------------------------------------- updates

  /** The dashboard's `updateTodoInState`: every item with the updated item's id is replaced by it. */
  function ReplaceById(todos: seq<Todo>, updated: Todo): (r: seq<Todo>)
    ensures |r| == |todos|
  {
    seq(|todos|, i requires 0 <= i < |todos| => if Id(todos[i]) == Id(updated) then updated else todos[i])
  }

  /** Whether the home page's list update replaces `t`: a sleep item when the ids match, any other item when the type matches. */
  predicate HomeReplaces(t: Todo, updated: Todo)
  {
    (t.SleepItem? && updated.SleepItem? && Id(t) == Id(updated)) || (SameType(t, updated) && !t.SleepItem?)
  }

  /** The list update of the home page's `updateStateAndRefetchRewards`. */
  function ReplaceForHome(todos: seq<Todo>, updated: Todo): (r: seq<Todo>)
    ensures |r| == |todos|
  {
    seq(|todos|, i requires 0 <= i < |todos| => if HomeReplaces(todos[i], updated) then updated else todos[i])
  }

  // -------------------------------------------------------------- selection

  /** `todos.filter(t => t.type === 'sleep')`. */
  function SleepLogs(todos: seq<Todo>): (r: seq<SleepLog>)
    ensures |r| <= |todos|
    decreases |todos|
  {
    if |todos| == 0 then []
    else (if todos[0].SleepItem? then [todos[0].sleep] else []) + SleepLogs(todos[1..])
  }

  /** `logs.find(log => log.task_type === task)`. */
  function FindTask(logs: seq<SleepLog>, task: Sleep.TaskType): (r: Option<SleepLog>)
    ensures r.Some? ==> r.value in logs && r.value.taskType == task
    ensures r.None? <==> forall l | l in logs :: l.taskType != task
    ensures r.Some? ==> exists k | 0 <= k < |logs| :: logs[k] == r.value && forall j | 0 <= j < k :: logs[j].taskType != task
    decreases |logs|
  {
    if |logs| == 0 then None
    else if logs[0].taskType == task then Some(logs[0])
    else FindTask(logs[1..], task)
  }

  /** `todos.find(t => t.type === 'hydrate')`. */
  function FirstHydrate(todos: seq<Todo>): (r: Option<HydrateLog>)
    ensures r.Some? ==> HydrateItem(r.value) in todos
    ensures r.None? <==> forall t | t in todos :: !t.HydrateItem?
    ensures r.Some? ==> exists k | 0 <= k < |todos| :: todos[k] == HydrateItem(r.value) && forall j | 0 <= j < k :: !todos[j].HydrateItem?
    decreases |todos|
  {
    if |todos| == 0 then None
    else if todos[0].HydrateItem? then Some(todos[0].hydrate)
    else FirstHydrate(todos[1..])
  }

  /** `todos.find(t => t.type === 'diet')`. */
  function FirstDiet(todos: seq<Todo>): (r: Option<DietLog>)
    ensures r.Some? ==> DietItem(r.value) in todos
    ensures r.None? <==> forall t | t in todos :: !t.DietItem?
    ensures r.Some? ==> exists k | 0 <= k < |todos| :: todos[k] == DietItem(r.value) && forall j | 0 <= j < k :: !todos[j].DietItem?
    decreases |todos|
  {
    if |todos| == 0 then None
    else if todos[0].DietItem? then Some(todos[0].diet)
    else FirstDiet(todos[1..])
  }

  /** The logs a habit panel shows: wake-up, sleep, hydrate and diet. */
  datatype PanelLogs = PanelLogs(wakeUp: Option<SleepLog>, sleep: Option<SleepLog>, hydrate: Option<HydrateLog>, diet: Option<DietLog>)

  function SelectLogs(todos: seq<Todo>): PanelLogs
  {
    var sleeps := SleepLogs(todos);
    PanelLogs(FindTask(sleeps, Sleep.WakeupTask), FindTask(sleeps, Sleep.SleepTask), FirstHydrate(todos), FirstDiet(todos))
  }

  // ----------------------------------------------------------------- lemmas

  /** The comparator is antisymmetric: swapping its arguments flips its sign. */
  lemma CompareAntisymmetric(a: Todo, b: Todo)
    ensures Compare(b, a) == -Compare(a, b)
  {
  }

  /** The comparator is transitive, so it defines a total preorder. */
  lemma CompareTransitive(a: Todo, b: Todo, c: Todo)
    requires Compare(a, b) <= 0 && Compare(b, c) <= 0
    ensures Compare(a, c) <= 0
  {
  }

  lemma SortedCons(a: Todo, t: seq<Todo>)
    requires Sorted(t) && forall j | 0 <= j < |t| :: Compare(a, t[j]) <= 0
    ensures Sorted([a] + t)
  {
    var r := [a] + t;
    forall i, j | 0 <= i < j < |r|
      ensures Compare(r[i], r[j]) <= 0
    {
      assert r[j] == t[j - 1];
      if i > 0 {
        assert r[i] == t[i - 1];
      }
    }
  }

  lemma {:induction false} InsertElements(x: Todo, s: seq<Todo>)
    ensures multiset(Insert(x, s)) == multiset(s) + multiset{x}
    ensures forall y | y in Insert(x, s) :: y == x || y in s
    decreases |s|
  {
    if |s| > 0 && Compare(x, s[0]) > 0 {
      InsertElements(x, s[1..]);
      assert s == [s[0]] + s[1..];
    }
  }

  lemma {:induction false} InsertSorted(x: Todo, s: seq<Todo>)
    requires Sorted(s)
    ensures Sorted(Insert(x, s))
    decreases |s|
  {
    if |s| == 0 {
    } else if Compare(x, s[0]) <= 0 {
      forall j | 0 <= j < |s|
        ensures Compare(x, s[j]) <= 0
      {
        if j > 0 {
          CompareTransitive(x, s[0], s[j]);
        }
      }
      SortedCons(x, s);
    } else {
      var tail := Insert(x, s[1..]);
      assert Sorted(s[1..]);
      InsertSorted(x, s[1..]);
      InsertElements(x, s[1..]);
      CompareAntisymmetric(x, s[0]);
      forall j | 0 <= j < |tail|
        ensures Compare(s[0], tail[j]) <= 0
      {
        assert tail[j] in tail;
        if tail[j] != x {
          var k :| 0 <= k < |s[1..]| && s[1..][k] == tail[j];
          assert s[k + 1] == tail[j];
        }
      }
      SortedCons(s[0], tail);
    }
  }

  /** The sorted list is ordered by the comparator and holds the same items, each as often as before. */
  lemma SortTodosCorrect(s: seq<Todo>)
    ensures Sorted(SortTodos(s))
    ensures multiset(SortTodos(s)) == multiset(s)
  {
    SortTodosSorted(s);
    SortTodosPermutes(s);
  }

  lemma {:induction false} SortTodosSorted(s: seq<Todo>)
    ensures Sorted(SortTodos(s))
    decreases |s|
  {
    if |s| > 0 {
      SortTodosSorted(s[1..]);
      InsertSorted(s[0], SortTodos(s[1..]));
    }
  }

  lemma {:induction false} SortTodosPermutes(s: seq<Todo>)
    ensures multiset(SortTodos(s)) == multiset(s)
    decreases |s|
  {
    if |s| > 0 {
      var t := SortTodos(s[1..]);
      SortTodosPermutes(s[1..]);
      InsertElements(s[0], t);
      assert multiset(s) == multiset(s[1..]) + multiset{s[0]} by {
        assert s == [s[0]] + s[1..];
      }
    }
  }

  /**
   * What the dashboard's order means: timed items come before untimed ones,
   * timed items are in time order, and untimed ones go sleep, hydrate,
   * diet, focus.
   */
  lemma SortedOrderMeaning(s: seq<Todo>, i: int, j: int)
    requires Sorted(s) && 0 <= i < j < |s|
    ensures TimeOf(s[j]).Some? ==> TimeOf(s[i]).Some?
    ensures TimeOf(s[i]).Some? && TimeOf(s[j]).Some? ==> TimeOf(s[i]).value <= TimeOf(s[j]).value
    ensures TimeOf(s[i]).None? && TimeOf(s[j]).None? ==> TypeOrder(s[i]) <= TypeOrder(s[j])
  {
    assert Compare(s[i], s[j]) <= 0;
  }

  /** Every sleep log of a response is in the list, and at most one hydrate and one diet log. */
  lemma CombineContents(sleepLogs: Response<seq<SleepLog>>, hydrateLogs: Response<seq<HydrateLog>>,
                        dietLogs: Response<seq<DietLog>>, normalise: bool)
    ensures var c := CombineTodos(sleepLogs, hydrateLogs, dietLogs, normalise);
      (sleepLogs.data.Some? ==> forall l | l in sleepLogs.data.value :: SleepItem(l) in c)
      && (sleepLogs.data.None? ==> forall t | t in c :: !t.SleepItem?)
      && (forall t | t in c && t.HydrateItem? :: t == HydrateItem(hydrateLogs.data.value[0]))
      && (forall t | t in c && t.DietItem? :: t.diet.id == dietLogs.data.value[0].id)
      && (forall t | t in c :: !t.FocusItem?)
  {
    var c := CombineTodos(sleepLogs, hydrateLogs, dietLogs, normalise);
    if sleepLogs.data.Some? {
      var items := SleepItems(sleepLogs.data.value);
      forall l | l in sleepLogs.data.value
        ensures SleepItem(l) in c
      {
        var k :| 0 <= k < |sleepLogs.data.value| && sleepLogs.data.value[k] == l;
        assert c[k] == items[k];
      }
    }
  }

  /** One hydrate log and one diet log make the list; further logs of those kinds are dropped. */
  lemma CombineKeepsFirstOnly(sleepLogs: Response<seq<SleepLog>>, h: HydrateLog, h2: HydrateLog, d: DietLog, d2: DietLog)
    requires h != h2
    ensures var c := CombineTodos(sleepLogs, Response(Some([h, h2]), None, 200), Response(Some([d, d2]), None, 200), false);
      HydrateItem(h) in c && HydrateItem(h2) !in c && DietItem(d) in c
  {
    var c := CombineTodos(sleepLogs, Response(Some([h, h2]), None, 200), Response(Some([d, d2]), None, 200), false);
    var n := if sleepLogs.data.Some? then |sleepLogs.data.value| else 0;
    assert c[n] == HydrateItem(h);
    assert c[n + 1] == DietItem(d);
  }

  /** A 404 is never reported, nor is a source that returned data. */
  lemma NotFoundIsSilent(sleepLogs: Response<seq<SleepLog>>, sleepHabit: Response<ClientSleepHabit>,
                         hydrateLogs: Response<seq<HydrateLog>>, dietLogs: Response<seq<DietLog>>)
    requires sleepLogs.status == 404 || sleepLogs.data.Some?
    requires sleepHabit.status == 404 || sleepHabit.data.Some?
    requires hydrateLogs.status == 404 || (hydrateLogs.data.Some? && |hydrateLogs.data.value| > 0)
    requires dietLogs.status == 404 || (dietLogs.data.Some? && |dietLogs.data.value| > 0)
    ensures ApiErrors(sleepLogs, sleepHabit, hydrateLogs, dietLogs) == []
  {
  }

  /** A reported failure of the sleep-log request is the first error line. */
  lemma SleepErrorReported(sleepLogs: Response<seq<SleepLog>>, sleepHabit: Response<ClientSleepHabit>,
                           hydrateLogs: Response<seq<HydrateLog>>, dietLogs: Response<seq<DietLog>>)
    requires sleepLogs.data.None? && sleepLogs.error == Some("boom") && sleepLogs.status == 500
    ensures ApiErrors(sleepLogs, sleepHabit, hydrateLogs, dietLogs)[0] == "Sleep Logs: boom"
  {
  }

  /** The dashboard's replacement: items with the updated id become the updated item, every other item stays in place. */
  lemma ReplaceByIdSpec(todos: seq<Todo>, updated: Todo, i: int)
    requires 0 <= i < |todos|
    ensures Id(todos[i]) == Id(updated) ==> ReplaceById(todos, updated)[i] == updated
    ensures Id(todos[i]) != Id(updated) ==> ReplaceById(todos, updated)[i] == todos[i]
  {
  }

  /** Replacing twice is replacing once, and the list's ids are unchanged. */
  lemma ReplaceByIdIdempotent(todos: seq<Todo>, updated: Todo)
    ensures ReplaceById(ReplaceById(todos, updated), updated) == ReplaceById(todos, updated)
    ensures forall i | 0 <= i < |todos| :: Id(ReplaceById(todos, updated)[i]) == Id(todos[i])
  {
  }

  /** An updated item whose id is not in the list leaves the list as it was. */
  lemma ReplaceUnknownIdNoop(todos: seq<Todo>, updated: Todo)
    requires forall t | t in todos :: Id(t) != Id(updated)
    ensures ReplaceById(todos, updated) == todos
  {
    assert forall i | 0 <= i < |todos| :: todos[i] in todos;
  }

  /**
   * On a list where the updated item's id names exactly the items of its
   * type (one-per-type for hydrate and diet, ids unique otherwise), the
   * home page's update equals the dashboard's.
   */
  lemma HomeAgreesWithDashboard(todos: seq<Todo>, updated: Todo)
    requires forall t | t in todos :: Id(t) == Id(updated) ==> SameType(t, updated)
    requires !updated.SleepItem? ==> forall t | t in todos :: SameType(t, updated) ==> Id(t) == Id(updated)
    ensures ReplaceForHome(todos, updated) == ReplaceById(todos, updated)
  {
    forall i | 0 <= i < |todos|
      ensures ReplaceForHome(todos, updated)[i] == ReplaceById(todos, updated)[i]
    {
      assert todos[i] in todos;
    }
  }

  /** The home page replaces a hydrate item even when the ids differ, which the dashboard does not. */
  lemma HomeReplacesByType(old_: HydrateLog, updated: HydrateLog)
    requires old_.id != updated.id
    ensures ReplaceForHome([HydrateItem(old_)], HydrateItem(updated)) == [HydrateItem(updated)]
    ensures ReplaceById([HydrateItem(old_)], HydrateItem(updated)) == [HydrateItem(old_)]
  {
  }

  /** The home page never replaces a sleep item with a log of another type, nor one with another id. */
  lemma HomeKeepsOtherSleepItems(todos: seq<Todo>, updated: Todo, i: int)
    requires 0 <= i < |todos| && todos[i].SleepItem? && !(updated.SleepItem? && Id(updated) == Id(todos[i]))
    ensures ReplaceForHome(todos, updated)[i] == todos[i]
  {
  }

  lemma {:induction false} SleepLogsMembers(todos: seq<Todo>)
    ensures forall l :: l in SleepLogs(todos) <==> SleepItem(l) in todos
    decreases |todos|
  {
    if |todos| > 0 {
      SleepLogsMembers(todos[1..]);
      assert todos == [todos[0]] + todos[1..];
    }
  }

  /** The panel's wake-up (sleep) log is a sleep item of the list with that task, and there is none exactly when the list has no such item. */
  lemma SelectedTaskLogs(todos: seq<Todo>, task: Sleep.TaskType)
    ensures var r := FindTask(SleepLogs(todos), task);
      (r.Some? ==> SleepItem(r.value) in todos && r.value.taskType == task)
      && (r.None? <==> forall t | t in todos && t.SleepItem? :: t.sleep.taskType != task)
  {
    SleepLogsMembers(todos);
    var r := FindTask(SleepLogs(todos), task);
    if r.None? {
      forall t | t in todos && t.SleepItem?
        ensures t.sleep.taskType != task
      {
        assert SleepItem(t.sleep) == t;
      }
    } else {
      assert SleepItem(r.value) in todos;
    }
  }

  /** The home page's diet log always carries a dish array. */
  lemma HomeDietDishesNormalised(sleepLogs: Response<seq<SleepLog>>, hydrateLogs: Response<seq<HydrateLog>>,
                                 dietLogs: Response<seq<DietLog>>)
    ensures forall t | t in CombineTodos(sleepLogs, hydrateLogs, dietLogs, true) && t.DietItem? :: t.diet.dishes.Some?
  {
  }
}
