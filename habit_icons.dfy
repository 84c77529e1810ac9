/**
 * The habit panels that draw one icon per habit: the home page's
 * interactive panel (`renderSingleHabitIcon`: which icons accept a click,
 * which are disabled, which render as buttons) and the dashboard's
 * read-only panel (a spinner while loading, otherwise the selected logs
 * and the fill of the hydrate and diet icons).
 */
module HabitIcons {
  import opened Wrappers
  import opened Percent
  import opened Todos

  datatype IconKind = WakeupIcon | SleepIcon | HydrateIcon | DietIcon | FocusIcon

  /** The action an icon's click runs: complete a sleep task, add a cup, or open the diet modal. */
  datatype Handler = CompleteSleep(logId: string) | UpdateHydrate(logId: string) | OpenDietModal(logId: string)

  datatype IconView = IconView(
    logId: Option<string>,
    isCompleted: bool,
    handler: Option<Handler>,
    isLoading: bool,
    isDisabled: bool,
    isButton: bool,
    onClick: Option<Handler>,
    fill: Option<real>)

  /** A JavaScript-truthy id: present and not empty. */
  predicate HasId(id: Option<string>)
  {
    id.Some? && id.value != ""
  }

  function IdOf(l: Option<SleepLog>): Option<string>
  {
    if l.Some? then Some(l.value.id) else None
  }

  /** The icon fill for a hydrate or diet log; `None` is the empty style of a missing log. */
  function Fill(consumed: real, goal: real): (p: real)
    ensures 0.0 <= p <= 100.0
  {
    CalculatePercentage(Some(consumed), Some(goal))
  }

  /**
   * `renderSingleHabitIcon(kind)`: the `switch` fills in the log, its
   * completion and the click handler, then the loading flag, the disabled
   * flag and the wrapper element follow for every kind alike.
   */
  function RenderIcon(kind: IconKind, todos: seq<Todo>, isUpdating: map<string, bool>): (v: IconView)
    ensures v.onClick.Some? ==> v.onClick == v.handler && !v.isLoading
    ensures kind == FocusIcon ==> v.logId.None? && v.fill.None?
  {
    var logs := SelectLogs(todos);
    var logId: Option<string> :=
      match kind
      case WakeupIcon => IdOf(logs.wakeUp)
      case SleepIcon => IdOf(logs.sleep)
      case HydrateIcon => if logs.hydrate.Some? then Some(logs.hydrate.value.id) else None
      case DietIcon => if logs.diet.Some? then Some(logs.diet.value.id) else None
      case FocusIcon => None;
    var isCompleted :=
      match kind
      case WakeupIcon => logs.wakeUp.Some? && logs.wakeUp.value.completed
      case SleepIcon => logs.sleep.Some? && logs.sleep.value.completed
      case HydrateIcon => logs.hydrate.Some? && logs.hydrate.value.completed
      case DietIcon => logs.diet.Some? && logs.diet.value.completed
      case FocusIcon => false;
    var handler: Option<Handler> :=
      match kind
      case WakeupIcon => if HasId(logId) && !isCompleted then Some(CompleteSleep(logId.value)) else None
      case SleepIcon => if HasId(logId) && !isCompleted then Some(CompleteSleep(logId.value)) else None
      case HydrateIcon => if HasId(logId) then Some(UpdateHydrate(logId.value)) else None
      case DietIcon => if HasId(logId) then Some(OpenDietModal(logId.value)) else None
      case FocusIcon => None;
    var fill: Option<real> :=
      match kind
      case HydrateIcon => if logs.hydrate.Some? then Some(Fill(logs.hydrate.value.consumedWater, logs.hydrate.value.waterGoal)) else None
      case DietIcon => if logs.diet.Some? then Some(Fill(logs.diet.value.consumedCalories, logs.diet.value.caloriesGoal)) else None
      case _ => None;
    var isLoading := HasId(logId) && logId.value in isUpdating && isUpdating[logId.value];
    var isDisabled := isLoading || (kind != HydrateIcon && kind != DietIcon && isCompleted);
    IconView(logId, isCompleted, handler, isLoading, isDisabled, handler.Some?, if isDisabled then None else handler, fill)
  }

  /** What the dashboard's panel renders. */
  datatype DashboardPanel = Spinner | Icons(logs: PanelLogs, hydrateFill: Option<real>, dietFill: Option<real>)

  function RenderDashboardPanel(todos: seq<Todo>, isLoading: bool): (r: DashboardPanel)
    ensures r.Spinner? <==> isLoading
  {
    if isLoading then Spinner
    else
      var logs := SelectLogs(todos);
      Icons(logs,
            if logs.hydrate.Some? then Some(Fill(logs.hydrate.value.consumedWater, logs.hydrate.value.waterGoal)) else None,
            if logs.diet.Some? then Some(Fill(logs.diet.value.consumedCalories, logs.diet.value.caloriesGoal)) else None)
  }

  // ----------------------------------------------------------------- lemmas

  /** The wake-up and sleep icons accept a click exactly when their log exists (with an id) and is not completed. */
  lemma SleepIconsClickable(kind: IconKind, todos: seq<Todo>, isUpdating: map<string, bool>)
    requires kind == WakeupIcon || kind == SleepIcon
    ensures var log := if kind == WakeupIcon then SelectLogs(todos).wakeUp else SelectLogs(todos).sleep;
      var v := RenderIcon(kind, todos, isUpdating);
      (v.handler.Some? <==> log.Some? && log.value.id != "" && !log.value.completed)
      && (v.handler.Some? ==> v.handler == Some(CompleteSleep(log.value.id)))
  {
  }

  /** The hydrate and diet icons accept a click whenever their log exists, completed or not. */
  lemma IntakeIconsClickable(kind: IconKind, todos: seq<Todo>, isUpdating: map<string, bool>)
    requires kind == HydrateIcon || kind == DietIcon
    ensures var v := RenderIcon(kind, todos, isUpdating);
      var logs := SelectLogs(todos);
      (kind == HydrateIcon ==> (v.handler.Some? <==> logs.hydrate.Some? && logs.hydrate.value.id != ""))
      && (kind == DietIcon ==> (v.handler.Some? <==> logs.diet.Some? && logs.diet.value.id != ""))
      && (v.handler.Some? ==> (v.isDisabled <==> v.isLoading))
  {
  }

  /** The focus icon is never interactive: no handler, a plain element, never disabled. */
  lemma FocusIconInert(todos: seq<Todo>, isUpdating: map<string, bool>)
    ensures var v := RenderIcon(FocusIcon, todos, isUpdating);
      v.handler.None? && !v.isButton && !v.isDisabled && v.onClick.None?
  {
  }

  /** The rules shared by every icon: disabled iff loading or a completed non-intake habit; a button iff it has a handler; a click is attached iff enabled. */
  lemma IconRules(kind: IconKind, todos: seq<Todo>, isUpdating: map<string, bool>)
    ensures var v := RenderIcon(kind, todos, isUpdating);
      (v.isDisabled <==> v.isLoading || (kind !in {HydrateIcon, DietIcon} && v.isCompleted))
      && (v.isButton <==> v.handler.Some?)
      && (v.onClick == if v.isDisabled then None else v.handler)
      && (v.isLoading ==> HasId(v.logId) && v.logId.value in isUpdating)
  {
  }

  /** An icon that offers a click is enabled unless its log is being updated. */
  lemma ClickableIconEnabled(kind: IconKind, todos: seq<Todo>, isUpdating: map<string, bool>)
    ensures var v := RenderIcon(kind, todos, isUpdating);
      v.handler.Some? && !v.isLoading ==> v.onClick == v.handler
  {
  }

  /** The home panel's icon fill lies in [0, 100] and is present exactly for a present hydrate or diet log. */
  lemma IconFill(kind: IconKind, todos: seq<Todo>, isUpdating: map<string, bool>)
    ensures var v := RenderIcon(kind, todos, isUpdating);
      (v.fill.Some? ==> 0.0 <= v.fill.value <= 100.0)
      && (v.fill.Some? <==> (kind == HydrateIcon && SelectLogs(todos).hydrate.Some?) || (kind == DietIcon && SelectLogs(todos).diet.Some?))
  {
  }

  /** Both panels show the same logs. */
  lemma PanelsAgree(todos: seq<Todo>, isUpdating: map<string, bool>)
    ensures var p := RenderDashboardPanel(todos, false);
      p.Icons? && IdOf(p.logs.wakeUp) == RenderIcon(WakeupIcon, todos, isUpdating).logId
      && IdOf(p.logs.sleep) == RenderIcon(SleepIcon, todos, isUpdating).logId
      && p.hydrateFill == RenderIcon(HydrateIcon, todos, isUpdating).fill
      && p.dietFill == RenderIcon(DietIcon, todos, isUpdating).fill
  {
  }
}
