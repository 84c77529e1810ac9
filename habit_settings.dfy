/**
 * The habit settings form: one form per habit (sleep times, water goal
 * and cup size, calorie goal, focus goal, and the hydrate and diet
 * reminder lists), the per-habit check `handleSaveHabit` runs before it
 * sends anything, the body it sends, and the per-habit saving flags.
 * Number inputs hold `None` when they are empty (or not a number, which
 * every check treats the same way).
 */
module HabitSettings {
  import opened Wrappers
  import Habits
  import Sleep
  import Hydrate
  import Diet
  import Focus

  datatype HabitKind = SleepKind | HydrateKind | DietKind | FocusKind

  datatype HabitForms = HabitForms(
    sleepTime: Option<string>,
    wakeupTime: Option<string>,
    waterGoal: Option<real>,
    cupSize: Option<real>,
    caloriesGoal: Option<real>,
    focusGoal: Option<real>,
    hydrateReminders: seq<string>,
    dietReminders: seq<string>)

  const EMPTY_FORMS := HabitForms(None, None, None, None, None, None, [], [])

  const SLEEP_TIMES_MSG := "Wake up and sleep times are required."
  const WATER_GOAL_MSG := "Valid Water Goal (> 0) is required."
  const CUP_SIZE_MSG := "Valid Cup Size (> 0) is required."
  const CALORIES_GOAL_MSG := "Valid Calorie Goal (> 0) is required."
  const FOCUS_GOAL_MSG := "Valid positive integer Focus Goal (minutes) is required."

  /** A number input that is truthy (present and not 0) and greater than 0. */
  predicate PositiveNumber(v: Option<real>)
  {
    v.Some? && v.value != 0.0 && v.value > 0.0
  }

  /** A text input that is truthy: present and not empty. */
  predicate FilledText(v: Option<string>)
  {
    v.Some? && v.value != ""
  }

  predicate IsInteger(x: real)
  {
    x == x.Floor as real
  }

  /** The validation error for saving one habit, or `None`; for hydrate the water goal is checked before the cup size. */
  function ValidateHabit(kind: HabitKind, f: HabitForms): (r: Option<string>)
    ensures kind == SleepKind ==> (r.None? <==> FilledText(f.sleepTime) && FilledText(f.wakeupTime))
    ensures kind == HydrateKind ==> (r.None? <==> PositiveNumber(f.waterGoal) && PositiveNumber(f.cupSize))
    ensures kind == HydrateKind && !PositiveNumber(f.waterGoal) ==> r == Some(WATER_GOAL_MSG)
    ensures kind == DietKind ==> (r.None? <==> PositiveNumber(f.caloriesGoal))
    ensures kind == FocusKind ==> (r.None? <==> PositiveNumber(f.focusGoal) && IsInteger(f.focusGoal.value))
  {
    match kind
    case SleepKind =>
      if !FilledText(f.sleepTime) || !FilledText(f.wakeupTime) then Some(SLEEP_TIMES_MSG) else None
    case HydrateKind =>
      if !PositiveNumber(f.waterGoal) then Some(WATER_GOAL_MSG)
      else if !PositiveNumber(f.cupSize) then Some(CUP_SIZE_MSG)
      else None
    case DietKind =>
      if !PositiveNumber(f.caloriesGoal) then Some(CALORIES_GOAL_MSG) else None
    case FocusKind =>
      if !PositiveNumber(f.focusGoal) || !IsInteger(f.focusGoal.value) then Some(FOCUS_GOAL_MSG) else None
  }

  /** The body sent to the habit's endpoint: the habit's own fields, plus the reminder list for hydrate and diet. */
  datatype HabitPayload =
    | SleepPayload(sleepTime: Option<string>, wakeupTime: Option<string>)
    | HydratePayload(waterGoal: Option<real>, cupSize: Option<real>, reminderTime: seq<string>)
    | DietPayload(caloriesGoal: Option<real>, reminderTime: seq<string>)
    | FocusPayload(focusGoal: Option<real>)

  function PayloadFor(kind: HabitKind, f: HabitForms): (p: HabitPayload)
    ensures p.HydratePayload? <==> kind == HydrateKind
    ensures p.DietPayload? <==> kind == DietKind
    ensures p.HydratePayload? ==> p.reminderTime == f.hydrateReminders
    ensures p.DietPayload? ==> p.reminderTime == f.dietReminders
  {
    match kind
    case SleepKind => SleepPayload(f.sleepTime, f.wakeupTime)
    case HydrateKind => HydratePayload(f.waterGoal, f.cupSize, f.hydrateReminders)
    case DietKind => DietPayload(f.caloriesGoal, f.dietReminders)
    case FocusKind => FocusPayload(f.focusGoal)
  }

  class HabitSettingsForm {
    var forms: HabitForms
    var isSaving: map<HabitKind, bool>

    constructor ()
      ensures forms == EMPTY_FORMS
      ensures isSaving == map[SleepKind := false, HydrateKind := false, DietKind := false, FocusKind := false]
    {
      forms := EMPTY_FORMS;
      isSaving := map[SleepKind := false, HydrateKind := false, DietKind := false, FocusKind := false];
    }

    /**
     * `handleSaveHabit(kind)`: the habit's flag is raised, its check runs,
     * and a failure lowers the flag without sending; otherwise the body is
     * sent and the flag is lowered once the request settles. `sent` is the
     * body of the request, if one was made.
     */
    method HandleSaveHabit(kind: HabitKind) returns (sent: Option<HabitPayload>)
      modifies this
      ensures sent.Some? <==> ValidateHabit(kind, old(forms)).None?
      ensures sent.Some? ==> sent.value == PayloadFor(kind, old(forms))
      ensures isSaving == old(isSaving)[kind := false]
      ensures forms == old(forms)
    {
      isSaving := isSaving[kind := true];
      var dataToSend := PayloadFor(kind, forms);
      var validationError := ValidateHabit(kind, forms);
      if validationError.Some? {
        isSaving := isSaving[kind := false];
        return None;
      }
      sent := Some(dataToSend);
      isSaving := isSaving[kind := false];
    }
  }

  // ----------------------------------------------------------------- lemmas

  /** A hydrate form the client accepts, with whole numbers, passes the server's check with the same values. */
  lemma AcceptedHydrateFormPassesServer(f: HabitForms)
    requires ValidateHabit(HydrateKind, f).None?
    requires IsInteger(f.waterGoal.value) && IsInteger(f.cupSize.value)
    ensures Hydrate.CheckHabit(Some(f.waterGoal.value.Floor), Some(f.cupSize.value.Floor))
            == Success((f.waterGoal.value.Floor, f.cupSize.value.Floor))
  {
  }

  /** A diet or focus goal the client accepts passes the server's truthiness check. */
  lemma AcceptedGoalsPassServer(f: HabitForms)
    requires ValidateHabit(DietKind, f).None? && IsInteger(f.caloriesGoal.value)
    requires ValidateHabit(FocusKind, f).None?
    ensures Diet.CheckHabit(Some(f.caloriesGoal.value.Floor)).Success?
    ensures Focus.CheckHabit(Some(f.focusGoal.value.Floor)).Success?
  {
  }

  /** The server only tests truthiness, so a negative goal the client refuses is accepted there. */
  lemma NegativeGoalOnlyClientRefuses()
    ensures ValidateHabit(HydrateKind, EMPTY_FORMS.(waterGoal := Some(-1.0), cupSize := Some(-1.0))) == Some(WATER_GOAL_MSG)
    ensures Hydrate.CheckHabit(Some(-1), Some(-1)).Success?
    ensures ValidateHabit(FocusKind, EMPTY_FORMS.(focusGoal := Some(-30.0))) == Some(FOCUS_GOAL_MSG)
    ensures Focus.CheckHabit(Some(-30)).Success?
  {
  }

  /** A fractional focus goal is refused by the client alone. */
  lemma FractionalFocusGoalRefused()
    ensures ValidateHabit(FocusKind, EMPTY_FORMS.(focusGoal := Some(25.5))) == Some(FOCUS_GOAL_MSG)
  {
    assert (25.5).Floor == 25;
  }

  /** The client only asks for two times; an overnight pair it sends on is refused by the server's order check. */
  lemma OvernightSleepOnlyServerRefuses()
    ensures ValidateHabit(SleepKind, EMPTY_FORMS.(sleepTime := Some("23:00:00"), wakeupTime := Some("06:30:00"))).None?
    ensures Sleep.CheckHabit(Some("23:00:00"), Some("06:30:00")) == Failure(Error(BAD_REQUEST, Sleep.ORDER_MSG))
  {
    assert !Sleep.StringBefore("23:00:00", "06:30:00") by {
      assert "23:00:00"[0] == '2' && "06:30:00"[0] == '0';
    }
  }

  /** The water goal is reported first: with both hydrate numbers missing the message is about the goal. */
  lemma WaterGoalReportedFirst(f: HabitForms)
    requires f.waterGoal.None? && f.cupSize.None?
    ensures ValidateHabit(HydrateKind, f) == Some(WATER_GOAL_MSG)
  {
  }
}
