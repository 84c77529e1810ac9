/**
 * The dialog that adds one eaten dish to a diet log: the entry check, the
 * request body (a list holding exactly that dish), and the dialog's error
 * and loading state. The calories input is given already parsed; `None`
 * stands for `NaN`.
 */
module DietModal {
  import opened Wrappers
  import opened Text
  import Todos
  import Diet

  const INVALID_ENTRY_MSG := "Please enter a valid food name and calorie amount."
  const UNEXPECTED_MSG := "Failed to add food. Unexpected error."
  const NETWORK_MSG := "Failed to add food. Network error."

  /** The entry may be sent: the name is not blank and the calories are a number above 0. */
  predicate ValidEntry(foodName: string, calories: Option<real>)
  {
    Trim(foodName) != "" && calories.Some? && calories.value > 0.0
  }

  /** The body's `dishes` list: the one dish, under the name as typed. */
  function DishesBody(foodName: string, calories: real): (d: seq<Todos.Dish>)
    ensures |d| == 1 && d[0].name == foodName && d[0].calories == calories
  {
    [Todos.Dish(foodName, calories)]
  }

  /** How the awaited PUT ended: an answer with a log or an error text, or a network failure. */
  datatype ModalOutcome = Replied(data: Option<Todos.DietLog>, error: Option<string>) | NetworkError

  class DietUpdateModal {
    const logId: string
    var foodName: string
    var calories: Option<real>
    var error: Option<string>
    var isLoading: bool

    constructor (logId: string)
      ensures this.logId == logId && foodName == "" && calories == None && error == None && !isLoading
    {
      this.logId := logId;
      foodName := "";
      calories := None;
      error := None;
      isLoading := false;
    }

    /**
     * `handleSubmit`. `sent` is the body's dish list, if a request was
     * made; `added` is the log handed to the parent's callback, and
     * `closed` says whether the dialog asked to be closed after it.
     */
    method HandleSubmit(outcome: ModalOutcome) returns (sent: Option<seq<Todos.Dish>>, added: Option<Todos.DietLog>, closed: bool)
      modifies this
      ensures sent.Some? <==> ValidEntry(foodName, calories)
      ensures sent.Some? ==> sent.value == DishesBody(foodName, calories.value)
      ensures sent.None? ==> error == Some(INVALID_ENTRY_MSG) && added.None? && !closed
      ensures sent.Some? && outcome.Replied? && outcome.data.Some? ==> added == outcome.data && closed && error == None
      ensures sent.Some? && outcome.Replied? && outcome.data.None? ==>
        added.None? && !closed
        && error == Some(if outcome.error.Some? && outcome.error.value != "" then outcome.error.value else UNEXPECTED_MSG)
      ensures sent.Some? && outcome.NetworkError? ==> added.None? && !closed && error == Some(NETWORK_MSG)
      ensures !isLoading
      ensures foodName == old(foodName) && calories == old(calories)
    {
      error := None;
      isLoading := true;
      added, closed := None, false;
      if !ValidEntry(foodName, calories) {
        error := Some(INVALID_ENTRY_MSG);
        isLoading := false;
        return None, None, false;
      }
      sent := Some(DishesBody(foodName, calories.value));
      match outcome {
        case Replied(data, err) =>
          isLoading := false;
          if data.Some? {
            added, closed := data, true;
          } else if err.Some? && err.value != "" {
            error := err;
          } else {
            error := Some(UNEXPECTED_MSG);
          }
        case NetworkError =>
          error := Some(NETWORK_MSG);
          isLoading := false;
      }
    }
  }

  // ----------------------------------------------------------------- lemmas

  /** A name of white space alone is refused, whatever the calories. */
  lemma BlankNameRefused(name: string, calories: Option<real>)
    requires forall i | 0 <= i < |name| :: IsSpace(name[i])
    ensures !ValidEntry(name, calories)
  {
    TrimEmptyIffBlank(name);
  }

  lemma VisibleCharKeepsName(name: string, i: nat)
    requires i < |name| && !IsSpace(name[i])
    ensures Trim(name) != ""
  {
    TrimEmptyIffBlank(name);
  }

  /** A name with one visible character passes the name check; the name is sent as typed, spaces included. */
  lemma PaddedNameSentAsTyped()
    ensures ValidEntry(" rice ", Some(200.0))
    ensures DishesBody(" rice ", 200.0)[0].name == " rice "
  {
    var name := " rice ";
    assert name[1] == 'r';
    VisibleCharKeepsName(name, 1);
  }

  /** Zero or negative calories are refused. */
  lemma NonPositiveCaloriesRefused(name: string, c: real)
    requires c <= 0.0
    ensures !ValidEntry(name, Some(c))
  {
  }

  /** The dish the dialog sends, once stored, raises the log's calories by exactly its amount (for whole amounts). */
  lemma SentDishAddsItsCalories(log: Diet.DietLog, foodName: string, calories: real)
    requires ValidEntry(foodName, Some(calories)) && calories == calories.Floor as real
    ensures var body := DishesBody(foodName, calories);
      var stored := Diet.AddDishes(log, [Diet.Dish(Some(body[0].name), Some(body[0].calories.Floor))]);
      stored.consumedCalories == Diet.TotalCalories(Diet.StoredDishes(log)) + calories.Floor
      && stored.dishes == Some(Diet.StoredDishes(log) + [Diet.Dish(Some(foodName), Some(calories.Floor))])
  {
    var d := Diet.Dish(Some(foodName), Some(calories.Floor));
    assert [d][1..] == [];
    assert Diet.TotalCalories([d]) == calories.Floor;
  }
}
