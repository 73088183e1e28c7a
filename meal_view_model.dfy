/**
  The view-model of the meal-editing screen. It owns the screen state, the
  id of the meal being edited, and the queue of one-shot UI events waiting
  for the screen to collect them. Each handler replaces the state wholesale
  or appends to the queue; the asynchronous save is split into the part
  that runs on the click and the part that runs when the use-case answers.
 */
module MealScreen {
  import opened Wrappers
  import opened DiaryDomain
  import opened MealContract

  class MealViewModel {
    var state: MealState
    var mealId: int
    /** Events sent and not yet received, oldest first. */
    var uiEvents: seq<MealUiEvent>

    /** A view-model for the meal whose id the navigation argument carried. */
    constructor (mealId: int)
      ensures state == InitialState() && this.mealId == mealId && uiEvents == []
    {
      state := InitialState();
      this.mealId := mealId;
      uiEvents := [];
    }

    /**
      The single entry point for the screen's actions. Returns the update
      request when the action launched a save.
     */
    method OnAction(action: MealAction) returns (launched: Option<SaveRequest>)
      requires Enabled(state, action)
      modifies this
      ensures mealId == old(mealId)
      ensures var o := Reduce(old(state), mealId, action);
        state == o.state && uiEvents == old(uiEvents) + o.events && launched == o.save
    {
      launched := None;
      match action {
        case AddConsumedFood(f) =>
          this.AddConsumedFood(f);
        case MealNameChange(v) =>
          state := state.(mealName := v);
        case SaveMealClick =>
          var request := BeginUpdateMeal(mealId, state.mealName, state.consumedFoods);
          launched := Some(request);
        case DeleteConsumedFood(i) =>
          this.DeleteConsumedFood(i);
        case UpdateConsumedFood(i, w) =>
          this.UpdateConsumedFood(i, w);
        case SelectConsumedFood(x) =>
          state := state.(selectedConsumedFoodIndex := x);
        case AddFoodIconClick =>
          SendUiEvent(NavigateToSearchFood);
        case NavigateBackClick =>
          state := state.(showExitDialog := true);
        case NavigateBackConfirmClick =>
          state := state.(showExitDialog := false);
          SendUiEvent(NavigateBack);
        case NavigateBackDenyClick =>
          state := state.(showExitDialog := false);
      }
    }

    /** Queues an event behind the ones already waiting. */
    method SendUiEvent(e: MealUiEvent)
      modifies this
      ensures uiEvents == old(uiEvents) + [e]
      ensures state == old(state) && mealId == old(mealId)
    {
      uiEvents := uiEvents + [e];
    }

    /** The screen collects the oldest waiting event, if there is one. */
    method ReceiveEvent() returns (e: Option<MealUiEvent>)
      modifies this
      ensures old(uiEvents) == [] ==> e == None && uiEvents == []
      ensures old(uiEvents) != [] ==> e == Some(old(uiEvents)[0]) && uiEvents == old(uiEvents)[1..]
      ensures state == old(state) && mealId == old(mealId)
    {
      if uiEvents == [] {
        e := None;
      } else {
        e := Some(uiEvents[0]);
        uiEvents := uiEvents[1..];
      }
    }

    method AddConsumedFood(consumedFood: ConsumedFood)
      modifies this
      ensures state == old(state).(consumedFoods := Appended(old(state).consumedFoods, consumedFood))
      ensures uiEvents == old(uiEvents) && mealId == old(mealId)
    {
      var consumedFoods := state.consumedFoods + [consumedFood];
      state := state.(consumedFoods := consumedFoods);
    }

    /** Sets the weight of one line item on a copy of the list and closes the weight dialog. */
    method UpdateConsumedFood(index: int, weightGrams: int)
      requires 0 <= index < |state.consumedFoods|
      modifies this
      ensures state == old(state).(consumedFoods := Reweighed(old(state).consumedFoods, index, weightGrams),
                                   selectedConsumedFoodIndex := None)
      ensures uiEvents == old(uiEvents) && mealId == old(mealId)
    {
      var consumedFoods := state.consumedFoods;
      var consumedFood := consumedFoods[index];
      consumedFoods := consumedFoods[index := consumedFood.(grams := weightGrams)];
      state := state.(consumedFoods := consumedFoods, selectedConsumedFoodIndex := None);
    }

    /** Removes one line item from a copy of the list; the selection is left as it was. */
    method DeleteConsumedFood(index: int)
      requires 0 <= index < |state.consumedFoods|
      modifies this
      ensures state == old(state).(consumedFoods := RemovedAt(old(state).consumedFoods, index))
      ensures uiEvents == old(uiEvents) && mealId == old(mealId)
    {
      var consumedFoods := state.consumedFoods[..index] + state.consumedFoods[index + 1..];
      state := state.(consumedFoods := consumedFoods);
    }

    /**
      The part of a save that runs on the click: progress is shown and the
      request is built from the arguments, foods mapped in order.
     */
    method BeginUpdateMeal(mealId: int, name: string, consumedFoods: seq<ConsumedFood>)
      returns (request: SaveRequest)
      modifies this
      ensures state == old(state).(isLoading := true)
      ensures request == SaveRequest(mealId, UpdateMeal(name, ToCreateConsumedFoods(consumedFoods)))
      ensures uiEvents == old(uiEvents) && this.mealId == old(this.mealId)
    {
      state := state.(isLoading := true);
      request := SaveRequest(mealId, UpdateMeal(name, ToCreateConsumedFoods(consumedFoods)));
    }

    /**
      The part of a save that runs when the use-case answers: one event for
      the result, then progress is hidden.
     */
    method CompleteUpdateMeal(result: AppResponse)
      modifies this
      ensures var o := Complete(old(state), result);
        state == o.state && uiEvents == old(uiEvents) + o.events
      ensures mealId == old(mealId)
    {
      match result {
        case Success =>
          SendUiEvent(MealSaved);
        case Failed(appException, message) =>
          HandleException(appException, message);
      }
      state := state.(isLoading := false);
    }

    /** Turns a failed save into a snackbar event. */
    method HandleException(appException: AppException, message: Option<string>)
      modifies this
      ensures uiEvents == old(uiEvents) + [ShowSnackbar(SnackbarMessage(appException, message))]
      ensures state == old(state) && mealId == old(mealId)
    {
      SendUiEvent(ShowSnackbar(SnackbarMessage(appException, message)));
    }

    /** One emission of the load subscription. */
    method OnMealSnapshot(meal: Option<Meal>)
      modifies this
      ensures state == ApplySnapshot(old(state), meal)
      ensures uiEvents == old(uiEvents) && mealId == old(mealId)
    {
      if meal.Some? {
        state := state.(mealName := meal.value.name, consumedFoods := meal.value.consumedFoods);
      }
    }
  }
}
