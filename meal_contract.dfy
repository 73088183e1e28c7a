/**
  The meal-editing screen as a state machine over values: the screen state,
  the closed set of actions and one-shot UI events, and the transition that
  `onAction` performs, together with the asynchronous save completion and the
  load subscription's snapshot step. The class in module MealScreen is proved
  against these functions.
 */
module MealContract {
  import opened Wrappers
  import opened DiaryDomain

  /** Everything the screen renders. */
  datatype MealState = MealState(
    mealName: string,
    consumedFoods: seq<ConsumedFood>,
    selectedConsumedFoodIndex: Option<int>,
    showExitDialog: bool,
    isLoading: bool)

  /** The state the screen starts in, before any snapshot has arrived. */
  function InitialState(): MealState {
    MealState("", [], None, false, false)
  }

  datatype MealAction =
    | AddConsumedFood(consumedFood: ConsumedFood)
    | MealNameChange(newValue: string)
    | SaveMealClick
    | DeleteConsumedFood(index: int)
    | UpdateConsumedFood(index: int, weightGrams: int)
    | SelectConsumedFood(selected: Option<int>)
    | AddFoodIconClick
    | NavigateBackClick
    | NavigateBackConfirmClick
    | NavigateBackDenyClick

  /**
    The text a snackbar shows: one of the three localized error strings, or
    a message the failed use-case supplied.
   */
  datatype Message =
    | ErrorNetwork
    | ErrorEmptyMealName
    | ErrorUnknown
    | Supplied(text: string)

  datatype MealUiEvent =
    | MealSaved
    | ShowSnackbar(message: Message)
    | NavigateBack
    | NavigateToSearchFood

  /** An update call as the save coroutine issues it. */
  datatype SaveRequest = SaveRequest(mealId: int, updateMeal: UpdateMeal)

  /** The effect of one step: the new state, the events queued, the save launched if any. */
  datatype Outcome = Outcome(state: MealState, events: seq<MealUiEvent>, save: Option<SaveRequest>)

  /**
    The actions the handler can take without throwing: an update or a
    delete must name an existing line item.
   */
  predicate Enabled(s: MealState, a: MealAction) {
    match a
    case DeleteConsumedFood(i) => 0 <= i < |s.consumedFoods|
    case UpdateConsumedFood(i, _) => 0 <= i < |s.consumedFoods|
    case _ => true
  }

  // ---------------------------------------------------------------------------
  // List operations on the consumed foods

  /** The list with `f` added at the end. */
  function Appended(foods: seq<ConsumedFood>, f: ConsumedFood): (r: seq<ConsumedFood>)
    ensures |r| == |foods| + 1
    ensures forall j :: 0 <= j < |foods| ==> r[j] == foods[j]
    ensures r[|foods|] == f
  {
    foods + [f]
  }

  /** The list with the weight of item `i` set to `w`; its food and every other item are kept. */
  function Reweighed(foods: seq<ConsumedFood>, i: int, w: int): (r: seq<ConsumedFood>)
    requires 0 <= i < |foods|
    ensures |r| == |foods|
    ensures r[i].food == foods[i].food && r[i].grams == w
    ensures forall j :: 0 <= j < |foods| && j != i ==> r[j] == foods[j]
  {
    foods[i := foods[i].(grams := w)]
  }

  /** The list without item `i`; the items before it keep their places, the ones after move down by one. */
  function RemovedAt(foods: seq<ConsumedFood>, i: int): (r: seq<ConsumedFood>)
    requires 0 <= i < |foods|
    ensures |r| == |foods| - 1
    ensures forall j :: 0 <= j < i ==> r[j] == foods[j]
    ensures forall j :: i <= j < |r| ==> r[j] == foods[j + 1]
  {
    foods[..i] + foods[i + 1..]
  }

  /** A line item as the update request carries it. */
  function CreateOf(cf: ConsumedFood): CreateConsumedFood {
    CreateConsumedFood(cf.food.id, cf.grams)
  }

  /** The consumed foods mapped, in order, to (food id, grams) pairs. */
  function ToCreateConsumedFoods(foods: seq<ConsumedFood>): (r: seq<CreateConsumedFood>)
    ensures |r| == |foods|
    ensures forall k :: 0 <= k < |foods| ==> r[k].foodId == foods[k].food.id && r[k].grams == foods[k].grams
    decreases |foods|
  {
    if foods == [] then [] else [CreateOf(foods[0])] + ToCreateConsumedFoods(foods[1..])
  }

  // ---------------------------------------------------------------------------
  // Failure handling

  /** The message a failed save shows: each failure kind picks exactly one. */
  function SnackbarMessage(e: AppException, message: Option<string>): (m: Message)
    ensures m == ErrorNetwork <==> e.NetworkException?
    ensures m == ErrorEmptyMealName <==> e.EmptyMealNameException?
    ensures m == ErrorUnknown <==> e.OtherException? && message.None?
    ensures m.Supplied? <==> e.OtherException? && message.Some?
    ensures m.Supplied? ==> m.text == message.value
  {
    match e
    case NetworkException => ErrorNetwork
    case EmptyMealNameException => ErrorEmptyMealName
    case OtherException(_) => if message.Some? then Supplied(message.value) else ErrorUnknown
  }

  /** The one event a finished save queues: MealSaved exactly on success, a snackbar otherwise. */
  function CompletionEvent(result: AppResponse): (e: MealUiEvent)
    ensures e == MealSaved <==> result.Success?
    ensures e.ShowSnackbar? <==> result.Failed?
    ensures result.Failed? ==> e.message == SnackbarMessage(result.appException, result.message)
  {
    match result
    case Success => MealSaved
    case Failed(ex, msg) => ShowSnackbar(SnackbarMessage(ex, msg))
  }

  // ---------------------------------------------------------------------------
  // Transitions

  /** The request a save click builds from the state at click time. */
  function SaveRequestOf(mealId: int, s: MealState): (req: SaveRequest)
    ensures req.mealId == mealId && req.updateMeal.name == s.mealName
    ensures |req.updateMeal.consumedFoods| == |s.consumedFoods|
    ensures forall k :: 0 <= k < |s.consumedFoods| ==>
      req.updateMeal.consumedFoods[k] == CreateConsumedFood(s.consumedFoods[k].food.id, s.consumedFoods[k].grams)
  {
    SaveRequest(mealId, UpdateMeal(s.mealName, ToCreateConsumedFoods(s.consumedFoods)))
  }

  /**
    What `onAction` does with one action: the next state, the events it
    queues and the save it launches.
   */
  function Reduce(s: MealState, mealId: int, a: MealAction): (o: Outcome)
    requires Enabled(s, a)
    ensures o.save.Some? <==> a.SaveMealClick?
    ensures |o.events| <= 1
    ensures o.events == [NavigateToSearchFood] <==> a.AddFoodIconClick?
    ensures o.events == [NavigateBack] <==> a.NavigateBackConfirmClick?
    ensures o.events != [] <==> a.AddFoodIconClick? || a.NavigateBackConfirmClick?
    ensures o.state.isLoading == (s.isLoading || a.SaveMealClick?)
  {
    match a
    case AddConsumedFood(f) =>
      Outcome(s.(consumedFoods := Appended(s.consumedFoods, f)), [], None)
    case MealNameChange(v) =>
      Outcome(s.(mealName := v), [], None)
    case SaveMealClick =>
      Outcome(s.(isLoading := true), [], Some(SaveRequestOf(mealId, s)))
    case DeleteConsumedFood(i) =>
      Outcome(s.(consumedFoods := RemovedAt(s.consumedFoods, i)), [], None)
    case UpdateConsumedFood(i, w) =>
      Outcome(s.(consumedFoods := Reweighed(s.consumedFoods, i, w), selectedConsumedFoodIndex := None), [], None)
    case SelectConsumedFood(x) =>
      Outcome(s.(selectedConsumedFoodIndex := x), [], None)
    case AddFoodIconClick =>
      Outcome(s, [NavigateToSearchFood], None)
    case NavigateBackClick =>
      Outcome(s.(showExitDialog := true), [], None)
    case NavigateBackConfirmClick =>
      Outcome(s.(showExitDialog := false), [NavigateBack], None)
    case NavigateBackDenyClick =>
      Outcome(s.(showExitDialog := false), [], None)
  }

  /** The end of the save coroutine: one event for the result, and loading cleared. */
  function Complete(s: MealState, result: AppResponse): (o: Outcome)
    ensures !o.state.isLoading
    ensures o.state.(isLoading := s.isLoading) == s
    ensures |o.events| == 1 && o.events[0] == CompletionEvent(result)
    ensures o.save.None?
  {
    Outcome(s.(isLoading := false), [CompletionEvent(result)], None)
  }

  /** A snapshot from the load subscription: a non-null meal replaces the name and the foods. */
  function ApplySnapshot(s: MealState, meal: Option<Meal>): (r: MealState)
    ensures meal.None? ==> r == s
    ensures meal.Some? ==> r.mealName == meal.value.name && r.consumedFoods == meal.value.consumedFoods
    ensures r.selectedConsumedFoodIndex == s.selectedConsumedFoodIndex
    ensures r.showExitDialog == s.showExitDialog && r.isLoading == s.isLoading
  {
    match meal
    case None => s
    case Some(m) => s.(mealName := m.name, consumedFoods := m.consumedFoods)
  }

  // ---------------------------------------------------------------------------
  // Runs: a screen's inputs applied in order

  /** Whatever reaches the view-model: a user action, a finished save, or a snapshot. */
  datatype Input =
    | UserAction(action: MealAction)
    | SaveCompleted(result: AppResponse)
    | MealSnapshot(meal: Option<Meal>)

  predicate InputEnabled(s: MealState, x: Input) {
    x.UserAction? ==> Enabled(s, x.action)
  }

  function Apply(s: MealState, mealId: int, x: Input): Outcome
    requires InputEnabled(s, x)
  {
    match x
    case UserAction(a) => Reduce(s, mealId, a)
    case SaveCompleted(r) => Complete(s, r)
    case MealSnapshot(m) => Outcome(ApplySnapshot(s, m), [], None)
  }

  /** Every input of `xs` is enabled in the state the previous inputs leave. */
  predicate Feasible(s: MealState, mealId: int, xs: seq<Input>)
    decreases |xs|
  {
    xs == [] || (InputEnabled(s, xs[0]) && Feasible(Apply(s, mealId, xs[0]).state, mealId, xs[1..]))
  }

  /** The final state, every event queued in order, and every save launched in order. */
  datatype Trace = Trace(state: MealState, events: seq<MealUiEvent>, saves: seq<SaveRequest>)

  function Launched(save: Option<SaveRequest>): seq<SaveRequest> {
    if save.Some? then [save.value] else []
  }

  function Run(s: MealState, mealId: int, xs: seq<Input>): Trace
    requires Feasible(s, mealId, xs)
    decreases |xs|
  {
    if xs == [] then Trace(s, [], [])
    else
      var o := Apply(s, mealId, xs[0]);
      var t := Run(o.state, mealId, xs[1..]);
      Trace(t.state, o.events + t.events, Launched(o.save) + t.saves)
  }

  /** The number of save clicks among the inputs. */
  function SaveClicks(xs: seq<Input>): nat
    decreases |xs|
  {
    if xs == [] then 0
    else (if xs[0] == UserAction(SaveMealClick) then 1 else 0) + SaveClicks(xs[1..])
  }
}
