# Meal-editing view-model of the calorie tracker

This project models the view-model behind the calorie tracker's meal-editing
screen. `MealViewModel` holds one screen state: the meal's name, its ordered
list of consumed foods (a food and a weight in grams), the index of the line
item whose weight dialog is open, the exit-dialog flag and the loading flag.
It also holds the id of the meal being edited and a queue of one-shot UI
events (navigate back, go to food search, meal saved, show a snackbar).
Every user action arrives through one entry point, `onAction`. It either
replaces the state wholesale or queues an event. A save click also launches
an asynchronous update call. A load subscription overwrites the name and the
foods whenever a stored meal arrives.

The model has five modules:

- `Wrappers`: an `Option` type for the source's nullable values.
- `DiaryDomain`: the domain values the view-model exchanges with its use-cases: foods, consumed foods, meals, the update request, failure kinds and the use-case response.
- `MealContract`: the screen as a state machine over values. `Reduce` is what `onAction` does with one action. `Complete` is the end of the save coroutine. `ApplySnapshot` is one emission of the load subscription. `Run` applies a sequence of such inputs. It also holds the list operations and the failure-to-message mapping.
- `MealScreen`: the class `MealViewModel`. Its fields are the state, the meal id and the event queue. Each state-changing handler is proved equal to the matching function of `MealContract`. The two queue methods state the append and the removal directly.
- `MealProperties`: what each action changes and leaves alone, how the list edits relate to each other and to the save request, and how the loading flag behaves over any run of inputs.

The asynchronous save is split into two steps. `BeginUpdateMeal` runs on the
click: it sets the loading flag and builds the request. `CompleteUpdateMeal`
runs when the use-case answers, and the use-case's answer is its parameter.
The event channel is a sequence: sending appends, and the screen's collector
takes from the front.

In a run, a finished save is an input like any other. The model does not
require that a save is pending when one finishes. The properties proved over
runs therefore hold over more runs than the program can produce.

A failure of an unclassified kind shows the message the failed call
supplied, and the unknown-error text only when none was supplied
(MealViewModel.kt:187-190).

## Model

| member | source | states |
|---|---|---|
| MealContract.Appended | app/src/main/java/com/itami/calorie_tracker/diary_feature/presentation/screens/meal/MealViewModel.kt:108-113 | adding a food gives a list one longer, with every earlier item in its place and the new item last |
| MealContract.Reweighed | app/src/main/java/com/itami/calorie_tracker/diary_feature/presentation/screens/meal/MealViewModel.kt:115-124 | item i gets the new weight and keeps its food; the length and every other item are unchanged |
| MealContract.RemovedAt | app/src/main/java/com/itami/calorie_tracker/diary_feature/presentation/screens/meal/MealViewModel.kt:126-133 | deleting item i gives a list one shorter; items before i keep their index and items after it move down by one |
| MealContract.ToCreateConsumedFoods | app/src/main/java/com/itami/calorie_tracker/diary_feature/presentation/screens/meal/MealViewModel.kt:142-146 | the request's line items are the consumed foods mapped in order to (food id, grams), with the same length |
| MealContract.SnackbarMessage | app/src/main/java/com/itami/calorie_tracker/diary_feature/presentation/screens/meal/MealViewModel.kt:175-192 | a network failure shows the network text and only it; an empty-name failure shows the empty-name text and only it; any other failure shows its supplied message when non-null, otherwise the unknown-error text |
| MealContract.CompletionEvent | app/src/main/java/com/itami/calorie_tracker/diary_feature/presentation/screens/meal/MealViewModel.kt:148-156 | a finished save queues MealSaved exactly on success and a snackbar exactly on failure, carrying that failure's message |
| MealContract.SaveRequestOf | app/src/main/java/com/itami/calorie_tracker/diary_feature/presentation/screens/meal/MealViewModel.kt:63-68 | a save request carries the meal id and the name of click time, and as many items as there are consumed foods, item k being (food id, grams) of food k |
| MealContract.Reduce | app/src/main/java/com/itami/calorie_tracker/diary_feature/presentation/screens/meal/MealViewModel.kt:53-100 | only a save click launches a save; each action queues at most one event; NavigateToSearchFood exactly for the add-food click and NavigateBack exactly for the exit confirmation; loading is on afterwards exactly when it was on before or the action was a save click |
| MealContract.Complete | app/src/main/java/com/itami/calorie_tracker/diary_feature/presentation/screens/meal/MealViewModel.kt:148-157 | a finished save clears loading, changes no other field, queues exactly one event (the completion event of its result) and launches nothing |
| MealContract.ApplySnapshot | app/src/main/java/com/itami/calorie_tracker/diary_feature/presentation/screens/meal/MealViewModel.kt:164-170 | a null meal leaves the state as it is; a non-null one replaces the name and the foods; selection, exit dialog and loading are never touched |
| MealProperties.MealNameChangeSetsOnlyName | app/src/main/java/com/itami/calorie_tracker/diary_feature/presentation/screens/meal/MealViewModel.kt:59-61 | a name change sets the name to the new value, keeps every other field and queues nothing |
| MealProperties.AddConsumedFoodAppendsLast | app/src/main/java/com/itami/calorie_tracker/diary_feature/presentation/screens/meal/MealViewModel.kt:55-57 | adding a food appends it after the existing items, changes no other field and queues nothing |
| MealProperties.UpdateConsumedFoodReweighsOnly | app/src/main/java/com/itami/calorie_tracker/diary_feature/presentation/screens/meal/MealViewModel.kt:75-77 | a weight update on a valid index changes only that item's grams, keeps its food, closes the selection and queues nothing |
| MealProperties.DeleteConsumedFoodRemovesOne | app/src/main/java/com/itami/calorie_tracker/diary_feature/presentation/screens/meal/MealViewModel.kt:71-73 | a delete on a valid index gives the list without that item, one shorter, leaves the selection and the other fields alone and queues nothing |
| MealProperties.ExitDialogTransitions | app/src/main/java/com/itami/calorie_tracker/diary_feature/presentation/screens/meal/MealViewModel.kt:87-98 | back click opens the exit dialog and queues nothing; confirm closes it and queues exactly NavigateBack; deny closes it and queues nothing |
| MealProperties.SearchAndSelection | app/src/main/java/com/itami/calorie_tracker/diary_feature/presentation/screens/meal/MealViewModel.kt:79-85 | the add-food click leaves the state alone and queues exactly NavigateToSearchFood; selecting sets the selected index to exactly the given value and changes nothing else |
| MealProperties.SaveClickLaunchesRequest | app/src/main/java/com/itami/calorie_tracker/diary_feature/presentation/screens/meal/MealViewModel.kt:63-68 | a save click turns loading on, queues nothing, and launches one request with the meal id, the current name and the current foods as (food id, grams) in order |
| MealProperties.RemoveAfterAppendRestores | app/src/main/java/com/itami/calorie_tracker/diary_feature/presentation/screens/meal/MealViewModel.kt:108-133 | deleting the item just added gives back the list as it was |
| MealProperties.ReweighBackRestores | app/src/main/java/com/itami/calorie_tracker/diary_feature/presentation/screens/meal/MealViewModel.kt:115-124 | setting an item's weight back to its old value gives back the list as it was |
| MealProperties.RemovedAtMultiset | app/src/main/java/com/itami/calorie_tracker/diary_feature/presentation/screens/meal/MealViewModel.kt:126-133 | a delete drops exactly the item at the index: the remaining items plus that one are the items before |
| MealProperties.RequestAfterAppend | app/src/main/java/com/itami/calorie_tracker/diary_feature/presentation/screens/meal/MealViewModel.kt:108-113 | after an add, the save request has the new item's (food id, grams) at the end of the old request items |
| MealProperties.RequestAfterRemove | app/src/main/java/com/itami/calorie_tracker/diary_feature/presentation/screens/meal/MealViewModel.kt:126-133 | after a delete, the save request lacks exactly the deleted item's pair |
| MealProperties.RequestAfterReweigh | app/src/main/java/com/itami/calorie_tracker/diary_feature/presentation/screens/meal/MealViewModel.kt:115-124 | after a weight change, the save request differs only in that item's grams |
| MealProperties.SnapshotIdempotent | app/src/main/java/com/itami/calorie_tracker/diary_feature/presentation/screens/meal/MealViewModel.kt:164-170 | the same snapshot applied twice has the effect of applying it once |
| MealProperties.FeasibleConcat | app/src/main/java/com/itami/calorie_tracker/diary_feature/presentation/screens/meal/MealViewModel.kt:53-100 | a sequence of inputs can be handled without an index fault exactly when its first part can and the rest can from the state the first part leaves |
| MealProperties.RunConcat | app/src/main/java/com/itami/calorie_tracker/diary_feature/presentation/screens/meal/MealViewModel.kt:102-106 | handling two pieces of input one after the other gives the same final state as handling them together, with the events and the save requests in emission order |
| MealProperties.OneSavePerClick | app/src/main/java/com/itami/calorie_tracker/diary_feature/presentation/screens/meal/MealViewModel.kt:63-68 | every save click launches exactly one update request: requests are neither merged nor dropped |
| MealProperties.LoadingNeedsClick | app/src/main/java/com/itami/calorie_tracker/diary_feature/presentation/screens/meal/MealViewModel.kt:135-158 | without a save click, no sequence of inputs turns the loading flag on |
| MealProperties.LoadingNeedsCompletion | app/src/main/java/com/itami/calorie_tracker/diary_feature/presentation/screens/meal/MealViewModel.kt:135-158 | without a finished save, no sequence of inputs turns the loading flag off |
| MealProperties.LoadingSettles | app/src/main/java/com/itami/calorie_tracker/diary_feature/presentation/screens/meal/MealViewModel.kt:140-157 | after a save finishes, loading stays off whatever follows until the next save click |
| MealProperties.LoadingShownWhilePending | app/src/main/java/com/itami/calorie_tracker/diary_feature/presentation/screens/meal/MealViewModel.kt:140-157 | after a save click, loading stays on whatever follows until some save finishes |
| MealProperties.OverlappingSavesClearEarly | app/src/main/java/com/itami/calorie_tracker/diary_feature/presentation/screens/meal/MealViewModel.kt:135-158 | saves are not serialized: with two saves in flight, the first to finish clears loading although the other is still pending |
| MealProperties.ScenarioNameAndSave | app/src/main/java/com/itami/calorie_tracker/diary_feature/presentation/screens/meal/MealViewModel.kt:59-68 | naming a new meal "Breakfast", saving, and the save succeeding queues exactly one MealSaved, leaves loading off, and sends the name with no foods |
| MealProperties.ScenarioTwoFoods | app/src/main/java/com/itami/calorie_tracker/diary_feature/presentation/screens/meal/MealViewModel.kt:108-113 | adding food A at 150 g and then food B at 50 g gives the list [A at 150 g, B at 50 g] in that order |
| MealScreen.MealViewModel.constructor | app/src/main/java/com/itami/calorie_tracker/diary_feature/presentation/screens/meal/MealViewModel.kt:39-47 | a new view-model holds the initial state, the meal id from the navigation argument and no waiting events |
| MealScreen.MealViewModel.OnAction | app/src/main/java/com/itami/calorie_tracker/diary_feature/presentation/screens/meal/MealViewModel.kt:53-100 | handling an action sets the state to Reduce's next state, appends Reduce's events to the queue, returns Reduce's save request and keeps the meal id |
| MealScreen.MealViewModel.SendUiEvent | app/src/main/java/com/itami/calorie_tracker/diary_feature/presentation/screens/meal/MealViewModel.kt:102-106 | sending appends the event behind those waiting and changes nothing else |
| MealScreen.MealViewModel.ReceiveEvent | app/src/main/java/com/itami/calorie_tracker/diary_feature/presentation/screens/meal/MealViewModel.kt:36-37 | the collector receives the oldest waiting event and removes it from the queue; nothing is received from an empty queue |
| MealScreen.MealViewModel.AddConsumedFood | app/src/main/java/com/itami/calorie_tracker/diary_feature/presentation/screens/meal/MealViewModel.kt:108-113 | the state's foods become Appended of the old foods; nothing else changes |
| MealScreen.MealViewModel.UpdateConsumedFood | app/src/main/java/com/itami/calorie_tracker/diary_feature/presentation/screens/meal/MealViewModel.kt:115-124 | the state's foods become Reweighed of the old foods and the selection is cleared; nothing else changes |
| MealScreen.MealViewModel.DeleteConsumedFood | app/src/main/java/com/itami/calorie_tracker/diary_feature/presentation/screens/meal/MealViewModel.kt:126-133 | the state's foods become RemovedAt of the old foods; the selection and everything else are kept |
| MealScreen.MealViewModel.BeginUpdateMeal | app/src/main/java/com/itami/calorie_tracker/diary_feature/presentation/screens/meal/MealViewModel.kt:135-147 | the click turns loading on, builds the request from the given id, name and mapped foods, and queues nothing |
| MealScreen.MealViewModel.CompleteUpdateMeal | app/src/main/java/com/itami/calorie_tracker/diary_feature/presentation/screens/meal/MealViewModel.kt:148-158 | completion leaves the state and queue exactly as Complete says: one event for the result, loading off |
| MealScreen.MealViewModel.HandleException | app/src/main/java/com/itami/calorie_tracker/diary_feature/presentation/screens/meal/MealViewModel.kt:175-192 | a failure queues exactly one snackbar with SnackbarMessage of the failure and changes no state |
| MealScreen.MealViewModel.OnMealSnapshot | app/src/main/java/com/itami/calorie_tracker/diary_feature/presentation/screens/meal/MealViewModel.kt:161-172 | a snapshot sets the state to ApplySnapshot of the old state and queues nothing |

## Left out

- Coroutines are left out: `viewModelScope.launch`, the rendezvous channel's suspension, `collectLatest` and cancellation when the screen detaches. The model is sequential: a save's two halves are separate steps, and each send appends at once.
- In the source, `handleException` launches its send as another coroutine. The loading flag can therefore be cleared before the snackbar is actually delivered. The model performs both in one completion step.
- Reading the meal id from the navigation arguments, and the throw when it is missing, are left out. The constructor takes the id instead.
- The load use-case and the update use-case are foreign code. A snapshot and a use-case response are parameters of the methods that receive them.
- The screen's text comes from resource lookup. Messages are tags: network error, empty-name error, unknown error, or the supplied text.
- MealState.kt is not part of this model. `InitialState` assumes its defaults are an empty name, no foods, no selection and both flags off.
- Food and meal attributes other than ids, names, foods and weights are left out. The view-model only passes them through. Ids, weights and indices are unbounded integers; the source stores them as 32-bit `Int` but does no arithmetic on them.
- An update or delete with an index outside the list makes the source throw. Here it is a precondition (`Enabled`): the screen only sends such actions for items it displays.
- The nutrient totals on the screen use floating-point arithmetic and rounding. They belong to the rendering layer and are left out, as is the rest of the Compose UI.
