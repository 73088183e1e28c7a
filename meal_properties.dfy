/**
  Properties of the meal screen's transitions: what each action changes and
  leaves alone, how the list operations relate to each other and to the save
  request, and how the loading flag behaves over a run of inputs.
 */
module MealProperties {
  import opened Wrappers
  import opened DiaryDomain
  import opened MealContract

  // ---------------------------------------------------------------------------
  // One action at a time

  lemma MealNameChangeSetsOnlyName(s: MealState, mealId: int, v: string)
    ensures var o := Reduce(s, mealId, MealNameChange(v));
      && o.state.mealName == v
      && o.state.consumedFoods == s.consumedFoods
      && o.state.selectedConsumedFoodIndex == s.selectedConsumedFoodIndex
      && o.state.showExitDialog == s.showExitDialog
      && o.state.isLoading == s.isLoading
      && o.events == [] && o.save.None?
  {
  }

  lemma AddConsumedFoodAppendsLast(s: MealState, mealId: int, f: ConsumedFood)
    ensures var o := Reduce(s, mealId, AddConsumedFood(f));
      && |o.state.consumedFoods| == |s.consumedFoods| + 1
      && o.state.consumedFoods[..|s.consumedFoods|] == s.consumedFoods
      && o.state.consumedFoods[|s.consumedFoods|] == f
      && o.state.(consumedFoods := s.consumedFoods) == s
      && o.events == [] && o.save.None?
  {
  }

  lemma UpdateConsumedFoodReweighsOnly(s: MealState, mealId: int, i: int, w: int)
    requires 0 <= i < |s.consumedFoods|
    ensures var o := Reduce(s, mealId, UpdateConsumedFood(i, w));
      && |o.state.consumedFoods| == |s.consumedFoods|
      && o.state.consumedFoods[i] == ConsumedFood(s.consumedFoods[i].food, w)
      && (forall j :: 0 <= j < |s.consumedFoods| && j != i ==> o.state.consumedFoods[j] == s.consumedFoods[j])
      && o.state.selectedConsumedFoodIndex == None
      && o.state.mealName == s.mealName
      && o.state.showExitDialog == s.showExitDialog
      && o.state.isLoading == s.isLoading
      && o.events == [] && o.save.None?
  {
  }

  lemma DeleteConsumedFoodRemovesOne(s: MealState, mealId: int, i: int)
    requires 0 <= i < |s.consumedFoods|
    ensures var o := Reduce(s, mealId, DeleteConsumedFood(i));
      && |o.state.consumedFoods| == |s.consumedFoods| - 1
      && o.state.consumedFoods == s.consumedFoods[..i] + s.consumedFoods[i + 1..]
      && o.state.(consumedFoods := s.consumedFoods) == s
      && o.events == [] && o.save.None?
  {
  }

  lemma ExitDialogTransitions(s: MealState, mealId: int)
    ensures var o := Reduce(s, mealId, NavigateBackClick);
      o.state == s.(showExitDialog := true) && o.events == [] && o.save.None?
    ensures var o := Reduce(s, mealId, NavigateBackConfirmClick);
      o.state == s.(showExitDialog := false) && o.events == [NavigateBack] && o.save.None?
    ensures var o := Reduce(s, mealId, NavigateBackDenyClick);
      o.state == s.(showExitDialog := false) && o.events == [] && o.save.None?
  {
  }

  lemma SearchAndSelection(s: MealState, mealId: int, x: Option<int>)
    ensures var o := Reduce(s, mealId, AddFoodIconClick);
      o.state == s && o.events == [NavigateToSearchFood] && o.save.None?
    ensures var o := Reduce(s, mealId, SelectConsumedFood(x));
      o.state.selectedConsumedFoodIndex == x && o.state.(selectedConsumedFoodIndex := s.selectedConsumedFoodIndex) == s
      && o.events == [] && o.save.None?
  {
  }

  /**
    A save click shows progress and launches one request carrying the meal id
    and the name and foods of the moment of the click, foods in order.
   */
  lemma SaveClickLaunchesRequest(s: MealState, mealId: int)
    ensures var o := Reduce(s, mealId, SaveMealClick);
      && o.state == s.(isLoading := true)
      && o.events == []
      && o.save.Some?
      && o.save.value.mealId == mealId
      && o.save.value.updateMeal.name == s.mealName
      && |o.save.value.updateMeal.consumedFoods| == |s.consumedFoods|
      && (forall k :: 0 <= k < |s.consumedFoods| ==>
            o.save.value.updateMeal.consumedFoods[k] == CreateConsumedFood(s.consumedFoods[k].food.id, s.consumedFoods[k].grams))
  {
  }

  // ---------------------------------------------------------------------------
  // The list operations against each other and against the request

  /** Deleting the item just added gives back the list. */
  lemma RemoveAfterAppendRestores(foods: seq<ConsumedFood>, f: ConsumedFood)
    ensures RemovedAt(Appended(foods, f), |foods|) == foods
  {
  }

  /** Setting an item's weight back to what it was gives back the list. */
  lemma ReweighBackRestores(foods: seq<ConsumedFood>, i: int, w: int)
    requires 0 <= i < |foods|
    ensures Reweighed(Reweighed(foods, i, w), i, foods[i].grams) == foods
  {
  }

  /** Deleting drops exactly the item at the index and nothing else. */
  lemma RemovedAtMultiset(foods: seq<ConsumedFood>, i: int)
    requires 0 <= i < |foods|
    ensures multiset(RemovedAt(foods, i)) + multiset{foods[i]} == multiset(foods)
  {
    assert foods == foods[..i] + [foods[i]] + foods[i + 1..];
  }

  /** The request built after an add has the new item's pair at the end. */
  lemma RequestAfterAppend(foods: seq<ConsumedFood>, f: ConsumedFood)
    ensures ToCreateConsumedFoods(Appended(foods, f))
         == ToCreateConsumedFoods(foods) + [CreateConsumedFood(f.food.id, f.grams)]
  {
  }

  /** The request built after a delete lacks exactly the deleted item's pair. */
  lemma RequestAfterRemove(foods: seq<ConsumedFood>, i: int)
    requires 0 <= i < |foods|
    ensures var req := ToCreateConsumedFoods(foods);
      ToCreateConsumedFoods(RemovedAt(foods, i)) == req[..i] + req[i + 1..]
  {
    var req := ToCreateConsumedFoods(foods);
    var r := ToCreateConsumedFoods(RemovedAt(foods, i));
    var e := req[..i] + req[i + 1..];
    forall j | 0 <= j < |r|
      ensures r[j] == e[j]
    {
      if j < i {
        assert e[j] == req[j];
      } else {
        assert e[j] == req[j + 1];
      }
    }
  }

  /** The request built after a weight change differs only in that item's grams. */
  lemma RequestAfterReweigh(foods: seq<ConsumedFood>, i: int, w: int)
    requires 0 <= i < |foods|
    ensures var req := ToCreateConsumedFoods(foods);
      ToCreateConsumedFoods(Reweighed(foods, i, w)) == req[i := CreateConsumedFood(foods[i].food.id, w)]
  {
  }

  /** A snapshot applied twice has the effect of applying it once. */
  lemma SnapshotIdempotent(s: MealState, meal: Option<Meal>)
    ensures ApplySnapshot(ApplySnapshot(s, meal), meal) == ApplySnapshot(s, meal)
  {
  }

  // ---------------------------------------------------------------------------
  // Runs of inputs

  /** A run can be split anywhere: feasibility splits both ways. */
  lemma {:induction false} FeasibleConcat(s: MealState, mealId: int, xs: seq<Input>, ys: seq<Input>)
    ensures Feasible(s, mealId, xs + ys) <==>
      Feasible(s, mealId, xs) && Feasible(Run(s, mealId, xs).state, mealId, ys)
    decreases |xs|
  {
    if xs == [] {
      assert xs + ys == ys;
    } else {
      assert (xs + ys)[0] == xs[0];
      assert (xs + ys)[1..] == xs[1..] + ys;
      if InputEnabled(s, xs[0]) {
        FeasibleConcat(Apply(s, mealId, xs[0]).state, mealId, xs[1..], ys);
      }
    }
  }

  /** One step of a run: the first input's outcome followed by the run of the rest. */
  lemma RunUnfold(s: MealState, mealId: int, xs: seq<Input>)
    requires xs != [] && Feasible(s, mealId, xs)
    ensures InputEnabled(s, xs[0]) && Feasible(Apply(s, mealId, xs[0]).state, mealId, xs[1..])
    ensures var o := Apply(s, mealId, xs[0]);
      var t := Run(o.state, mealId, xs[1..]);
      Run(s, mealId, xs) == Trace(t.state, o.events + t.events, Launched(o.save) + t.saves)
  {
  }

  lemma TraceAssociates(e1: seq<MealUiEvent>, e2: seq<MealUiEvent>, e3: seq<MealUiEvent>,
                        r1: seq<SaveRequest>, r2: seq<SaveRequest>, r3: seq<SaveRequest>)
    ensures e1 + (e2 + e3) == (e1 + e2) + e3 && r1 + (r2 + r3) == (r1 + r2) + r3
  {
  }

  /** Running two pieces one after the other is running their concatenation. */
  lemma {:induction false} RunConcat(s: MealState, mealId: int, xs: seq<Input>, ys: seq<Input>)
    requires Feasible(s, mealId, xs + ys)
    ensures Feasible(s, mealId, xs) && Feasible(Run(s, mealId, xs).state, mealId, ys)
    ensures var a := Run(s, mealId, xs);
      var b := Run(a.state, mealId, ys);
      Run(s, mealId, xs + ys) == Trace(b.state, a.events + b.events, a.saves + b.saves)
    decreases |xs|
  {
    FeasibleConcat(s, mealId, xs, ys);
    if xs == [] {
      assert xs + ys == ys;
    } else {
      var zs := xs + ys;
      assert zs[0] == xs[0];
      assert zs[1..] == xs[1..] + ys;
      RunUnfold(s, mealId, zs);
      RunUnfold(s, mealId, xs);
      var o := Apply(s, mealId, xs[0]);
      RunConcat(o.state, mealId, xs[1..], ys);
      var a := Run(o.state, mealId, xs[1..]);
      var b := Run(a.state, mealId, ys);
      TraceAssociates(o.events, a.events, b.events, Launched(o.save), a.saves, b.saves);
    }
  }

  /** Every save click launches exactly one request: saves are not merged or dropped. */
  lemma {:induction false} OneSavePerClick(s: MealState, mealId: int, xs: seq<Input>)
    requires Feasible(s, mealId, xs)
    ensures |Run(s, mealId, xs).saves| == SaveClicks(xs)
    decreases |xs|
  {
    if xs != [] {
      OneSavePerClick(Apply(s, mealId, xs[0]).state, mealId, xs[1..]);
    }
  }

  /** Without a save click, nothing turns the loading flag on. */
  lemma {:induction false} LoadingNeedsClick(s: MealState, mealId: int, xs: seq<Input>)
    requires Feasible(s, mealId, xs)
    requires forall k :: 0 <= k < |xs| ==> xs[k] != UserAction(SaveMealClick)
    ensures Run(s, mealId, xs).state.isLoading ==> s.isLoading
    decreases |xs|
  {
    if xs != [] {
      LoadingNeedsClick(Apply(s, mealId, xs[0]).state, mealId, xs[1..]);
    }
  }

  /** Without a finished save, nothing turns the loading flag off. */
  lemma {:induction false} LoadingNeedsCompletion(s: MealState, mealId: int, xs: seq<Input>)
    requires Feasible(s, mealId, xs)
    requires forall k :: 0 <= k < |xs| ==> !xs[k].SaveCompleted?
    ensures s.isLoading ==> Run(s, mealId, xs).state.isLoading
    decreases |xs|
  {
    if xs != [] {
      LoadingNeedsCompletion(Apply(s, mealId, xs[0]).state, mealId, xs[1..]);
    }
  }

  /**
    Loading settles: once a save has finished, the flag stays off until the
    next save click, whatever else happens in between.
   */
  lemma LoadingSettles(s: MealState, mealId: int, xs: seq<Input>, r: AppResponse, ys: seq<Input>)
    requires Feasible(s, mealId, xs + [SaveCompleted(r)] + ys)
    requires forall k :: 0 <= k < |ys| ==> ys[k] != UserAction(SaveMealClick)
    ensures !Run(s, mealId, xs + [SaveCompleted(r)] + ys).state.isLoading
  {
    RunConcat(s, mealId, xs + [SaveCompleted(r)], ys);
    RunConcat(s, mealId, xs, [SaveCompleted(r)]);
    var mid := Run(s, mealId, xs + [SaveCompleted(r)]).state;
    LoadingNeedsClick(mid, mealId, ys);
  }

  /** While a clicked save has not finished, progress stays visible. */
  lemma LoadingShownWhilePending(s: MealState, mealId: int, xs: seq<Input>, ys: seq<Input>)
    requires Feasible(s, mealId, xs + [UserAction(SaveMealClick)] + ys)
    requires forall k :: 0 <= k < |ys| ==> !ys[k].SaveCompleted?
    ensures Run(s, mealId, xs + [UserAction(SaveMealClick)] + ys).state.isLoading
  {
    RunConcat(s, mealId, xs + [UserAction(SaveMealClick)], ys);
    RunConcat(s, mealId, xs, [UserAction(SaveMealClick)]);
    var mid := Run(s, mealId, xs + [UserAction(SaveMealClick)]).state;
    LoadingNeedsCompletion(mid, mealId, ys);
  }

  /**
    Saves are not serialized: with two saves in flight, the first one to
    finish already clears the flag although the second is still pending.
   */
  lemma OverlappingSavesClearEarly(s: MealState, mealId: int, r: AppResponse)
    ensures var xs := [UserAction(SaveMealClick), UserAction(SaveMealClick), SaveCompleted(r)];
      Feasible(s, mealId, xs) && |Run(s, mealId, xs).saves| == 2 && !Run(s, mealId, xs).state.isLoading
  {
    var xs := [UserAction(SaveMealClick), UserAction(SaveMealClick), SaveCompleted(r)];
    var s1 := s.(isLoading := true);
    var s3 := s.(isLoading := false);
    assert xs[1..] == [UserAction(SaveMealClick), SaveCompleted(r)];
    assert xs[2..] == [SaveCompleted(r)];
    assert xs[2..][1..] == [];
    assert Run(s1, mealId, xs[2..]) == Trace(s3, [CompletionEvent(r)], []);
    assert Run(s1, mealId, xs[1..]).saves == [SaveRequestOf(mealId, s1)];
    assert Feasible(s1, mealId, xs[2..]);
    assert Feasible(s1, mealId, xs[1..]);
  }

  // ---------------------------------------------------------------------------
  // Scenarios

  /** Naming a meal, saving it and the save succeeding: one MealSaved event, loading off. */
  lemma ScenarioNameAndSave(mealId: int)
    ensures var xs := [UserAction(MealNameChange("Breakfast")), UserAction(SaveMealClick), SaveCompleted(Success)];
      var t := Run(InitialState(), mealId, xs);
      && t.state.mealName == "Breakfast"
      && t.events == [MealSaved]
      && !t.state.isLoading
      && t.saves == [SaveRequest(mealId, UpdateMeal("Breakfast", []))]
  {
  }

  /** Two foods added one after the other appear in that order. */
  lemma ScenarioTwoFoods(mealId: int, a: Food, b: Food)
    ensures var xs := [UserAction(AddConsumedFood(ConsumedFood(a, 150))), UserAction(AddConsumedFood(ConsumedFood(b, 50)))];
      Run(InitialState(), mealId, xs).state.consumedFoods == [ConsumedFood(a, 150), ConsumedFood(b, 50)]
  {
    var xs := [UserAction(AddConsumedFood(ConsumedFood(a, 150))), UserAction(AddConsumedFood(ConsumedFood(b, 50)))];
    var s1 := InitialState().(consumedFoods := [ConsumedFood(a, 150)]);
    var s2 := InitialState().(consumedFoods := [ConsumedFood(a, 150), ConsumedFood(b, 50)]);
    assert xs[1..] == [UserAction(AddConsumedFood(ConsumedFood(b, 50)))];
    assert xs[1..][1..] == [];
    assert Appended([], ConsumedFood(a, 150)) == [ConsumedFood(a, 150)];
    assert Appended([ConsumedFood(a, 150)], ConsumedFood(b, 50)) == [ConsumedFood(a, 150), ConsumedFood(b, 50)];
    assert Apply(InitialState(), mealId, xs[0]).state == s1;
    assert Run(s1, mealId, xs[1..]).state == s2;
  }
}
