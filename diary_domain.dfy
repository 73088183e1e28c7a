/**
  The domain types the meal screen exchanges with its use-cases. Only the
  attributes the view-model reads are kept: a food's id, a consumed food's
  weight, a meal's name and foods, and the shape of a failed use-case call.
 */
module DiaryDomain {
  import opened Wrappers

  /** A food from the catalogue; its nutrient values play no part in the view-model. */
  datatype Food = Food(id: int, name: string)

  /** One line item of a meal: a food and the weight eaten, in grams. */
  datatype ConsumedFood = ConsumedFood(food: Food, grams: int)

  /** A stored meal, as the load subscription delivers it. */
  datatype Meal = Meal(id: int, name: string, consumedFoods: seq<ConsumedFood>)

  /** A line item as the update request sends it: the food's id and the weight. */
  datatype CreateConsumedFood = CreateConsumedFood(foodId: int, grams: int)

  /** The body of an update request. */
  datatype UpdateMeal = UpdateMeal(name: string, consumedFoods: seq<CreateConsumedFood>)

  /**
    The failure kinds the view-model tells apart: a network failure, the
    empty-name validation failure, and every other application failure.
   */
  datatype AppException =
    | NetworkException
    | EmptyMealNameException
    | OtherException(kind: string)

  /** What the update use-case returns: success, or a failure with an optional message. */
  datatype AppResponse =
    | Success
    | Failed(appException: AppException, message: Option<string>)
}
