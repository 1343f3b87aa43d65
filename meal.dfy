/** The meal record and its allergy-risk rule (src/models/meal.py).

    The source stores the risk as a float, `min(count * 0.1, 0.3)`. That
    expression only ever yields 0.0, 0.1, 0.2 or 0.3, so the model stores it
    as a whole number of tenths. */
module Meals {
  import opened Wrappers
  import opened Tables

  datatype Meal = Meal(
    id: Id,
    name: string,
    description: string,
    ingredients: string,
    userId: Id,
    /** Allergy risk in tenths: 0 stands for 0.0, 3 for 0.3. */
    risk: nat)

  /** The hard ceiling of the risk score, in tenths (0.3). */
  const MaxRiskTenths: nat := 3

  /** Default threshold of the high-risk query, in tenths (0.2). */
  const DefaultHighRiskThreshold: int := 2

  /** Shortest meal name the schema accepts. */
  const MinMealNameLength: nat := 2

  /** The risk of a meal with `allergyCount` allergies: one tenth per
      allergy, never above the ceiling. */
  function RiskTenths(allergyCount: nat): (r: nat)
    ensures r <= MaxRiskTenths
    ensures r <= allergyCount
    ensures r < MaxRiskTenths ==> r == allergyCount
  {
    if allergyCount < MaxRiskTenths then allergyCount else MaxRiskTenths
  }

  /** The values the risk takes: 0.0, 0.1, 0.2, and 0.3 from three allergies on. */
  lemma RiskTenthsValues(n: nat)
    ensures RiskTenths(0) == 0 && RiskTenths(1) == 1 && RiskTenths(2) == 2
    ensures n >= MaxRiskTenths ==> RiskTenths(n) == MaxRiskTenths
  {
  }

  /** One more allergy adds one tenth until the ceiling is reached, and
      nothing after. */
  lemma RiskStep(n: nat)
    ensures RiskTenths(n + 1) == if n < MaxRiskTenths then RiskTenths(n) + 1 else MaxRiskTenths
  {
  }

  /** More allergies never mean less risk. */
  lemma RiskMonotonic(m: nat, n: nat)
    requires m <= n
    ensures RiskTenths(m) <= RiskTenths(n)
  {
  }

  /** `Meal.update_allergy_risk`: the meal with its risk overwritten from the
      current allergy count and every other field as it was. */
  function Recompute(meal: Meal, allergyCount: nat): (r: Meal)
    ensures r.risk == RiskTenths(allergyCount)
    ensures r.(risk := meal.risk) == meal
  {
    meal.(risk := RiskTenths(allergyCount))
  }

  /** Recomputing twice from the same count is recomputing once, and
      recomputing a meal whose risk is already current changes nothing. */
  lemma RecomputeIdempotent(meal: Meal, allergyCount: nat)
    ensures Recompute(Recompute(meal, allergyCount), allergyCount) == Recompute(meal, allergyCount)
    ensures meal.risk == RiskTenths(allergyCount) ==> Recompute(meal, allergyCount) == meal
  {
  }

  /** A freshly created meal: the risk column defaults to 0.0. */
  function NewMeal(id: Id, name: string, description: string, ingredients: string, userId: Id): (r: Meal)
    ensures r.risk == RiskTenths(0)
    ensures r.id == id && r.userId == userId
    ensures r.name == name && r.description == description && r.ingredients == ingredients
  {
    Meal(id, name, description, ingredients, userId, 0)
  }

  /** The fields a meal update may supply. The source sets whatever keys the
      request carries; the model accepts only these three, so the owner, the
      key and the derived risk can never be written through an update. */
  datatype MealUpdate = MealUpdate(
    name: Option<string>,
    description: Option<string>,
    ingredients: Option<string>)

  /** The meal with each supplied field replaced and everything else kept. */
  function ApplyMealUpdate(meal: Meal, update: MealUpdate): (r: Meal)
    ensures r.id == meal.id && r.userId == meal.userId && r.risk == meal.risk
    ensures r.name == (if update.name.Some? then update.name.value else meal.name)
    ensures r.description == (if update.description.Some? then update.description.value else meal.description)
    ensures r.ingredients == (if update.ingredients.Some? then update.ingredients.value else meal.ingredients)
  {
    meal.(name := update.name.GetOr(meal.name),
          description := update.description.GetOr(meal.description),
          ingredients := update.ingredients.GetOr(meal.ingredients))
  }

  /** An update that supplies nothing leaves the meal as it was. */
  lemma EmptyMealUpdate(meal: Meal)
    ensures ApplyMealUpdate(meal, MealUpdate(None, None, None)) == meal
  {
  }

  /** `MealSchema.validate_name`: at least two characters. */
  predicate ValidMealName(name: string)
    ensures |name| < MinMealNameLength ==> !ValidMealName(name)
    ensures |name| >= MinMealNameLength ==> ValidMealName(name)
  {
    |name| >= MinMealNameLength
  }

  /** The validator rejects one-character names and accepts the one the
      API test creates. */
  lemma MealNameExamples()
    ensures !ValidMealName("") && !ValidMealName("A")
    ensures ValidMealName("Test Meal")
  {
  }
}
