/** The relationships between the tables: a meal's allergies (the
    `Meal.allergies` relationship, back-populated by `Allergy.meal`), a
    user's allergies, and the cascade that deletes a meal's allergies with
    the meal (src/models/meal.py). Both relationships are derived from the
    allergy table, so an allergy count is the number of allergy rows that
    point at the meal or user. */
module Relationships {
  import opened Tables
  import opened Allergies

  /** Keys of the allergies attached to meal `mealId`. */
  function MealAllergyIds(allergies: map<Id, Allergy>, mealId: Id): (r: set<Id>)
    ensures forall k :: k in r <==> k in allergies && allergies[k].mealId == mealId
  {
    set k | k in allergies && allergies[k].mealId == mealId
  }

  /** `len(meal.allergies)`. */
  function AllergyCount(allergies: map<Id, Allergy>, mealId: Id): nat {
    |MealAllergyIds(allergies, mealId)|
  }

  /** A meal never has more allergies than the allergy table holds. */
  lemma AllergyCountBounded(allergies: map<Id, Allergy>, mealId: Id)
    ensures AllergyCount(allergies, mealId) <= |allergies|
  {
    SubsetNoLarger(MealAllergyIds(allergies, mealId), allergies.Keys);
  }

  /** Keys of the allergies owned by user `userId`. */
  function UserAllergyIds(allergies: map<Id, Allergy>, userId: Id): (r: set<Id>)
    ensures forall k :: k in r <==> k in allergies && allergies[k].userId == userId
  {
    set k | k in allergies && allergies[k].userId == userId
  }

  /** `len(user.allergies)`. */
  function UserAllergyCount(allergies: map<Id, Allergy>, userId: Id): nat {
    |UserAllergyIds(allergies, userId)|
  }

  /** The allergy table once meal `mealId` is deleted: the relationship's
      `delete-orphan` cascade removes every allergy of that meal and keeps
      every other row as it was. */
  function CascadeDelete(allergies: map<Id, Allergy>, mealId: Id): (r: map<Id, Allergy>)
    ensures forall k :: k in r <==> k in allergies && allergies[k].mealId != mealId
    ensures forall k :: k in r ==> r[k] == allergies[k]
  {
    map k | k in allergies && allergies[k].mealId != mealId :: allergies[k]
  }

  /** A meal that no allergy points at has no allergies. */
  lemma {:induction false} CountOfUnreferencedMeal(allergies: map<Id, Allergy>, mealId: Id)
    requires forall k :: k in allergies ==> allergies[k].mealId != mealId
    ensures AllergyCount(allergies, mealId) == 0
  {
    assert MealAllergyIds(allergies, mealId) == {};
  }

  /** Inserting a new allergy row raises its meal's count by one and leaves
      every other meal's count alone. */
  lemma {:induction false} CountAfterInsert(allergies: map<Id, Allergy>, a: Allergy)
    requires a.id !in allergies
    ensures AllergyCount(allergies[a.id := a], a.mealId) == AllergyCount(allergies, a.mealId) + 1
    ensures forall m :: m != a.mealId ==> AllergyCount(allergies[a.id := a], m) == AllergyCount(allergies, m)
  {
    var allergies' := allergies[a.id := a];
    assert MealAllergyIds(allergies', a.mealId) == MealAllergyIds(allergies, a.mealId) + {a.id};
    forall m | m != a.mealId
      ensures AllergyCount(allergies', m) == AllergyCount(allergies, m)
    {
      assert MealAllergyIds(allergies', m) == MealAllergyIds(allergies, m);
    }
  }

  /** Removing an allergy row lowers its meal's count by one and leaves
      every other meal's count alone. */
  lemma {:induction false} CountAfterRemove(allergies: map<Id, Allergy>, k: Id)
    requires k in allergies
    ensures AllergyCount(allergies - {k}, allergies[k].mealId) == AllergyCount(allergies, allergies[k].mealId) - 1
    ensures forall m :: m != allergies[k].mealId ==> AllergyCount(allergies - {k}, m) == AllergyCount(allergies, m)
  {
    var allergies' := allergies - {k};
    var mealId := allergies[k].mealId;
    assert MealAllergyIds(allergies', mealId) == MealAllergyIds(allergies, mealId) - {k};
    forall m | m != mealId
      ensures AllergyCount(allergies', m) == AllergyCount(allergies, m)
    {
      assert MealAllergyIds(allergies', m) == MealAllergyIds(allergies, m);
    }
  }

  /** Replacing an allergy row by one that points at the same meal leaves
      every meal's count alone. */
  lemma {:induction false} CountAfterReplace(allergies: map<Id, Allergy>, a: Allergy)
    requires a.id in allergies && allergies[a.id].mealId == a.mealId
    ensures forall m :: AllergyCount(allergies[a.id := a], m) == AllergyCount(allergies, m)
  {
    var allergies' := allergies[a.id := a];
    forall m ensures AllergyCount(allergies', m) == AllergyCount(allergies, m) {
      assert MealAllergyIds(allergies', m) == MealAllergyIds(allergies, m);
    }
  }

  /** After the cascade the deleted meal has no allergies left, and every
      other meal keeps its count. */
  lemma {:induction false} CountAfterCascade(allergies: map<Id, Allergy>, mealId: Id)
    ensures AllergyCount(CascadeDelete(allergies, mealId), mealId) == 0
    ensures forall m :: m != mealId ==> AllergyCount(CascadeDelete(allergies, mealId), m) == AllergyCount(allergies, m)
  {
    var allergies' := CascadeDelete(allergies, mealId);
    assert MealAllergyIds(allergies', mealId) == {};
    forall m | m != mealId
      ensures AllergyCount(allergies', m) == AllergyCount(allergies, m)
    {
      assert MealAllergyIds(allergies', m) == MealAllergyIds(allergies, m);
    }
  }
}
