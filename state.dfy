/** The contents of the database at one moment, the consistency rules every
    service operation keeps, and the proofs that each kind of write keeps
    them. */
module StoreState {
  import opened Tables
  import opened Users
  import opened Meals
  import opened Allergies
  import opened Relationships

  /** The three tables, each keyed by its integer primary key, and the
      next key each table will hand out. */
  datatype State = State(
    users: map<Id, User>,
    meals: map<Id, Meal>,
    allergies: map<Id, Allergy>,
    nextUserId: Id,
    nextMealId: Id,
    nextAllergyId: Id)
  {
    /** Every row is stored under its own key, and every key is below its
        table's counter, so a counter value is always a fresh key. */
    ghost predicate RowsKeyed() {
      && (forall k :: k in users ==> users[k].id == k && k < nextUserId)
      && (forall k :: k in meals ==> meals[k].id == k && k < nextMealId)
      && (forall k :: k in allergies ==> allergies[k].id == k && k < nextAllergyId)
    }

    /** The foreign keys hold: a meal's owner exists, and an allergy's meal
        and owner exist. */
    ghost predicate ReferencesExist() {
      && (forall k :: k in meals ==> meals[k].userId in users)
      && (forall k :: k in allergies ==> allergies[k].mealId in meals && allergies[k].userId in users)
    }

    /** An allergy belongs to the owner of its meal. */
    ghost predicate OwnersAgree() {
      forall k :: k in allergies && allergies[k].mealId in meals ==>
        allergies[k].userId == meals[allergies[k].mealId].userId
    }

    /** Meal `mealId`'s stored risk is the one its allergy count gives. */
    ghost predicate RiskCurrent(mealId: Id)
      requires mealId in meals
    {
      meals[mealId].risk == RiskTenths(AllergyCount(allergies, mealId))
    }

    /** Every rule except, possibly, the risk of meal `stale`: the state an
        allergy write leaves before the meal's risk is recomputed. */
    ghost predicate ValidExcept(stale: Id) {
      && RowsKeyed()
      && ReferencesExist()
      && OwnersAgree()
      && UniqueLogins(users)
      && forall k :: k in meals && k != stale ==> RiskCurrent(k)
    }

    /** Every rule, the risk of every meal included. */
    ghost predicate Valid()
      ensures Valid() ==> forall k :: k in meals ==> meals[k].risk <= MaxRiskTenths
    {
      && RowsKeyed()
      && ReferencesExist()
      && OwnersAgree()
      && UniqueLogins(users)
      && forall k :: k in meals ==> RiskCurrent(k)
    }

    /** The state once meal `mealId`'s risk is recomputed from its allergy
        count (`Meal.update_allergy_risk`). */
    ghost function WithRiskRecomputed(mealId: Id): (r: State)
      requires mealId in meals
      ensures mealId in r.meals && r.RiskCurrent(mealId)
      ensures r.meals[mealId].(risk := meals[mealId].risk) == meals[mealId]
      ensures r.meals - {mealId} == meals - {mealId}
      ensures r.(meals := meals) == this
    {
      this.(meals := meals[mealId := Recompute(meals[mealId], AllergyCount(allergies, mealId))])
    }
  }

  /** The empty database. */
  const Empty: State := State(map[], map[], map[], 1, 1, 1)

  lemma EmptyValid()
    ensures Empty.Valid()
  {
  }

  /** Recomputing the one stale meal makes the whole state valid again. */
  lemma RecomputeRestoresValid(s: State, mealId: Id)
    requires mealId in s.meals && s.ValidExcept(mealId)
    ensures s.WithRiskRecomputed(mealId).Valid()
  {
    var s' := s.WithRiskRecomputed(mealId);
    RecomputeKeepsRows(s, mealId);
    forall k | k in s'.meals ensures s'.RiskCurrent(k) {
      if k != mealId {
        assert s'.meals[k] == (s'.meals - {mealId})[k];
        assert s.RiskCurrent(k);
      }
    }
  }

  /** Recomputing a risk touches no key, reference or owner, so those rules
      and unique logins carry over. */
  lemma RecomputeKeepsRows(s: State, mealId: Id)
    requires mealId in s.meals && s.RowsKeyed() && s.ReferencesExist() && s.OwnersAgree()
    ensures var s' := s.WithRiskRecomputed(mealId);
      s'.RowsKeyed() && s'.ReferencesExist() && s'.OwnersAgree() && s'.users == s.users
  {
    var s' := s.WithRiskRecomputed(mealId);
    assert s'.RowsKeyed() by {
      forall k | k in s'.meals ensures s'.meals[k].id == k && k < s'.nextMealId {
        if k != mealId { assert s'.meals[k] == (s'.meals - {mealId})[k]; }
      }
    }
    assert s'.OwnersAgree() by {
      forall k | k in s'.allergies && s'.allergies[k].mealId in s'.meals
        ensures s'.allergies[k].userId == s'.meals[s'.allergies[k].mealId].userId
      {
        var m := s'.allergies[k].mealId;
        if m != mealId { assert s'.meals[m] == (s'.meals - {mealId})[m]; }
      }
    }
  }

  /** Recomputing the risk of a meal in a valid state changes nothing. */
  lemma RecomputeCurrentIsNoOp(s: State, mealId: Id)
    requires mealId in s.meals && s.Valid()
    ensures s.WithRiskRecomputed(mealId) == s
  {
    assert s.RiskCurrent(mealId);
    RecomputeIdempotent(s.meals[mealId], AllergyCount(s.allergies, mealId));
    assert s.meals[mealId := s.meals[mealId]] == s.meals;
  }

  /** Registering a user whose username and email are both free. */
  lemma AddUserKeepsValid(s: State, u: User)
    requires s.Valid() && u.id == s.nextUserId
    requires !UsernameTaken(s.users, u.username) && !EmailTaken(s.users, u.email)
    ensures s.(users := s.users[u.id := u], nextUserId := u.id + 1).Valid()
  {
    AddingFreshLoginKeepsUnique(s.users, u);
    var s' := s.(users := s.users[u.id := u], nextUserId := u.id + 1);
    forall k | k in s'.meals ensures s'.RiskCurrent(k) {
      assert s.RiskCurrent(k);
    }
  }

  /** Creating a meal for an existing user, with risk 0.0. A fresh key has
      no allergies yet, so its risk is current. */
  lemma AddMealKeepsValid(s: State, m: Meal)
    requires s.Valid() && m.id == s.nextMealId && m.userId in s.users && m.risk == 0
    ensures AllergyCount(s.allergies, m.id) == 0
    ensures s.(meals := s.meals[m.id := m], nextMealId := m.id + 1).Valid()
  {
    CountOfUnreferencedMeal(s.allergies, m.id);
    var s' := s.(meals := s.meals[m.id := m], nextMealId := m.id + 1);
    assert s'.users == s.users && s'.allergies == s.allergies;
    assert s'.RowsKeyed() by {
      forall k | k in s'.meals ensures s'.meals[k].id == k && k < s'.nextMealId {
        if k != m.id { assert s'.meals[k] == s.meals[k]; }
      }
    }
    assert s'.ReferencesExist();
    assert s'.OwnersAgree() by {
      forall k | k in s'.allergies && s'.allergies[k].mealId in s'.meals
        ensures s'.allergies[k].userId == s'.meals[s'.allergies[k].mealId].userId
      {
        assert s.allergies[k].mealId in s.meals;
      }
    }
    forall k | k in s'.meals ensures s'.RiskCurrent(k) {
      if k != m.id {
        assert s.RiskCurrent(k);
      }
    }
  }

  /** Replacing a meal row by one with the same owner and risk. */
  lemma ReplaceMealKeepsValid(s: State, m: Meal)
    requires s.Valid() && m.id in s.meals
    requires m.userId == s.meals[m.id].userId && m.risk == s.meals[m.id].risk
    ensures s.(meals := s.meals[m.id := m]).Valid()
  {
    ReplaceMealKeepsRows(s, m);
    ReplaceMealKeepsRisks(s, m);
    assert UniqueLogins(s.(meals := s.meals[m.id := m]).users);
  }

  /** The keys, references and owners rules survive rewriting a meal with
      its key and owner kept. */
  lemma ReplaceMealKeepsRows(s: State, m: Meal)
    requires s.RowsKeyed() && s.ReferencesExist() && s.OwnersAgree()
    requires m.id in s.meals && m.userId == s.meals[m.id].userId
    ensures var s' := s.(meals := s.meals[m.id := m]);
      s'.RowsKeyed() && s'.ReferencesExist() && s'.OwnersAgree()
  {
    var s' := s.(meals := s.meals[m.id := m]);
    assert s'.RowsKeyed() by {
      forall k | k in s'.meals ensures s'.meals[k].id == k && k < s'.nextMealId {
        if k != m.id { assert s'.meals[k] == s.meals[k]; }
      }
    }
    assert s'.ReferencesExist();
    assert s'.OwnersAgree() by {
      forall k | k in s'.allergies && s'.allergies[k].mealId in s'.meals
        ensures s'.allergies[k].userId == s'.meals[s'.allergies[k].mealId].userId
      {
        assert s.allergies[k].mealId in s.meals;
      }
    }
  }

  /** Rewriting a meal with its risk kept leaves every risk current. */
  lemma ReplaceMealKeepsRisks(s: State, m: Meal)
    requires forall k :: k in s.meals ==> s.RiskCurrent(k)
    requires m.id in s.meals && m.risk == s.meals[m.id].risk
    ensures var s' := s.(meals := s.meals[m.id := m]);
      forall k :: k in s'.meals ==> s'.RiskCurrent(k)
  {
    var s' := s.(meals := s.meals[m.id := m]);
    forall k | k in s'.meals ensures s'.RiskCurrent(k) {
      assert s.RiskCurrent(k);
    }
  }

  /** Deleting a meal together with its allergies. The other meals keep
      their allergies, so their risks stay current. */
  lemma DeleteMealKeepsValid(s: State, mealId: Id)
    requires s.Valid() && mealId in s.meals
    ensures s.(meals := s.meals - {mealId}, allergies := CascadeDelete(s.allergies, mealId)).Valid()
  {
    var s' := s.(meals := s.meals - {mealId}, allergies := CascadeDelete(s.allergies, mealId));
    DeleteMealKeepsRows(s, mealId);
    DeleteMealKeepsRisks(s, mealId);
    assert UniqueLogins(s'.users);
  }

  /** The keys, references and owners rules survive deleting a meal with
      its allergies. */
  lemma DeleteMealKeepsRows(s: State, mealId: Id)
    requires s.RowsKeyed() && s.ReferencesExist() && s.OwnersAgree()
    ensures var s' := s.(meals := s.meals - {mealId}, allergies := CascadeDelete(s.allergies, mealId));
      s'.RowsKeyed() && s'.ReferencesExist() && s'.OwnersAgree()
  {
    var s' := s.(meals := s.meals - {mealId}, allergies := CascadeDelete(s.allergies, mealId));
    assert s'.RowsKeyed();
    assert s'.ReferencesExist() by {
      forall k | k in s'.allergies ensures s'.allergies[k].mealId in s'.meals && s'.allergies[k].userId in s'.users {
        assert s'.allergies[k] == s.allergies[k];
      }
    }
    assert s'.OwnersAgree() by {
      forall k | k in s'.allergies && s'.allergies[k].mealId in s'.meals
        ensures s'.allergies[k].userId == s'.meals[s'.allergies[k].mealId].userId
      {
        assert s'.allergies[k] == s.allergies[k];
      }
    }
  }

  /** The other meals keep their allergies when a meal is deleted, so their
      risks stay current. */
  lemma DeleteMealKeepsRisks(s: State, mealId: Id)
    requires forall k :: k in s.meals ==> s.RiskCurrent(k)
    ensures var s' := s.(meals := s.meals - {mealId}, allergies := CascadeDelete(s.allergies, mealId));
      forall k :: k in s'.meals ==> s'.RiskCurrent(k)
  {
    CountAfterCascade(s.allergies, mealId);
    var s' := s.(meals := s.meals - {mealId}, allergies := CascadeDelete(s.allergies, mealId));
    forall k | k in s'.meals ensures s'.RiskCurrent(k) {
      assert s.RiskCurrent(k);
    }
  }

  /** Inserting an allergy on a meal of the same owner: everything holds
      except that meal's risk, which the insert made stale. */
  lemma InsertAllergyStalesOneMeal(s: State, a: Allergy)
    requires s.Valid() && a.id == s.nextAllergyId
    requires a.mealId in s.meals && s.meals[a.mealId].userId == a.userId
    ensures AllergyCount(s.allergies[a.id := a], a.mealId) == AllergyCount(s.allergies, a.mealId) + 1
    ensures s.(allergies := s.allergies[a.id := a], nextAllergyId := a.id + 1).ValidExcept(a.mealId)
  {
    CountAfterInsert(s.allergies, a);
    var s' := s.(allergies := s.allergies[a.id := a], nextAllergyId := a.id + 1);
    assert s'.RowsKeyed() by {
      forall k | k in s'.allergies ensures s'.allergies[k].id == k && k < s'.nextAllergyId {
        if k != a.id { assert s'.allergies[k] == s.allergies[k]; }
      }
    }
    assert s'.ReferencesExist() by {
      forall k | k in s'.allergies
        ensures s'.allergies[k].mealId in s'.meals && s'.allergies[k].userId in s'.users
      {
        if k != a.id { assert s'.allergies[k] == s.allergies[k]; }
      }
    }
    assert s'.OwnersAgree() by {
      forall k | k in s'.allergies && s'.allergies[k].mealId in s'.meals
        ensures s'.allergies[k].userId == s'.meals[s'.allergies[k].mealId].userId
      {
        if k != a.id { assert s'.allergies[k] == s.allergies[k]; }
      }
    }
    forall k | k in s'.meals && k != a.mealId ensures s'.RiskCurrent(k) {
      assert s.RiskCurrent(k);
    }
  }

  /** Removing an allergy: everything holds except its former meal's risk. */
  lemma RemoveAllergyStalesOneMeal(s: State, allergyId: Id)
    requires s.Valid() && allergyId in s.allergies
    ensures AllergyCount(s.allergies - {allergyId}, s.allergies[allergyId].mealId)
         == AllergyCount(s.allergies, s.allergies[allergyId].mealId) - 1
    ensures s.(allergies := s.allergies - {allergyId}).ValidExcept(s.allergies[allergyId].mealId)
  {
    CountAfterRemove(s.allergies, allergyId);
    var mealId := s.allergies[allergyId].mealId;
    var s' := s.(allergies := s.allergies - {allergyId});
    forall k | k in s'.meals && k != mealId ensures s'.RiskCurrent(k) {
      assert s.RiskCurrent(k);
    }
  }

  /** Replacing an allergy row by one on the same meal and owner keeps every
      count, so every risk stays current. */
  lemma ReplaceAllergyKeepsValid(s: State, a: Allergy)
    requires s.Valid() && a.id in s.allergies
    requires a.mealId == s.allergies[a.id].mealId && a.userId == s.allergies[a.id].userId
    ensures s.(allergies := s.allergies[a.id := a]).Valid()
  {
    ReplaceAllergyKeepsRows(s, a);
    ReplaceAllergyKeepsRisks(s, a);
    assert UniqueLogins(s.(allergies := s.allergies[a.id := a]).users);
  }

  /** The keys, references and owners rules survive rewriting an allergy
      with its key, meal and owner kept. */
  lemma ReplaceAllergyKeepsRows(s: State, a: Allergy)
    requires s.RowsKeyed() && s.ReferencesExist() && s.OwnersAgree() && a.id in s.allergies
    requires a.id == s.allergies[a.id].id
    requires a.mealId == s.allergies[a.id].mealId && a.userId == s.allergies[a.id].userId
    ensures var s' := s.(allergies := s.allergies[a.id := a]);
      s'.RowsKeyed() && s'.ReferencesExist() && s'.OwnersAgree()
  {
    var s' := s.(allergies := s.allergies[a.id := a]);
    assert s'.RowsKeyed() by {
      forall k | k in s'.allergies ensures s'.allergies[k].id == k && k < s'.nextAllergyId {
        if k != a.id { assert s'.allergies[k] == s.allergies[k]; }
      }
    }
    assert s'.ReferencesExist() by {
      forall k | k in s'.allergies
        ensures s'.allergies[k].mealId in s'.meals && s'.allergies[k].userId in s'.users
      {
        if k != a.id { assert s'.allergies[k] == s.allergies[k]; }
      }
    }
    assert s'.OwnersAgree() by {
      forall k | k in s'.allergies && s'.allergies[k].mealId in s'.meals
        ensures s'.allergies[k].userId == s'.meals[s'.allergies[k].mealId].userId
      {
        if k != a.id { assert s'.allergies[k] == s.allergies[k]; }
      }
    }
  }

  /** Rewriting an allergy on the same meal keeps every count, so every risk
      stays current. */
  lemma ReplaceAllergyKeepsRisks(s: State, a: Allergy)
    requires forall k :: k in s.meals ==> s.RiskCurrent(k)
    requires a.id in s.allergies && a.mealId == s.allergies[a.id].mealId
    ensures var s' := s.(allergies := s.allergies[a.id := a]);
      forall k :: k in s'.meals ==> s'.RiskCurrent(k)
  {
    CountAfterReplace(s.allergies, a);
    var s' := s.(allergies := s.allergies[a.id := a]);
    forall k | k in s'.meals ensures s'.RiskCurrent(k) {
      assert s.RiskCurrent(k);
    }
  }
}
