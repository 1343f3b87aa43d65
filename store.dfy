/** The in-memory store behind the three services of the source: the
    authentication service (src/services/auth_service.py), the meal service
    (src/services/meal_service.py) and the allergy service
    (src/services/allergy_service.py). Each service call is one method or
    query on a single store object; each call is one atomic step. */
module Store {
  import opened Wrappers
  import opened Tables
  import opened Users
  import opened Meals
  import opened Allergies
  import opened Relationships
  import opened Aggregates
  import opened StoreState
  import opened Queries

  /** The errors the services raise. */
  datatype ServiceError =
    | UsernameExists      // "Username already exists"
    | EmailExists         // "Email already exists"
    | InvalidCredentials  // "Invalid credentials"
    | MealNotOwned        // "Meal not found or does not belong to the user"
    | QueryRejected       // the database refuses the statement

  class MealStore {
    var users: map<Id, User>
    var meals: map<Id, Meal>
    var allergies: map<Id, Allergy>
    var nextUserId: Id
    var nextMealId: Id
    var nextAllergyId: Id

    /** The whole database as a value. */
    ghost function Snapshot(): State
      reads this
    {
      State(users, meals, allergies, nextUserId, nextMealId, nextAllergyId)
    }

    ghost predicate Valid()
      reads this
    {
      Snapshot().Valid()
    }

    /** An empty database; keys start at 1. */
    constructor ()
      ensures Valid()
      ensures Snapshot() == Empty
    {
      users, meals, allergies := map[], map[], map[];
      nextUserId, nextMealId, nextAllergyId := 1, 1, 1;
      EmptyValid();
    }

    // ---------------------------------------------------------------
    // Table listings
    // ---------------------------------------------------------------

    /** Every user, each once, in key order. */
    function UserRows(): (r: seq<User>)
      reads this
      requires Valid()
      ensures forall u :: u in r <==> u in users.Values
      ensures Distinct(r)
    {
      RowsBelow(users, (u: User) => u.id, nextUserId)
    }

    /** Every meal, each once, in key order. */
    function MealRows(): (r: seq<Meal>)
      reads this
      requires Valid()
      ensures forall m :: m in r <==> m in meals.Values
      ensures Distinct(r)
    {
      RowsBelow(meals, (m: Meal) => m.id, nextMealId)
    }

    /** Every allergy, each once, in key order. */
    function AllergyRows(): (r: seq<Allergy>)
      reads this
      requires Valid()
      ensures forall a :: a in r <==> a in allergies.Values
      ensures Distinct(r)
    {
      RowsBelow(allergies, (a: Allergy) => a.id, nextAllergyId)
    }

    // ---------------------------------------------------------------
    // Risk engine
    // ---------------------------------------------------------------

    /** `Meal.update_allergy_risk` on meal `mealId`: overwrite its risk from
        its current allergy count. Called after an allergy write, when that
        meal's risk is the only one that may be stale. */
    method RecomputeRisk(mealId: Id)
      requires mealId in meals && Snapshot().ValidExcept(mealId)
      modifies this
      ensures Valid()
      ensures Snapshot() == old(Snapshot()).WithRiskRecomputed(mealId)
      ensures meals[mealId].risk == RiskTenths(AllergyCount(allergies, mealId))
    {
      RecomputeRestoresValid(Snapshot(), mealId);
      meals := meals[mealId := Recompute(meals[mealId], AllergyCount(allergies, mealId))];
    }

    // ---------------------------------------------------------------
    // Authentication service
    // ---------------------------------------------------------------

    /** `AuthService.register_user`. The credential is the already hashed
        password. The username is checked before the email. */
    method RegisterUser(username: string, email: string, credential: Credential) returns (r: Result<User, ServiceError>)
      requires Valid()
      modifies this
      ensures Valid()
      ensures old(UsernameTaken(users, username)) ==>
        r == Failure(UsernameExists) && Snapshot() == old(Snapshot())
      ensures !old(UsernameTaken(users, username)) && old(EmailTaken(users, email)) ==>
        r == Failure(EmailExists) && Snapshot() == old(Snapshot())
      ensures !old(UsernameTaken(users, username)) && !old(EmailTaken(users, email)) ==>
        && r == Success(User(old(nextUserId), username, email, credential))
        && Snapshot() == old(Snapshot()).(users := old(users)[r.value.id := r.value], nextUserId := r.value.id + 1)
        && GetUserById(r.value.id) == Some(r.value)
    {
      if UsernameTaken(users, username) {
        return Failure(UsernameExists);
      }
      if EmailTaken(users, email) {
        return Failure(EmailExists);
      }
      var user := User(nextUserId, username, email, credential);
      ghost var before := Snapshot();
      AddUserKeepsValid(before, user);
      users := users[user.id := user];
      nextUserId := nextUserId + 1;
      assert Snapshot() == before.(users := before.users[user.id := user], nextUserId := user.id + 1);
      r := Success(user);
    }

    /** `User.query.filter_by(username=...).first()`: the first user, in key
        order, with this username. */
    function FindUserByName(username: string): (r: Option<User>)
      reads this
      requires Valid()
      ensures r.Some? <==> UsernameTaken(users, username)
      ensures r.Some? ==> r.value.id in users && users[r.value.id] == r.value && r.value.username == username
    {
      var matches := Filter(UserRows(), (u: User) => u.username == username);
      if UsernameTaken(users, username) then
        assert |matches| > 0 by {
          var k :| k in users && users[k].username == username;
          assert users[k] in matches;
        }
        assert matches[0] in matches;
        assert matches[0].id in users && users[matches[0].id] == matches[0] by {
          assert matches[0] in users.Values;
          var j :| j in users && users[j] == matches[0];
          assert Snapshot().RowsKeyed();
        }
        Some(matches[0])
      else
        None
    }

    /** `AuthService.authenticate_user`. The password check of the stored
        credential is the parameter `checkPassword`; a token names the user
        it identifies and lives two hours. */
    function AuthenticateUser(username: string, password: string, checkPassword: (Credential, string) -> bool): (r: Result<AccessToken, ServiceError>)
      reads this
      requires Valid()
      ensures r.Success? <==>
        exists k :: k in users && users[k].username == username && checkPassword(users[k].credential, password)
      ensures r.Success? ==>
        && r.value.identity in users
        && users[r.value.identity].username == username
        && r.value.lifetimeHours == TokenLifetimeHours
      ensures r.Failure? ==> r.error == InvalidCredentials
    {
      match FindUserByName(username)
      case None => Failure(InvalidCredentials)
      case Some(u) =>
        if checkPassword(u.credential, password) then Success(AccessToken(u.id, TokenLifetimeHours))
        else Failure(InvalidCredentials)
    }

    /** `AuthService.get_user_by_id`. */
    function GetUserById(userId: Id): (r: Option<User>)
      reads this
      ensures r.Some? <==> userId in users
      ensures r.Some? ==> r.value == users[userId]
    {
      if userId in users then Some(users[userId]) else None
    }

    // ---------------------------------------------------------------
    // Meal service
    // ---------------------------------------------------------------

    /** `MealService.create_meal`. The caller is an authenticated user; the
        new meal has risk 0.0 and no allergies. The name is not validated. */
    method CreateMeal(userId: Id, name: string, description: string, ingredients: string) returns (meal: Meal)
      requires Valid() && userId in users
      modifies this
      ensures Valid()
      ensures meal == NewMeal(old(nextMealId), name, description, ingredients, userId)
      ensures Snapshot() == old(Snapshot()).(meals := old(meals)[meal.id := meal], nextMealId := meal.id + 1)
      ensures AllergyCount(allergies, meal.id) == 0 && meal.risk == 0
      ensures GetMealById(meal.id, userId) == Some(meal)
    {
      meal := NewMeal(nextMealId, name, description, ingredients, userId);
      ghost var before := Snapshot();
      AddMealKeepsValid(before, meal);
      meals := meals[meal.id := meal];
      nextMealId := nextMealId + 1;
      assert Snapshot() == before.(meals := before.meals[meal.id := meal], nextMealId := meal.id + 1);
      assert allergies == before.allergies && meals[meal.id] == meal;
    }

    /** `MealService.get_meal_by_id`: the meal, if it exists and belongs to
        the caller. A meal of another user looks absent. */
    function GetMealById(mealId: Id, userId: Id): (r: Option<Meal>)
      reads this
      ensures r.Some? <==> mealId in meals && meals[mealId].userId == userId
      ensures r.Some? ==> r.value == meals[mealId]
    {
      if mealId in meals && meals[mealId].userId == userId then Some(meals[mealId]) else None
    }

    /** `MealService.get_all_user_meals`: exactly the caller's meals. */
    function GetAllUserMeals(userId: Id): (r: seq<Meal>)
      reads this
      requires Valid()
      ensures forall m :: m in r <==> m in meals.Values && m.userId == userId
      ensures Distinct(r)
    {
      Filter(MealRows(), (m: Meal) => m.userId == userId)
    }

    /** `MealService.update_meal`: change the supplied fields of one of the
        caller's meals. Its owner, its risk and its allergies stay. */
    method UpdateMeal(mealId: Id, userId: Id, update: MealUpdate) returns (r: Option<Meal>)
      requires Valid()
      modifies this
      ensures Valid()
      ensures r.Some? <==> old(mealId in meals && meals[mealId].userId == userId)
      ensures r.None? ==> Snapshot() == old(Snapshot())
      ensures r.Some? ==>
        && r.value == ApplyMealUpdate(old(meals[mealId]), update)
        && Snapshot() == old(Snapshot()).(meals := old(meals)[mealId := r.value])
    {
      if !(mealId in meals && meals[mealId].userId == userId) {
        return None;
      }
      var meal := ApplyMealUpdate(meals[mealId], update);
      ReplaceMealKeepsValid(Snapshot(), meal);
      meals := meals[mealId := meal];
      r := Some(meal);
    }

    /** `MealService.delete_meal`: delete one of the caller's meals; the
        cascade deletes its allergies with it. */
    method DeleteMeal(mealId: Id, userId: Id) returns (deleted: bool)
      requires Valid()
      modifies this
      ensures Valid()
      ensures deleted <==> old(mealId in meals && meals[mealId].userId == userId)
      ensures !deleted ==> Snapshot() == old(Snapshot())
      ensures deleted ==>
        Snapshot() == old(Snapshot()).(meals := old(meals) - {mealId}, allergies := CascadeDelete(old(allergies), mealId))
      ensures deleted ==> forall k :: k in allergies ==> allergies[k].mealId != mealId
    {
      if !(mealId in meals && meals[mealId].userId == userId) {
        return false;
      }
      DeleteMealKeepsValid(Snapshot(), mealId);
      meals := meals - {mealId};
      allergies := CascadeDelete(allergies, mealId);
      deleted := true;
    }

    /** `MealService.get_meals_with_high_allergy_risk`: the meals of every
        owner whose risk reaches the threshold (in tenths; the source's
        default is `DefaultHighRiskThreshold`). */
    function GetMealsWithHighAllergyRisk(threshold: int := DefaultHighRiskThreshold): (r: seq<Meal>)
      reads this
      requires Valid()
      ensures forall m :: m in r <==> m in meals.Values && m.risk >= threshold
      ensures forall m :: m in r <==> m in meals.Values && RiskTenths(AllergyCount(allergies, m.id)) >= threshold
      ensures Distinct(r)
    {
      var rows := MealRows();
      assert forall m :: m in meals.Values ==> m.risk == RiskTenths(AllergyCount(allergies, m.id)) by {
        forall m | m in meals.Values ensures m.risk == RiskTenths(AllergyCount(allergies, m.id)) {
          var k :| k in meals && meals[k] == m;
          assert Snapshot().RiskCurrent(k);
        }
      }
      Filter(rows, (m: Meal) => m.risk >= threshold)
    }

    /** With the default threshold of 0.2 the query selects exactly the
        meals with at least two allergies. */
    lemma DefaultHighRiskIsTwoOrMore()
      requires Valid()
      ensures forall m :: m in GetMealsWithHighAllergyRisk() <==>
        m in meals.Values && AllergyCount(allergies, m.id) >= 2
    {
      forall c: nat ensures RiskTenths(c) >= DefaultHighRiskThreshold <==> c >= 2 {
        RiskTenthsValues(c);
      }
    }

    /** `MealService.get_meals_with_most_allergies`: every meal of every
        owner, once, with its allergy count, largest count first. */
    function GetMealsWithMostAllergies(): (r: seq<(Meal, nat)>)
      reads this
      requires Valid()
      ensures forall p :: p in r <==> p.0 in meals.Values && p.1 == AllergyCount(allergies, p.0.id)
      ensures Distinct(r)
      ensures ByCountDescending(r)
    {
      var al := allergies;
      var counted := Tally(MealRows(), (m: Meal) => AllergyCount(al, m.id));
      SortKeepsRows(counted);
      SortByCount(counted)
    }

    // ---------------------------------------------------------------
    // Allergy service
    // ---------------------------------------------------------------

    /** `AllergyService.create_allergy`: add an allergy to one of the
        caller's meals and recompute that meal's risk. A meal that is absent
        or belongs to someone else is refused and nothing changes. The name
        and severity are not validated. */
    method CreateAllergy(userId: Id, mealId: Id, name: string, severity: Option<string>) returns (r: Result<Allergy, ServiceError>)
      requires Valid()
      modifies this
      ensures Valid()
      ensures r.Success? <==> old(mealId in meals && meals[mealId].userId == userId)
      ensures r.Failure? ==> r.error == MealNotOwned && Snapshot() == old(Snapshot())
      ensures r.Success? ==>
        && r.value == NewAllergy(old(nextAllergyId), name, severity, userId, mealId)
        && AllergyCount(allergies, mealId) == AllergyCount(old(allergies), mealId) + 1
        && Snapshot() == old(Snapshot()).(
             allergies := old(allergies)[r.value.id := r.value],
             nextAllergyId := r.value.id + 1,
             meals := old(meals)[mealId := Recompute(old(meals[mealId]), AllergyCount(allergies, mealId))])
      ensures r.Success? && AllergyCount(old(allergies), mealId) == 0 ==> meals[mealId].risk == 1
    {
      if !(mealId in meals && meals[mealId].userId == userId) {
        return Failure(MealNotOwned);
      }
      var allergy := NewAllergy(nextAllergyId, name, severity, userId, mealId);
      ghost var before := Snapshot();
      InsertAllergyStalesOneMeal(before, allergy);
      allergies := allergies[allergy.id := allergy];
      nextAllergyId := nextAllergyId + 1;
      ghost var inserted := Snapshot();
      assert inserted == before.(allergies := before.allergies[allergy.id := allergy], nextAllergyId := allergy.id + 1);
      RecomputeRisk(mealId);
      assert Snapshot() == inserted.WithRiskRecomputed(mealId);
      assert users == before.users && nextUserId == before.nextUserId && nextMealId == before.nextMealId;
      assert allergies == before.allergies[allergy.id := allergy] && nextAllergyId == allergy.id + 1;
      assert meals == before.meals[mealId := Recompute(before.meals[mealId], AllergyCount(allergies, mealId))];
      assert AllergyCount(before.allergies, mealId) == 0 ==> meals[mealId].risk == RiskTenths(1);
      r := Success(allergy);
    }

    /** `AllergyService.get_user_allergies`: exactly the caller's allergies. */
    function GetUserAllergies(userId: Id): (r: seq<Allergy>)
      reads this
      requires Valid()
      ensures forall a :: a in r <==> a in allergies.Values && a.userId == userId
      ensures Distinct(r)
    {
      Filter(AllergyRows(), (a: Allergy) => a.userId == userId)
    }

    /** `AllergyService.get_allergy_by_id`: the allergy, if it exists and
        belongs to the caller. */
    function GetAllergyById(allergyId: Id, userId: Id): (r: Option<Allergy>)
      reads this
      ensures r.Some? <==> allergyId in allergies && allergies[allergyId].userId == userId
      ensures r.Some? ==> r.value == allergies[allergyId]
    {
      if allergyId in allergies && allergies[allergyId].userId == userId then Some(allergies[allergyId]) else None
    }

    /** `AllergyService.update_allergy`: change the supplied fields of one of
        the caller's allergies, then recompute its meal's risk, which the
        unchanged count leaves as it was. */
    method UpdateAllergy(allergyId: Id, userId: Id, update: AllergyUpdate) returns (r: Option<Allergy>)
      requires Valid()
      modifies this
      ensures Valid()
      ensures r.Some? <==> old(allergyId in allergies && allergies[allergyId].userId == userId)
      ensures r.None? ==> Snapshot() == old(Snapshot())
      ensures r.Some? ==>
        && r.value == ApplyAllergyUpdate(old(allergies[allergyId]), update)
        && Snapshot() == old(Snapshot()).(allergies := old(allergies)[allergyId := r.value])
    {
      if !(allergyId in allergies && allergies[allergyId].userId == userId) {
        return None;
      }
      var allergy := ApplyAllergyUpdate(allergies[allergyId], update);
      ReplaceAllergyKeepsValid(Snapshot(), allergy);
      allergies := allergies[allergyId := allergy];
      RecomputeCurrentIsNoOp(Snapshot(), allergy.mealId);
      RecomputeRisk(allergy.mealId);
      r := Some(allergy);
    }

    /** `AllergyService.delete_allergy`: delete one of the caller's
        allergies, then recompute the risk of the meal it belonged to. */
    method DeleteAllergy(allergyId: Id, userId: Id) returns (deleted: bool)
      requires Valid()
      modifies this
      ensures Valid()
      ensures deleted <==> old(allergyId in allergies && allergies[allergyId].userId == userId)
      ensures !deleted ==> Snapshot() == old(Snapshot())
      ensures deleted ==>
        var mealId := old(allergies[allergyId].mealId);
        && AllergyCount(allergies, mealId) == AllergyCount(old(allergies), mealId) - 1
        && Snapshot() == old(Snapshot()).(
             allergies := old(allergies) - {allergyId},
             meals := old(meals)[mealId := Recompute(old(meals[mealId]), AllergyCount(allergies, mealId))])
      ensures deleted && AllergyCount(old(allergies), old(allergies[allergyId].mealId)) == 1 ==>
        meals[old(allergies[allergyId].mealId)].risk == 0
    {
      if !(allergyId in allergies && allergies[allergyId].userId == userId) {
        return false;
      }
      var mealId := allergies[allergyId].mealId;
      RemoveAllergyStalesOneMeal(Snapshot(), allergyId);
      allergies := allergies - {allergyId};
      RecomputeRisk(mealId);
      deleted := true;
    }

    /** `AllergyService.get_users_with_allergies` with the count condition
        in a HAVING clause, as intended: every user of the store who owns at
        least one allergy, once, with their allergy count. */
    function GetUsersWithAllergies(): (r: seq<(User, nat)>)
      reads this
      requires Valid()
      ensures forall p :: p in r <==>
        p.0 in users.Values && p.1 == UserAllergyCount(allergies, p.0.id) && p.1 > 0
      ensures Distinct(r)
    {
      var al := allergies;
      Filter(Tally(UserRows(), (u: User) => UserAllergyCount(al, u.id)), (p: (User, nat)) => p.1 > 0)
    }

    /** Runs a grouped per-user count statement against the store: the
        database rejects it when its WHERE clause holds an aggregate, and
        otherwise returns every user once, with their allergy count, for
        which all of its conditions hold. */
    function RunUserCountQuery(q: GroupedQuery): (r: Result<seq<(User, nat)>, ServiceError>)
      reads this
      requires Valid()
      ensures r.Failure? <==> Rejected(q)
      ensures r.Failure? ==> r.error == QueryRejected
      ensures r.Success? ==> forall p :: p in r.value <==>
        p.0 in users.Values && p.1 == UserAllergyCount(allergies, p.0.id) && Keeps(q, p)
      ensures r.Success? ==> Distinct(r.value)
    {
      if Rejected(q) then Failure(QueryRejected)
      else
        var al := allergies;
        Success(Filter(Tally(UserRows(), (u: User) => UserAllergyCount(al, u.id)), (g: (User, nat)) => Keeps(q, g)))
    }

    /** `AllergyService.get_users_with_allergies` as written: the statement
        it builds puts the count condition in WHERE, and the database
        rejects it whatever the tables hold. */
    function GetUsersWithAllergiesAsWritten(): (r: Result<seq<(User, nat)>, ServiceError>)
      reads this
      requires Valid()
      ensures r == Failure(QueryRejected)
    {
      AsWrittenIsRejected();
      RunUserCountQuery(UsersWithAllergiesAsWritten())
    }

    /** The statement with its count condition in HAVING returns exactly
        `GetUsersWithAllergies()`. */
    lemma HavingQueryIsUsersWithAllergies()
      requires Valid()
      ensures RunUserCountQuery(UsersWithAllergiesIntended()) == Success(GetUsersWithAllergies())
    {
      IntendedKeepsCountedGroups();
      var al := allergies;
      var groups := Tally(UserRows(), (u: User) => UserAllergyCount(al, u.id));
      FilterAgreeing(groups, (g: (User, nat)) => Keeps(UsersWithAllergiesIntended(), g), (p: (User, nat)) => p.1 > 0);
    }

    /** `AllergyService.get_meals_causing_allergies`: every meal of every
        owner with at least one allergy, once, with its count, largest count
        first. */
    function GetMealsCausingAllergies(): (r: seq<(Meal, nat)>)
      reads this
      requires Valid()
      ensures forall p :: p in r <==>
        p.0 in meals.Values && p.1 == AllergyCount(allergies, p.0.id) && p.1 > 0
      ensures Distinct(r)
      ensures ByCountDescending(r)
    {
      var al := allergies;
      var counted := Filter(Tally(MealRows(), (m: Meal) => AllergyCount(al, m.id)), (p: (Meal, nat)) => p.1 > 0);
      SortKeepsRows(counted);
      SortByCount(counted)
    }
  }
}
