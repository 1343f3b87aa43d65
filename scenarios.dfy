/** Client runs of the store that follow the API tests and the code of the
    services; everything they establish follows from the contracts of the
    store alone. */
module Scenarios {
  import opened Wrappers
  import opened Users
  import opened Meals
  import opened Allergies
  import opened Relationships
  import opened Store

  /** A stand-in for the password hash check: the credential holds the
      password itself. */
  function PlainCheck(credential: Credential, password: string): bool {
    credential.hash == password
  }

  /** Register a user, create a meal (risk 0.0), add one allergy (risk 0.1),
      delete it again (risk 0.0). */
  method RiskRoundTrip() returns (riskCreated: nat, riskWithAllergy: nat, riskAfterDelete: nat)
    ensures riskCreated == 0 && riskWithAllergy == 1 && riskAfterDelete == 0
  {
    var store := new MealStore();
    var registered := store.RegisterUser("mealuser", "meal@example.com", Credential("mealpassword"));
    var user := registered.value;
    var meal := store.CreateMeal(user.id, "Test Meal", "A test meal", "Test ingredients");
    riskCreated := meal.risk;
    var created := store.CreateAllergy(user.id, meal.id, "Peanut Allergy", Some("moderate"));
    var fetched := store.GetMealById(meal.id, user.id);
    riskWithAllergy := fetched.value.risk;
    var deleted := store.DeleteAllergy(created.value.id, user.id);
    fetched := store.GetMealById(meal.id, user.id);
    riskAfterDelete := fetched.value.risk;
  }

  /** A second registration with a taken username fails and adds no user,
      so the table holds one user; a login with the wrong password issues no
      token; the right password issues a token for the registered user. */
  method RegistrationAndLogin() returns (duplicate: Result<User, ServiceError>, wrong: Result<AccessToken, ServiceError>, right: Result<AccessToken, ServiceError>, userId: nat, userCount: nat)
    ensures duplicate == Failure(UsernameExists) && userCount == 1
    ensures wrong == Failure(InvalidCredentials)
    ensures right == Success(AccessToken(userId, TokenLifetimeHours))
  {
    var store := new MealStore();
    var registered := store.RegisterUser("testuser", "test@example.com", Credential("testpassword"));
    userId := registered.value.id;
    assert store.users == map[userId := registered.value];
    duplicate := store.RegisterUser("testuser", "other@example.com", Credential("x"));
    assert store.users == map[userId := registered.value];
    userCount := |store.users|;
    assert store.GetUserById(userId) == Some(registered.value);
    wrong := store.AuthenticateUser("testuser", "wrongpassword", PlainCheck);
    right := store.AuthenticateUser("testuser", "testpassword", PlainCheck);
  }

  /** A user cannot attach an allergy to another user's meal: the attempt is
      refused and the meal keeps its risk. */
  method ForeignMealRefused() returns (attempt: Result<Allergy, ServiceError>, risk: nat)
    ensures attempt == Failure(MealNotOwned)
    ensures risk == 0
  {
    var store := new MealStore();
    var alice := store.RegisterUser("alice", "alice@example.com", Credential("a"));
    var bob := store.RegisterUser("bob", "bob@example.com", Credential("b"));
    var meal := store.CreateMeal(alice.value.id, "Soup", "", "");
    attempt := store.CreateAllergy(bob.value.id, meal.id, "Gluten", None);
    risk := store.meals[meal.id].risk;
  }

  /** One user with one allergy: the query as written is rejected, while the
      intended query reports that user with a count of one. */
  method UsersWithAllergiesFinding() returns (user: User, asWritten: Result<seq<(User, nat)>, ServiceError>, intended: seq<(User, nat)>)
    ensures asWritten.Failure?
    ensures (user, 1) in intended
    ensures forall p :: p in intended ==> p == (user, 1)
  {
    var store;
    store, user := OneUserWithOneAllergy();
    asWritten := store.GetUsersWithAllergiesAsWritten();
    intended := store.GetUsersWithAllergies();
  }

  /** A fresh store in which one registered user owns one meal with one
      allergy. */
  method OneUserWithOneAllergy() returns (store: MealStore, user: User)
    ensures fresh(store) && store.Valid()
    ensures store.users.Values == {user} && UserAllergyCount(store.allergies, user.id) == 1
  {
    store := new MealStore();
    var registered := store.RegisterUser("allergyuser", "allergy@example.com", Credential("allergypassword"));
    user := registered.value;
    assert store.users == map[user.id := user] && store.allergies == map[];
    var meal := store.CreateMeal(user.id, "Allergy Test Meal", "", "");
    assert store.users == map[user.id := user] && store.allergies == map[];
    var created := store.CreateAllergy(user.id, meal.id, "Peanut Allergy", Some("moderate"));
    var allergy := created.value;
    assert store.users == map[user.id := user] && store.allergies == map[allergy.id := allergy];
    assert UserAllergyIds(store.allergies, user.id) == {allergy.id};
  }
}
