# Meal and allergy store, modelled in Dafny

This project models the core of a multi-user meal-tracking service. Users register and log in. Each user owns meals. Each allergy is tied to one of the user's meals. Every meal carries an allergy risk that is derived from how many allergies it has: one tenth per allergy, at most three tenths. The service recomputes that risk whenever an allergy is added, changed or removed.

The model is a single store object, `Store.MealStore`. It holds three tables as maps from an integer primary key to a row: users, meals and allergies. It also holds the next key each table will hand out; keys are integer primary keys, and the model never hands out a key twice. Each service call of the source is one method or query of that object:

- the authentication service: register, authenticate, get user by id;
- the meal service: create, get, list, update, delete, the high-risk query, and the most-allergies query;
- the allergy service: create, list, get, update, delete, the users-with-allergies query, and the meals-causing-allergies query.

Write operations are methods with `modifies this`. Each one states the whole new state in terms of the old one, through the ghost value `Snapshot()`, and keeps the store invariant `Valid()`. Read-only queries are functions that read the store.

The store invariant (`StoreState.State.Valid`) has five parts:

- **keys**: every row sits under its own key, and every key is below its table's counter;
- **references**: a meal's owner exists, and so do an allergy's meal and owner;
- **owners agree**: an allergy's owner is its meal's owner;
- **current risk**: every meal's risk is `RiskTenths(count of its allergies)`;
- **unique logins**: no two users share a username, and no two share an email.

A risk is stored in tenths. `0` stands for 0.0 and `3` for 0.3. The source computes `min(count * 0.1, 0.3)` as a float, which only ever yields 0.0, 0.1, 0.2 or 0.3. The high-risk threshold is in tenths as well; the source's default, 0.2, is `DefaultHighRiskThreshold` (2).

A meal's allergy count is the number of allergy rows whose meal key is that meal. That is the `Meal.allergies` relationship, back-populated from the allergy table. Deleting a meal removes those rows with it (`cascade='all, delete-orphan'`).

The modules are:

- `Wrappers` (wrappers.dfy): `Option` and `Result`;
- `Tables` (tables.dfy): listing a table in key order, filtering a list;
- `Users` (user.dfy): models src/models/user.py;
- `Meals` (meal.dfy): models src/models/meal.py;
- `Allergies` (allergy.dfy): models src/models/allergy.py;
- `Relationships` (relationships.dfy): models the relationships and the cascade;
- `Aggregates` (aggregates.dfy): GROUP BY with COUNT, and ORDER BY count descending;
- `Queries` (queries.dfy): the grouped statement the users-with-allergies query builds, its WHERE and HAVING conditions, and the database's rule against aggregates in WHERE;
- `StoreState` (state.dfy): the state value, the invariant, and one preservation lemma per kind of write;
- `Store` (store.dfy): the store class with the three services;
- `Scenarios` (scenarios.dfy): client runs that follow the API tests.

The services never call the schema validators, so `CreateMeal` and `CreateAllergy` accept short names and unknown severities. The validators are modelled on their own, as `ValidMealName`, `ValidAllergyName` and `ValidSeverity`.

## Model

| member | source | states |
|---|---|---|
| `Meals.RiskTenths` | src/models/meal.py:22-25 | the risk never exceeds 3 tenths or the allergy count, and below the ceiling it equals the count |
| `Meals.RiskTenthsValues` | src/models/meal.py:25 | 0, 1 and 2 allergies give 0.0, 0.1 and 0.2; three or more give 0.3 |
| `Meals.RiskStep` | src/models/meal.py:25 | one more allergy adds one tenth below the ceiling and nothing at it |
| `Meals.RiskMonotonic` | src/models/meal.py:25 | more allergies never give a lower risk |
| `Meals.Recompute` | src/models/meal.py:22-25 | recompute sets the risk from the count and changes no other field of the meal |
| `Meals.RecomputeIdempotent` | src/models/meal.py:22-25 | recomputing twice equals recomputing once; recomputing a current risk changes nothing |
| `Meals.NewMeal` | src/models/meal.py:15 | a new meal has the given fields and risk 0.0, the risk of no allergies |
| `Meals.ApplyMealUpdate` | src/services/meal_service.py:37-38 | an update replaces exactly the supplied name, description and ingredients; key, owner and risk stay |
| `Meals.EmptyMealUpdate` | src/services/meal_service.py:37-38 | an update that supplies nothing leaves the meal unchanged |
| `Meals.ValidMealName` | src/models/meal.py:38-41 | a meal name is rejected exactly when it is shorter than two characters |
| `Meals.MealNameExamples` | src/models/meal.py:38-41 | examples: the empty name and "A" are rejected, "Test Meal" is accepted |
| `Allergies.NewAllergy` | src/models/allergy.py:10-17 | a new allergy has the given name, owner and meal; severity defaults to "mild" when not supplied |
| `Allergies.ApplyAllergyUpdate` | src/services/allergy_service.py:48-49 | an update replaces exactly the supplied name and severity; key, owner and meal stay |
| `Allergies.ValidAllergyName` | src/models/allergy.py:36-39 | an allergy name is rejected exactly when it is shorter than two characters |
| `Allergies.AllergyNameExamples` | src/models/allergy.py:36-39 | examples: the empty name and "P" are rejected, "Peanut Allergy" is accepted |
| `Allergies.ValidSeverity` | src/models/allergy.py:41-45 | each of "mild", "moderate" and "severe" is accepted; an accepted value has 4, 6 or 8 characters, the lengths of those three |
| `Allergies.LowerChar` | src/models/allergy.py:44 | ASCII upper-case letters map to their lower-case letters; every other character is kept |
| `Allergies.ToLower` | src/models/allergy.py:44 | lower-casing keeps the length and lower-cases character by character |
| `Allergies.ToLowerIdempotent` | src/models/allergy.py:44 | lower-casing a lower-cased string changes nothing |
| `Allergies.SeverityIgnoresCase` | src/models/allergy.py:41-45 | a severity and its lower-cased form are accepted or rejected together |
| `Allergies.SeverityExamples` | src/models/allergy.py:41-45 | "mild", "Severe" and "MODERATE" are accepted; "high" is rejected |
| `Relationships.MealAllergyIds` | src/models/meal.py:20 | a meal's allergies are exactly the allergy rows whose meal key is that meal |
| `Relationships.AllergyCount` | src/models/meal.py:24 | `len(meal.allergies)`: the number of allergy rows whose meal key is the meal |
| `Relationships.AllergyCountBounded` | src/models/meal.py:24 | a meal never has more allergies than the allergy table holds |
| `Relationships.UserAllergyIds` | src/services/allergy_service.py:82-84 | a user's allergies are exactly the allergy rows whose owner key is that user |
| `Relationships.UserAllergyCount` | src/services/allergy_service.py:82-84 | the per-user `func.count(Allergy.id)` of the outer join: the number of allergy rows whose owner key is the user |
| `Relationships.CascadeDelete` | src/models/meal.py:20 | deleting a meal removes exactly its allergy rows and keeps every other row unchanged |
| `Relationships.CountOfUnreferencedMeal` | src/services/meal_service.py:10-16 | a meal that no allergy points at has count 0 |
| `Relationships.CountAfterInsert` | src/services/allergy_service.py:17-24 | inserting an allergy raises its meal's count by one; other meals keep their counts |
| `Relationships.CountAfterRemove` | src/services/allergy_service.py:67-70 | removing an allergy lowers its meal's count by one; other meals keep their counts |
| `Relationships.CountAfterReplace` | src/services/allergy_service.py:48-51 | rewriting an allergy on the same meal keeps every meal's count |
| `Relationships.CountAfterCascade` | src/models/meal.py:20 | after the cascade the deleted meal has count 0; other meals keep their counts |
| `Aggregates.Tally` | src/services/meal_service.py:63-65 | each row is paired with its count, once per row, with no pair repeated |
| `Aggregates.SortByCount` | src/services/meal_service.py:66 | the result is a permutation of the input with counts non-increasing |
| `Aggregates.SortKeepsRows` | src/services/allergy_service.py:96 | ordering keeps exactly the same pairs and keeps them distinct |
| `Users.AddingFreshLoginKeepsUnique` | src/services/auth_service.py:10-16 | adding a user with a free username and a free email keeps logins unique |
| `StoreState.State.Valid` | src/models/meal.py:20-25 | the store invariant; in a valid state no meal's risk exceeds 0.3 |
| `StoreState.State.WithRiskRecomputed` | src/models/meal.py:22-25 | `update_allergy_risk` on the whole state: that meal's risk becomes current, no other field of it changes, and every other meal and table is unchanged |
| `StoreState.RecomputeRestoresValid` | src/models/meal.py:22-25 | if only one meal's risk is stale, recomputing it makes the whole state valid |
| `StoreState.RecomputeCurrentIsNoOp` | src/services/allergy_service.py:53-55 | in a valid state, recomputing a meal's risk leaves the state unchanged |
| `StoreState.AddUserKeepsValid` | src/services/auth_service.py:16-20 | registering a user with a free username and email keeps the state valid |
| `StoreState.AddMealKeepsValid` | src/services/meal_service.py:10-17 | a new meal with risk 0 for an existing user has count 0 and keeps the state valid |
| `StoreState.ReplaceMealKeepsValid` | src/services/meal_service.py:37-40 | rewriting a meal with the same owner and risk keeps the state valid |
| `StoreState.DeleteMealKeepsValid` | src/services/meal_service.py:50-51 | deleting a meal with its allergies keeps the state valid |
| `StoreState.InsertAllergyStalesOneMeal` | src/services/allergy_service.py:17-24 | inserting an owned allergy breaks no rule except that one meal's risk, and raises its count by one |
| `StoreState.RemoveAllergyStalesOneMeal` | src/services/allergy_service.py:67-70 | removing an allergy breaks no rule except its former meal's risk, and lowers its count by one |
| `StoreState.ReplaceAllergyKeepsValid` | src/services/allergy_service.py:48-51 | rewriting an allergy on the same meal and owner keeps the state valid |
| `Store.MealStore.RecomputeRisk` | src/models/meal.py:22-25 | only the one meal's risk changes, to the risk of its current count, and the store becomes valid |
| `Store.MealStore.RegisterUser` | src/services/auth_service.py:8-22 | a taken username fails with UsernameExists, else a taken email fails with EmailExists, with no change; otherwise exactly one user is added under a fresh key, and logins stay unique |
| `Store.MealStore.FindUserByName` | src/services/auth_service.py:26 | a user is found iff one has the username, and the one found is a stored user with that username |
| `Store.MealStore.AuthenticateUser` | src/services/auth_service.py:25-36 | a token is issued iff a user has the username and the password check passes; it names that user and lasts two hours; otherwise the error is InvalidCredentials |
| `Store.MealStore.GetUserById` | src/services/auth_service.py:39-40 | returns the user with that key, or nothing if there is none |
| `Store.MealStore.CreateMeal` | src/services/meal_service.py:8-18 | adds exactly one meal under a fresh key, owned by the caller, with risk 0 and no allergies; nothing else changes; the owner can then fetch it |
| `Store.MealStore.GetMealById` | src/services/meal_service.py:21-23 | returns the meal iff it exists and the caller owns it; absent and foreign meals both give nothing |
| `Store.MealStore.GetAllUserMeals` | src/services/meal_service.py:26-28 | returns exactly the caller's meals, each once |
| `Store.MealStore.UpdateMeal` | src/services/meal_service.py:31-41 | an absent or foreign meal gives nothing and no change; otherwise only that meal changes, only in its supplied fields, and its risk and allergies stay |
| `Store.MealStore.DeleteMeal` | src/services/meal_service.py:44-52 | an absent or foreign meal gives false and no change; otherwise the meal and exactly its allergies are removed, and nothing else changes |
| `Store.MealStore.GetMealsWithHighAllergyRisk` | src/services/meal_service.py:55-57 | returns exactly the meals of all owners whose risk reaches the threshold, each once; the same as those whose count's risk reaches it |
| `Store.MealStore.DefaultHighRiskIsTwoOrMore` | src/services/meal_service.py:55-57 | with the default threshold 0.2, the query returns exactly the meals with at least two allergies |
| `Store.MealStore.GetMealsWithMostAllergies` | src/services/meal_service.py:60-68 | returns every meal of every owner exactly once, including meals with no allergies, with its true count, largest count first |
| `Store.MealStore.CreateAllergy` | src/services/allergy_service.py:9-29 | an absent or foreign meal fails with MealNotOwned and no change; otherwise exactly one allergy is added for the caller and the meal, that meal's count rises by one and its risk is recomputed, and nothing else changes; a first allergy gives risk 0.1 |
| `Store.MealStore.GetUserAllergies` | src/services/allergy_service.py:32-34 | returns exactly the caller's allergies, each once |
| `Store.MealStore.GetAllergyById` | src/services/allergy_service.py:37-39 | returns the allergy iff it exists and the caller owns it |
| `Store.MealStore.UpdateAllergy` | src/services/allergy_service.py:42-57 | an absent or foreign allergy gives nothing and no change; otherwise only that allergy changes, only in its supplied fields, and every meal's risk stays |
| `Store.MealStore.DeleteAllergy` | src/services/allergy_service.py:60-76 | an absent or foreign allergy gives false and no change; otherwise exactly that allergy is removed and its former meal's risk is recomputed from a count one lower; deleting the last allergy resets the risk to 0 |
| `Queries.UsersWithAllergyCounts` | src/services/allergy_service.py:82-84 | the base statement `query(User, count(Allergy.id)).outerjoin(Allergy).group_by(User)` carries no WHERE and no HAVING condition |
| `Queries.UsersWithAllergiesAsWritten` | src/services/allergy_service.py:82-85 | the source's chain: the count condition `> 0` is the only WHERE condition, and HAVING is empty |
| `Queries.UsersWithAllergiesIntended` | src/services/allergy_service.py:82-85 | the corrected chain: WHERE is empty and the count condition `> 0` is the only HAVING condition |
| `Queries.AddFilter` | src/services/allergy_service.py:85 | `filter` appends its condition to the WHERE clause and leaves HAVING alone |
| `Queries.AddHaving` | src/services/allergy_service.py:85 | `having` appends its condition to the HAVING clause and leaves WHERE alone |
| `Queries.AsWrittenIsRejected` | src/services/allergy_service.py:81-86 | the grouped statement with `count(Allergy.id) > 0` passed to `filter` has an aggregate in WHERE, so the database rejects it |
| `Queries.IntendedKeepsCountedGroups` | src/services/allergy_service.py:81-86 | the same statement with the count condition in HAVING is accepted and keeps exactly the groups with a positive count |
| `Store.MealStore.RunUserCountQuery` | src/services/allergy_service.py:81-86 | a grouped per-user count statement fails with QueryRejected iff its WHERE clause holds an aggregate; otherwise it returns each stored user once, with their true allergy count, exactly when all its conditions hold |
| `Store.MealStore.GetUsersWithAllergiesAsWritten` | src/services/allergy_service.py:79-87 | running the statement the source builds fails with QueryRejected, whatever the tables hold |
| `Store.MealStore.HavingQueryIsUsersWithAllergies` | src/services/allergy_service.py:79-87 | running the statement with HAVING in place of `filter` gives exactly `GetUsersWithAllergies()` |
| `Store.MealStore.GetUsersWithAllergies` | src/services/allergy_service.py:79-87 | returns exactly the users owning at least one allergy, each once, paired with their true allergy count |
| `Store.MealStore.GetMealsCausingAllergies` | src/services/allergy_service.py:90-98 | returns exactly the meals with at least one allergy, each once, with their true counts, largest count first |
| `Scenarios.RiskRoundTrip` | src/services/allergy_service.py:9-76 | a new meal has risk 0.0, one allergy gives 0.1 (the API test at tests/test_api.py:109-113), and deleting the allergy through the allergy service gives 0.0 again |
| `Scenarios.RegistrationAndLogin` | src/services/auth_service.py:8-36 | a duplicate username is refused and adds no user, so the table holds one user; a wrong password gets no token, the right one gets a token for the user |
| `Scenarios.ForeignMealRefused` | src/services/allergy_service.py:12-14 | an allergy on another user's meal is refused, and the meal's risk stays 0 |
| `Scenarios.UsersWithAllergiesFinding` | src/services/allergy_service.py:85 | with one user owning one allergy, the query as written fails, while the corrected one reports exactly that user with count 1 |

## Findings

| source | as written | input that shows it | evidently intended | confidence | as-written member | corrected member |
|---|---|---|---|---|---|---|
| src/services/allergy_service.py:85 | the aggregate condition `count(allergies.id) > 0` is passed to `filter`, so it lands in the WHERE clause, where SQL allows no aggregate (`Queries.Rejected`); the database rejects the statement | any store, for example one user owning one allergy (`Scenarios.UsersWithAllergiesFinding`) | the condition in a HAVING clause: each user with at least one allergy, with that count | high, by SQL's rules; not executed | `Store.MealStore.GetUsersWithAllergiesAsWritten`, `Queries.AsWrittenIsRejected` | `Store.MealStore.GetUsersWithAllergies`, `Store.MealStore.HavingQueryIsUsersWithAllergies` |

## Left out

- Password hashing and token signing (bcrypt, JWT): the stored credential is an opaque value that the caller supplies already hashed. The password check is a function parameter of `AuthenticateUser`. A token is a value that names the user and its lifetime.
- HTTP routes, request parsing, status codes, error handlers, schema serialisation and the exclusion of the password hash from output: these are plumbing around the services.
- Application setup, the database engine and session, and migrations. The services use `db` and `Model.query`, which src/app/database.py does not define. The model assumes the usual ORM meaning of those names.
- Transactions, commit timing and concurrency: each service call is one atomic step. The source's commit of the allergy row before the recompute, and last-writer-wins races, are not modelled. No service commits the recomputed risk either: nothing follows `update_allergy_risk()` at src/services/allergy_service.py:27, 55 and 74. The new risk reaches the database only through a later flush in the same session, and `get_meals_with_high_allergy_risk` reads the stored column. The model stores the risk at once.
- The `Allergy.__init__` recompute hook (src/models/allergy.py:20-24) is not a separate step in the model. `create_allergy` builds the allergy from a meal key, so the hook finds no loaded meal. The recompute after the commit is what brings the meal's risk up to date, and `CreateAllergy` models that recompute.
- Floating point: risks and thresholds are whole tenths. A threshold that is not a whole number of tenths cannot be passed to `GetMealsWithHighAllergyRisk`.
- Nullable text columns: description and ingredients are strings, and an absent value is not told apart from an empty one.
- String lengths of the columns (`String(100)`, `String(20)` and others) are not enforced.
- `Allergies.ToLower`: lower-cases only ASCII letters, unlike Python's full Unicode `str.lower`. The severity check decides the same either way: the only other character whose lower case contains a letter of "mild", "moderate" or "severe" is U+0130, which lower-cases to two characters (`i` and a combining dot), so no string holding it lower-cases to one of the three words.
- `Store.MealStore.UpdateMeal`: narrowed to the fields name, description and ingredients. The source's `setattr` loop would also write `allergy_risk`, `user_id` or `id` if the request carried them. The narrowing keeps the risk derived and the owner fixed.
- `Store.MealStore.UpdateAllergy`: narrowed to the fields name and severity. The source would also write `meal_id` or `user_id` if supplied.
- `Store.MealStore.CreateMeal`: requires the caller to be a registered user. The source takes the identity from an access token issued at login, and users are never deleted. The foreign-key failure that an unknown owner would cause is not modelled.
- Key reuse: the model never hands out a key twice, even after the row with the highest key is deleted. SQLite without `AUTOINCREMENT` may give the next row `max(id) + 1` and so reuse a freed key; the model does not capture that.
- Ties in the ordered queries: the SQL leaves their order open. The model keeps the key order among equal counts and promises only that counts do not increase.
