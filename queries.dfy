/** The grouped per-user counting statement that `get_users_with_allergies`
    builds with the query API: users outer-joined with their allergies and
    grouped by user, with conditions attached to the WHERE clause (the
    query's `filter`) or to the HAVING clause (its `having`). */
module Queries {
  import opened Tables
  import opened Users

  /** A condition a statement can carry. */
  datatype Cond =
    | CountAbove(bound: nat)   // count(allergies.id) > bound, an aggregate
    | UserKeyIs(userId: Id)    // users.id = userId, a plain column test

  /** The condition applies an aggregate function. */
  predicate IsAggregate(c: Cond) {
    c.CountAbove?
  }

  /** Whether a group, a user paired with its allergy count, satisfies `c`.
      A plain column test on the user's columns selects the same groups in
      WHERE, before grouping, as it would after grouping. */
  predicate Holds(c: Cond, group: (User, nat)) {
    match c
    case CountAbove(bound) => group.1 > bound
    case UserKeyIs(userId) => group.0.id == userId
  }

  /** A grouped statement with its WHERE and HAVING conditions, in the order
      they were attached. */
  datatype GroupedQuery = GroupedQuery(where: seq<Cond>, having: seq<Cond>)

  /** `query(User, count(Allergy.id)).outerjoin(Allergy).group_by(User)`,
      before any condition is attached. */
  function UsersWithAllergyCounts(): (q: GroupedQuery)
    ensures q.where == [] && q.having == []
  {
    GroupedQuery([], [])
  }

  /** `.filter(c)`: the condition joins the WHERE clause. */
  function AddFilter(q: GroupedQuery, c: Cond): (r: GroupedQuery)
    ensures r.where == q.where + [c] && r.having == q.having
  {
    q.(where := q.where + [c])
  }

  /** `.having(c)`: the condition joins the HAVING clause. */
  function AddHaving(q: GroupedQuery, c: Cond): (r: GroupedQuery)
    ensures r.having == q.having + [c] && r.where == q.where
  {
    q.(having := q.having + [c])
  }

  /** SQL allows no aggregate function in a WHERE clause; the database
      rejects such a statement. */
  predicate Rejected(q: GroupedQuery) {
    exists i :: 0 <= i < |q.where| && IsAggregate(q.where[i])
  }

  /** An accepted statement keeps a group when every one of its conditions
      holds of it. */
  predicate Keeps(q: GroupedQuery, group: (User, nat)) {
    forall c :: c in q.where + q.having ==> Holds(c, group)
  }

  /** The statement `get_users_with_allergies` builds:
      `.outerjoin(Allergy).group_by(User).filter(count(Allergy.id) > 0)`. */
  function UsersWithAllergiesAsWritten(): (q: GroupedQuery)
    ensures q.where == [CountAbove(0)] && q.having == []
  {
    AddFilter(UsersWithAllergyCounts(), CountAbove(0))
  }

  /** The same statement with the count condition in HAVING. */
  function UsersWithAllergiesIntended(): (q: GroupedQuery)
    ensures q.where == [] && q.having == [CountAbove(0)]
  {
    AddHaving(UsersWithAllergyCounts(), CountAbove(0))
  }

  /** The statement as written puts an aggregate in WHERE, so it is rejected. */
  lemma AsWrittenIsRejected()
    ensures Rejected(UsersWithAllergiesAsWritten())
  {
    assert IsAggregate(UsersWithAllergiesAsWritten().where[0]);
  }

  /** The HAVING form is accepted and keeps exactly the groups with at least
      one allergy. */
  lemma IntendedKeepsCountedGroups()
    ensures !Rejected(UsersWithAllergiesIntended())
    ensures forall g :: Keeps(UsersWithAllergiesIntended(), g) <==> g.1 > 0
  {
    var q := UsersWithAllergiesIntended();
    assert q.where + q.having == [CountAbove(0)];
    forall g: (User, nat)
      ensures Keeps(q, g) <==> g.1 > 0
    {
      assert Keeps(q, g) <==> Holds(CountAbove(0), g);
    }
  }
}
