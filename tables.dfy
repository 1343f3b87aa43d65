/** Generic helpers for tables keyed by an integer primary key: listing the
    rows in key order and filtering a list of rows. */
module Tables {

  /** An integer primary key. The model hands keys out from a counter that
      starts at 1 and only grows. */
  type Id = nat

  /** Every value occurs at most once in `s`. */
  ghost predicate Distinct<T(!new)>(s: seq<T>) {
    forall x :: multiset(s)[x] <= 1
  }

  /** The rows of `m` whose key is below `n`, in ascending key order: what a
      query without ORDER BY over the whole table returns. */
  function RowsBelow<T(==,!new)>(m: map<Id, T>, key: T -> Id, n: nat): (r: seq<T>)
    requires forall k :: k in m ==> key(m[k]) == k
    ensures forall x :: x in r <==> x in m.Values && key(x) < n
    ensures Distinct(r)
    decreases n
  {
    if n == 0 then []
    else
      var prefix := RowsBelow(m, key, n - 1);
      var last := if n - 1 in m then [m[n - 1]] else [];
      assert n - 1 in m ==> m[n - 1] !in prefix;
      assert forall x :: multiset(prefix + last)[x] == multiset(prefix)[x] + multiset(last)[x];
      prefix + last
  }

  /** The rows of `s` that satisfy `p`, each as often as in `s`. */
  function Filter<T(!new)>(s: seq<T>, p: T -> bool): (r: seq<T>)
    ensures forall x :: multiset(r)[x] == if p(x) then multiset(s)[x] else 0
    ensures forall x :: x in r <==> x in s && p(x)
    ensures Distinct(s) ==> Distinct(r)
  {
    if s == [] then []
    else
      var tail := Filter(s[1..], p);
      assert s == [s[0]] + s[1..];
      assert multiset(s) == multiset{s[0]} + multiset(s[1..]);
      if p(s[0]) then
        assert multiset([s[0]] + tail) == multiset{s[0]} + multiset(tail);
        [s[0]] + tail
      else
        tail
  }

  /** Filtering by two predicates that agree on every value gives the same
      list. */
  lemma {:induction false} FilterAgreeing<T(!new)>(s: seq<T>, p: T -> bool, q: T -> bool)
    requires forall x :: p(x) == q(x)
    ensures Filter(s, p) == Filter(s, q)
  {
    if s != [] {
      FilterAgreeing(s[1..], p, q);
    }
  }

  /** A subset has no more elements than its superset. */
  lemma {:induction false} SubsetNoLarger<T>(a: set<T>, b: set<T>)
    requires a <= b
    ensures |a| <= |b|
    decreases a
  {
    if a != {} {
      var x :| x in a;
      SubsetNoLarger(a - {x}, b - {x});
    }
  }
}
