/** The grouped counting queries: pair each row with a count (GROUP BY with
    COUNT) and order the pairs by count, largest first (ORDER BY count DESC). */
module Aggregates {
  import opened Tables

  /** Each row of `s` paired with its count, in the order of `s`. */
  function Tally<T(!new)>(s: seq<T>, count: T -> nat): (r: seq<(T, nat)>)
    ensures |r| == |s|
    ensures forall p :: p in r <==> p.0 in s && p.1 == count(p.0)
    ensures Distinct(s) ==> Distinct(r)
  {
    if s == [] then []
    else
      var head := (s[0], count(s[0]));
      var tail := Tally(s[1..], count);
      assert s == [s[0]] + s[1..];
      assert Distinct(s) ==> s[0] !in s[1..] && Distinct(s[1..]) by {
        if Distinct(s) {
          assert multiset(s) == multiset{s[0]} + multiset(s[1..]);
          assert multiset(s)[s[0]] == 1 + multiset(s[1..])[s[0]];
          forall x ensures multiset(s[1..])[x] <= 1 {
            assert multiset(s[1..])[x] <= multiset(s)[x];
          }
        }
      }
      assert forall x :: multiset([head] + tail)[x] == multiset([head])[x] + multiset(tail)[x];
      [head] + tail
  }

  /** Counts never increase from left to right. */
  ghost predicate ByCountDescending<T>(s: seq<(T, nat)>) {
    forall i, j :: 0 <= i < j < |s| ==> s[i].1 >= s[j].1
  }

  /** `x` placed into an ordered list ahead of the first pair whose count
      is not larger. */
  function Insert<T(!new)>(x: (T, nat), s: seq<(T, nat)>): (r: seq<(T, nat)>)
    requires ByCountDescending(s)
    ensures multiset(r) == multiset{x} + multiset(s)
    ensures ByCountDescending(r)
  {
    if s == [] then [x]
    else if x.1 >= s[0].1 then [x] + s
    else
      var t := Insert(x, s[1..]);
      assert s == [s[0]] + s[1..];
      forall j | 0 <= j < |t| ensures s[0].1 >= t[j].1 {
        assert t[j] in multiset(t);
        if t[j] != x {
          assert t[j] in multiset(s[1..]);
          var i :| 0 <= i < |s[1..]| && s[1..][i] == t[j];
          assert s[i + 1] == t[j];
        }
      }
      [s[0]] + t
  }

  /** The pairs of `s` ordered by count, largest first: the same pairs, as
      often as in `s`. Pairs with equal counts keep their relative order. */
  function SortByCount<T(!new)>(s: seq<(T, nat)>): (r: seq<(T, nat)>)
    ensures multiset(r) == multiset(s)
    ensures ByCountDescending(r)
  {
    if s == [] then []
    else
      assert s == [s[0]] + s[1..];
      Insert(s[0], SortByCount(s[1..]))
  }

  /** Reordering keeps the members and keeps them distinct. */
  lemma {:induction false} SortKeepsRows<T(!new)>(s: seq<(T, nat)>)
    ensures forall p :: p in SortByCount(s) <==> p in s
    ensures Distinct(s) ==> Distinct(SortByCount(s))
  {
    var r := SortByCount(s);
    assert multiset(r) == multiset(s);
    forall p ensures p in r <==> p in s {
      assert p in r <==> p in multiset(r);
      assert p in s <==> p in multiset(s);
    }
  }
}
