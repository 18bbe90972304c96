/** The part of the stream library the bag composes with, on finite sequences:
    `filter` keeps, in order, the elements a predicate accepts; `concat` is `+`. */
module Streams {

  /** `s.filter(keep)`: the elements of `s` that `keep` accepts, in their order in `s`. */
  function Filter<E(==)>(s: seq<E>, keep: E -> bool): (r: seq<E>)
    ensures |r| <= |s|
    ensures forall i :: 0 <= i < |r| ==> keep(r[i])
    ensures forall x :: x in r ==> x in s
  {
    if s == [] then [] else (if keep(s[0]) then [s[0]] else []) + Filter(s[1..], keep)
  }

  /** Filtering keeps every accepted element as often as it occurs, and no rejected one. */
  lemma {:induction false} FilterMultiset<E>(s: seq<E>, keep: E -> bool)
    ensures forall x :: x in s ==> multiset(Filter(s, keep))[x] == if keep(x) then multiset(s)[x] else 0
  {
    if s != [] {
      FilterMultiset(s[1..], keep);
      assert s == [s[0]] + s[1..];
    }
  }

  /** Filtering a concatenation filters each part: a filter installed before an add
      applies to what was there, and the same filter over the whole stream splits the same way. */
  lemma {:induction false} FilterAppend<E>(a: seq<E>, b: seq<E>, keep: E -> bool)
    ensures Filter(a + b, keep) == Filter(a, keep) + Filter(b, keep)
  {
    if a == [] {
      assert a + b == b;
    } else {
      assert (a + b)[1..] == a[1..] + b;
      FilterAppend(a[1..], b, keep);
    }
  }

  /** Two filters installed one after the other keep exactly what both accept. */
  lemma {:induction false} FilterFilter<E>(s: seq<E>, p: E -> bool, q: E -> bool)
    ensures Filter(Filter(s, p), q) == Filter(s, Both(p, q))
  {
    if s != [] {
      var head := if p(s[0]) then [s[0]] else [];
      assert Filter(s, p) == head + Filter(s[1..], p);
      FilterAppend(head, Filter(s[1..], p), q);
      FilterFilter(s[1..], p, q);
      if p(s[0]) {
        assert head[1..] == [];
      }
    }
  }

  /** The conjunction of two predicates. */
  function Both<E>(p: E -> bool, q: E -> bool): E -> bool
  {
    x => p(x) && q(x)
  }

  /** A filter that accepts everything changes nothing. */
  lemma {:induction false} FilterAll<E>(s: seq<E>, keep: E -> bool)
    requires forall i :: 0 <= i < |s| ==> keep(s[i])
    ensures Filter(s, keep) == s
  {
    if s != [] {
      FilterAll(s[1..], keep);
      assert s == [s[0]] + s[1..];
    }
  }
}
