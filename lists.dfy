/**
 * `Array.prototype.filter` and `Array.prototype.map` over sequences, and
 * what they preserve: order, multiplicity and concatenation.
 */
module Lists {

  /** `s.filter(p)`: the elements of `s` satisfying `p`, in order. */
  function Filter<T>(p: T -> bool, s: seq<T>): (r: seq<T>)
    ensures |r| <= |s|
    ensures forall i :: 0 <= i < |r| ==> p(r[i])
  {
    if s == [] then [] else (if p(s[0]) then [s[0]] else []) + Filter(p, s[1..])
  }

  /** `s.map(f)`. */
  function Map<T, U>(f: T -> U, s: seq<T>): (r: seq<U>)
    ensures |r| == |s|
    ensures forall i :: 0 <= i < |s| ==> r[i] == f(s[i])
  {
    seq(|s|, i requires 0 <= i < |s| => f(s[i]))
  }

  /** `a` is obtained from `b` by deleting elements: same relative order. */
  ghost predicate IsSubsequence<T>(a: seq<T>, b: seq<T>)
  {
    if a == [] then true
    else if b == [] then false
    else if a[0] == b[0] then IsSubsequence(a[1..], b[1..])
    else IsSubsequence(a, b[1..])
  }

  lemma {:induction false} FilterConcat<T>(p: T -> bool, a: seq<T>, b: seq<T>)
    ensures Filter(p, a + b) == Filter(p, a) + Filter(p, b)
    decreases |a|
  {
    if a != [] {
      assert (a + b)[0] == a[0];
      assert (a + b)[1..] == a[1..] + b;
      FilterConcat(p, a[1..], b);
      calc {
        Filter(p, a + b);
        (if p(a[0]) then [a[0]] else []) + Filter(p, a[1..] + b);
        (if p(a[0]) then [a[0]] else []) + (Filter(p, a[1..]) + Filter(p, b));
      }
    } else {
      assert a + b == b;
    }
  }

  lemma MapConcat<T, U>(f: T -> U, a: seq<T>, b: seq<T>)
    ensures Map(f, a + b) == Map(f, a) + Map(f, b)
  {
  }

  /** The filtered sequence keeps the input order. */
  lemma {:induction false} FilterIsSubsequence<T>(p: T -> bool, s: seq<T>)
    ensures IsSubsequence(Filter(p, s), s)
    decreases |s|
  {
    if s != [] {
      FilterIsSubsequence(p, s[1..]);
      var f := Filter(p, s[1..]);
      if p(s[0]) {
        assert Filter(p, s) == [s[0]] + f;
      } else {
        assert Filter(p, s) == f;
        assert f != [] ==> f[0] != s[0];
      }
    }
  }

  /** The filtered sequence keeps every element satisfying `p` as often as it occurs and drops every other element. */
  lemma {:induction false} FilterCount<T>(p: T -> bool, s: seq<T>, x: T)
    ensures multiset(Filter(p, s))[x] == if p(x) then multiset(s)[x] else 0
    decreases |s|
  {
    if s != [] {
      FilterCount(p, s[1..], x);
      assert s == [s[0]] + s[1..];
      assert multiset(s) == multiset{s[0]} + multiset(s[1..]);
      assert Filter(p, s) == (if p(s[0]) then [s[0]] else []) + Filter(p, s[1..]);
    }
  }

  /**
   * The filtered sequence is exactly the input with the elements failing
   * `p` deleted: a subsequence holding each element satisfying `p` as
   * often as the input does, and no other element.
   */
  lemma FilterExact<T>(p: T -> bool, s: seq<T>)
    ensures IsSubsequence(Filter(p, s), s)
    ensures forall x :: multiset(Filter(p, s))[x] == if p(x) then multiset(s)[x] else 0
  {
    FilterIsSubsequence(p, s);
    forall x ensures multiset(Filter(p, s))[x] == if p(x) then multiset(s)[x] else 0 {
      FilterCount(p, s, x);
    }
  }

  lemma FilterMembership<T>(p: T -> bool, s: seq<T>, x: T)
    ensures x in Filter(p, s) <==> x in s && p(x)
  {
    FilterExact(p, s);
    assert x in Filter(p, s) <==> multiset(Filter(p, s))[x] > 0;
    assert x in s <==> multiset(s)[x] > 0;
  }

  /** Filtering by a predicate that implies another is the same as filtering the weaker filter's result. */
  lemma {:induction false} FilterStronger<T>(p: T -> bool, q: T -> bool, s: seq<T>)
    requires forall x :: p(x) ==> q(x)
    ensures Filter(p, s) == Filter(p, Filter(q, s))
    decreases |s|
  {
    if s != [] {
      FilterStronger(p, q, s[1..]);
      if q(s[0]) {
        var fq := Filter(q, s);
        assert fq == [s[0]] + Filter(q, s[1..]);
        assert fq[0] == s[0] && fq[1..] == Filter(q, s[1..]);
      } else {
        assert Filter(q, s) == Filter(q, s[1..]);
        assert Filter(p, s) == Filter(p, s[1..]);
      }
    }
  }

  /** Sequences filtered by three predicates that split every element exactly one way add up to the whole. */
  lemma {:induction false} FilterPartition<T>(p: T -> bool, q: T -> bool, o: T -> bool, s: seq<T>)
    requires forall x :: (p(x) && !q(x) && !o(x)) || (!p(x) && q(x) && !o(x)) || (!p(x) && !q(x) && o(x))
    ensures |Filter(p, s)| + |Filter(q, s)| + |Filter(o, s)| == |s|
    decreases |s|
  {
    if s != [] {
      FilterPartition(p, q, o, s[1..]);
    }
  }
}
