/**
 * The array operations of JavaScript that the modelled code leans on:
 * `filter`, `slice(0, n)` and `[...new Set(xs)]`, as functions on sequences.
 */
module Seqs {
  import opened Wrappers

  /** `s.filter(p)`: the elements of `s` that satisfy `p`, in their original order. */
  function Filter<T(!new)>(s: seq<T>, p: T -> bool): (r: seq<T>)
    ensures |r| <= |s|
    ensures forall x :: x in r <==> x in s && p(x)
    ensures forall i :: 0 <= i < |r| ==> p(r[i])
    ensures (forall i :: 0 <= i < |s| ==> p(s[i])) ==> r == s
  {
    if s == [] then []
    else if p(s[0]) then [s[0]] + Filter(s[1..], p)
    else Filter(s[1..], p)
  }

  /** Filtering distributes over concatenation, so a filter keeps the input order. */
  lemma {:induction false} FilterAppend<T(!new)>(a: seq<T>, b: seq<T>, p: T -> bool)
    ensures Filter(a + b, p) == Filter(a, p) + Filter(b, p)
  {
    if a == [] {
      assert a + b == b;
    } else {
      assert (a + b)[0] == a[0];
      assert (a + b)[1..] == a[1..] + b;
      FilterAppend(a[1..], b, p);
    }
  }

  /** Two predicates that agree on the elements of `s` filter it alike. */
  lemma {:induction false} FilterExt<T(!new)>(s: seq<T>, p: T -> bool, q: T -> bool)
    requires forall x :: x in s ==> p(x) == q(x)
    ensures Filter(s, p) == Filter(s, q)
  {
    if s != [] {
      FilterExt(s[1..], p, q);
    }
  }

  /** Filtering twice with the same predicate is filtering once. */
  lemma FilterIdempotent<T(!new)>(s: seq<T>, p: T -> bool)
    ensures Filter(Filter(s, p), p) == Filter(s, p)
  {
  }

  /** Filtering by `p` and then by `q` is filtering by a predicate `both` that holds where both do. */
  lemma {:induction false} FilterFilter<T(!new)>(s: seq<T>, p: T -> bool, q: T -> bool, both: T -> bool)
    requires forall x :: x in s ==> both(x) == (p(x) && q(x))
    ensures Filter(Filter(s, p), q) == Filter(s, both)
  {
    if s != [] {
      FilterFilter(s[1..], p, q, both);
    }
  }

  /** Concatenation is associative; stated once so that long concatenations need not be compared element by element. */
  lemma AppendAssoc<T>(a: seq<T>, b: seq<T>, c: seq<T>)
    ensures a + b + c == a + (b + c)
  {
  }

  /** `s.map(f).filter(...)` for an `f` that may reject: the accepted results, in order. */
  function FilterMap<A(!new), B(!new)>(s: seq<A>, f: A -> Option<B>): (r: seq<B>)
    ensures |r| <= |s|
    ensures forall y :: y in r ==> exists x :: x in s && f(x) == Some(y)
  {
    if s == [] then []
    else
      var rest := FilterMap(s[1..], f);
      assert forall x :: x in s[1..] ==> x in s;
      match f(s[0])
      case None => rest
      case Some(y) => [y] + rest
  }

  /** Every accepted result is listed: with `FilterMap`'s own contract, a result is listed exactly when some element maps to it. */
  lemma {:induction false} FilterMapMembers<A(!new), B(!new)>(s: seq<A>, f: A -> Option<B>)
    ensures forall y :: y in FilterMap(s, f) <==> exists x :: x in s && f(x) == Some(y)
  {
    if s != [] {
      FilterMapMembers(s[1..], f);
      assert forall x :: x in s ==> x == s[0] || x in s[1..];
    }
  }

  /** Mapping distributes over concatenation, so the results keep the input order. */
  lemma {:induction false} FilterMapAppend<A(!new), B(!new)>(a: seq<A>, b: seq<A>, f: A -> Option<B>)
    ensures FilterMap(a + b, f) == FilterMap(a, f) + FilterMap(b, f)
  {
    if a == [] {
      assert a + b == b;
    } else {
      assert (a + b)[0] == a[0];
      assert (a + b)[1..] == a[1..] + b;
      FilterMapAppend(a[1..], b, f);
    }
  }

  /** When `f` accepts every element, giving `r[i]` for `s[i]`, the results are `r`. */
  lemma {:induction false} FilterMapEach<A(!new), B(!new)>(s: seq<A>, f: A -> Option<B>, r: seq<B>)
    requires |s| == |r|
    requires forall i :: 0 <= i < |s| ==> f(s[i]) == Some(r[i])
    ensures FilterMap(s, f) == r
  {
    if s != [] {
      assert f(s[0]) == Some(r[0]);
      forall i | 0 <= i < |s| - 1 ensures f(s[1..][i]) == Some(r[1..][i]) {
        assert s[1..][i] == s[i + 1];
      }
      FilterMapEach(s[1..], f, r[1..]);
      assert r == [r[0]] + r[1..];
    }
  }

  /** `s.slice(0, n)`: the first `n` elements, or all of them when there are fewer. */
  function Take<T>(s: seq<T>, n: nat): (r: seq<T>)
    ensures |r| <= n && |r| <= |s|
    ensures |s| <= n ==> r == s
    ensures n < |s| ==> |r| == n
    ensures r <= s
  {
    if |s| <= n then s else s[..n]
  }

  /** No element occurs twice. */
  predicate NoDuplicates<T(==)>(s: seq<T>) {
    forall i, j :: 0 <= i < j < |s| ==> s[i] != s[j]
  }

  /** `s.indexOf(x)` for an element that occurs: the position of its first occurrence. */
  function FirstIndex<T(==)>(s: seq<T>, x: T): (i: nat)
    requires x in s
    ensures i < |s| && s[i] == x
    ensures forall k :: 0 <= k < i ==> s[k] != x
  {
    if s[0] == x then 0 else 1 + FirstIndex(s[1..], x)
  }

  /** Appending an element does not move the first occurrence of an element already there. */
  lemma FirstIndexSnoc<T>(s: seq<T>, y: T, x: T)
    requires x in s
    ensures FirstIndex(s + [y], x) == FirstIndex(s, x)
  {
    var i, j := FirstIndex(s + [y], x), FirstIndex(s, x);
    assert (s + [y])[j] == x;
    assert forall k :: 0 <= k < |s| ==> (s + [y])[k] == s[k];
  }

  /**
   * `[...new Set(s)]`: each element once, in the order of the places where they first
   * appear.
   */
  function Distinct<T(==,!new)>(s: seq<T>): (r: seq<T>)
    ensures NoDuplicates(r)
    ensures forall x :: x in r <==> x in s
    ensures forall i, j :: 0 <= i < j < |r| ==> FirstIndex(s, r[i]) < FirstIndex(s, r[j])
    ensures |r| <= |s|
  {
    if s == [] then []
    else
      var init, y := s[..|s| - 1], s[|s| - 1];
      var d := Distinct(init);
      var r := if y in d then d else d + [y];
      DistinctOrderStep(s, init, y, d, r);
      r
  }

  /** The first-appearance order survives one more element at the end. */
  lemma DistinctOrderStep<T>(s: seq<T>, init: seq<T>, y: T, d: seq<T>, r: seq<T>)
    requires s == init + [y]
    requires forall x :: x in d <==> x in init
    requires forall i, j :: 0 <= i < j < |d| ==> FirstIndex(init, d[i]) < FirstIndex(init, d[j])
    requires r == if y in d then d else d + [y]
    ensures forall x :: x in r ==> x in s
    ensures forall i, j :: 0 <= i < j < |r| ==> FirstIndex(s, r[i]) < FirstIndex(s, r[j])
  {
    forall x | x in d ensures FirstIndex(s, x) == FirstIndex(init, x) {
      FirstIndexSnoc(init, y, x);
    }
    forall i, j | 0 <= i < j < |r| ensures FirstIndex(s, r[i]) < FirstIndex(s, r[j]) {
      if j < |d| {
        assert r[i] == d[i] && r[j] == d[j];
      } else {
        assert r[i] == d[i] && r[j] == y && y !in init;
        assert FirstIndex(s, y) == |init|;
      }
    }
  }

  /** A duplicate-free sequence is its own set of distinct elements. */
  lemma {:induction false} DistinctOfNoDuplicates<T(!new)>(s: seq<T>)
    requires NoDuplicates(s)
    ensures Distinct(s) == s
  {
    if s != [] {
      var init := s[..|s| - 1];
      assert NoDuplicates(init);
      DistinctOfNoDuplicates(init);
      assert s[|s| - 1] !in init;
      assert init + [s[|s| - 1]] == s;
    }
  }

  /** Filtering a duplicate-free sequence leaves it duplicate-free. */
  lemma {:induction false} FilterNoDuplicates<T(!new)>(s: seq<T>, p: T -> bool)
    requires NoDuplicates(s)
    ensures NoDuplicates(Filter(s, p))
  {
    if s != [] {
      assert NoDuplicates(s[1..]);
      FilterNoDuplicates(s[1..], p);
      assert s[0] !in s[1..];
    }
  }

  /** Appending an element that is not there yet keeps a sequence duplicate-free. */
  lemma NoDuplicatesSnoc<T>(s: seq<T>, x: T)
    requires NoDuplicates(s) && x !in s
    ensures NoDuplicates(s + [x])
  {
  }

  /** The test `x => !a.includes(x)`. */
  function NotIn<T(==)>(a: seq<T>): T -> bool {
    x => x !in a
  }

  /** Appending one element adds it to the distinct elements unless it is already there. */
  lemma DistinctSnoc<T(!new)>(s: seq<T>, y: T)
    ensures Distinct(s + [y]) == if y in s then Distinct(s) else Distinct(s) + [y]
  {
    assert (s + [y])[..|s + [y]| - 1] == s;
  }

  /**
   * `[...new Set([...a, ...b])]` lists the distinct elements of `a` first, in their
   * order, and then the distinct elements of `b` that are not in `a`.
   */
  lemma {:induction false} DistinctAppend<T(!new)>(a: seq<T>, b: seq<T>)
    ensures Distinct(a + b) == Distinct(a) + Filter(Distinct(b), NotIn(a))
  {
    if b == [] {
      assert a + b == a;
    } else {
      var init, y := b[..|b| - 1], b[|b| - 1];
      assert b == init + [y];
      assert a + b == (a + init) + [y];
      DistinctAppend(a, init);
      DistinctSnoc(a + init, y);
      DistinctSnoc(init, y);
      DistinctAppendStep(a, init, y, Distinct(a), Distinct(init), Distinct(a + init),
                         Distinct(a + init + [y]), Distinct(init + [y]));
    }
  }

  /** The step of `DistinctAppend` for one more element `y` of `b`, on the lists themselves. */
  lemma DistinctAppendStep<T(!new)>(a: seq<T>, init: seq<T>, y: T, da: seq<T>, di: seq<T>, dai: seq<T>,
                              d1: seq<T>, db: seq<T>)
    requires dai == da + Filter(di, NotIn(a))
    requires d1 == if y in a + init then dai else dai + [y]
    requires db == if y in init then di else di + [y]
    ensures d1 == da + Filter(db, NotIn(a))
  {
    FilterAppend(di, [y], NotIn(a));
    assert [y][1..] == [];
    if y in init {
      assert y in a + init;
    } else if y in a {
      assert y in a + init;
    } else {
      assert y !in a + init;
      AppendAssoc(da, Filter(di, NotIn(a)), [y]);
    }
  }

}
