/** Sequence operations behind the handlers: `Array.prototype.filter`, de-duplication through a
    `Set`, and the subsequence relation used to state what filtering preserves. */
module Collections {

  /** `xs.filter(p)`: the elements that pass `p`, in their original order. */
  function Select<T(==,!new)>(xs: seq<T>, p: T -> bool): (ys: seq<T>)
    ensures |ys| <= |xs|
  {
    if xs == [] then []
    else (if p(xs[0]) then [xs[0]] else []) + Select(xs[1..], p)
  }

  /** Filtering keeps exactly the elements that pass. */
  lemma {:induction false} SelectMembership<T(!new)>(xs: seq<T>, p: T -> bool)
    ensures forall y :: y in Select(xs, p) <==> y in xs && p(y)
  {
    if xs != [] {
      SelectMembership(xs[1..], p);
      assert xs == [xs[0]] + xs[1..];
    }
  }

  /** Filtering keeps every passing element as often as it occurs and drops every other. */
  lemma {:induction false} SelectMultiset<T(!new)>(xs: seq<T>, p: T -> bool)
    ensures forall y :: multiset(Select(xs, p))[y] == if p(y) then multiset(xs)[y] else 0
  {
    if xs != [] {
      SelectMultiset(xs[1..], p);
      assert xs == [xs[0]] + xs[1..];
      assert multiset(xs) == multiset{xs[0]} + multiset(xs[1..]);
    }
  }

  /** `xs` is obtained from `ys` by deleting elements. */
  predicate IsSubsequence<T(==,!new)>(xs: seq<T>, ys: seq<T>)
    decreases |ys|
  {
    if xs == [] then true
    else if ys == [] then false
    else (xs[0] == ys[0] && IsSubsequence(xs[1..], ys[1..])) || IsSubsequence(xs, ys[1..])
  }

  predicate NoDuplicates<T(==,!new)>(xs: seq<T>)
  {
    forall i, j :: 0 <= i < j < |xs| ==> xs[i] != xs[j]
  }

  /** A prefix one longer is the shorter prefix and the next element. */
  lemma TakeSnoc<T>(xs: seq<T>, i: nat)
    requires i < |xs|
    ensures xs[..i + 1] == xs[..i] + [xs[i]]
  {
  }

  /** Filtering keeps the order of what it keeps. */
  lemma {:induction false} SelectIsSubsequence<T(!new)>(xs: seq<T>, p: T -> bool)
    ensures IsSubsequence(Select(xs, p), xs)
  {
    if xs != [] {
      var ys := Select(xs, p);
      SelectIsSubsequence(xs[1..], p);
      if p(xs[0]) {
        assert ys[0] == xs[0] && ys[1..] == Select(xs[1..], p);
      } else {
        assert ys == Select(xs[1..], p);
      }
    }
  }

  /** Filtering a concatenation filters each part. */
  lemma {:induction false} SelectAppend<T(!new)>(a: seq<T>, b: seq<T>, p: T -> bool)
    ensures Select(a + b, p) == Select(a, p) + Select(b, p)
  {
    if a == [] {
      assert a + b == b;
    } else {
      var head := if p(a[0]) then [a[0]] else [];
      assert (a + b)[0] == a[0];
      assert (a + b)[1..] == a[1..] + b;
      assert Select(a + b, p) == head + Select(a[1..] + b, p);
      SelectAppend(a[1..], b, p);
      assert Select(a, p) == head + Select(a[1..], p);
    }
  }

  /** A filter every element passes keeps everything. */
  lemma {:induction false} SelectAll<T(!new)>(xs: seq<T>, p: T -> bool)
    requires forall x :: x in xs ==> p(x)
    ensures Select(xs, p) == xs
  {
    if xs != [] {
      SelectAll(xs[1..], p);
      assert xs == [xs[0]] + xs[1..];
    }
  }

  /** Filtering with two predicates that agree on every element gives the same result. */
  lemma {:induction false} SelectCongruent<T(!new)>(xs: seq<T>, p: T -> bool, q: T -> bool)
    requires forall x :: x in xs ==> p(x) == q(x)
    ensures Select(xs, p) == Select(xs, q)
  {
    if xs != [] {
      SelectCongruent(xs[1..], p, q);
    }
  }

  /** Two successive filters are one filter by their conjunction `pq`. */
  lemma {:induction false} SelectSelect<T(!new)>(xs: seq<T>, p: T -> bool, q: T -> bool, pq: T -> bool)
    requires forall x :: pq(x) == (p(x) && q(x))
    ensures Select(Select(xs, p), q) == Select(xs, pq)
  {
    if xs != [] {
      SelectSelect(xs[1..], p, q, pq);
      var sp := Select(xs, p);
      if p(xs[0]) {
        assert sp[0] == xs[0] && sp[1..] == Select(xs[1..], p);
        assert Select(sp, q) == (if q(xs[0]) then [xs[0]] else []) + Select(Select(xs[1..], p), q);
      } else {
        assert sp == Select(xs[1..], p);
      }
    }
  }

  /** A filter at least as strict as `q` can be applied after `q` without changing its result;
      in particular its result is a subsequence of what `q` keeps. */
  lemma Narrowing<T(!new)>(xs: seq<T>, p: T -> bool, q: T -> bool)
    requires forall x :: p(x) ==> q(x)
    ensures Select(xs, p) == Select(Select(xs, q), p)
    ensures IsSubsequence(Select(xs, p), Select(xs, q))
  {
    SelectSelect(xs, q, p, p);
    SelectIsSubsequence(Select(xs, q), p);
  }

  /** The distinct elements of `xs`, each kept where it first occurs: `[...new Set(xs)]`. */
  function Distinct<T(==,!new)>(xs: seq<T>): (d: seq<T>)
    ensures forall x :: x in d <==> x in xs
    ensures NoDuplicates(d)
  {
    if xs == [] then []
    else
      var seen := Distinct(xs[..|xs| - 1]);
      var x := xs[|xs| - 1];
      assert xs == xs[..|xs| - 1] + [x];
      if x in seen then seen else seen + [x]
  }

  /** One more element extends the distinct values exactly when it is new. */
  lemma DistinctSnoc<T(!new)>(xs: seq<T>, x: T)
    ensures Distinct(xs + [x]) == if x in Distinct(xs) then Distinct(xs) else Distinct(xs) + [x]
  {
    assert (xs + [x])[..|xs|] == xs;
  }

  /** The position of the first occurrence of `x` in `xs`. */
  function FirstIndex<T(==,!new)>(xs: seq<T>, x: T): (k: nat)
    requires x in xs
    ensures k < |xs| && xs[k] == x && x !in xs[..k]
  {
    if xs[0] == x then 0
    else
      assert x in xs[1..];
      var k := FirstIndex(xs[1..], x);
      assert xs[..k + 1] == [xs[0]] + xs[1..][..k];
      k + 1
  }

  /** Appending an element does not move the first occurrence of anything already present. */
  lemma FirstIndexAppend<T(!new)>(xs: seq<T>, y: T, x: T)
    requires x in xs
    ensures FirstIndex(xs + [y], x) == FirstIndex(xs, x)
  {
    var k := FirstIndex(xs, x);
    var m := FirstIndex(xs + [y], x);
    assert forall i :: 0 <= i < k ==> (xs + [y])[i] == xs[..k][i] != x;
    assert forall i :: 0 <= i < m ==> (xs + [y])[i] == (xs + [y])[..m][i] != x;
    assert (xs + [y])[k] == x;
  }

  /** The values of `Distinct(xs)` appear in the order in which they first occur in `xs`. */
  lemma {:induction false} DistinctInFirstOccurrenceOrder<T(!new)>(xs: seq<T>)
    ensures forall i, j :: 0 <= i < j < |Distinct(xs)| ==>
              FirstIndex(xs, Distinct(xs)[i]) < FirstIndex(xs, Distinct(xs)[j])
  {
    if xs != [] {
      var init, x := xs[..|xs| - 1], xs[|xs| - 1];
      assert xs == init + [x];
      var seen := Distinct(init);
      DistinctInFirstOccurrenceOrder(init);
      forall y | y in init
        ensures FirstIndex(xs, y) == FirstIndex(init, y)
      {
        FirstIndexAppend(init, x, y);
      }
      if x !in seen {
        assert x !in init;
        assert forall i :: 0 <= i < |init| ==> xs[i] == init[i] != x;
        assert FirstIndex(xs, x) == |init|;
      }
    }
  }
}
