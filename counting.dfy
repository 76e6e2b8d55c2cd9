/**
 * Counting the elements of a sequence that satisfy a predicate: the
 * `xs.filter(p).length` of the dashboard's tallies and chart buckets.
 */
module Counting {

  /** The number of elements of `s` that satisfy `p`. */
  function Count<T>(s: seq<T>, p: T -> bool): (n: nat)
    ensures n <= |s|
  {
    if s == [] then 0 else Count(s[..|s| - 1], p) + (if p(s[|s| - 1]) then 1 else 0)
  }

  lemma {:induction false} CountConcat<T>(s: seq<T>, t: seq<T>, p: T -> bool)
    ensures Count(s + t, p) == Count(s, p) + Count(t, p)
    decreases |t|
  {
    if t == [] {
      assert s + t == s;
    } else {
      assert (s + t)[..|s + t| - 1] == s + t[..|t| - 1];
      CountConcat(s, t[..|t| - 1], p);
    }
  }

  /** Counting does not depend on the order of the elements. */
  lemma {:induction false} CountPermutation<T>(s: seq<T>, t: seq<T>, p: T -> bool)
    requires multiset(s) == multiset(t)
    ensures Count(s, p) == Count(t, p)
    decreases |s|
  {
    if s != [] {
      var x := s[|s| - 1];
      assert x in multiset(t);
      var j :| 0 <= j < |t| && t[j] == x;
      var rest := t[..j] + t[j + 1..];
      assert t == t[..j] + [x] + t[j + 1..];
      assert s == s[..|s| - 1] + [x];
      assert multiset(rest) == multiset(t) - multiset{x};
      CountPermutation(s[..|s| - 1], rest, p);
      CountConcat(t[..j] + [x], t[j + 1..], p);
      CountConcat(t[..j], [x], p);
      CountConcat(t[..j], t[j + 1..], p);
      assert [x][..0] == [];
    }
  }

  /** A weaker predicate counts at least as many elements. */
  lemma {:induction false} CountMonotone<T>(s: seq<T>, p: T -> bool, q: T -> bool)
    requires forall x :: p(x) ==> q(x)
    ensures Count(s, p) <= Count(s, q)
    decreases |s|
  {
    if s != [] {
      CountMonotone(s[..|s| - 1], p, q);
    }
  }

  /** Counting a predicate split into two disjoint cases adds up the two counts. */
  lemma {:induction false} CountUnion<T>(s: seq<T>, p: T -> bool, q: T -> bool, r: T -> bool)
    requires forall x :: r(x) == (p(x) || q(x)) && !(p(x) && q(x))
    ensures Count(s, p) + Count(s, q) == Count(s, r)
    decreases |s|
  {
    if s != [] {
      CountUnion(s[..|s| - 1], p, q, r);
    }
  }

  /** Extending a prefix by one element adds that element's verdict to the count. */
  lemma CountStep<T>(s: seq<T>, k: nat, p: T -> bool)
    requires k < |s|
    ensures Count(s[..k + 1], p) == Count(s[..k], p) + (if p(s[k]) then 1 else 0)
  {
    assert s[..k + 1][..k] == s[..k];
  }

  /** Everything is counted exactly when every element satisfies the predicate. */
  lemma {:induction false} CountAll<T>(s: seq<T>, p: T -> bool)
    ensures Count(s, p) == |s| <==> forall i :: 0 <= i < |s| ==> p(s[i])
    decreases |s|
  {
    if s != [] {
      var init := s[..|s| - 1];
      CountAll(init, p);
      assert forall i :: 0 <= i < |init| ==> init[i] == s[i];
    }
  }

  /** The same, phrased over membership. */
  lemma CountAllMembers<T>(s: seq<T>, p: T -> bool)
    ensures Count(s, p) == |s| <==> forall x :: x in s ==> p(x)
  {
    CountAll(s, p);
  }

  /**
   * A cursor split: when `p` agrees with `q` before `k` and fails from `k` on,
   * the count of `p` over `s` is the count of `q` over the first `k` elements.
   */
  lemma {:induction false} CountSplit<T>(s: seq<T>, k: nat, p: T -> bool, q: T -> bool)
    requires k <= |s|
    requires forall j :: 0 <= j < k ==> p(s[j]) == q(s[j])
    requires forall j :: k <= j < |s| ==> !p(s[j])
    ensures Count(s, p) == Count(s[..k], q)
    decreases |s|
  {
    if |s| > k {
      var init := s[..|s| - 1];
      assert forall j :: 0 <= j < |init| ==> init[j] == s[j];
      CountSplit(init, k, p, q);
      assert init[..k] == s[..k];
    } else if s != [] {
      var init := s[..|s| - 1];
      assert forall j :: 0 <= j < |init| ==> init[j] == s[j];
      CountSplit(init, k - 1, p, q);
      assert s[..k] == s;
      assert init[..k - 1] == init;
    }
  }

  /**
   * `s.filter(p)`: the elements of `s` that satisfy `p`, each as often as it
   * occurs in `s` and in the order of `s` (`FilterConcat`, `FilterFirst`).
   */
  function Filter<T(!new)>(s: seq<T>, p: T -> bool): (r: seq<T>)
    ensures |r| == Count(s, p)
  {
    if s == [] then []
    else
      var last := s[|s| - 1];
      Filter(s[..|s| - 1], p) + (if p(last) then [last] else [])
  }

  /** The filter keeps every element that satisfies `p` as often as it occurs, and no other. */
  lemma FilterMultiset<T(!new)>(s: seq<T>, p: T -> bool)
    ensures forall x :: multiset(Filter(s, p))[x] == if p(x) then multiset(s)[x] else 0
    ensures forall x :: x in Filter(s, p) <==> x in s && p(x)
  {
    FilterCounts(s, p);
    forall x ensures x in Filter(s, p) <==> x in s && p(x) {
      assert x in Filter(s, p) <==> x in multiset(Filter(s, p));
      assert x in s <==> x in multiset(s);
    }
  }

  lemma {:induction false} FilterCounts<T(!new)>(s: seq<T>, p: T -> bool)
    ensures forall x :: multiset(Filter(s, p))[x] == if p(x) then multiset(s)[x] else 0
    decreases |s|
  {
    if s != [] {
      FilterCounts(s[..|s| - 1], p);
      assert s == s[..|s| - 1] + [s[|s| - 1]];
    }
  }

  /** Filtering a concatenation filters each part and keeps them in order. */
  lemma {:induction false} FilterConcat<T(!new)>(s: seq<T>, t: seq<T>, p: T -> bool)
    ensures Filter(s + t, p) == Filter(s, p) + Filter(t, p)
    decreases |t|
  {
    if t == [] {
      assert s + t == s;
    } else {
      var last := t[|t| - 1];
      assert (s + t)[..|s + t| - 1] == s + t[..|t| - 1];
      assert (s + t)[|s + t| - 1] == last;
      FilterConcat(s, t[..|t| - 1], p);
    }
  }

  /**
   * The filter starts with the first element that satisfies `p`, followed by
   * the filter of what comes after it.
   */
  lemma FilterFirst<T(!new)>(s: seq<T>, k: nat, p: T -> bool)
    requires k < |s| && p(s[k])
    requires forall j :: 0 <= j < k ==> !p(s[j])
    ensures Filter(s, p) == [s[k]] + Filter(s[k + 1..], p)
  {
    SplitAt(s, k);
    FilterConcat(s[..k], [s[k]] + s[k + 1..], p);
    FilterNone(s, k, p);
    FilterCons(s[k], s[k + 1..], p);
  }

  lemma SplitAt<T>(s: seq<T>, k: nat)
    requires k < |s|
    ensures s == s[..k] + ([s[k]] + s[k + 1..])
  {
  }

  /** Filtering `[x] + s` decides `x` first and then filters `s`. */
  lemma FilterCons<T(!new)>(x: T, s: seq<T>, p: T -> bool)
    ensures Filter([x] + s, p) == (if p(x) then [x] else []) + Filter(s, p)
  {
    var head := if p(x) then [x] else [];
    FilterConcat([x], s, p);
    assert [x][..0] == [] && [x][0] == x;
    assert Filter([x], p) == Filter([], p) + head;
    assert Filter([x], p) == head;
  }

  /** Nothing before position `k` satisfies `p`, so nothing of it passes the filter. */
  lemma FilterNone<T(!new)>(s: seq<T>, k: nat, p: T -> bool)
    requires k <= |s|
    requires forall j :: 0 <= j < k ==> !p(s[j])
    ensures Filter(s[..k], p) == []
  {
    var pre := s[..k];
    assert forall j :: 0 <= j < |pre| ==> pre[j] == s[j];
    FilterEmpty(pre, p);
  }

  /** Nothing passes the filter exactly when no element satisfies `p`. */
  lemma FilterEmpty<T(!new)>(s: seq<T>, p: T -> bool)
    ensures Filter(s, p) == [] <==> forall j :: 0 <= j < |s| ==> !p(s[j])
  {
    FilterMultiset(s, p);
    if Filter(s, p) != [] {
      var x := Filter(s, p)[0];
      assert x in s && p(x);
    }
  }
}
