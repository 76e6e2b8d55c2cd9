/**
 * The ordering behaviour the source obtains from JavaScript's built-in
 * `Array.prototype.sort` with a comparator: a stable sort by a lexicographic
 * key. Modelled as a stable insertion sort, with its three promises proved:
 * the output is ordered, it is a permutation of the input, and elements with
 * equal keys keep their input order.
 */
module Sorting {

  /** A comparator `(a, b) => (p(a) - p(b)) || (q(a) - q(b))` orders by the pair (p, q). */
  datatype Key = Key(primary: int, secondary: int)

  predicate KeyLe(a: Key, b: Key)
  {
    a.primary < b.primary || (a.primary == b.primary && a.secondary <= b.secondary)
  }

  predicate SortedBy<T>(s: seq<T>, key: T -> Key)
  {
    forall i, j :: 0 <= i < j < |s| ==> KeyLe(key(s[i]), key(s[j]))
  }

  /** In a sorted sequence, everything from a position whose primary key exceeds `c` on also exceeds it. */
  lemma SortedPastBound<T>(s: seq<T>, key: T -> Key, k: nat, c: int)
    requires SortedBy(s, key) && k < |s| && key(s[k]).primary > c
    ensures forall j :: k <= j < |s| ==> key(s[j]).primary > c
  {
    forall j | k < j < |s| ensures key(s[j]).primary > c {
      assert KeyLe(key(s[k]), key(s[j]));
    }
  }

  /** Inserts `x` after every element whose key is not greater than its own. */
  function InsertBy<T>(x: T, s: seq<T>, key: T -> Key): (r: seq<T>)
    ensures |r| == |s| + 1
    ensures multiset(r) == multiset(s) + multiset{x}
  {
    if s == [] then [x]
    else if KeyLe(key(s[|s| - 1]), key(x)) then s + [x]
    else
      var r := InsertBy(x, s[..|s| - 1], key) + [s[|s| - 1]];
      assert s == s[..|s| - 1] + [s[|s| - 1]];
      r
  }

  lemma {:induction false} InsertSorted<T>(x: T, s: seq<T>, key: T -> Key)
    requires SortedBy(s, key)
    ensures SortedBy(InsertBy(x, s, key), key)
  {
    if s != [] && !KeyLe(key(s[|s| - 1]), key(x)) {
      var init := s[..|s| - 1];
      var last := s[|s| - 1];
      InsertSorted(x, init, key);
      var ins := InsertBy(x, init, key);
      forall i | 0 <= i < |ins| ensures KeyLe(key(ins[i]), key(last)) {
        var e := ins[i];
        assert e in multiset(ins);
        if e != x {
          assert e in multiset(init);
          var n :| 0 <= n < |init| && init[n] == e;
          assert s[n] == e;
        }
      }
      var r := ins + [last];
      forall i, j | 0 <= i < j < |r| ensures KeyLe(key(r[i]), key(r[j])) {
        if j < |ins| {
          assert r[i] == ins[i] && r[j] == ins[j];
        } else {
          assert r[i] == ins[i];
        }
      }
    }
  }

  /** Sorts by inserting the input's elements one after another, front to back. */
  function SortBy<T>(s: seq<T>, key: T -> Key): (r: seq<T>)
    ensures |r| == |s|
    ensures multiset(r) == multiset(s)
    ensures SortedBy(r, key)
  {
    if s == [] then []
    else
      var sorted := SortBy(s[..|s| - 1], key);
      InsertSorted(s[|s| - 1], sorted, key);
      assert s == s[..|s| - 1] + [s[|s| - 1]];
      InsertBy(s[|s| - 1], sorted, key)
  }

  /** The subsequence of the elements whose key is `k`. */
  function WithKey<T>(s: seq<T>, key: T -> Key, k: Key): seq<T>
  {
    if s == [] then []
    else WithKey(s[..|s| - 1], key, k) + (if key(s[|s| - 1]) == k then [s[|s| - 1]] else [])
  }

  lemma {:induction false} InsertStable<T>(x: T, s: seq<T>, key: T -> Key, k: Key)
    requires SortedBy(s, key)
    ensures WithKey(InsertBy(x, s, key), key, k)
              == WithKey(s, key, k) + (if key(x) == k then [x] else [])
  {
    if s == [] {
      assert WithKey([x], key, k) == WithKey([x][..0], key, k) + (if key(x) == k then [x] else []);
    } else if KeyLe(key(s[|s| - 1]), key(x)) {
      assert (s + [x])[..|s|] == s;
    } else {
      var init := s[..|s| - 1];
      var last := s[|s| - 1];
      InsertStable(x, init, key, k);
      var r := InsertBy(x, init, key) + [last];
      assert r[..|r| - 1] == InsertBy(x, init, key);
      assert !(key(x) == k && key(last) == k);
    }
  }

  /** Stability: for every key, the elements with that key appear in input order. */
  lemma {:induction false} SortStable<T>(s: seq<T>, key: T -> Key, k: Key)
    ensures WithKey(SortBy(s, key), key, k) == WithKey(s, key, k)
  {
    if s != [] {
      SortStable(s[..|s| - 1], key, k);
      InsertStable(s[|s| - 1], SortBy(s[..|s| - 1], key), key, k);
    }
  }

  /** An element no smaller than the last goes at the end. */
  lemma InsertAtEnd<T>(x: T, s: seq<T>, key: T -> Key)
    requires s == [] || KeyLe(key(s[|s| - 1]), key(x))
    ensures InsertBy(x, s, key) == s + [x]
  {
  }

  /** Sorting what is already in order changes nothing. */
  lemma {:induction false} SortSortedIsIdentity<T>(s: seq<T>, key: T -> Key)
    requires SortedBy(s, key)
    ensures SortBy(s, key) == s
  {
    if s != [] {
      var init := s[..|s| - 1];
      var last := s[|s| - 1];
      assert init + [last] == s;
      assert SortedBy(init, key) by {
        forall i, j | 0 <= i < j < |init| ensures KeyLe(key(init[i]), key(init[j])) {
          assert init[i] == s[i] && init[j] == s[j];
        }
      }
      SortSortedIsIdentity(init, key);
      assert init == [] || KeyLe(key(init[|init| - 1]), key(last)) by {
        if init != [] {
          assert init[|init| - 1] == s[|s| - 2];
        }
      }
      InsertAtEnd(last, init, key);
    }
  }

  /** The key of a plain number sorted by `(a, b) => a - b`. */
  function IntKey(x: int): Key { Key(x, 0) }

  /** Two elements out of order come back swapped. */
  lemma SortPairOutOfOrder<T>(x: T, y: T, key: T -> Key)
    requires !KeyLe(key(x), key(y))
    ensures SortBy([x, y], key) == [y, x]
  {
    assert [x, y][..1] == [x];
    assert [x][..0] == [];
    assert InsertBy(y, [x], key) == InsertBy(y, [], key) + [x];
  }

  /** Order between neighbours is order throughout. */
  lemma {:induction false} AdjacentSorted<T>(s: seq<T>, key: T -> Key)
    requires forall i :: 0 <= i < |s| - 1 ==> KeyLe(key(s[i]), key(s[i + 1]))
    ensures SortedBy(s, key)
    decreases |s|
  {
    if |s| > 1 {
      var init := s[..|s| - 1];
      assert forall i :: 0 <= i < |init| ==> init[i] == s[i];
      AdjacentSorted(init, key);
      forall i, j | 0 <= i < j < |s| ensures KeyLe(key(s[i]), key(s[j])) {
        if j < |s| - 1 {
          assert s[i] == init[i] && s[j] == init[j];
        } else if i < |s| - 2 {
          assert s[i] == init[i] && s[|s| - 2] == init[|s| - 2];
        }
      }
    }
  }
}
