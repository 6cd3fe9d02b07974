/**
 * Ordered and filtered views of a sequence of records: the two things a
 * queryset does to a table. Ordering is by a two-part key compared
 * lexicographically, as an `ORDER BY a, b` clause does.
 */
module Lists {
  import opened Text

  /** A primary and a secondary sort column. */
  type SortKey = (string, string)

  predicate KeyLe(x: SortKey, y: SortKey)
  {
    StrLe(x.0, y.0) && (x.0 == y.0 ==> StrLe(x.1, y.1))
  }

  lemma KeyLeTotal(x: SortKey, y: SortKey)
    ensures KeyLe(x, y) || KeyLe(y, x)
  {
    StrLeTotal(x.0, y.0);
    StrLeTotal(x.1, y.1);
  }

  lemma KeyLeTrans(x: SortKey, y: SortKey, z: SortKey)
    requires KeyLe(x, y) && KeyLe(y, z)
    ensures KeyLe(x, z)
  {
    StrLeTrans(x.0, y.0, z.0);
    if x.0 == z.0 {
      StrLeAntisym(x.0, y.0);
      StrLeTrans(x.1, y.1, z.1);
    }
  }

  /** Every element's key is at most the key of every later element. */
  ghost predicate Sorted<T>(s: seq<T>, key: T -> SortKey)
  {
    forall i, j :: 0 <= i < j < |s| ==> KeyLe(key(s[i]), key(s[j]))
  }

  /** Every element after the head of a sorted sequence sorts no lower than the head. */
  lemma SortedHeadLe<T>(s: seq<T>, key: T -> SortKey, y: T)
    requires Sorted(s, key) && s != [] && y in s[1..]
    ensures KeyLe(key(s[0]), key(y))
  {
    var k :| 0 <= k < |s[1..]| && s[1..][k] == y;
    assert s[k + 1] == y;
  }

  /** A sorted sequence stays sorted under a head that sorts no higher than any element. */
  lemma SortedCons<T>(x: T, s: seq<T>, key: T -> SortKey)
    requires Sorted(s, key)
    requires forall y :: y in s ==> KeyLe(key(x), key(y))
    ensures Sorted([x] + s, key)
  {
    var r := [x] + s;
    forall i, j | 0 <= i < j < |r| ensures KeyLe(key(r[i]), key(r[j])) {
      assert r[j] == s[j - 1];
      if i > 0 {
        assert r[i] == s[i - 1];
      }
    }
  }

  /**
   * Inserts `x` into a sorted sequence before the first element whose key
   * is not below x's, so `x` goes in front of the elements whose key equals
   * its own.
   */
  function Insert<T>(x: T, s: seq<T>, key: T -> SortKey): (r: seq<T>)
    ensures multiset(r) == multiset(s) + multiset{x}
    ensures Sorted(s, key) ==> Sorted(r, key)
  {
    if s == [] then [x]
    else if KeyLe(key(x), key(s[0])) then
      var r := [x] + s;
      assert Sorted(s, key) ==> Sorted(r, key) by {
        if Sorted(s, key) {
          forall y | y in s ensures KeyLe(key(x), key(y)) {
            if y != s[0] {
              assert s == [s[0]] + s[1..];
              SortedHeadLe(s, key, y);
              KeyLeTrans(key(x), key(s[0]), key(y));
            }
          }
          SortedCons(x, s, key);
        }
      }
      r
    else
      var tail := Insert(x, s[1..], key);
      var r := [s[0]] + tail;
      assert s == [s[0]] + s[1..];
      assert Sorted(s, key) ==> Sorted(r, key) by {
        if Sorted(s, key) {
          assert Sorted(s[1..], key);
          KeyLeTotal(key(x), key(s[0]));
          forall y | y in tail ensures KeyLe(key(s[0]), key(y)) {
            assert y in multiset(tail);
            if y != x {
              assert y in multiset(s[1..]);
              SortedHeadLe(s, key, y);
            }
          }
          SortedCons(s[0], tail, key);
        }
      }
      r
  }

  /** Insertion sort by `key`: a sorted permutation of `s`. */
  function SortBy<T>(s: seq<T>, key: T -> SortKey): (r: seq<T>)
    ensures multiset(r) == multiset(s)
    ensures Sorted(r, key)
  {
    if s == [] then []
    else
      assert s == [s[0]] + s[1..];
      Insert(s[0], SortBy(s[1..], key), key)
  }

  /** The elements of `s` that satisfy `p`, in their order in `s`. */
  function Filter<T(!new)>(s: seq<T>, p: T -> bool): (r: seq<T>)
    ensures forall x :: multiset(r)[x] == if p(x) then multiset(s)[x] else 0
    ensures forall x :: x in r <==> x in s && p(x)
    ensures |r| <= |s|
  {
    if s == [] then []
    else
      assert s == [s[0]] + s[1..];
      if p(s[0]) then [s[0]] + Filter(s[1..], p) else Filter(s[1..], p)
  }

  /** Filtering a sorted sequence leaves it sorted. */
  lemma {:induction false} FilterSorted<T(!new)>(s: seq<T>, p: T -> bool, key: T -> SortKey)
    requires Sorted(s, key)
    ensures Sorted(Filter(s, p), key)
  {
    if s != [] {
      assert s == [s[0]] + s[1..];
      assert Sorted(s[1..], key);
      FilterSorted(s[1..], p, key);
      if p(s[0]) {
        var tail := Filter(s[1..], p);
        forall y | y in tail ensures KeyLe(key(s[0]), key(y)) {
          SortedHeadLe(s, key, y);
        }
        SortedCons(s[0], tail, key);
      }
    }
  }

  /** Filtering two permutations of each other gives permutations of each other. */
  lemma FilterPermutation<T(!new)>(s: seq<T>, s': seq<T>, p: T -> bool)
    requires multiset(s) == multiset(s')
    ensures multiset(Filter(s, p)) == multiset(Filter(s', p))
    ensures |Filter(s, p)| == |Filter(s', p)|
  {
    assert multiset(Filter(s, p)) == multiset(Filter(s', p));
    assert |Filter(s, p)| == |multiset(Filter(s, p))| && |Filter(s', p)| == |multiset(Filter(s', p))|;
  }

  /** Two tests that agree on every element select the same elements. */
  lemma {:induction false} FilterExt<T(!new)>(s: seq<T>, p: T -> bool, q: T -> bool)
    requires forall x :: x in s ==> p(x) == q(x)
    ensures Filter(s, p) == Filter(s, q)
  {
    if s != [] {
      assert s == [s[0]] + s[1..];
      FilterExt(s[1..], p, q);
    }
  }
}
