/** Python's stable `list.sort(key=...)` for the two-component keys the layout code sorts by,
    such as `(-y0, x0)`: insertion sort placing each element after every element whose key is
    not larger, which keeps equal keys in their original order. */
module Sorting {

  datatype Key = Key(major: real, minor: real)

  /** Tuple comparison `k1 <= k2`. */
  predicate KeyLe(k1: Key, k2: Key) {
    k1.major < k2.major || (k1.major == k2.major && k1.minor <= k2.minor)
  }

  predicate SortedBy<T>(s: seq<T>, key: T -> Key) {
    forall i, j :: 0 <= i < j < |s| ==> KeyLe(key(s[i]), key(s[j]))
  }

  /** Inserts `x` after the last element whose key is at most `x`'s. */
  function InsertBy<T>(x: T, s: seq<T>, key: T -> Key): (r: seq<T>)
    requires SortedBy(s, key)
    ensures SortedBy(r, key)
    ensures multiset(r) == multiset(s) + multiset{x}
    ensures |r| == |s| + 1
    decreases |s|
  {
    if |s| == 0 then [x]
    else if KeyLe(key(s[|s| - 1]), key(x)) then s + [x]
    else
      var init := s[..|s| - 1];
      assert s == init + [s[|s| - 1]];
      assert SortedBy(init, key);
      var r := InsertBy(x, init, key);
      InsertBelow(x, s, r, key);
      r + [s[|s| - 1]]
  }

  /** When `x` goes before the last element, everything inserted before it stays at or below
      that element's key. */
  lemma InsertBelow<T>(x: T, s: seq<T>, r: seq<T>, key: T -> Key)
    requires |s| > 0 && SortedBy(s, key) && !KeyLe(key(s[|s| - 1]), key(x))
    requires multiset(r) == multiset(s[..|s| - 1]) + multiset{x}
    ensures forall i :: 0 <= i < |r| ==> KeyLe(key(r[i]), key(s[|s| - 1]))
  {
    forall i | 0 <= i < |r|
      ensures KeyLe(key(r[i]), key(s[|s| - 1]))
    {
      var y := r[i];
      assert y in multiset(r);
      if y != x {
        assert y in multiset(s[..|s| - 1]);
        var k :| 0 <= k < |s| - 1 && s[..|s| - 1][k] == y;
        assert s[k] == y;
      }
    }
  }

  /** `sorted(s, key=key)`: sorted by the key and a permutation of `s`. */
  function SortBy<T>(s: seq<T>, key: T -> Key): (r: seq<T>)
    ensures SortedBy(r, key)
    ensures multiset(r) == multiset(s)
    ensures |r| == |s|
    decreases |s|
  {
    if |s| == 0 then []
    else
      assert s == s[..|s| - 1] + [s[|s| - 1]];
      InsertBy(s[|s| - 1], SortBy(s[..|s| - 1], key), key)
  }

  /** Sorting one element gives it back. */
  lemma SortBySingle<T>(x: T, key: T -> Key)
    ensures SortBy([x], key) == [x]
  {
    assert [x][..0] == [];
  }

  /** Sorting a sorted sequence changes nothing. */
  lemma {:induction false} SortBySortedIdentity<T>(s: seq<T>, key: T -> Key)
    requires SortedBy(s, key)
    ensures SortBy(s, key) == s
    decreases |s|
  {
    if |s| > 0 {
      var init := s[..|s| - 1];
      var x := s[|s| - 1];
      assert SortedBy(init, key) by {
        forall i, j | 0 <= i < j < |init|
          ensures KeyLe(key(init[i]), key(init[j]))
        {
          assert init[i] == s[i] && init[j] == s[j];
        }
      }
      SortBySortedIdentity(init, key);
      InsertLast(x, init, key, s);
    }
  }

  /** `x` placed after a sorted `init` whose last key is at most `x`'s goes at the end. */
  lemma InsertLast<T>(x: T, init: seq<T>, key: T -> Key, s: seq<T>)
    requires s == init + [x] && SortedBy(s, key) && SortedBy(init, key)
    requires SortBy(init, key) == init
    ensures SortBy(s, key) == s
  {
    assert s[..|s| - 1] == init;
    assert SortBy(s, key) == InsertBy(x, init, key);
    if |init| > 0 {
      assert KeyLe(key(s[|s| - 2]), key(s[|s| - 1]));
      assert init[|init| - 1] == s[|s| - 2];
    }
  }

  /** A sum over the elements, the same for any permutation. */
  function SumBy<T>(s: seq<T>, f: T -> nat): nat
    decreases |s|
  {
    if |s| == 0 then 0 else SumBy(s[..|s| - 1], f) + f(s[|s| - 1])
  }

  lemma {:induction false} SumByAppend<T>(a: seq<T>, b: seq<T>, f: T -> nat)
    ensures SumBy(a + b, f) == SumBy(a, f) + SumBy(b, f)
    decreases |b|
  {
    if |b| == 0 {
      assert a + b == a;
    } else {
      assert (a + b)[..|a + b| - 1] == a + b[..|b| - 1];
      SumByAppend(a, b[..|b| - 1], f);
    }
  }

  lemma {:induction false} SumByRemove<T>(s: seq<T>, k: nat, f: T -> nat)
    requires k < |s|
    ensures SumBy(s, f) == SumBy(s[..k] + s[k + 1..], f) + f(s[k])
  {
    assert s == s[..k] + [s[k]] + s[k + 1..];
    SumByAppend(s[..k] + [s[k]], s[k + 1..], f);
    SumByAppend(s[..k], [s[k]], f);
    SumByAppend(s[..k], s[k + 1..], f);
    assert SumBy([s[k]], f) == f(s[k]) by {
      assert [s[k]][..0] == [];
    }
  }

  lemma {:induction false} SumByPermutation<T>(a: seq<T>, b: seq<T>, f: T -> nat)
    requires multiset(a) == multiset(b)
    ensures SumBy(a, f) == SumBy(b, f)
    decreases |a|
  {
    if |a| == 0 {
      assert |b| == |multiset(b)| == 0;
    } else {
      var x := a[|a| - 1];
      var init := a[..|a| - 1];
      assert a == init + [x];
      assert x in multiset(b);
      var k :| 0 <= k < |b| && b[k] == x;
      var rest := b[..k] + b[k + 1..];
      assert b == b[..k] + [x] + b[k + 1..];
      assert multiset(rest) == multiset(b) - multiset{x};
      assert multiset(init) == multiset(a) - multiset{x};
      SumByPermutation(init, rest, f);
      SumByRemove(b, k, f);
    }
  }

  lemma SumBySort<T>(s: seq<T>, key: T -> Key, f: T -> nat)
    ensures SumBy(SortBy(s, key), f) == SumBy(s, f)
  {
    SumByPermutation(SortBy(s, key), s, f);
  }
}
