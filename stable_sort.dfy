/**
 * Python's `list.sort(key=k, reverse=True)`: the list ends up in non-increasing
 * order of the key, and elements with equal keys keep their original relative
 * order (Python's sort is stable, also when reversed).
 */
module StableSort {

  /** Non-increasing in the key. */
  ghost predicate SortedDesc<T>(s: seq<T>, key: T -> real)
  {
    forall i, j :: 0 <= i < j < |s| ==> key(s[i]) >= key(s[j])
  }

  /** The elements of `s` whose key is `w`, in their order in `s`. */
  function WithKey<T>(s: seq<T>, key: T -> real, w: real): (r: seq<T>)
    ensures |r| <= |s|
  {
    if s == [] then []
    else WithKey(s[..|s| - 1], key, w) + (if key(s[|s| - 1]) == w then [s[|s| - 1]] else [])
  }

  /**
   * `r` is `s` sorted stably by descending key: it is sorted, and for every
   * key value the elements carrying it appear in `r` exactly as in `s`.
   * Together these determine `r` uniquely and make it a permutation of `s`.
   */
  ghost predicate IsStableSortDesc<T>(r: seq<T>, s: seq<T>, key: T -> real)
  {
    && SortedDesc(r, key)
    && multiset(r) == multiset(s)
    && forall w :: WithKey(r, key, w) == WithKey(s, key, w)
  }

  lemma {:induction false} WithKeyAppend<T>(a: seq<T>, b: seq<T>, key: T -> real, w: real)
    ensures WithKey(a + b, key, w) == WithKey(a, key, w) + WithKey(b, key, w)
    decreases |b|
  {
    if b == [] {
      assert a + b == a;
    } else {
      var b' := b[..|b| - 1];
      assert (a + b)[..|a + b| - 1] == a + b';
      WithKeyAppend(a, b', key, w);
    }
  }

  /** No element of `s` has key `w`. */
  lemma {:induction false} WithKeyNone<T>(s: seq<T>, key: T -> real, w: real)
    requires forall i :: 0 <= i < |s| ==> key(s[i]) != w
    ensures WithKey(s, key, w) == []
    decreases |s|
  {
    if s != [] {
      WithKeyNone(s[..|s| - 1], key, w);
    }
  }

  /**
   * Inserting `x` into a sorted `r` at the first position whose key is below
   * `key(x)` adds `x` at the end of its key class and leaves the others alone.
   */
  lemma InsertKeepsClasses<T>(r: seq<T>, j: nat, x: T, key: T -> real, w: real)
    requires j <= |r|
    requires forall m :: j <= m < |r| ==> key(r[m]) < key(x)
    ensures WithKey(r[..j] + [x] + r[j..], key, w)
         == WithKey(r, key, w) + (if key(x) == w then [x] else [])
  {
    var a, b := r[..j], r[j..];
    assert a + b == r;
    WithKeyAppend(a + [x], b, key, w);
    WithKeyAppend(a, [x], key, w);
    WithKeyAppend(a, b, key, w);
    assert WithKey([x], key, w) == (if key(x) == w then [x] else []) by {
      assert [x][..0] == [];
    }
    if key(x) == w {
      WithKeyNone(b, key, w);
    }
  }

  /**
   * One step of the insertion sort: `x` goes after every element whose key is
   * at least `key(x)`, so it lands at the end of its key class.
   */
  method InsertDesc<T>(r: seq<T>, x: T, key: T -> real) returns (r': seq<T>)
    requires SortedDesc(r, key)
    ensures SortedDesc(r', key)
    ensures multiset(r') == multiset(r) + multiset{x}
    ensures forall w :: WithKey(r', key, w) == WithKey(r, key, w) + (if key(x) == w then [x] else [])
  {
    var j := 0;
    while j < |r| && key(r[j]) >= key(x)
      invariant 0 <= j <= |r|
      invariant forall m :: 0 <= m < j ==> key(r[m]) >= key(x)
    {
      j := j + 1;
    }
    assert forall m :: j <= m < |r| ==> key(r[m]) < key(x) by {
      forall m | j <= m < |r| ensures key(r[m]) < key(x) {
        assert key(r[j]) < key(x);
        assert j == m || key(r[j]) >= key(r[m]);
      }
    }
    forall w ensures WithKey(r[..j] + [x] + r[j..], key, w) == WithKey(r, key, w) + (if key(x) == w then [x] else []) {
      InsertKeepsClasses(r, j, x, key, w);
    }
    assert r[..j] + r[j..] == r;
    r' := r[..j] + [x] + r[j..];
  }

  /** Stable insertion sort by descending key. */
  method SortDesc<T>(s: seq<T>, key: T -> real) returns (r: seq<T>)
    ensures IsStableSortDesc(r, s, key)
  {
    r := [];
    var i := 0;
    while i < |s|
      invariant 0 <= i <= |s|
      invariant SortedDesc(r, key)
      invariant multiset(r) == multiset(s[..i])
      invariant forall w :: WithKey(r, key, w) == WithKey(s[..i], key, w)
    {
      assert s[..i + 1] == s[..i] + [s[i]];
      assert s[..i + 1][..i] == s[..i];
      r := InsertDesc(r, s[i], key);
      i := i + 1;
    }
    assert s[..i] == s;
  }
}
