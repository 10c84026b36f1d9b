/**
 * Small vocabulary shared by the attribution graph and the per-domain analyzers:
 * an optional value (a dictionary key that may be missing), the risk labels the
 * analyzers attach to their results, and the counting helpers behind their
 * generator expressions.
 */
module Common {

  /** A value that may be absent, as a missing dictionary key is. */
  datatype Option<+T> = None | Some(value: T)

  /** The risk labels, from the weakest to the strongest. */
  datatype Risk = Minimal | Low | Medium | High | Critical
  {
    /** The position of the label in the ordering MINIMAL < LOW < MEDIUM < HIGH < CRITICAL. */
    function Rank(): nat
    {
      match this
      case Minimal => 0
      case Low => 1
      case Medium => 2
      case High => 3
      case Critical => 4
    }
  }

  /** Python's `min` on two floats. */
  function Min(a: real, b: real): (r: real)
    ensures r <= a && r <= b
    ensures r == a || r == b
  {
    if a <= b then a else b
  }

  /** A count over a positive total it does not exceed is a share in [0, 1]. */
  lemma RatioInUnit(n: nat, m: nat)
    requires 0 < m && n <= m
    ensures 0.0 <= (n as real) / (m as real) <= 1.0
  {
    assert (n as real) / (m as real) * (m as real) == n as real;
  }

  /** Scaling a non-negative number by a factor in [0, 1] keeps it between 0 and itself. */
  lemma ScaleBounds(f: real, x: real)
    requires 0.0 <= f <= 1.0 && 0.0 <= x
    ensures 0.0 <= f * x <= x
  {
    assert x - f * x == (1.0 - f) * x;
  }

  /** `abs` of a difference of two integer time stamps. */
  function AbsDiff(a: int, b: int): (r: nat)
    ensures r == a - b || r == b - a
  {
    if a >= b then a - b else b - a
  }

  /** The number of elements of `s` that lie in `xs`: `sum(1 for x in s if x in xs)`. */
  function CountIn<T>(s: seq<T>, xs: set<T>): (n: nat)
    ensures n <= |s|
    ensures n == 0 <==> (forall i :: 0 <= i < |s| ==> s[i] !in xs)
  {
    if s == [] then 0
    else CountIn(s[..|s| - 1], xs) + (if s[|s| - 1] in xs then 1 else 0)
  }

  /** The number of elements of `s` that do not lie in `xs`: `len([x for x in s if x not in xs])`. */
  function CountNotIn<T>(s: seq<T>, xs: set<T>): (n: nat)
    ensures n <= |s|
    ensures n + CountIn(s, xs) == |s|
  {
    if s == [] then 0
    else CountNotIn(s[..|s| - 1], xs) + (if s[|s| - 1] in xs then 0 else 1)
  }

  /** No element occurs twice. */
  ghost predicate Distinct<T>(s: seq<T>)
  {
    forall i, j :: 0 <= i < j < |s| ==> s[i] != s[j]
  }

  /** A duplicate-free sequence holds every value at most once. */
  lemma {:induction false} DistinctAtMostOnce<T>(s: seq<T>, x: T)
    requires Distinct(s)
    ensures multiset(s)[x] <= 1
    decreases |s|
  {
    if s != [] {
      var t, y := s[..|s| - 1], s[|s| - 1];
      assert s == t + [y];
      assert Distinct(t) by {
        forall i, j | 0 <= i < j < |t| ensures t[i] != t[j] {
          assert t[i] == s[i] && t[j] == s[j];
        }
      }
      DistinctAtMostOnce(t, x);
      if y == x {
        assert x !in t by {
          forall i | 0 <= i < |t| ensures t[i] != x {
            assert t[i] == s[i];
          }
        }
      }
    }
  }

  /** A permutation of a duplicate-free sequence is duplicate-free. */
  lemma DistinctPermutation<T>(a: seq<T>, b: seq<T>)
    requires multiset(a) == multiset(b) && Distinct(b)
    ensures Distinct(a)
  {
    forall i, j | 0 <= i < j < |a| ensures a[i] != a[j] {
      var x := a[i];
      DistinctAtMostOnce(b, x);
      assert a == a[..i] + [x] + a[i + 1..j] + [a[j]] + a[j + 1..];
    }
  }
}
