/**
 * Ordering of extended reals, a stable sort by key, the filters "key below v"
 * and "key equal to v", and sampling without replacement.  These are the list
 * operations the heuristics use: `sorted(..., key=...)` and `list.sort` (stable),
 * list comprehensions with a comparison, and `random.sample`.
 */
module Ordering {

  /** A floating-point cost that may be `float('inf')`.  NaN never arises and is not modelled. */
  datatype ExtReal = Fin(v: real) | PosInf

  predicate Le(a: ExtReal, b: ExtReal) {
    match a
    case PosInf => b.PosInf?
    case Fin(x) => b.PosInf? || x <= b.v
  }

  predicate Lt(a: ExtReal, b: ExtReal) {
    !Le(b, a)
  }

  /** `s` is in ascending order of `key`. */
  ghost predicate Sorted<T>(s: seq<T>, key: T -> ExtReal) {
    forall a, b :: 0 <= a < b < |s| ==> Le(key(s[a]), key(s[b]))
  }

  /** Putting in front an element whose key is at most every other key keeps a sequence sorted. */
  lemma SortedCons<T>(x: T, s: seq<T>, key: T -> ExtReal)
    requires Sorted(s, key)
    requires forall y :: y in s ==> Le(key(x), key(y))
    ensures Sorted([x] + s, key)
  {
    var r := [x] + s;
    forall a, b | 0 <= a < b < |r|
      ensures Le(key(r[a]), key(r[b]))
    {
      assert r[b] == s[b - 1];
      if a > 0 {
        assert r[a] == s[a - 1];
      }
    }
  }

  /** Inserts `x` in front of the first element whose key is not smaller, so equal keys keep their order. */
  function Insert<T>(x: T, s: seq<T>, key: T -> ExtReal): (r: seq<T>)
    requires Sorted(s, key)
    ensures multiset(r) == multiset(s) + multiset{x}
    ensures Sorted(r, key)
  {
    if s == [] || Le(key(x), key(s[0])) then
      assert forall y :: y in s ==> Le(key(x), key(y)) by {
        forall y | y in s
          ensures Le(key(x), key(y))
        {
          var i :| 0 <= i < |s| && s[i] == y;
          assert Le(key(s[0]), key(s[i]));
        }
      }
      SortedCons(x, s, key);
      [x] + s
    else
      var tail := Insert(x, s[1..], key);
      assert s == [s[0]] + s[1..];
      assert forall y :: y in tail ==> Le(key(s[0]), key(y)) by {
        forall y | y in tail
          ensures Le(key(s[0]), key(y))
        {
          assert y in multiset(tail);
          if y != x {
            var i :| 0 <= i < |s[1..]| && s[1..][i] == y;
            assert s[1..][i] == s[i + 1];
          }
        }
      }
      SortedCons(s[0], tail, key);
      [s[0]] + tail
  }

  /** Stable sort ascending by `key`, as Python's `sorted(s, key=key)`. */
  function SortBy<T>(s: seq<T>, key: T -> ExtReal): (r: seq<T>)
    ensures |r| == |s|
    ensures multiset(r) == multiset(s)
    ensures Sorted(r, key)
  {
    if s == [] then []
    else
      assert s == [s[0]] + s[1..];
      var r := Insert(s[0], SortBy(s[1..], key), key);
      assert |multiset(r)| == |s|;
      r
  }

  /** The elements whose key is strictly below `v`, in order. */
  function Below<T(!new)>(s: seq<T>, key: T -> ExtReal, v: ExtReal): (r: seq<T>)
    ensures forall x :: multiset(r)[x] == if Lt(key(x), v) then multiset(s)[x] else 0
  {
    if s == [] then []
    else
      assert s == [s[0]] + s[1..];
      (if Lt(key(s[0]), v) then [s[0]] else []) + Below(s[1..], key, v)
  }

  /** The elements whose key equals `v`, in order. */
  function Level<T(!new)>(s: seq<T>, key: T -> ExtReal, v: ExtReal): (r: seq<T>)
    ensures forall x :: multiset(r)[x] == if key(x) == v then multiset(s)[x] else 0
  {
    if s == [] then []
    else
      assert s == [s[0]] + s[1..];
      (if key(s[0]) == v then [s[0]] else []) + Level(s[1..], key, v)
  }

  /** No element is both strictly below `v` and equal to it, so the two filters together stay within `s`. */
  lemma BelowLevelWithin<T(!new)>(s: seq<T>, key: T -> ExtReal, v: ExtReal)
    ensures multiset(Below(s, key, v)) + multiset(Level(s, key, v)) <= multiset(s)
  {
    var b, l := multiset(Below(s, key, v)), multiset(Level(s, key, v));
    forall x
      ensures (b + l)[x] <= multiset(s)[x]
    {
      assert !Lt(v, v);
    }
  }

  /** If every element from position `p` on has a key of at least `v`, at most `p` elements lie below `v`. */
  lemma {:induction false} BelowBound<T(!new)>(s: seq<T>, key: T -> ExtReal, v: ExtReal, p: nat)
    requires p <= |s|
    requires forall i :: p <= i < |s| ==> Le(v, key(s[i]))
    ensures |Below(s, key, v)| <= p
  {
    if s != [] {
      assert s == [s[0]] + s[1..];
      if p == 0 {
        assert Le(v, key(s[0]));
        BelowBound(s[1..], key, v, 0);
      } else {
        BelowBound(s[1..], key, v, p - 1);
      }
    }
  }

  /** If the first `q` elements have keys of at most `v`, at least `q` elements lie below or at `v`. */
  lemma {:induction false} AtMostBound<T(!new)>(s: seq<T>, key: T -> ExtReal, v: ExtReal, q: nat)
    requires q <= |s|
    requires forall i :: 0 <= i < q ==> Le(key(s[i]), v)
    ensures |Below(s, key, v)| + |Level(s, key, v)| >= q
  {
    if q > 0 {
      assert s == [s[0]] + s[1..];
      assert Le(key(s[0]), v);
      AtMostBound(s[1..], key, v, q - 1);
    }
  }

  /** In a sorted sequence fewer than `p` + 1 elements are strictly below the key at position `p`,
      and at least `p` + 1 are below or equal to it. */
  lemma SortedRank<T(!new)>(s: seq<T>, key: T -> ExtReal, p: nat)
    requires Sorted(s, key) && p < |s|
    ensures |Below(s, key, key(s[p]))| <= p
    ensures |Below(s, key, key(s[p]))| + |Level(s, key, key(s[p]))| >= p + 1
  {
    BelowBound(s, key, key(s[p]), p);
    AtMostBound(s, key, key(s[p]), p + 1);
  }

  /** The number of elements below a threshold does not depend on the order. */
  lemma BelowPermutation<T(!new)>(a: seq<T>, b: seq<T>, key: T -> ExtReal, v: ExtReal)
    requires multiset(a) == multiset(b)
    ensures multiset(Below(a, key, v)) == multiset(Below(b, key, v))
    ensures |Below(a, key, v)| == |Below(b, key, v)|
  {
    assert multiset(Below(a, key, v)) == multiset(Below(b, key, v));
    assert |multiset(Below(a, key, v))| == |Below(a, key, v)|;
  }

  /** The filter "below `v`" is empty exactly when no element's key is strictly below `v`. */
  lemma BelowEmpty<T(!new)>(s: seq<T>, key: T -> ExtReal, v: ExtReal)
    ensures |Below(s, key, v)| == 0 <==> forall x :: x in s ==> Le(v, key(x))
  {
    if |Below(s, key, v)| == 0 {
      assert Below(s, key, v) == [];
      forall x | x in s
        ensures Le(v, key(x))
      {
        assert multiset(s)[x] >= 1;
      }
    }
    if forall x :: x in s ==> Le(v, key(x)) {
      assert multiset(Below(s, key, v)) == multiset{};
    }
  }

  /** Every element of a sub-multiset is an element of the whole. */
  lemma SubMembers<T>(part: seq<T>, whole: seq<T>)
    requires multiset(part) <= multiset(whole)
    ensures forall x :: x in part ==> x in whole
  {
    forall x | x in part
      ensures x in whole
    {
      assert x in multiset(part);
    }
  }

  /** No element occurs twice. */
  ghost predicate NoDup<T(!new)>(s: seq<T>) {
    forall x :: multiset(s)[x] <= 1
  }

  /** A sequence whose positions hold pairwise different elements has no duplicates. */
  lemma {:induction false} DistinctNoDup<T(!new)>(s: seq<T>)
    requires forall a, b :: 0 <= a < b < |s| ==> s[a] != s[b]
    ensures NoDup(s)
  {
    if s != [] {
      assert s == [s[0]] + s[1..];
      DistinctNoDup(s[1..]);
      assert s[0] !in s[1..];
    }
  }

  /** Without duplicates, different positions hold different elements. */
  lemma NoDupDistinct<T(!new)>(s: seq<T>, a: nat, b: nat)
    requires NoDup(s) && a < b < |s|
    ensures s[a] != s[b]
  {
    var x := s[a];
    assert s == s[..b] + s[b..];
    assert x in s[..b] && s[b] in s[b..];
    assert multiset(s)[x] == multiset(s[..b])[x] + multiset(s[b..])[x];
    assert multiset(s[b..])[x] == 0;
  }

  /**
   * `k` elements drawn without replacement, as Python's `random.sample(pool, k)`:
   * the m-th draw is a position below the number of elements still in the pool.
   */
  function Sample<T>(pool: seq<T>, k: nat, rng: nat -> nat, t: nat): (r: seq<T>)
    requires k <= |pool|
    ensures |r| == k
    ensures multiset(r) <= multiset(pool)
    decreases k
  {
    if k == 0 then []
    else
      var j := rng(t) % |pool|;
      var rest := pool[..j] + pool[j + 1..];
      assert pool == pool[..j] + [pool[j]] + pool[j + 1..];
      assert multiset(pool) == multiset(rest) + multiset{pool[j]};
      [pool[j]] + Sample(rest, k - 1, rng, t + 1)
  }
}
