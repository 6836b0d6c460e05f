/**
 * Sums, means and index ranges over sequences: Python's `sum`, `numpy.mean`,
 * `list(range(n))` and the index comprehension `[i for i in range(n) if p(i)]`.
 */
module SeqUtil {

  function Sum(s: seq<real>): real {
    if s == [] then 0.0 else s[0] + Sum(s[1..])
  }

  /** `numpy.mean`, with the source's convention that the mean of no values is 0. */
  function Mean(s: seq<real>): real {
    if |s| == 0 then 0.0 else Sum(s) / (|s| as real)
  }

  /** Replacing one entry changes the sum by the difference. */
  lemma {:induction false} SumUpdate(s: seq<real>, i: nat, x: real)
    requires i < |s|
    ensures Sum(s[i := x]) == Sum(s) - s[i] + x
  {
    if i > 0 {
      assert s[i := x][1..] == s[1..][i - 1 := x];
      SumUpdate(s[1..], i - 1, x);
    }
  }

  /** Sums are monotone in each entry. */
  lemma {:induction false} SumLe(a: seq<real>, b: seq<real>)
    requires |a| == |b|
    requires forall i :: 0 <= i < |a| ==> a[i] <= b[i]
    ensures Sum(a) <= Sum(b)
  {
    if a != [] {
      SumLe(a[1..], b[1..]);
    }
  }

  /** A sum of non-negative values is non-negative. */
  lemma SumNonneg(s: seq<real>)
    requires forall i :: 0 <= i < |s| ==> 0.0 <= s[i]
    ensures 0.0 <= Sum(s)
  {
    SumLe(seq(|s|, i => 0.0), s);
    SumZero(|s|);
  }

  lemma {:induction false} SumZero(n: nat)
    ensures Sum(seq(n, i => 0.0)) == 0.0
  {
    if n > 0 {
      assert seq(n, i => 0.0)[1..] == seq(n - 1, i => 0.0);
      SumZero(n - 1);
    }
  }

  /** If `a` sums to strictly less than `b` while lying pointwise below it, some entry is strictly below. */
  lemma SumLtWitness(a: seq<real>, b: seq<real>) returns (i: nat)
    requires |a| == |b|
    requires Sum(a) < Sum(b)
    ensures i < |a| && a[i] < b[i]
  {
    if forall k :: 0 <= k < |a| ==> b[k] <= a[k] {
      SumLe(b, a);
      assert false;
    }
    i :| i < |a| && a[i] < b[i];
  }

  /** Multiplying every entry by `k`, as `[u * k for u in s]`. */
  function Scale(s: seq<real>, k: real): (r: seq<real>)
    ensures |r| == |s|
    ensures forall i :: 0 <= i < |s| ==> r[i] == s[i] * k
  {
    seq(|s|, i requires 0 <= i < |s| => s[i] * k)
  }

  /** Scaling every entry scales the sum. */
  lemma {:induction false} SumScale(s: seq<real>, k: real)
    ensures Sum(Scale(s, k)) == Sum(s) * k
  {
    if s != [] {
      forall i | 0 <= i < |s| - 1
        ensures Scale(s, k)[1..][i] == Scale(s[1..], k)[i]
      {
      }
      assert Scale(s, k)[1..] == Scale(s[1..], k);
      SumScale(s[1..], k);
    }
  }

  /** `list(range(n))`: the dense index range `0, 1, ..., n - 1`. */
  function Range(n: nat): (r: seq<nat>)
    ensures |r| == n
    ensures forall i :: 0 <= i < n ==> r[i] == i
    ensures forall i: nat :: i in r <==> i < n
  {
    if n == 0 then []
    else
      var r := Range(n - 1) + [n - 1];
      assert forall i: nat :: i < n ==> r[i] == i;
      r
  }

  /** `[i for i in range(n) if p(i)]`: the indices below `n` that satisfy `p`, ascending. */
  function IndicesWhere(n: nat, p: nat -> bool): (r: seq<nat>)
    ensures forall m :: 0 <= m < |r| ==> r[m] < n && p(r[m])
    ensures forall i :: 0 <= i < n && p(i) ==> i in r
    ensures forall a, b :: 0 <= a < b < |r| ==> r[a] < r[b]
  {
    if n == 0 then []
    else
      var r := IndicesWhere(n - 1, p);
      if p(n - 1) then r + [n - 1] else r
  }
}
