/**
 * Matheuristic Fixed Set Search (Algorithm 2).  A population of randomized greedy
 * solutions is kept; each iteration takes the elite, picks a base solution and a
 * subsample of the elite, fixes the facilities on whose state the subsample most often
 * agrees with the base, lets the MILP oracle optimise the rest, and keeps the new
 * solution only when its pattern is new and it beats the best cost by more than 1e-6.
 *
 * Random draws come from the caller-owned stream `rng`, as in the greedy constructor.
 */
module Mfss {
  import opened Ordering
  import opened SeqUtil
  import opened TscflpCore
  import Greedy

  // ---------------------------------------------------------------- fixed set

  /** A facility: plant `i` (`('I', i)`) or depot `j` (`('J', j)`). */
  datatype Facility = Plant(i: nat) | Depot(j: nat)

  predicate InRange(fac: Facility, nI: nat, nJ: nat) {
    match fac
    case Plant(i) => i < nI
    case Depot(j) => j < nJ
  }

  /** The solution's pattern has an entry for the facility. */
  predicate InPattern(s: Solution, fac: Facility) {
    InRange(fac, |s.openI|, |s.openJ|)
  }

  /** The solution's open/closed state for the facility. */
  function StateOf(s: Solution, fac: Facility): int
    requires InPattern(s, fac)
  {
    match fac
    case Plant(i) => s.openI[i]
    case Depot(j) => s.openJ[j]
  }

  ghost predicate AllShaped(ss: seq<Solution>, nI: nat, nJ: nat) {
    forall m :: 0 <= m < |ss| ==> Shaped(ss[m], nI, nJ)
  }

  /** A facility's score: how many members of the subsample agree with the base on its state. */
  function Agreement(skn: seq<Solution>, base: Solution, fac: Facility): (r: nat)
    requires InPattern(base, fac)
    requires forall m :: 0 <= m < |skn| ==> InPattern(skn[m], fac)
    ensures r <= |skn|
    ensures r == |skn| <==> forall m :: 0 <= m < |skn| ==> StateOf(skn[m], fac) == StateOf(base, fac)
    ensures r == 0 <==> forall m :: 0 <= m < |skn| ==> StateOf(skn[m], fac) != StateOf(base, fac)
  {
    if skn == [] then 0
    else
      var rest := Agreement(skn[1..], base, fac);
      assert forall m :: 1 <= m < |skn| ==> skn[m] == skn[1..][m - 1];
      (if StateOf(skn[0], fac) == StateOf(base, fac) then 1 else 0) + rest
  }

  /** The facilities in the order the source scores them: plants `0..nI-1`, then depots `0..nJ-1`. */
  function Facilities(nI: nat, nJ: nat): (r: seq<Facility>)
    ensures |r| == nI + nJ
    ensures forall m :: 0 <= m < nI ==> r[m] == Plant(m)
    ensures forall m :: nI <= m < nI + nJ ==> r[m] == Depot(m - nI)
  {
    seq(nI, i requires 0 <= i => Plant(i)) + seq(nJ, j requires 0 <= j => Depot(j))
  }

  /** A scored facility, as the pairs `(cnt, ('I', i))` of the source. */
  type Entry = (nat, Facility)

  /** Sorting ascending by the negated score is the stable descending sort `sort(key=score, reverse=True)`. */
  function ScoreKey(e: Entry): ExtReal {
    Fin(-(e.0 as real))
  }

  /** The entry of a facility is its agreement score. */
  ghost predicate Scored(e: Entry, base: Solution, skn: seq<Solution>, nI: nat, nJ: nat)
    requires Shaped(base, nI, nJ) && AllShaped(skn, nI, nJ)
  {
    InRange(e.1, nI, nJ) && e.0 == Agreement(skn, base, e.1)
  }

  /** Every entry is a facility with its score. */
  ghost predicate AllScored(scores: seq<Entry>, base: Solution, skn: seq<Solution>, nI: nat, nJ: nat)
    requires Shaped(base, nI, nJ) && AllShaped(skn, nI, nJ)
  {
    forall e :: e in scores ==> Scored(e, base, skn, nI, nJ)
  }

  /** Every facility has its entry. */
  ghost predicate Complete(scores: seq<Entry>, base: Solution, skn: seq<Solution>, nI: nat, nJ: nat)
    requires Shaped(base, nI, nJ) && AllShaped(skn, nI, nJ)
  {
    forall fac :: InRange(fac, nI, nJ) ==> (Agreement(skn, base, fac), fac) in scores
  }

  /** The pairs `(cnt, facility)` in scoring order. */
  function ScoreEntries(base: Solution, skn: seq<Solution>, nI: nat, nJ: nat): (r: seq<Entry>)
    requires Shaped(base, nI, nJ) && AllShaped(skn, nI, nJ)
    ensures |r| == nI + nJ
    ensures NoDup(r)
    ensures AllScored(r, base, skn, nI, nJ)
    ensures Complete(r, base, skn, nI, nJ)
  {
    var facs := Facilities(nI, nJ);
    var r := seq(|facs|, m requires 0 <= m < |facs| => (Agreement(skn, base, facs[m]), facs[m]));
    assert NoDup(r) by {
      forall a, b | 0 <= a < b < |r|
        ensures r[a] != r[b]
      {
        assert facs[a] != facs[b];
      }
      DistinctNoDup(r);
    }
    assert AllScored(r, base, skn, nI, nJ) by {
      forall e | e in r
        ensures Scored(e, base, skn, nI, nJ)
      {
        var m :| 0 <= m < |r| && r[m] == e;
        assert InRange(facs[m], nI, nJ);
      }
    }
    assert Complete(r, base, skn, nI, nJ) by {
      forall fac | InRange(fac, nI, nJ)
        ensures (Agreement(skn, base, fac), fac) in r
      {
        var m := match fac case Plant(i) => i case Depot(j) => nI + j;
        assert r[m] == (Agreement(skn, base, fac), fac);
      }
    }
    r
  }

  /** The scores of every plant and depot, sorted descending by score with ties in scoring order. */
  function RankedScores(base: Solution, skn: seq<Solution>, nI: nat, nJ: nat): (r: seq<Entry>)
    requires Shaped(base, nI, nJ) && AllShaped(skn, nI, nJ)
    ensures |r| == nI + nJ
    ensures Sorted(r, ScoreKey)
    ensures NoDup(r)
    ensures AllScored(r, base, skn, nI, nJ)
    ensures Complete(r, base, skn, nI, nJ)
  {
    var entries := ScoreEntries(base, skn, nI, nJ);
    var r := SortBy(entries, ScoreKey);
    assert NoDup(r) by {
      assert multiset(r) == multiset(entries);
    }
    assert AllScored(r, base, skn, nI, nJ) by {
      forall e | e in r
        ensures Scored(e, base, skn, nI, nJ)
      {
        assert e in multiset(entries);
      }
    }
    assert Complete(r, base, skn, nI, nJ) by {
      forall fac | InRange(fac, nI, nJ)
        ensures (Agreement(skn, base, fac), fac) in r
      {
        assert (Agreement(skn, base, fac), fac) in multiset(r);
      }
    }
    r
  }

  /**
   * The entries the source fixes: all of them when `size` covers every facility;
   * otherwise those above the cutoff `scores[size - 1]` plus tied ones, by `TieBreak`.
   * `size - 1` is a Python index, counted from the end when negative; one before the
   * start raises IndexError.
   */
  function Selection(scores: seq<Entry>, size: int, rng: nat -> nat, t: nat): (r: Result<seq<Entry>>)
    ensures r.Ok? ==> multiset(r.value) <= multiset(scores)
    ensures size >= |scores| ==> r == Ok(scores)
    ensures size < |scores| && size < 1 - |scores| ==> r == Err(IndexOutOfRange)
    ensures 1 - |scores| <= size < 0 ==> r == Err(BadSampleSize)
  {
    var n := |scores|;
    if size >= n then Ok(scores)
    else if size - 1 < -n then Err(IndexOutOfRange)
    else TieBreak(scores, size, Cutoff(scores, size), rng, t)
  }

  /** The key of `scores[size - 1]`, with Python's negative indexing. */
  function Cutoff(scores: seq<Entry>, size: int): (r: ExtReal)
    requires 1 - |scores| <= size < |scores|
    ensures exists p :: 0 <= p < |scores| && r == ScoreKey(scores[p])
    ensures size == 0 && Sorted(scores, ScoreKey) ==> forall e :: e in scores ==> Le(ScoreKey(e), r)
  {
    ScoreKey(scores[if size >= 1 then size - 1 else |scores| + size - 1])
  }

  /**
   * `prefix + random.sample(tied, Size - len(prefix))`: every entry scoring above the
   * cutoff, then a sample of those scoring exactly the cutoff.  A sample size outside
   * `0..len(tied)` raises ValueError.
   */
  function TieBreak(scores: seq<Entry>, size: int, cutoff: ExtReal, rng: nat -> nat, t: nat): (r: Result<seq<Entry>>)
    ensures r.Ok? <==> 0 <= size - |Below(scores, ScoreKey, cutoff)| <= |Level(scores, ScoreKey, cutoff)|
    ensures r.Err? ==> r.error == BadSampleSize
    ensures r.Ok? ==> |r.value| == size
    ensures r.Ok? ==> multiset(r.value) <= multiset(scores)
    ensures r.Ok? ==> forall x :: x in r.value ==> Le(ScoreKey(x), cutoff)
    ensures r.Ok? ==> forall y :: y in scores && Lt(ScoreKey(y), cutoff) ==> y in r.value
  {
    var prefix := Below(scores, ScoreKey, cutoff);
    var tied := Level(scores, ScoreKey, cutoff);
    var needed := size - |prefix|;
    if needed < 0 || needed > |tied| then Err(BadSampleSize)
    else
      var picked := Sample(tied, needed, rng, t);
      PrefixAndTied(scores, cutoff, picked);
      var r := prefix + picked;
      Ok(r)
  }

  /** The entries above the cutoff followed by some of those at it lie within the scores, none below
      the cutoff, and include everything above it. */
  lemma PrefixAndTied(scores: seq<Entry>, cutoff: ExtReal, picked: seq<Entry>)
    requires multiset(picked) <= multiset(Level(scores, ScoreKey, cutoff))
    ensures multiset(Below(scores, ScoreKey, cutoff) + picked) <= multiset(scores)
    ensures forall x :: x in Below(scores, ScoreKey, cutoff) + picked ==> Le(ScoreKey(x), cutoff)
    ensures forall y :: y in scores && Lt(ScoreKey(y), cutoff) ==> y in Below(scores, ScoreKey, cutoff) + picked
  {
    PrefixAndTiedWithin(scores, cutoff, picked);
    PrefixAndTiedAtMost(scores, cutoff, picked);
    PrefixAndTiedCovers(scores, cutoff, picked);
  }

  lemma PrefixAndTiedWithin(scores: seq<Entry>, cutoff: ExtReal, picked: seq<Entry>)
    requires multiset(picked) <= multiset(Level(scores, ScoreKey, cutoff))
    ensures multiset(Below(scores, ScoreKey, cutoff) + picked) <= multiset(scores)
  {
    BelowLevelWithin(scores, ScoreKey, cutoff);
    var prefix := Below(scores, ScoreKey, cutoff);
    assert multiset(prefix + picked) == multiset(prefix) + multiset(picked);
  }

  lemma PrefixAndTiedAtMost(scores: seq<Entry>, cutoff: ExtReal, picked: seq<Entry>)
    requires multiset(picked) <= multiset(Level(scores, ScoreKey, cutoff))
    ensures forall x :: x in Below(scores, ScoreKey, cutoff) + picked ==> Le(ScoreKey(x), cutoff)
  {
    var prefix := Below(scores, ScoreKey, cutoff);
    forall x | x in prefix + picked
      ensures Le(ScoreKey(x), cutoff)
    {
      if x in prefix {
        assert x in multiset(prefix);
      } else {
        assert x in multiset(picked);
      }
    }
  }

  lemma PrefixAndTiedCovers(scores: seq<Entry>, cutoff: ExtReal, picked: seq<Entry>)
    ensures forall y :: y in scores && Lt(ScoreKey(y), cutoff) ==> y in Below(scores, ScoreKey, cutoff) + picked
  {
    var prefix := Below(scores, ScoreKey, cutoff);
    forall y | y in scores && Lt(ScoreKey(y), cutoff)
      ensures y in prefix + picked
    {
      assert y in multiset(prefix);
    }
  }

  /** The facility is a key of the fixed map. */
  predicate IsFixed(fixed: FixedSet, fac: Facility) {
    match fac
    case Plant(i) => i in fixed.plants
    case Depot(j) => j in fixed.depots
  }

  /** The facilities of the chosen entries, in order. */
  function FacilitiesOf(chosen: seq<Entry>): (r: seq<Facility>)
    ensures |r| == |chosen| && forall m :: 0 <= m < |r| ==> r[m] == chosen[m].1
    ensures forall e :: e in chosen ==> e.1 in r
  {
    if chosen == [] then [] else FacilitiesOf(chosen[..|chosen| - 1]) + [chosen[|chosen| - 1].1]
  }

  /** `F[('I', i)] = B.open_I[i]` or `F[('J', j)] = B.open_J[j]`: freezes one facility to the base's state. */
  function FixOne(fixed: FixedSet, base: Solution, fac: Facility): (r: FixedSet)
    requires InPattern(base, fac)
    ensures forall f :: IsFixed(r, f) <==> IsFixed(fixed, f) || f == fac
    ensures forall i :: i in r.plants ==>
      (fac == Plant(i) && r.plants[i] == base.openI[i]) || (fac != Plant(i) && i in fixed.plants && r.plants[i] == fixed.plants[i])
    ensures forall j :: j in r.depots ==>
      (fac == Depot(j) && r.depots[j] == base.openJ[j]) || (fac != Depot(j) && j in fixed.depots && r.depots[j] == fixed.depots[j])
  {
    match fac
    case Plant(i) => fixed.(plants := fixed.plants[i := base.openI[i]])
    case Depot(j) => fixed.(depots := fixed.depots[j := base.openJ[j]])
  }

  /** The final loop of `build_fixed_set`: each chosen facility is frozen to the base solution's state. */
  function ToFixed(base: Solution, chosen: seq<Entry>): (r: FixedSet)
    requires forall m :: 0 <= m < |chosen| ==> InPattern(base, chosen[m].1)
    ensures forall fac :: IsFixed(r, fac) <==> fac in FacilitiesOf(chosen)
    ensures forall i :: i in r.plants ==> i < |base.openI| && r.plants[i] == base.openI[i]
    ensures forall j :: j in r.depots ==> j < |base.openJ| && r.depots[j] == base.openJ[j]
    decreases |chosen|
  {
    if chosen == [] then FixedSet(map[], map[])
    else
      var init := chosen[..|chosen| - 1];
      var last := chosen[|chosen| - 1].1;
      FixOne(ToFixed(base, init), base, last)
  }

  /** Fixing facilities that are pairwise different fixes one map entry per chosen entry. */
  lemma {:induction false} ToFixedCount(base: Solution, chosen: seq<Entry>)
    requires forall m :: 0 <= m < |chosen| ==> InPattern(base, chosen[m].1)
    requires forall a, b :: 0 <= a < b < |chosen| ==> chosen[a].1 != chosen[b].1
    ensures |ToFixed(base, chosen).plants| + |ToFixed(base, chosen).depots| == |chosen|
  {
    if chosen != [] {
      var init := chosen[..|chosen| - 1];
      ToFixedCount(base, init);
      assert chosen[|chosen| - 1].1 !in FacilitiesOf(init);
    }
  }

  /**
   * `build_fixed_set`: score every facility by its agreement with the base over the
   * subsample, rank, select `size` of them and freeze each selected one to the base's state.
   */
  function BuildFixedSet(base: Solution, skn: seq<Solution>, size: int, nI: nat, nJ: nat,
                         rng: nat -> nat, t: nat): (r: Result<FixedSet>)
    requires Shaped(base, nI, nJ) && AllShaped(skn, nI, nJ)
    ensures r.Ok? ==> FixedInRange(r.value, nI, nJ)
    ensures r.Ok? ==> (forall i :: i in r.value.plants ==> r.value.plants[i] == base.openI[i]) &&
                      (forall j :: j in r.value.depots ==> r.value.depots[j] == base.openJ[j])
    ensures size >= nI + nJ ==> r.Ok?
    ensures size < 0 && size < 1 - (nI + nJ) ==> r == Err(IndexOutOfRange)
    ensures 1 - (nI + nJ) <= size < 0 ==> r == Err(BadSampleSize)
  {
    var scores := RankedScores(base, skn, nI, nJ);
    match Selection(scores, size, rng, t)
    case Err(e) => Err(e)
    case Ok(chosen) =>
      ChosenScored(base, skn, nI, nJ, scores, chosen);
      Ok(ToFixed(base, chosen))
  }

  /** Whatever is selected from the ranked scores is a list of scored, pairwise different facilities. */
  lemma ChosenScored(base: Solution, skn: seq<Solution>, nI: nat, nJ: nat, scores: seq<Entry>, chosen: seq<Entry>)
    requires Shaped(base, nI, nJ) && AllShaped(skn, nI, nJ)
    requires NoDup(scores) && AllScored(scores, base, skn, nI, nJ)
    requires multiset(chosen) <= multiset(scores)
    ensures forall m :: 0 <= m < |chosen| ==> Scored(chosen[m], base, skn, nI, nJ) && InPattern(base, chosen[m].1)
    ensures forall a, b :: 0 <= a < b < |chosen| ==> chosen[a].1 != chosen[b].1
  {
    forall m | 0 <= m < |chosen|
      ensures Scored(chosen[m], base, skn, nI, nJ)
    {
      assert chosen[m] in multiset(chosen);
    }
    assert NoDup(chosen);
    forall a, b | 0 <= a < b < |chosen|
      ensures chosen[a].1 != chosen[b].1
    {
      NoDupDistinct(chosen, a, b);
    }
  }

  /** When `size` covers every facility, every plant and every depot is fixed. */
  lemma FixAllWhenLarge(base: Solution, skn: seq<Solution>, size: int, nI: nat, nJ: nat, rng: nat -> nat, t: nat)
    requires Shaped(base, nI, nJ) && AllShaped(skn, nI, nJ)
    requires size >= nI + nJ
    ensures BuildFixedSet(base, skn, size, nI, nJ, rng, t).Ok?
    ensures forall fac :: InRange(fac, nI, nJ) ==> IsFixed(BuildFixedSet(base, skn, size, nI, nJ, rng, t).value, fac)
  {
    var scores := RankedScores(base, skn, nI, nJ);
    assert Selection(scores, size, rng, t) == Ok(scores);
    ChosenScored(base, skn, nI, nJ, scores, scores);
    var r := BuildFixedSet(base, skn, size, nI, nJ, rng, t);
    assert r == Ok(ToFixed(base, scores));
    forall fac | InRange(fac, nI, nJ)
      ensures IsFixed(r.value, fac)
    {
      var e := (Agreement(skn, base, fac), fac);
      var m :| 0 <= m < |scores| && scores[m] == e;
      assert FacilitiesOf(scores)[m] == fac;
    }
  }

  /** In ranked scores, fewer than `size` entries score above `scores[size - 1]` and at least `size` score at least as much. */
  lemma CutoffRank(scores: seq<Entry>, size: int)
    requires Sorted(scores, ScoreKey) && 1 <= size < |scores|
    ensures |Below(scores, ScoreKey, Cutoff(scores, size))| < size
    ensures size <= |Below(scores, ScoreKey, Cutoff(scores, size))| + |Level(scores, ScoreKey, Cutoff(scores, size))|
  {
    var p: nat := size - 1;
    assert Cutoff(scores, size) == ScoreKey(scores[p]);
    SortedRank(scores, ScoreKey, p);
  }

  /** When the cutoff splits the scores so, the selection succeeds with exactly `size` entries. */
  lemma SelectionAtCutoff(scores: seq<Entry>, size: int, rng: nat -> nat, t: nat)
    requires 1 <= size < |scores|
    requires |Below(scores, ScoreKey, Cutoff(scores, size))| < size
    requires size <= |Below(scores, ScoreKey, Cutoff(scores, size))| + |Level(scores, ScoreKey, Cutoff(scores, size))|
    ensures Selection(scores, size, rng, t).Ok? && |Selection(scores, size, rng, t).value| == size
  {
  }

  /** With `1 <= size < nI + nJ` exactly `size` entries are selected, however many tie at the cutoff. */
  lemma SelectionExact(scores: seq<Entry>, size: int, rng: nat -> nat, t: nat)
    requires Sorted(scores, ScoreKey) && 1 <= size < |scores|
    ensures Selection(scores, size, rng, t).Ok?
    ensures |Selection(scores, size, rng, t).value| == size
  {
    CutoffRank(scores, size);
    SelectionAtCutoff(scores, size, rng, t);
  }

  /** With `1 <= size < nI + nJ` exactly `size` facilities are fixed. */
  lemma FixedSetExact(base: Solution, skn: seq<Solution>, size: int, nI: nat, nJ: nat, rng: nat -> nat, t: nat)
    requires Shaped(base, nI, nJ) && AllShaped(skn, nI, nJ)
    requires 1 <= size < nI + nJ
    ensures BuildFixedSet(base, skn, size, nI, nJ, rng, t).Ok?
    ensures |BuildFixedSet(base, skn, size, nI, nJ, rng, t).value.plants| +
            |BuildFixedSet(base, skn, size, nI, nJ, rng, t).value.depots| == size
  {
    var scores := RankedScores(base, skn, nI, nJ);
    SelectionExact(scores, size, rng, t);
    var chosen := Selection(scores, size, rng, t).value;
    ChosenScored(base, skn, nI, nJ, scores, chosen);
    ToFixedCount(base, chosen);
  }

  /** Nothing left out of the selection scores above anything in it. */
  lemma SelectionOrdered(scores: seq<Entry>, size: int, rng: nat -> nat, t: nat, x: Entry, y: Entry)
    requires Selection(scores, size, rng, t).Ok?
    requires x in Selection(scores, size, rng, t).value
    requires y in scores && y !in Selection(scores, size, rng, t).value
    ensures y.0 <= x.0
  {
    if size < |scores| {
      var cutoff := Cutoff(scores, size);
      assert Selection(scores, size, rng, t) == TieBreak(scores, size, cutoff, rng, t);
      assert Le(ScoreKey(x), cutoff) && !Lt(ScoreKey(y), cutoff);
    }
  }

  /** Selection ordering: no facility left unfixed has a higher score than a fixed one. */
  lemma FixedSetOrdered(base: Solution, skn: seq<Solution>, size: int, nI: nat, nJ: nat, rng: nat -> nat, t: nat,
                        a: Facility, b: Facility)
    requires Shaped(base, nI, nJ) && AllShaped(skn, nI, nJ)
    requires BuildFixedSet(base, skn, size, nI, nJ, rng, t).Ok?
    requires InRange(a, nI, nJ) && InRange(b, nI, nJ)
    requires IsFixed(BuildFixedSet(base, skn, size, nI, nJ, rng, t).value, a)
    requires !IsFixed(BuildFixedSet(base, skn, size, nI, nJ, rng, t).value, b)
    ensures Agreement(skn, base, b) <= Agreement(skn, base, a)
  {
    var scores := RankedScores(base, skn, nI, nJ);
    var chosen := Selection(scores, size, rng, t).value;
    ChosenScored(base, skn, nI, nJ, scores, chosen);
    assert BuildFixedSet(base, skn, size, nI, nJ, rng, t) == Ok(ToFixed(base, chosen));
    var m :| 0 <= m < |chosen| && FacilitiesOf(chosen)[m] == a;
    var y := (Agreement(skn, base, b), b);
    assert y !in chosen;
    SelectionOrdered(scores, size, rng, t, chosen[m], y);
  }

  /** With `size == 0` the cutoff is the lowest score; the source then fixes nothing, and
      succeeds only when every facility has the same score. */
  lemma SelectionZero(scores: seq<Entry>, rng: nat -> nat, t: nat)
    requires Sorted(scores, ScoreKey) && 0 < |scores|
    ensures Selection(scores, 0, rng, t).Ok? <==> OneScore(scores)
    ensures Selection(scores, 0, rng, t).Ok? ==> Selection(scores, 0, rng, t).value == []
  {
    var n := |scores|;
    var low := scores[n - 1];
    var c := Cutoff(scores, 0);
    var below := Below(scores, ScoreKey, c);
    assert Selection(scores, 0, rng, t).Ok? <==> |below| == 0 by {
      assert Selection(scores, 0, rng, t) == TieBreak(scores, 0, c, rng, t);
    }
    assert |below| == 0 <==> forall x :: x in scores ==> x.0 <= low.0 by {
      assert c == ScoreKey(low);
      BelowEmpty(scores, ScoreKey, c);
    }
    assert forall x :: x in scores ==> low.0 <= x.0;
    assert (forall x :: x in scores ==> x.0 <= low.0) <==> OneScore(scores) by {
      assert low in scores;
    }
    assert Selection(scores, 0, rng, t).Ok? ==> |Selection(scores, 0, rng, t).value| == 0 by {
      assert Selection(scores, 0, rng, t) == TieBreak(scores, 0, c, rng, t);
    }
  }

  /** Every facility agrees with the base on equally many members of the subsample. */
  ghost predicate AgreeEqually(base: Solution, skn: seq<Solution>, nI: nat, nJ: nat)
    requires Shaped(base, nI, nJ) && AllShaped(skn, nI, nJ)
  {
    forall a, b :: InRange(a, nI, nJ) && InRange(b, nI, nJ) ==> Agreement(skn, base, a) == Agreement(skn, base, b)
  }

  /** All entries carry the same score. */
  ghost predicate OneScore(scores: seq<Entry>) {
    forall x, y :: x in scores && y in scores ==> x.0 == y.0
  }

  /** All facilities agreeing equally often with the base means all scored entries share one score. */
  lemma UniformFromAgreement(base: Solution, skn: seq<Solution>, nI: nat, nJ: nat, scores: seq<Entry>)
    requires Shaped(base, nI, nJ) && AllShaped(skn, nI, nJ)
    requires AllScored(scores, base, skn, nI, nJ)
    requires AgreeEqually(base, skn, nI, nJ)
    ensures OneScore(scores)
  {
    forall x, y | x in scores && y in scores
      ensures x.0 == y.0
    {
      assert Scored(x, base, skn, nI, nJ) && Scored(y, base, skn, nI, nJ);
    }
  }

  /** When every facility has an entry and all entries share one score, all facilities agree equally often. */
  lemma AgreementFromUniform(base: Solution, skn: seq<Solution>, nI: nat, nJ: nat, scores: seq<Entry>)
    requires Shaped(base, nI, nJ) && AllShaped(skn, nI, nJ)
    requires Complete(scores, base, skn, nI, nJ)
    requires OneScore(scores)
    ensures AgreeEqually(base, skn, nI, nJ)
  {
    forall a, b | InRange(a, nI, nJ) && InRange(b, nI, nJ)
      ensures Agreement(skn, base, a) == Agreement(skn, base, b)
    {
      var x, y := (Agreement(skn, base, a), a), (Agreement(skn, base, b), b);
      assert x in scores && y in scores;
    }
  }

  /** All ranked entries share one score exactly when all facilities agree equally often with the base. */
  lemma UniformScores(base: Solution, skn: seq<Solution>, nI: nat, nJ: nat, scores: seq<Entry>)
    requires Shaped(base, nI, nJ) && AllShaped(skn, nI, nJ)
    requires AllScored(scores, base, skn, nI, nJ)
    requires Complete(scores, base, skn, nI, nJ)
    ensures OneScore(scores) <==> AgreeEqually(base, skn, nI, nJ)
  {
    if AgreeEqually(base, skn, nI, nJ) {
      UniformFromAgreement(base, skn, nI, nJ, scores);
    }
    if OneScore(scores) {
      AgreementFromUniform(base, skn, nI, nJ, scores);
    }
  }

  /** `Size == 0` succeeds, fixing nothing, exactly when every facility has the same score. */
  lemma FixedSetSizeZero(base: Solution, skn: seq<Solution>, nI: nat, nJ: nat, rng: nat -> nat, t: nat)
    requires Shaped(base, nI, nJ) && AllShaped(skn, nI, nJ)
    requires 0 < nI + nJ
    ensures BuildFixedSet(base, skn, 0, nI, nJ, rng, t).Ok? <==> AgreeEqually(base, skn, nI, nJ)
    ensures BuildFixedSet(base, skn, 0, nI, nJ, rng, t).Ok? ==>
      BuildFixedSet(base, skn, 0, nI, nJ, rng, t).value == FixedSet(map[], map[])
  {
    var scores := RankedScores(base, skn, nI, nJ);
    assert BuildFixedSet(base, skn, 0, nI, nJ, rng, t).Ok? <==> Selection(scores, 0, rng, t).Ok?;
    SelectionZero(scores, rng, t);
    UniformScores(base, skn, nI, nJ, scores);
    if Selection(scores, 0, rng, t).Ok? {
      assert BuildFixedSet(base, skn, 0, nI, nJ, rng, t) == Ok(ToFixed(base, []));
    }
  }

  /**
   * What `build_fixed_set` guarantees of a fixed set it returns: only existing facilities,
   * each frozen to the base's state; exactly `size` of them for `1 <= size < nI + nJ`, all
   * of them for a larger `size`, none for `size == 0`; and no unfixed facility scores higher
   * than a fixed one.
   */
  ghost predicate FixedFrom(fixed: FixedSet, base: Solution, skn: seq<Solution>, size: int, nI: nat, nJ: nat)
    requires Shaped(base, nI, nJ) && AllShaped(skn, nI, nJ)
  {
    && FixedInRange(fixed, nI, nJ)
    && (forall i :: i in fixed.plants ==> fixed.plants[i] == base.openI[i])
    && (forall j :: j in fixed.depots ==> fixed.depots[j] == base.openJ[j])
    && (1 <= size < nI + nJ ==> |fixed.plants| + |fixed.depots| == size)
    && (nI + nJ <= size ==> forall fac :: InRange(fac, nI, nJ) ==> IsFixed(fixed, fac))
    && (size == 0 ==> fixed == FixedSet(map[], map[]))
    && (forall a, b :: InRange(a, nI, nJ) && InRange(b, nI, nJ) && IsFixed(fixed, a) && !IsFixed(fixed, b) ==>
          Agreement(skn, base, b) <= Agreement(skn, base, a))
  }

  /** `build_fixed_set` returns exactly for a positive size, and for size 0 when all facilities agree equally often. */
  lemma BuildFixedSetOk(base: Solution, skn: seq<Solution>, size: int, nI: nat, nJ: nat, rng: nat -> nat, t: nat)
    requires Shaped(base, nI, nJ) && AllShaped(skn, nI, nJ)
    ensures BuildFixedSet(base, skn, size, nI, nJ, rng, t).Ok? <==>
      1 <= size || (size == 0 && AgreeEqually(base, skn, nI, nJ))
  {
    if 1 <= size < nI + nJ {
      FixedSetExact(base, skn, size, nI, nJ, rng, t);
    } else if size == 0 && 0 < nI + nJ {
      FixedSetSizeZero(base, skn, nI, nJ, rng, t);
    }
  }

  /** Every fixed set `build_fixed_set` returns has the properties `FixedFrom` lists. */
  lemma BuildFixedSetFrom(base: Solution, skn: seq<Solution>, size: int, nI: nat, nJ: nat, rng: nat -> nat, t: nat)
    requires Shaped(base, nI, nJ) && AllShaped(skn, nI, nJ)
    requires BuildFixedSet(base, skn, size, nI, nJ, rng, t).Ok?
    ensures FixedFrom(BuildFixedSet(base, skn, size, nI, nJ, rng, t).value, base, skn, size, nI, nJ)
  {
    var fixed := BuildFixedSet(base, skn, size, nI, nJ, rng, t).value;
    if 1 <= size < nI + nJ {
      FixedSetExact(base, skn, size, nI, nJ, rng, t);
    }
    if nI + nJ <= size {
      FixAllWhenLarge(base, skn, size, nI, nJ, rng, t);
    }
    if size == 0 && 0 < nI + nJ {
      FixedSetSizeZero(base, skn, nI, nJ, rng, t);
    }
    if size == 0 && nI + nJ == 0 {
      assert fixed.plants == map[] && fixed.depots == map[];
    }
    forall a, b | InRange(a, nI, nJ) && InRange(b, nI, nJ) && IsFixed(fixed, a) && !IsFixed(fixed, b)
      ensures Agreement(skn, base, b) <= Agreement(skn, base, a)
    {
      FixedSetOrdered(base, skn, size, nI, nJ, rng, t, a, b);
    }
  }

  // ---------------------------------------------------------------- the number of facilities to fix

  /** `min(total_fac - 1, total_fac - Sizemax)`, the number of facilities `mfss` asks to fix. */
  function FixedSetSizeAsWritten(nI: nat, nJ: nat, sizeMax: int): (r: int)
    ensures r <= nI + nJ - 1 && r <= nI + nJ - sizeMax
    ensures r == nI + nJ - 1 || r == nI + nJ - sizeMax
  {
    var total := nI + nJ;
    if total - 1 <= total - sizeMax then total - 1 else total - sizeMax
  }

  /** As written, `Sizemax` above the number of facilities makes `build_fixed_set` raise. */
  lemma AsWrittenSizeRaises(base: Solution, skn: seq<Solution>, nI: nat, nJ: nat, sizeMax: int,
                            rng: nat -> nat, t: nat)
    requires Shaped(base, nI, nJ) && AllShaped(skn, nI, nJ)
    requires nI + nJ < sizeMax
    ensures FixedSetSizeAsWritten(nI, nJ, sizeMax) < 0
    ensures BuildFixedSet(base, skn, FixedSetSizeAsWritten(nI, nJ, sizeMax), nI, nJ, rng, t).Err?
  {
  }

  /** Two plants, two depots and the default `Sizemax = 10`: the size is -6 and the cutoff index -7 is out of range. */
  lemma DefaultSizeMaxCounterexample(base: Solution, skn: seq<Solution>, rng: nat -> nat, t: nat)
    requires Shaped(base, 2, 2) && AllShaped(skn, 2, 2)
    ensures FixedSetSizeAsWritten(2, 2, 10) == -6
    ensures BuildFixedSet(base, skn, FixedSetSizeAsWritten(2, 2, 10), 2, 2, rng, t) == Err(IndexOutOfRange)
  {
  }

  /** The evidently intended size: the source's value, kept positive as its comment says. */
  function FixedSetSize(nI: nat, nJ: nat, sizeMax: int): (r: int)
    ensures 1 <= r
    ensures 2 <= nI + nJ ==> r <= nI + nJ - 1
    ensures 1 <= FixedSetSizeAsWritten(nI, nJ, sizeMax) ==> r == FixedSetSizeAsWritten(nI, nJ, sizeMax)
  {
    var s := FixedSetSizeAsWritten(nI, nJ, sizeMax);
    if s < 1 then 1 else s
  }

  /** With the corrected size `build_fixed_set` always succeeds, and with two or more facilities
      it fixes exactly that many and leaves at least one free. */
  lemma CorrectedSizeBuilds(base: Solution, skn: seq<Solution>, nI: nat, nJ: nat, sizeMax: int,
                            rng: nat -> nat, t: nat)
    requires Shaped(base, nI, nJ) && AllShaped(skn, nI, nJ)
    ensures BuildFixedSet(base, skn, FixedSetSize(nI, nJ, sizeMax), nI, nJ, rng, t).Ok?
    ensures 2 <= nI + nJ ==>
      |BuildFixedSet(base, skn, FixedSetSize(nI, nJ, sizeMax), nI, nJ, rng, t).value.plants| +
      |BuildFixedSet(base, skn, FixedSetSize(nI, nJ, sizeMax), nI, nJ, rng, t).value.depots|
        == FixedSetSize(nI, nJ, sizeMax) < nI + nJ
  {
    var size := FixedSetSize(nI, nJ, sizeMax);
    if size < nI + nJ {
      FixedSetExact(base, skn, size, nI, nJ, rng, t);
    }
  }

  // ---------------------------------------------------------------- population

  function CostKey(s: Solution): ExtReal {
    s.cost
  }

  /** The length of `P[:min(n_best, n)]` for a list of length `n`: a negative bound counts from the end. */
  function EliteSize(n: nat, nBest: int): (r: nat)
    ensures r <= n
    ensures 0 <= nBest ==> r == if nBest < n then nBest else n
    ensures nBest < 0 ==> r == if n + nBest < 0 then 0 else n + nBest
  {
    var m := if nBest < n then nBest else n;
    if 0 <= m then m else if n + m < 0 then 0 else n + m
  }

  /** `P[:min(n_best, len(P))]`: after sorting, no elite member costs more than a member left out. */
  function Elite(pop: seq<Solution>, nBest: int): (r: seq<Solution>)
    ensures |r| == EliteSize(|pop|, nBest) && r == pop[..|r|]
    ensures Sorted(pop, CostKey) ==> forall a, b :: 0 <= a < |r| <= b < |pop| ==> Le(r[a].cost, pop[b].cost)
  {
    pop[..EliteSize(|pop|, nBest)]
  }

  /** `random.randint(lo, hi)` for the draw `draw`. */
  function RandInt(lo: int, hi: int, draw: nat): (r: int)
    requires lo <= hi
    ensures lo <= r <= hi
  {
    lo + draw % (hi - lo + 1)
  }

  /**
   * `B = random.choice(Sn)`, `k = random.randint(2, max(2, len(Sn)))`, `Skn = random.sample(Sn, k)`:
   * the base is an elite member and the subsample 2 to `|Sn|` elite members drawn without
   * replacement.  An empty elite makes `choice` raise IndexError, a one-member elite makes
   * `sample` raise ValueError.
   */
  function ChooseBaseAndSample(sn: seq<Solution>, rng: nat -> nat, t: nat): (r: Result<(Solution, seq<Solution>)>)
    ensures |sn| == 0 ==> r == Err(IndexOutOfRange)
    ensures |sn| == 1 ==> r == Err(BadSampleSize)
    ensures r.Ok? <==> 2 <= |sn|
    ensures r.Ok? ==> r.value.0 in sn && multiset(r.value.1) <= multiset(sn) && 2 <= |r.value.1| <= |sn|
  {
    if |sn| == 0 then Err(IndexOutOfRange)
    else
      var base := sn[rng(t) % |sn|];
      var k := RandInt(2, if 2 < |sn| then |sn| else 2, rng(t + 1));
      if k > |sn| then Err(BadSampleSize)
      else Ok((base, Sample(sn, k, rng, t + 2)))
  }

  /** `min(P, key=cost)`: the first member of least cost. */
  function FirstMin(pop: seq<Solution>): (r: Solution)
    requires |pop| > 0
    ensures r in pop
    ensures forall s :: s in pop ==> Le(r.cost, s.cost)
    ensures exists k :: 0 <= k < |pop| && pop[k] == r && forall m :: 0 <= m < k ==> Lt(r.cost, pop[m].cost)
  {
    if |pop| == 1 then pop[0]
    else
      var rest := FirstMin(pop[1..]);
      assert forall s :: s in pop ==> s == pop[0] || s in pop[1..];
      if Le(pop[0].cost, rest.cost) then pop[0]
      else
        var k :| 0 <= k < |pop[1..]| && pop[1..][k] == rest &&
                 forall m :: 0 <= m < k ==> Lt(rest.cost, pop[1..][m].cost);
        assert pop[k + 1] == rest;
        assert forall m :: 1 <= m < k + 1 ==> pop[m] == pop[1..][m - 1];
        rest
  }

  /** No current member has the same `open_I` and `open_J` as `s`. */
  function IsNewPattern(s: Solution, pop: seq<Solution>): (r: bool)
    ensures r ==> s !in pop
  {
    forall p :: p in pop ==> !SamePattern(s, p)
  }

  /** A pattern is new against a population with one more member iff it is new against the rest and differs from that member. */
  lemma NewPatternAppend(s: Solution, pop: seq<Solution>, q: Solution)
    ensures IsNewPattern(s, pop + [q]) <==> IsNewPattern(s, pop) && !SamePattern(s, q)
  {
    assert forall p :: p in pop + [q] <==> p in pop || p == q;
  }

  /** `S_new.cost < best_sol.cost - 1e-6`, where `inf - 1e-6` is still `inf`. */
  function Improves(c: ExtReal, best: ExtReal): (r: bool)
    ensures r ==> c.Fin? && Lt(c, best)
    ensures best.PosInf? ==> (r <==> c.Fin?)
    ensures c.Fin? && best.Fin? ==> (r <==> c.v + EPS < best.v)
  {
    match best
    case PosInf => c.Fin?
    case Fin(b) => c.Fin? && c.v < b - EPS
  }

  /** The state `mfss` carries from one iteration to the next. */
  datatype SearchState = SearchState(pop: seq<Solution>, best: Solution, stag: nat, tau: real)

  /** `best_sol` is a least-cost member of `P`, and the stagnation counter is below 5. */
  ghost predicate SearchInvariant(st: SearchState) {
    && st.best in st.pop
    && (forall s :: s in st.pop ==> Le(st.best.cost, s.cost))
    && st.stag <= 4
  }

  /**
   * The acceptance rule and the stagnation update: a candidate with a new pattern that
   * beats the best by more than the tolerance is appended and becomes the best, resetting
   * `stag`; otherwise `stag` grows, and on reaching 5 the time limit doubles and `stag` resets.
   */
  function Accept(st: SearchState, cand: Solution): (r: SearchState)
    requires SearchInvariant(st)
    ensures SearchInvariant(r)
    ensures Le(r.best.cost, st.best.cost)
    ensures r.pop == st.pop || r.pop == st.pop + [cand]
    ensures |r.pop| > |st.pop| <==> IsNewPattern(cand, st.pop) && Improves(cand.cost, st.best.cost)
    ensures |r.pop| > |st.pop| ==> r.best == cand && Lt(cand.cost, st.best.cost) && r.stag == 0 && r.tau == st.tau
    ensures |r.pop| == |st.pop| ==> r.best == st.best
    ensures |r.pop| == |st.pop| && st.stag < 4 ==> r.stag == st.stag + 1 && r.tau == st.tau
    ensures |r.pop| == |st.pop| && st.stag == 4 ==> r.stag == 0 && r.tau == 2.0 * st.tau
    ensures 0.0 <= st.tau ==> st.tau <= r.tau
  {
    if IsNewPattern(cand, st.pop) && Improves(cand.cost, st.best.cost) then
      SearchState(st.pop + [cand], cand, 0, st.tau)
    else if st.stag + 1 >= 5 then
      st.(stag := 0, tau := st.tau * 2.0)
    else
      st.(stag := st.stag + 1)
  }

  /** A member new against a population is new against any part of it. */
  lemma NewAgainstPart(c: Solution, whole: seq<Solution>, part: seq<Solution>)
    requires IsNewPattern(c, whole) && multiset(part) <= multiset(whole)
    ensures IsNewPattern(c, part)
  {
    forall p | p in part
      ensures !SamePattern(c, p)
    {
      assert p in multiset(part);
    }
  }

  /** Every sub-multiset of a well-shaped population is well shaped. */
  lemma SubShaped(part: seq<Solution>, whole: seq<Solution>, nI: nat, nJ: nat)
    requires AllShaped(whole, nI, nJ) && multiset(part) <= multiset(whole)
    ensures AllShaped(part, nI, nJ)
  {
    forall m | 0 <= m < |part|
      ensures Shaped(part[m], nI, nJ)
    {
      assert part[m] in multiset(whole);
      var k :| 0 <= k < |whole| && whole[k] == part[m];
    }
  }

  /** Base and subsample drawn from the elite of a well-shaped population are well shaped. */
  lemma PickShaped(pop: seq<Solution>, nBest: int, nI: nat, nJ: nat, rng: nat -> nat, t: nat)
    requires AllShaped(pop, nI, nJ)
    requires ChooseBaseAndSample(Elite(pop, nBest), rng, t).Ok?
    ensures Shaped(ChooseBaseAndSample(Elite(pop, nBest), rng, t).value.0, nI, nJ)
    ensures AllShaped(ChooseBaseAndSample(Elite(pop, nBest), rng, t).value.1, nI, nJ)
  {
    var sn := Elite(pop, nBest);
    var pick := ChooseBaseAndSample(sn, rng, t).value;
    assert AllShaped(sn, nI, nJ);
    SubShaped(pick.1, sn, nI, nJ);
    var k :| 0 <= k < |sn| && sn[k] == pick.0;
  }

  /**
   * The acceptance rule applied to the sorted population `pop` keeps the search invariant
   * and the shapes, never raises the best cost, never shortens the time limit, and either
   * leaves population and best alone or appends `cand` as the new best.
   */
  lemma AcceptSorted(st: SearchState, pop: seq<Solution>, cand: Solution, nI: nat, nJ: nat)
    requires SearchInvariant(st) && AllShaped(st.pop, nI, nJ) && Shaped(cand, nI, nJ)
    requires multiset(pop) == multiset(st.pop)
    ensures SearchInvariant(st.(pop := pop))
    ensures var next := Accept(st.(pop := pop), cand);
      && SearchInvariant(next) && AllShaped(next.pop, nI, nJ)
      && Le(next.best.cost, st.best.cost)
      && (0.0 <= st.tau ==> st.tau <= next.tau)
      && ((|next.pop| == |pop| && multiset(next.pop) == multiset(st.pop) && next.best == st.best) ||
          (|next.pop| > |pop| && multiset(next.pop) == multiset(st.pop) + multiset{cand} && next.best == cand &&
           IsNewPattern(cand, st.pop) && Lt(cand.cost, st.best.cost)))
    ensures |Accept(st.(pop := pop), cand).pop| > |pop| <==> IsNewPattern(cand, st.pop) && Improves(cand.cost, st.best.cost)
  {
    SubMembers(pop, st.pop);
    SubMembers(st.pop, pop);
    SubShaped(pop, st.pop, nI, nJ);
    var next := Accept(st.(pop := pop), cand);
    if next.pop != pop {
      assert next.pop == pop + [cand];
      assert multiset(pop + [cand]) == multiset(st.pop) + multiset{cand};
      NewAgainstPart(cand, pop, st.pop);
    }
    if IsNewPattern(cand, st.pop) {
      NewAgainstPart(cand, st.pop, pop);
    }
  }

  /**
   * What one iteration draws, for an elite of at least 2: a base from the elite and a
   * subsample of 2 or more of its members without replacement; `build_fixed_set` raises
   * exactly for a negative size and for size 0 with unequal agreement counts; and when it
   * returns, the candidate is the oracle's solution with the fixed set it built.
   */
  ghost predicate Drawn(inst: Instance, st: SearchState, nBest: int, size: int, res: Result<SearchState>,
                        cand: Solution, base: Solution, skn: seq<Solution>, fixed: FixedSet, solve: MipSolver)
  {
    2 <= EliteSize(|st.pop|, nBest) ==>
      && base in Elite(SortBy(st.pop, CostKey), nBest)
      && multiset(skn) <= multiset(Elite(SortBy(st.pop, CostKey), nBest)) && 2 <= |skn|
      && Shaped(base, |inst.f|, |inst.g|) && AllShaped(skn, |inst.f|, |inst.g|)
      && ((res.Err? && res.error != ZeroDivision) <==>
          size < 0 || (size == 0 && !AgreeEqually(base, skn, |inst.f|, |inst.g|)))
      && (res.Ok? || res == Err(ZeroDivision) ==>
          && FixedFrom(fixed, base, skn, size, |inst.f|, |inst.g|)
          && cand == SolveFullMip(inst, Some(st.tau), fixed, solve))
  }

  /**
   * One iteration of the `for it in range(max_iter)` loop: sort `P` by cost, take the
   * elite, draw a base and a subsample, build the fixed set, let the oracle solve with
   * time limit `tau`, and apply the acceptance rule.  `cand` is the oracle's solution;
   * `base`, `skn` and `fixed` are the drawn base, the subsample and the fixed set.
   * The iteration raises when the elite is too small to draw from, when `build_fixed_set`
   * raises on `size`, and when printing the improvement divides by an initial best cost of 0.
   */
  method Iterate(inst: Instance, st: SearchState, nBest: int, size: int, bestInitial: ExtReal,
                 solve: MipSolver, rng: nat -> nat, t0: nat)
    returns (res: Result<SearchState>, cand: Solution, t: nat,
             ghost base: Solution, ghost skn: seq<Solution>, ghost fixed: FixedSet)
    requires SearchInvariant(st) && AllShaped(st.pop, |inst.f|, |inst.g|)
    ensures t > t0
    ensures res.Ok? ==> SearchInvariant(res.value) && AllShaped(res.value.pop, |inst.f|, |inst.g|)
    ensures res.Ok? ==> Le(res.value.best.cost, st.best.cost)
    ensures res.Ok? ==> 0.0 <= st.tau ==> st.tau <= res.value.tau
    ensures res.Ok? ==>
      (multiset(res.value.pop) == multiset(st.pop) && res.value.best == st.best) ||
      (multiset(res.value.pop) == multiset(st.pop) + multiset{cand} && res.value.best == cand &&
       IsNewPattern(cand, st.pop) && Lt(cand.cost, st.best.cost))
    ensures res.Err? ==> res.error == IndexOutOfRange || res.error == BadSampleSize || res.error == ZeroDivision
    ensures res.Err? && res.error != ZeroDivision ==> EliteSize(|st.pop|, nBest) < 2 || size <= 0
    ensures EliteSize(|st.pop|, nBest) < 2 || size < 0 ==> res.Err? && res.error != ZeroDivision
    ensures Drawn(inst, st, nBest, size, res, cand, base, skn, fixed, solve)
    ensures res == Err(ZeroDivision) <==>
      && 2 <= EliteSize(|st.pop|, nBest)
      && !(size < 0 || (size == 0 && !AgreeEqually(base, skn, |inst.f|, |inst.g|)))
      && bestInitial == Fin(0.0) && IsNewPattern(cand, st.pop) && Improves(cand.cost, st.best.cost)
    ensures res.Ok? ==> RoundOk(inst, nBest, size, solve, st, Round(base, skn, fixed, cand), res.value)
  {
    var pop := SortBy(st.pop, CostKey);
    var nI, nJ := |inst.f|, |inst.g|;
    base, skn, fixed := st.best, [], FixedSet(map[], map[]);
    var pick := ChooseBaseAndSample(Elite(pop, nBest), rng, t0);
    if pick.Err? {
      return Err(pick.error), st.best, t0 + 1, base, skn, fixed;
    }
    SubShaped(pop, st.pop, nI, nJ);
    PickShaped(pop, nBest, nI, nJ, rng, t0);
    var b, sk := pick.value.0, pick.value.1;
    base, skn := b, sk;
    t := t0 + 2 + |sk|;
    var built := BuildFixedSet(b, sk, size, nI, nJ, rng, t);
    BuildFixedSetOk(b, sk, size, nI, nJ, rng, t);
    if built.Err? {
      return Err(built.error), st.best, t, base, skn, fixed;
    }
    var fx := built.value;
    fixed := fx;
    BuildFixedSetFrom(b, sk, size, nI, nJ, rng, t);
    t := t + nI + nJ;
    cand := SolveFullMip(inst, Some(st.tau), fx, solve);
    AcceptSorted(st, pop, cand, nI, nJ);
    var next := Accept(st.(pop := pop), cand);
    if |next.pop| > |pop| && bestInitial == Fin(0.0) {
      return Err(ZeroDivision), cand, t, base, skn, fixed;
    }
    res := Ok(next);
  }

  /** One completed iteration: the drawn base and subsample, the fixed set built from them, and the oracle's candidate. */
  datatype Round = Round(base: Solution, skn: seq<Solution>, fixed: FixedSet, cand: Solution)

  /**
   * The iterations of a search: `states[k]` is the state before iteration `k` and
   * `states[k + 1]` the state after it; `raised` is the draw of the iteration that raised,
   * if one did: in `build_fixed_set`, or while printing the improvement.
   */
  datatype History = History(states: seq<SearchState>, rounds: seq<Round>, raised: Round)

  /** Sorting the population keeps the search invariant. */
  lemma SortedInvariant(st: SearchState)
    requires SearchInvariant(st)
    ensures SearchInvariant(st.(pop := SortBy(st.pop, CostKey)))
  {
    var pop := SortBy(st.pop, CostKey);
    assert st.best in multiset(pop);
    forall s | s in pop
      ensures Le(st.best.cost, s.cost)
    {
      assert s in multiset(st.pop);
    }
  }

  /**
   * Iteration `r` led from `before` to `after`: the elite had at least 2 members, base and
   * subsample were drawn from it, `build_fixed_set` returned a fixed set with the
   * properties of `FixedFrom`, the candidate is the oracle's answer with time limit `tau`
   * for that set, and `after` is the acceptance rule applied to the sorted population.
   */
  ghost predicate RoundOk(inst: Instance, nBest: int, size: int, solve: MipSolver,
                          before: SearchState, r: Round, after: SearchState)
  {
    && RoundSolved(inst, nBest, size, solve, before, r)
    && SearchInvariant(before)
    && (SortedInvariant(before); after == Accept(before.(pop := SortBy(before.pop, CostKey)), r.cand))
  }

  /**
   * Iteration `r` from `before` reached the oracle: the elite had at least 2 members, base
   * and subsample were drawn from it, `build_fixed_set` returned a fixed set with the
   * properties of `FixedFrom`, and the candidate is the oracle's answer with time limit
   * `tau` for that set.
   */
  ghost predicate RoundSolved(inst: Instance, nBest: int, size: int, solve: MipSolver, before: SearchState, r: Round) {
    var elite := Elite(SortBy(before.pop, CostKey), nBest);
    && 2 <= |elite|
    && r.base in elite && multiset(r.skn) <= multiset(elite) && 2 <= |r.skn|
    && Shaped(r.base, |inst.f|, |inst.g|) && AllShaped(r.skn, |inst.f|, |inst.g|)
    && FixedFrom(r.fixed, r.base, r.skn, size, |inst.f|, |inst.g|)
    && r.cand == SolveFullMip(inst, Some(before.tau), r.fixed, solve)
  }

  /**
   * Iteration `r` from `before` raised while printing the improvement: it reached the
   * oracle, and the acceptance rule took the candidate.
   */
  ghost predicate RoundRaised(inst: Instance, nBest: int, size: int, solve: MipSolver, before: SearchState, r: Round) {
    && RoundSolved(inst, nBest, size, solve, before, r)
    && IsNewPattern(r.cand, before.pop) && Improves(r.cand.cost, before.best.cost)
  }

  /**
   * In a completed iteration the population grows exactly when the candidate's pattern is
   * new and it beats the best by more than 1e-6; it then becomes the best, and otherwise
   * population and best stay as they were, up to order.
   */
  lemma RoundGrowth(inst: Instance, nBest: int, size: int, solve: MipSolver,
                    before: SearchState, r: Round, after: SearchState)
    requires RoundOk(inst, nBest, size, solve, before, r, after)
    ensures |after.pop| > |before.pop| <==> IsNewPattern(r.cand, before.pop) && Improves(r.cand.cost, before.best.cost)
    ensures |after.pop| > |before.pop| ==> after.pop == SortBy(before.pop, CostKey) + [r.cand] && after.best == r.cand
    ensures |after.pop| <= |before.pop| ==> multiset(after.pop) == multiset(before.pop) && after.best == before.best
  {
    var pop := SortBy(before.pop, CostKey);
    SortedInvariant(before);
    if IsNewPattern(r.cand, pop) {
      NewAgainstPart(r.cand, pop, before.pop);
    }
    if IsNewPattern(r.cand, before.pop) {
      NewAgainstPart(r.cand, before.pop, pop);
    }
  }

  /** An iteration whose `build_fixed_set` raised: base and subsample came from the elite, and the size was refused. */
  ghost predicate DrawRefused(inst: Instance, before: SearchState, nBest: int, size: int, r: Round) {
    var elite := Elite(SortBy(before.pop, CostKey), nBest);
    && r.base in elite && multiset(r.skn) <= multiset(elite) && 2 <= |r.skn|
    && Shaped(r.base, |inst.f|, |inst.g|) && AllShaped(r.skn, |inst.f|, |inst.g|)
    && (size < 0 || (size == 0 && !AgreeEqually(r.base, r.skn, |inst.f|, |inst.g|)))
  }

  /** Iteration `k` of the history is a completed one, from state `k` to state `k + 1`. */
  ghost predicate RoundAt(inst: Instance, nBest: int, size: int, solve: MipSolver, h: History, k: nat)
    requires k < |h.rounds| && |h.states| == |h.rounds| + 1
  {
    RoundOk(inst, nBest, size, solve, h.states[k], h.rounds[k], h.states[k + 1])
  }

  /** Every recorded iteration of the history is a completed one. */
  ghost predicate Chain(inst: Instance, nBest: int, size: int, solve: MipSolver, h: History) {
    && |h.states| == |h.rounds| + 1
    && forall k: nat :: k < |h.rounds| ==> RoundAt(inst, nBest, size, solve, h, k)
  }

  /**
   * The candidates of the first `n` iterations that the acceptance rule took, in order: a
   * new pattern against the population before the iteration, and an improvement on its
   * best by more than 1e-6.  `AcceptedAppend` and `TraceStep` prove that these are exactly
   * the iterations at which the population grew.
   */
  ghost function Accepted(h: History, n: nat): (r: seq<Solution>)
    requires n <= |h.rounds| && |h.states| == |h.rounds| + 1
    ensures |r| <= n
  {
    if n == 0 then []
    else
      var before, cand := h.states[n - 1], h.rounds[n - 1].cand;
      Accepted(h, n - 1) + (if IsNewPattern(cand, before.pop) && Improves(cand.cost, before.best.cost) then [cand] else [])
  }

  /** The accepted candidates of the first `n` iterations do not depend on the later ones. */
  lemma {:induction false} AcceptedPrefix(h: History, h': History, n: nat)
    requires n <= |h.rounds| <= |h'.rounds| && |h.states| == |h.rounds| + 1 && |h'.states| == |h'.rounds| + 1
    requires h'.states[..|h.states|] == h.states && h'.rounds[..|h.rounds|] == h.rounds
    ensures Accepted(h', n) == Accepted(h, n)
  {
    if n > 0 {
      AcceptedPrefix(h, h', n - 1);
      assert h'.states[n] == h.states[n] && h'.states[n - 1] == h.states[n - 1];
      assert h'.rounds[n - 1] == h.rounds[n - 1];
    }
  }

  /** An iteration recorded at the same position of another history, with the same states around it, is completed there too. */
  lemma RoundAtKept(inst: Instance, nBest: int, size: int, solve: MipSolver, h: History, h': History, k: nat)
    requires k < |h.rounds| && |h.states| == |h.rounds| + 1
    requires k < |h'.rounds| && |h'.states| == |h'.rounds| + 1
    requires h'.states[k] == h.states[k] && h'.rounds[k] == h.rounds[k] && h'.states[k + 1] == h.states[k + 1]
    requires RoundAt(inst, nBest, size, solve, h, k)
    ensures RoundAt(inst, nBest, size, solve, h', k)
  {
  }

  /** The completed iterations of a history stay completed in any history that extends it. */
  lemma {:induction false} ChainKept(inst: Instance, nBest: int, size: int, solve: MipSolver, h: History, h': History)
    requires Chain(inst, nBest, size, solve, h)
    requires |h.rounds| <= |h'.rounds| && |h'.states| == |h'.rounds| + 1
    requires h'.states[..|h.states|] == h.states && h'.rounds[..|h.rounds|] == h.rounds
    ensures forall k: nat :: k < |h.rounds| ==> RoundAt(inst, nBest, size, solve, h', k)
  {
    forall k: nat | k < |h.rounds|
      ensures RoundAt(inst, nBest, size, solve, h', k)
    {
      assert h'.states[k] == h.states[k] && h'.rounds[k] == h.rounds[k] && h'.states[k + 1] == h.states[k + 1];
      RoundAtKept(inst, nBest, size, solve, h, h', k);
    }
  }

  /** A completed iteration placed at position `k` of a history is recorded there as completed. */
  lemma RoundAtPlaced(inst: Instance, nBest: int, size: int, solve: MipSolver, h: History, k: nat,
                      before: SearchState, r: Round, after: SearchState)
    requires k < |h.rounds| && |h.states| == |h.rounds| + 1
    requires h.states[k] == before && h.rounds[k] == r && h.states[k + 1] == after
    requires RoundOk(inst, nBest, size, solve, before, r, after)
    ensures RoundAt(inst, nBest, size, solve, h, k)
  {
  }

  /** One more iteration extends the accepted candidates by its own when the rule takes it. */
  lemma AcceptedAppend(h: History, r: Round, next: SearchState)
    requires |h.states| == |h.rounds| + 1
    ensures var before := h.states[|h.rounds|];
      Accepted(History(h.states + [next], h.rounds + [r], h.raised), |h.rounds| + 1) ==
      Accepted(h, |h.rounds|) +
        (if IsNewPattern(r.cand, before.pop) && Improves(r.cand.cost, before.best.cost) then [r.cand] else [])
  {
    var h' := History(h.states + [next], h.rounds + [r], h.raised);
    assert h'.states[..|h.states|] == h.states && h'.rounds[..|h.rounds|] == h.rounds;
    AcceptedPrefix(h, h', |h.rounds|);
    assert h'.rounds[|h.rounds|] == r && h'.states[|h.rounds|] == h.states[|h.rounds|];
  }

  /** One more completed iteration extends the history. */
  lemma {:induction false} ChainAppend(inst: Instance, nBest: int, size: int, solve: MipSolver, h: History, r: Round, next: SearchState)
    requires Chain(inst, nBest, size, solve, h)
    requires RoundOk(inst, nBest, size, solve, h.states[|h.rounds|], r, next)
    ensures Chain(inst, nBest, size, solve, History(h.states + [next], h.rounds + [r], h.raised))
  {
    var h' := History(h.states + [next], h.rounds + [r], h.raised);
    assert h'.states[..|h.states|] == h.states && h'.rounds[..|h.rounds|] == h.rounds;
    ChainKept(inst, nBest, size, solve, h, h');
    RoundAtPlaced(inst, nBest, size, solve, h', |h.rounds|, h.states[|h.rounds|], r, next);
  }

  /**
   * After `it` completed iterations of a search started from `initial`: the history records
   * them, ends in the current state `st`, and `added` holds the accepted candidates.
   */
  ghost predicate Trace(inst: Instance, nBest: int, size: int, solve: MipSolver, initial: seq<Solution>,
                        tinit: real, st: SearchState, it: nat, added: seq<Solution>, h: History)
    requires 1 <= |initial|
  {
    && Chain(inst, nBest, size, solve, h) && |h.rounds| == it
    && h.states[0] == SearchState(initial, FirstMin(initial), 0, tinit) && h.states[it] == st
    && added == Accepted(h, |h.rounds|)
  }

  /** A completed iteration extends the trace; the population changes exactly when the rule takes the candidate. */
  lemma {:induction false} TraceStep(inst: Instance, nBest: int, size: int, solve: MipSolver, initial: seq<Solution>, tinit: real,
                  st: SearchState, it: nat, added: seq<Solution>, h: History, r: Round, next: SearchState)
    requires 1 <= |initial| && Trace(inst, nBest, size, solve, initial, tinit, st, it, added, h)
    requires RoundOk(inst, nBest, size, solve, st, r, next)
    ensures multiset(next.pop) != multiset(st.pop) <==> IsNewPattern(r.cand, st.pop) && Improves(r.cand.cost, st.best.cost)
    ensures Trace(inst, nBest, size, solve, initial, tinit, next, it + 1,
                  if IsNewPattern(r.cand, st.pop) && Improves(r.cand.cost, st.best.cost) then added + [r.cand] else added,
                  History(h.states + [next], h.rounds + [r], h.raised))
  {
    RoundGrowth(inst, nBest, size, solve, st, r, next);
    if |next.pop| > |st.pop| {
      assert |multiset(next.pop)| == |next.pop|;
    }
    ChainAppend(inst, nBest, size, solve, h, r, next);
    AcceptedAppend(h, r, next);
    assert (h.states + [next])[0] == h.states[0] && (h.states + [next])[it + 1] == next;
  }

  /**
   * An iteration that raised leaves the trace as it was, with its draw recorded; when it
   * raised in `build_fixed_set` on an elite of at least 2, that draw refused the size, and
   * when it raised after the rule took its candidate, the draw reached the oracle.
   */
  lemma {:induction false} TraceRefused(inst: Instance, nBest: int, size: int, solve: MipSolver, initial: seq<Solution>, tinit: real,
                     st: SearchState, it: nat, added: seq<Solution>, h: History,
                     res: Result<SearchState>, cand: Solution, base: Solution, skn: seq<Solution>, fixed: FixedSet)
    requires 1 <= |initial| && Trace(inst, nBest, size, solve, initial, tinit, st, it, added, h)
    requires Drawn(inst, st, nBest, size, res, cand, base, skn, fixed, solve)
    requires res == Err(ZeroDivision) ==>
      2 <= EliteSize(|st.pop|, nBest) && IsNewPattern(cand, st.pop) && Improves(cand.cost, st.best.cost)
    ensures Trace(inst, nBest, size, solve, initial, tinit, st, it, added, h.(raised := Round(base, skn, fixed, cand)))
    ensures res.Err? && res.error != ZeroDivision && 2 <= EliteSize(|st.pop|, nBest) ==>
      DrawRefused(inst, st, nBest, size, Round(base, skn, fixed, cand))
    ensures res == Err(ZeroDivision) ==> RoundRaised(inst, nBest, size, solve, st, Round(base, skn, fixed, cand))
  {
    var h' := h.(raised := Round(base, skn, fixed, cand));
    assert h'.states[..|h.states|] == h.states && h'.rounds[..|h.rounds|] == h.rounds;
    ChainKept(inst, nBest, size, solve, h, h');
    AcceptedPrefix(h, h', |h.rounds|);
  }

  /** A longer population has at least as large an elite. */
  lemma EliteSizeMonotone(a: nat, b: nat, nBest: int)
    requires a <= b
    ensures EliteSize(a, nBest) <= EliteSize(b, nBest)
  {
  }

  /** Appending a well-shaped solution keeps a population well shaped. */
  lemma AppendShaped(ss: seq<Solution>, x: Solution, nI: nat, nJ: nat)
    requires AllShaped(ss, nI, nJ) && Shaped(x, nI, nJ)
    ensures AllShaped(ss + [x], nI, nJ)
  {
    assert forall m :: 0 <= m < |ss| ==> (ss + [x])[m] == ss[m];
  }

  /**
   * What the search keeps true about the current state `st`, the greedy population
   * `initial` and the solutions `added` so far: the state's population is the two together,
   * its best is the latest addition (or the greedy best), each addition strictly improves
   * on the one before and has a pattern new against everything before it.
   */
  ghost predicate Tracks(st: SearchState, initial: seq<Solution>, added: seq<Solution>, nI: nat, nJ: nat)
    requires 1 <= |initial|
  {
    && SearchInvariant(st) && AllShaped(st.pop, nI, nJ) && AllShaped(added, nI, nJ)
    && multiset(st.pop) == multiset(initial + added)
    && st.best == (if added == [] then FirstMin(initial) else added[|added| - 1])
    && (added != [] ==> Lt(added[0].cost, FirstMin(initial).cost))
    && Descending(added)
    && (forall k :: 0 <= k < |added| ==> IsNewPattern(added[k], initial + added[..k]))
  }

  /** A rejected candidate leaves population and best alone, so `Tracks` holds unchanged. */
  lemma TracksKeep(st: SearchState, next: SearchState, initial: seq<Solution>, added: seq<Solution>, nI: nat, nJ: nat)
    requires 1 <= |initial| && Tracks(st, initial, added, nI, nJ)
    requires SearchInvariant(next) && AllShaped(next.pop, nI, nJ)
    requires multiset(next.pop) == multiset(st.pop) && next.best == st.best
    ensures Tracks(next, initial, added, nI, nJ)
  {
  }

  /** Under `Tracks` the current best costs no more than any greedy or appended solution. */
  lemma TracksBest(st: SearchState, initial: seq<Solution>, added: seq<Solution>, nI: nat, nJ: nat)
    requires 1 <= |initial| && Tracks(st, initial, added, nI, nJ)
    ensures forall s :: s in initial + added ==> Le(st.best.cost, s.cost)
  {
    SubMembers(initial + added, st.pop);
  }

  /** The costs along `ss` strictly decrease from each member to the next. */
  ghost predicate Descending(ss: seq<Solution>) {
    |ss| <= 1 || (Lt(ss[1].cost, ss[0].cost) && Descending(ss[1..]))
  }

  /** Along a `Descending` sequence every later member costs strictly less than every earlier one. */
  lemma {:induction false} DescendingPairwise(ss: seq<Solution>, j: nat, k: nat)
    requires Descending(ss) && j < k < |ss|
    ensures Lt(ss[k].cost, ss[j].cost)
  {
    if j == 0 {
      if k > 1 {
        DescendingPairwise(ss[1..], 0, k - 1);
      }
    } else {
      DescendingPairwise(ss[1..], j - 1, k - 1);
    }
  }

  /** Appending a cost below the last one keeps the costs strictly decreasing. */
  lemma {:induction false} DescendingAppend(added: seq<Solution>, cand: Solution, last: Solution)
    requires Descending(added)
    requires added != [] ==> last == added[|added| - 1]
    requires Lt(cand.cost, last.cost)
    ensures Descending(added + [cand])
  {
    if added != [] {
      assert (added + [cand])[1..] == added[1..] + [cand];
      DescendingAppend(added[1..], cand, last);
    }
  }

  /** Appending a pattern new against the whole current population keeps every addition new against what preceded it. */
  lemma NewChainAppend(initial: seq<Solution>, added: seq<Solution>, cand: Solution, pop: seq<Solution>)
    requires forall k :: 0 <= k < |added| ==> IsNewPattern(added[k], initial + added[..k])
    requires IsNewPattern(cand, pop) && multiset(initial + added) <= multiset(pop)
    ensures forall k :: 0 <= k < |added + [cand]| ==> IsNewPattern((added + [cand])[k], initial + (added + [cand])[..k])
  {
    var a := added + [cand];
    forall k | 0 <= k < |a|
      ensures IsNewPattern(a[k], initial + a[..k])
    {
      if k == |added| {
        assert a[..k] == added;
        NewAgainstPart(cand, pop, initial + added);
      } else {
        assert a[..k] == added[..k] && a[k] == added[k];
      }
    }
  }

  /** An accepted candidate, appended to `added`, keeps `Tracks`. */
  lemma TracksAppend(st: SearchState, next: SearchState, cand: Solution, initial: seq<Solution>, added: seq<Solution>,
                     nI: nat, nJ: nat)
    requires 1 <= |initial| && Tracks(st, initial, added, nI, nJ)
    requires SearchInvariant(next) && AllShaped(next.pop, nI, nJ)
    requires multiset(next.pop) == multiset(st.pop) + multiset{cand} && next.best == cand
    requires IsNewPattern(cand, st.pop) && Lt(cand.cost, st.best.cost)
    ensures Tracks(next, initial, added + [cand], nI, nJ)
  {
    var a := added + [cand];
    assert AllShaped(a, nI, nJ) by {
      assert cand in multiset(next.pop);
      SubShaped([cand], next.pop, nI, nJ);
      AppendShaped(added, cand, nI, nJ);
    }
    assert multiset(next.pop) == multiset(initial + a) by {
      assert initial + a == (initial + added) + [cand];
    }
    DescendingAppend(added, cand, st.best);
    NewChainAppend(initial, added, cand, st.pop);
  }

  /**
   * What the recorded iterations alone imply: after the first `k` completed iterations of
   * a history that starts from the greedy population and its cheapest member, the state
   * keeps `Tracks` with the candidates that the acceptance rule took.
   */
  lemma {:induction false} ChainTracks(inst: Instance, nBest: int, size: int, solve: MipSolver,
                                       initial: seq<Solution>, tinit: real, h: History, k: nat)
    requires 1 <= |initial| && AllShaped(initial, |inst.f|, |inst.g|)
    requires Chain(inst, nBest, size, solve, h) && h.states[0] == SearchState(initial, FirstMin(initial), 0, tinit)
    requires k <= |h.rounds|
    ensures Tracks(h.states[k], initial, Accepted(h, k), |inst.f|, |inst.g|)
  {
    if k == 0 {
      StartTracks(initial, tinit, |inst.f|, |inst.g|);
    } else {
      ChainTracks(inst, nBest, size, solve, initial, tinit, h, k - 1);
      StepTracks(inst, nBest, size, solve, initial, h, k - 1);
    }
  }

  /** The search starts from the greedy population and its cheapest member, which keeps `Tracks` with nothing added. */
  lemma {:induction false} StartTracks(initial: seq<Solution>, tinit: real, nI: nat, nJ: nat)
    requires 1 <= |initial| && AllShaped(initial, nI, nJ)
    ensures Tracks(SearchState(initial, FirstMin(initial), 0, tinit), initial, [], nI, nJ)
  {
    assert initial + [] == initial;
  }

  /** The completed iteration `k` of a history carries `Tracks` from state `k` to state `k + 1`. */
  lemma {:induction false} StepTracks(inst: Instance, nBest: int, size: int, solve: MipSolver, initial: seq<Solution>, h: History, k: nat)
    requires 1 <= |initial| && Chain(inst, nBest, size, solve, h) && k < |h.rounds|
    requires Tracks(h.states[k], initial, Accepted(h, k), |inst.f|, |inst.g|)
    ensures Tracks(h.states[k + 1], initial, Accepted(h, k + 1), |inst.f|, |inst.g|)
  {
    var before, r, after := h.states[k], h.rounds[k], h.states[k + 1];
    assert RoundAt(inst, nBest, size, solve, h, k);
    RoundTracks(inst, nBest, size, solve, before, r, after, initial, Accepted(h, k));
  }

  /** One completed iteration keeps `Tracks`, adding its candidate exactly when the rule takes it. */
  lemma RoundTracks(inst: Instance, nBest: int, size: int, solve: MipSolver,
                    before: SearchState, r: Round, after: SearchState, initial: seq<Solution>, added: seq<Solution>)
    requires 1 <= |initial| && Tracks(before, initial, added, |inst.f|, |inst.g|)
    requires RoundOk(inst, nBest, size, solve, before, r, after)
    ensures Tracks(after, initial,
                   added + (if IsNewPattern(r.cand, before.pop) && Improves(r.cand.cost, before.best.cost) then [r.cand] else []),
                   |inst.f|, |inst.g|)
  {
    var nI, nJ := |inst.f|, |inst.g|;
    AcceptSorted(before, SortBy(before.pop, CostKey), r.cand, nI, nJ);
    if IsNewPattern(r.cand, before.pop) && Improves(r.cand.cost, before.best.cost) {
      TracksAppend(before, after, r.cand, initial, added, nI, nJ);
    } else {
      assert added + [] == added;
      TracksKeep(before, after, initial, added, nI, nJ);
    }
  }

  /**
   * Each member of `pop` is what `greedy_tscflp` returns after stopping in the matching
   * working state of `lasts`: every demand committed to within the tolerance, and the
   * oracle's answer, unbounded in time, for the total fixed map of the selected facilities.
   */
  ghost predicate GreedyResults(inst: Instance, solve: MipSolver, pop: seq<Solution>, lasts: seq<Greedy.WorkState>) {
    && |lasts| == |pop|
    && forall m :: 0 <= m < |pop| ==>
         && Greedy.Consistent(inst, lasts[m]) && lasts[m].totalDemand <= EPS
         && (EPS < Sum(inst.D) ==> lasts[m].selectedI != {} && lasts[m].selectedJ != {})
         && pop[m] == SolveFullMip(inst, None, Greedy.SelectionFixedSet(inst, lasts[m]), solve)
  }

  /**
   * Step 1 of `mfss`: `npop` randomised greedy solutions with RCL size 2.  `failed` is the
   * error of the first construction that raises, which ends `mfss`; `lasts` are the final
   * working states of the constructions that returned.
   */
  method Populate(inst: Instance, npop: int, solve: MipSolver, rng: nat -> nat, t0: nat)
    returns (pop: seq<Solution>, failed: Option<Failure>, t: nat, ghost lasts: seq<Greedy.WorkState>)
    requires WellFormed(inst)
    ensures AllShaped(pop, |inst.f|, |inst.g|)
    ensures GreedyResults(inst, solve, pop, lasts)
    ensures failed.None? ==> |pop| == (if npop < 0 then 0 else npop)
    ensures failed.Some? ==> |pop| < npop
    ensures failed.Some? ==> failed.value == NoPrimaryCapacity || failed.value == NoSecondaryCapacity
  {
    t := t0;
    pop, lasts := [], [];
    while |pop| < npop
      invariant 0 <= npop ==> |pop| <= npop
      invariant npop < 0 ==> pop == []
      invariant AllShaped(pop, |inst.f|, |inst.g|)
      invariant GreedyResults(inst, solve, pop, lasts)
      decreases npop - |pop|
    {
      var sol;
      ghost var last;
      sol, last, t := Greedy.Construct(inst, 2, solve, rng, t);
      if sol.Err? {
        return pop, Some(sol.error), t, lasts;
      }
      AppendShaped(pop, sol.value, |inst.f|, |inst.g|);
      GreedyResultsAppend(inst, solve, pop, lasts, sol.value, last);
      pop, lasts := pop + [sol.value], lasts + [last];
    }
    failed := None;
  }

  /** One more returned construction extends `GreedyResults`. */
  lemma GreedyResultsAppend(inst: Instance, solve: MipSolver, pop: seq<Solution>, lasts: seq<Greedy.WorkState>,
                            s: Solution, last: Greedy.WorkState)
    requires GreedyResults(inst, solve, pop, lasts)
    requires Greedy.Consistent(inst, last) && last.totalDemand <= EPS
    requires EPS < Sum(inst.D) ==> last.selectedI != {} && last.selectedJ != {}
    requires s == SolveFullMip(inst, None, Greedy.SelectionFixedSet(inst, last), solve)
    ensures GreedyResults(inst, solve, pop + [s], lasts + [last])
  {
    assert forall m :: 0 <= m < |pop| ==> (pop + [s])[m] == pop[m] && (lasts + [last])[m] == lasts[m];
  }

  /** The population only grows during the search, and so does its elite. */
  lemma TracksEliteSize(st: SearchState, initial: seq<Solution>, added: seq<Solution>, nBest: int, nI: nat, nJ: nat)
    requires 1 <= |initial| && Tracks(st, initial, added, nI, nJ)
    ensures EliteSize(|initial|, nBest) <= EliteSize(|st.pop|, nBest)
  {
    assert |st.pop| == |initial + added| by {
      assert |multiset(st.pop)| == |multiset(initial + added)|;
    }
    EliteSizeMonotone(|initial|, |st.pop|, nBest);
  }

  /** The loop invariant of the search after `it` completed iterations, ending in state `st`. */
  ghost predicate Progress(inst: Instance, initial: seq<Solution>, nBest: int, size: int, tinit: real, maxIter: int,
                           solve: MipSolver, st: SearchState, it: nat, added: seq<Solution>, h: History)
    requires 1 <= |initial|
  {
    && it <= (if maxIter < 0 then 0 else maxIter)
    && (EliteSize(|initial|, nBest) < 2 || size < 0 ==> it == 0)
    && Trace(inst, nBest, size, solve, initial, tinit, st, it, added, h)
    && (FirstMin(initial).cost == Fin(0.0) ==> added == [])
  }

  /**
   * One pass of the search loop: an iteration from state `st`, after `it` passes, with the
   * accepted candidates and the history carried along.  It either keeps the loop invariant
   * or raises, and then the search has kept its promise.
   */
  method Step(inst: Instance, initial: seq<Solution>, nBest: int, size: int, tinit: real, maxIter: int,
              bestInitial: ExtReal, solve: MipSolver, rng: nat -> nat, t0: nat, st: SearchState, it: nat,
              ghost added: seq<Solution>, ghost h: History)
    returns (res: Result<SearchState>, t: nat, ghost added': seq<Solution>, ghost h': History)
    requires 1 <= |initial| && AllShaped(initial, |inst.f|, |inst.g|)
    requires bestInitial == FirstMin(initial).cost && it < maxIter
    requires Progress(inst, initial, nBest, size, tinit, maxIter, solve, st, it, added, h)
    ensures t > t0
    ensures res.Ok? ==> Progress(inst, initial, nBest, size, tinit, maxIter, solve, res.value, it + 1, added', h')
    ensures res.Err? ==> Searched(inst, initial, nBest, size, tinit, maxIter, solve, Err(res.error), added', h')
  {
    var nI, nJ := |inst.f|, |inst.g|;
    var cand;
    ghost var base, skn, fixed;
    ChainTracks(inst, nBest, size, solve, initial, tinit, h, it);
    res, cand, t, base, skn, fixed := Iterate(inst, st, nBest, size, bestInitial, solve, rng, t0);
    TracksEliteSize(st, initial, added, nBest, nI, nJ);
    ghost var round := Round(base, skn, fixed, cand);
    if res.Err? {
      TraceRefused(inst, nBest, size, solve, initial, tinit, st, it, added, h, res, cand, base, skn, fixed);
      added', h' := added, h.(raised := round);
      SearchClosed(inst, initial, nBest, size, tinit, maxIter, solve, st, it, Err(res.error), added', h');
      return;
    }
    assert bestInitial == Fin(0.0) ==> !(IsNewPattern(cand, st.pop) && Improves(cand.cost, st.best.cost));
    TraceStep(inst, nBest, size, solve, initial, tinit, st, it, added, h, round, res.value);
    h' := History(h.states + [res.value], h.rounds + [round], h.raised);
    added' := if IsNewPattern(cand, st.pop) && Improves(cand.cost, st.best.cost) then added + [cand] else added;
  }

  /**
   * What the search loop promises for the result `res`, the accepted candidates `added` and
   * the history `h`:
   * - `h` starts from the greedy population and its cheapest member, and every recorded
   *   iteration is a completed one (`Chain`); `added` is exactly the candidates of the
   *   iterations at which the population grew;
   * - on success all `maxIter` iterations completed and the result is the best of the last
   *   state; an error ends the loop early, and an error in `build_fixed_set` comes from an
   *   elite below 2 or from a draw that refused the size;
   * - the sampling errors happen exactly when the elite is below 2 or the size is negative,
   *   or possibly when it is 0; a division by zero needs a greedy best of cost 0 and an
   *   iteration, recorded in `h.raised`, whose candidate the rule took; conversely, with a
   *   greedy best of cost 0 no completed iteration has its candidate taken, since the first
   *   candidate taken raises.
   * What success then says about the cost of the result is derived in `SearchedBest`.
   */
  ghost predicate Searched(inst: Instance, initial: seq<Solution>, nBest: int, size: int, tinit: real,
                           maxIter: int, solve: MipSolver, res: Result<Solution>, added: seq<Solution>,
                           h: History)
    requires 1 <= |initial|
  {
    && Chain(inst, nBest, size, solve, h) && h.states[0] == SearchState(initial, FirstMin(initial), 0, tinit)
    && added == Accepted(h, |h.rounds|)
    && (res.Ok? ==> |h.rounds| == (if maxIter < 0 then 0 else maxIter) && res.value == h.states[|h.rounds|].best)
    && (res.Err? ==> |h.rounds| < maxIter)
    && (res.Err? && res.error != ZeroDivision ==>
          EliteSize(|h.states[|h.rounds|].pop|, nBest) < 2 || DrawRefused(inst, h.states[|h.rounds|], nBest, size, h.raised))
    && (res.Err? ==> res.error == IndexOutOfRange || res.error == BadSampleSize || res.error == ZeroDivision)
    && (res.Err? && res.error != ZeroDivision ==> 1 <= maxIter && (EliteSize(|initial|, nBest) < 2 || size <= 0))
    && (1 <= maxIter && (EliteSize(|initial|, nBest) < 2 || size < 0) ==> res.Err? && res.error != ZeroDivision)
    && (res == Err(ZeroDivision) ==>
          FirstMin(initial).cost == Fin(0.0) && RoundRaised(inst, nBest, size, solve, h.states[|h.rounds|], h.raised))
    && (FirstMin(initial).cost == Fin(0.0) ==> added == [])
  }

  /**
   * What a successful search promises about its result, from its history alone: the result
   * is the last accepted candidate or the greedy best, it costs no more than any greedy or
   * accepted solution, each accepted candidate is strictly cheaper than the one before, the
   * first strictly cheaper than the greedy best, and each has a pattern new against
   * everything before it.
   */
  lemma {:induction false} SearchedBest(inst: Instance, initial: seq<Solution>, nBest: int, size: int, tinit: real, maxIter: int,
                     solve: MipSolver, best: Solution, added: seq<Solution>, h: History)
    requires 1 <= |initial| && AllShaped(initial, |inst.f|, |inst.g|)
    requires Searched(inst, initial, nBest, size, tinit, maxIter, solve, Ok(best), added, h)
    ensures AllShaped(added, |inst.f|, |inst.g|)
    ensures |added| <= (if maxIter < 0 then 0 else maxIter)
    ensures best == (if added == [] then FirstMin(initial) else added[|added| - 1])
    ensures forall s :: s in initial + added ==> Le(best.cost, s.cost)
    ensures added != [] ==> Lt(added[0].cost, FirstMin(initial).cost)
    ensures Descending(added)
    ensures forall k :: 0 <= k < |added| ==> IsNewPattern(added[k], initial + added[..k])
  {
    ChainTracks(inst, nBest, size, solve, initial, tinit, h, |h.rounds|);
    TracksBest(h.states[|h.rounds|], initial, added, |inst.f|, |inst.g|);
  }

  /**
   * The loop ended in state `st` after `it` iterations, with result `res`: either all
   * iterations completed and `res` is the best of `st`, or the iteration from `st` raised.
   * Either way the search promise holds.
   */
  lemma {:induction false} SearchClosed(inst: Instance, initial: seq<Solution>, nBest: int, size: int, tinit: real, maxIter: int,
                     solve: MipSolver, st: SearchState, it: nat, res: Result<Solution>, added: seq<Solution>,
                     h: History)
    requires 1 <= |initial|
    requires Trace(inst, nBest, size, solve, initial, tinit, st, it, added, h)
    requires it <= (if maxIter < 0 then 0 else maxIter)
    requires EliteSize(|initial|, nBest) <= EliteSize(|st.pop|, nBest)
    requires EliteSize(|initial|, nBest) < 2 || size < 0 ==> it == 0
    requires res.Ok? ==> it == (if maxIter < 0 then 0 else maxIter) && res.value == st.best
    requires res.Err? ==> it < maxIter
    requires res.Err? ==> res.error == IndexOutOfRange || res.error == BadSampleSize || res.error == ZeroDivision
    requires res.Err? && res.error == ZeroDivision ==> FirstMin(initial).cost == Fin(0.0)
    requires res == Err(ZeroDivision) ==> RoundRaised(inst, nBest, size, solve, st, h.raised)
    requires res.Err? && res.error != ZeroDivision ==> EliteSize(|st.pop|, nBest) < 2 || size <= 0
    requires res.Err? ==> (EliteSize(|st.pop|, nBest) < 2 || size < 0 ==> res.error != ZeroDivision)
    requires res.Err? && res.error != ZeroDivision && 2 <= EliteSize(|st.pop|, nBest) ==>
      DrawRefused(inst, st, nBest, size, h.raised)
    requires FirstMin(initial).cost == Fin(0.0) ==> added == []
    ensures Searched(inst, initial, nBest, size, tinit, maxIter, solve, res, added, h)
  {
    assert res.Ok? ==> res.value == h.states[|h.rounds|].best;
  }

  /** Before the first iteration the loop invariant holds, with nothing added and an empty history. */
  lemma {:induction false} SearchStart(inst: Instance, initial: seq<Solution>, nBest: int, size: int, tinit: real, maxIter: int,
                    solve: MipSolver)
    requires 1 <= |initial| && AllShaped(initial, |inst.f|, |inst.g|)
    ensures var st := SearchState(initial, FirstMin(initial), 0, tinit);
      Progress(inst, initial, nBest, size, tinit, maxIter, solve, st, 0, [],
               History([st], [], Round(FirstMin(initial), [], FixedSet(map[], map[]), FirstMin(initial))))
  {
    assert initial + [] == initial;
  }

  /** The loop ran all its iterations, ending in state `st`: the search promise holds for the best of `st`. */
  lemma {:induction false} SearchDone(inst: Instance, initial: seq<Solution>, nBest: int, size: int, tinit: real, maxIter: int,
                   solve: MipSolver, st: SearchState, it: nat, added: seq<Solution>, h: History)
    requires 1 <= |initial| && AllShaped(initial, |inst.f|, |inst.g|) && maxIter <= it
    requires Progress(inst, initial, nBest, size, tinit, maxIter, solve, st, it, added, h)
    ensures Searched(inst, initial, nBest, size, tinit, maxIter, solve, Ok(st.best), added, h)
  {
    ChainTracks(inst, nBest, size, solve, initial, tinit, h, it);
    TracksEliteSize(st, initial, added, nBest, |inst.f|, |inst.g|);
    SearchClosed(inst, initial, nBest, size, tinit, maxIter, solve, st, it, Ok(st.best), added, h);
  }

  /**
   * Step 2 of `mfss`: `maxIter` iterations from the population `initial`; `added` lists the
   * appended solutions and `h` records every iteration: its draw, its fixed set, the
   * oracle's candidate and the state after it.  A negative `size` makes the first iteration
   * raise.
   */
  method Search(inst: Instance, initial: seq<Solution>, nBest: int, size: int, tinit: real, maxIter: int,
                solve: MipSolver, rng: nat -> nat, t0: nat)
    returns (res: Result<Solution>, ghost added: seq<Solution>, ghost h: History)
    requires 1 <= |initial| && AllShaped(initial, |inst.f|, |inst.g|)
    ensures Searched(inst, initial, nBest, size, tinit, maxIter, solve, res, added, h)
  {
    var best := FirstMin(initial);
    var st := SearchState(initial, best, 0, tinit);
    var t := t0;
    var it := 0;
    added := [];
    h := History([st], [], Round(best, [], FixedSet(map[], map[]), best));
    SearchStart(inst, initial, nBest, size, tinit, maxIter, solve);
    while it < maxIter
      invariant Progress(inst, initial, nBest, size, tinit, maxIter, solve, st, it, added, h)
    {
      var r;
      r, t, added, h := Step(inst, initial, nBest, size, tinit, maxIter, best.cost, solve, rng, t, st, it, added, h);
      if r.Err? {
        return Err(r.error), added, h;
      }
      st := r.value;
      it := it + 1;
    }
    SearchDone(inst, initial, nBest, size, tinit, maxIter, solve, st, it, added, h);
    res := Ok(st.best);
  }

  /**
   * The outcome of an `mfss` run that fixes `size` facilities per iteration, given the greedy
   * population `initial` (with the final working states `lasts` of its constructions), the
   * solutions `added` to it and the history `h` of the search: an empty population raises,
   * a greedy error ends the run with fewer than `npop` solutions, and a full population
   * goes through the search, which keeps its promise `Searched`.
   */
  ghost predicate Outcome(inst: Instance, npop: int, nBest: int, size: int, tinit: real, maxIter: int,
                          solve: MipSolver, res: Result<Solution>, initial: seq<Solution>,
                          lasts: seq<Greedy.WorkState>, added: seq<Solution>, h: History)
  {
    && (npop <= 0 <==> res == Err(EmptyPopulation))
    && (npop <= 0 ==> initial == [])
    && (0 <= npop ==> |initial| <= npop)
    && AllShaped(initial, |inst.f|, |inst.g|) && GreedyResults(inst, solve, initial, lasts)
    && ((res.Err? && (res.error == NoPrimaryCapacity || res.error == NoSecondaryCapacity)) <==> |initial| < npop)
    && (res.Ok? || res.error == IndexOutOfRange || res.error == BadSampleSize || res.error == ZeroDivision ==>
          1 <= npop && |initial| == npop)
    && (1 <= npop && |initial| == npop ==>
          Searched(inst, initial, nBest, size, tinit, maxIter, solve, res, added, h))
  }

  /**
   * A run with a given number of facilities to fix: the greedy population drawn from the
   * stream reset to position 0 by `random.seed(0)`, then the search.
   */
  method Run(inst: Instance, npop: int, nBest: int, size: int, tinit: real, maxIter: int,
             solve: MipSolver, rng: nat -> nat)
    returns (res: Result<Solution>, ghost initial: seq<Solution>, ghost lasts: seq<Greedy.WorkState>,
             ghost added: seq<Solution>, ghost h: History)
    requires WellFormed(inst)
    ensures Outcome(inst, npop, nBest, size, tinit, maxIter, solve, res, initial, lasts, added, h)
  {
    var pop, failed, t;
    pop, failed, t, lasts := Populate(inst, npop, solve, rng, 0);
    initial := pop;
    added := [];
    h := History([], [], Round(Solution(PosInf, [], []), [], FixedSet(map[], map[]), Solution(PosInf, [], [])));
    if failed.Some? {
      return Err(failed.value), initial, lasts, added, h;
    }
    if |pop| == 0 {
      return Err(EmptyPopulation), initial, lasts, added, h;
    }
    res, added, h := Search(inst, pop, nBest, size, tinit, maxIter, solve, rng, t);
  }

  /**
   * `mfss` as written: it fixes `min(total_fac - 1, total_fac - Sizemax)` facilities, so with
   * `Sizemax` above the number of facilities every run that reaches the search raises in
   * its first iteration.
   */
  method Mfss(inst: Instance, npop: int, nBest: int, sizeMax: int, tinit: real, maxIter: int,
              solve: MipSolver, rng: nat -> nat)
    returns (res: Result<Solution>, ghost initial: seq<Solution>, ghost lasts: seq<Greedy.WorkState>,
             ghost added: seq<Solution>, ghost h: History)
    requires WellFormed(inst)
    ensures Outcome(inst, npop, nBest, FixedSetSizeAsWritten(|inst.f|, |inst.g|, sizeMax), tinit, maxIter,
                    solve, res, initial, lasts, added, h)
    ensures |inst.f| + |inst.g| < sizeMax && 1 <= maxIter && 1 <= npop && |initial| == npop ==>
      res.Err? && (res.error == IndexOutOfRange || res.error == BadSampleSize)
  {
    res, initial, lasts, added, h := Run(inst, npop, nBest, FixedSetSizeAsWritten(|inst.f|, |inst.g|, sizeMax),
                                      tinit, maxIter, solve, rng);
  }

  /**
   * `mfss` with the evidently intended number of facilities to fix, `FixedSetSize`: the
   * sampling errors then come only from an elite of fewer than 2 solutions.
   */
  method MfssCorrected(inst: Instance, npop: int, nBest: int, sizeMax: int, tinit: real, maxIter: int,
                       solve: MipSolver, rng: nat -> nat)
    returns (res: Result<Solution>, ghost initial: seq<Solution>, ghost lasts: seq<Greedy.WorkState>,
             ghost added: seq<Solution>, ghost h: History)
    requires WellFormed(inst)
    ensures Outcome(inst, npop, nBest, FixedSetSize(|inst.f|, |inst.g|, sizeMax), tinit, maxIter,
                    solve, res, initial, lasts, added, h)
    ensures res.Err? && (res.error == IndexOutOfRange || res.error == BadSampleSize) ==> EliteSize(npop, nBest) < 2
  {
    res, initial, lasts, added, h := Run(inst, npop, nBest, FixedSetSize(|inst.f|, |inst.g|, sizeMax),
                                      tinit, maxIter, solve, rng);
  }
}
