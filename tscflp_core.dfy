/**
 * The data model of the Two-Stage Capacitated Facility Location Problem shared by the
 * greedy constructor and Fixed Set Search: instances, solutions (an open/closed pattern
 * with a cost), fixed sets handed to the MILP oracle, the oracle's contract, and the
 * capacity scaling and distance matrices computed when an instance is loaded.
 */
module TscflpCore {
  import opened Ordering
  import opened SeqUtil

  /** The tolerance `1e-6` used in every capacity, demand and cost comparison. */
  const EPS: real := 0.000001

  datatype Option<T> = None | Some(value: T)

  /** The exceptions the core raises, by kind. */
  datatype Failure =
    | NoPrimaryCapacity    // RuntimeError: no plant has capacity left while demand is outstanding
    | NoSecondaryCapacity  // RuntimeError: no depot has capacity left while plant supply is unrouted
    | ZeroDivision         // ZeroDivisionError: a raw capacity total of zero when scaling
    | EmptyPopulation      // ValueError: `min` over an empty population
    | IndexOutOfRange      // IndexError: a list index beyond either end
    | BadSampleSize        // ValueError: `random.sample` asked for a negative or too large count

  datatype Result<T> = Ok(value: T) | Err(error: Failure)

  /**
   * Plants i carry opening cost f[i] and capacity U[i]; depots j carry g[j] and V[j];
   * customers k carry demand D[k]; c[i][j] and d[j][k] are unit transport costs.
   */
  datatype Instance = Instance(
    f: seq<real>, U: seq<real>,
    g: seq<real>, V: seq<real>,
    D: seq<real>,
    c: seq<seq<real>>, d: seq<seq<real>>)

  /** Consistent lengths and non-negative costs, capacities and demands. */
  ghost predicate WellFormed(inst: Instance) {
    && |inst.U| == |inst.f| && |inst.V| == |inst.g|
    && |inst.c| == |inst.f| && (forall i :: 0 <= i < |inst.c| ==> |inst.c[i]| == |inst.g|)
    && |inst.d| == |inst.g| && (forall j :: 0 <= j < |inst.d| ==> |inst.d[j]| == |inst.D|)
    && (forall i :: 0 <= i < |inst.f| ==> 0.0 <= inst.f[i] && 0.0 <= inst.U[i])
    && (forall j :: 0 <= j < |inst.g| ==> 0.0 <= inst.g[j] && 0.0 <= inst.V[j])
    && (forall k :: 0 <= k < |inst.D| ==> 0.0 <= inst.D[k])
    && (forall i, j :: 0 <= i < |inst.c| && 0 <= j < |inst.c[i]| ==> 0.0 <= inst.c[i][j])
    && (forall j, k :: 0 <= j < |inst.d| && 0 <= k < |inst.d[j]| ==> 0.0 <= inst.d[j][k])
  }

  /** The plant index set I: exactly the indices of `f`, with no gaps. */
  function PlantIndices(inst: Instance): (r: seq<nat>)
    ensures |r| == |inst.f|
    ensures forall i: nat :: i in r <==> i < |inst.f|
  {
    Range(|inst.f|)
  }

  /** The depot index set J: exactly the indices of `g`, with no gaps. */
  function DepotIndices(inst: Instance): (r: seq<nat>)
    ensures |r| == |inst.g|
    ensures forall j: nat :: j in r <==> j < |inst.g|
  {
    Range(|inst.g|)
  }

  /** The customer index set K: exactly the indices of `D`, with no gaps. */
  function CustomerIndices(inst: Instance): (r: seq<nat>)
    ensures |r| == |inst.D|
    ensures forall k: nat :: k in r <==> k < |inst.D|
  {
    Range(|inst.D|)
  }

  /** A pattern with its cost; `openI[i]` and `openJ[j]` are 0 or 1 when produced by a solver that keeps bounds. */
  datatype Solution = Solution(cost: ExtReal, openI: seq<int>, openJ: seq<int>)

  /** The pattern has one entry per plant and one per depot. */
  ghost predicate Shaped(s: Solution, nI: nat, nJ: nat) {
    |s.openI| == nI && |s.openJ| == nJ
  }

  /** Two solutions with the same open/closed choices are the same pattern, whatever their costs. */
  function SamePattern(a: Solution, b: Solution): (r: bool)
    ensures r <==>
      && |a.openI| == |b.openI| && |a.openJ| == |b.openJ|
      && (forall i :: 0 <= i < |a.openI| ==> a.openI[i] == b.openI[i])
      && (forall j :: 0 <= j < |a.openJ| ==> a.openJ[j] == b.openJ[j])
  {
    a.openI == b.openI && a.openJ == b.openJ
  }

  /** Facilities whose state is forced: plant index -> 0/1 and depot index -> 0/1. */
  datatype FixedSet = FixedSet(plants: map<nat, int>, depots: map<nat, int>)

  /** Every key names an existing facility (the oracle indexes its variables with them). */
  ghost predicate FixedInRange(fixed: FixedSet, nI: nat, nJ: nat) {
    (forall i :: i in fixed.plants ==> i < nI) && (forall j :: j in fixed.depots ==> j < nJ)
  }

  /**
   * What the MILP solver hands back: an exception, or an objective value (absent when
   * nothing was found) and the values of the plant variables x and depot variables y.
   */
  datatype RawSolve =
    | SolverRaised
    | SolverReturned(objective: Option<real>, x: seq<Option<real>>, y: seq<Option<real>>)

  /** The MILP solve itself, given an instance, a time limit in seconds (None: unbounded) and a fixed set. */
  type MipSolver = (Instance, Option<real>, FixedSet) -> RawSolve

  /** The solver kept every binary variable within its bounds [0, 1]. */
  ghost predicate WithinBounds(raw: RawSolve) {
    raw.SolverReturned? ==>
      && (forall i :: 0 <= i < |raw.x| && raw.x[i].Some? ==> 0.0 <= raw.x[i].value <= 1.0)
      && (forall j :: 0 <= j < |raw.y| && raw.y[j].Some? ==> 0.0 <= raw.y[j].value <= 1.0)
  }

  /** The solver returned and treated every fixed value as a hard equality constraint. */
  ghost predicate EchoesFixes(raw: RawSolve, fixed: FixedSet) {
    && raw.SolverReturned?
    && (forall i :: i in fixed.plants ==> i < |raw.x| && raw.x[i] == Some(fixed.plants[i] as real))
    && (forall j :: j in fixed.depots ==> j < |raw.y| && raw.y[j] == Some(fixed.depots[j] as real))
  }

  /** Python's `round` on a float: to the nearest integer, halves to the even neighbour. */
  function RoundHalfEven(v: real): (r: int)
    ensures (r as real) - v <= 0.5 && v - (r as real) <= 0.5
    ensures 0.0 <= v <= 1.0 ==> r == 0 || r == 1
    ensures v == (v.Floor as real) ==> r == v.Floor
    ensures (r as real) - v == 0.5 || v - (r as real) == 0.5 ==> r % 2 == 0
  {
    var fl := v.Floor;
    var frac := v - fl as real;
    if frac < 0.5 then fl
    else if frac > 0.5 then fl + 1
    else if fl % 2 == 0 then fl
    else fl + 1
  }

  /** `int(round(x[i].value())) if x[i].value() is not None else 0`. */
  function PatternBit(x: seq<Option<real>>, i: int): (r: int)
    ensures !(0 <= i < |x| && x[i].Some?) ==> r == 0
    ensures 0 <= i < |x| && x[i].Some? ==> (r as real) - x[i].value <= 0.5 && x[i].value - (r as real) <= 0.5
    ensures 0 <= i < |x| && x[i].Some? && 0.0 <= x[i].value <= 1.0 ==> r == 0 || r == 1
    ensures 0 <= i < |x| && x[i].Some? && ((r as real) - x[i].value == 0.5 || x[i].value - (r as real) == 0.5) ==>
      r % 2 == 0
  {
    if 0 <= i < |x| && x[i].Some? then RoundHalfEven(x[i].value) else 0
  }

  /**
   * The oracle `solve_full_mip`: the model building and the CBC call are the `solve`
   * parameter; this function is what the source does with the solver's answer.
   */
  function SolveFullMip(inst: Instance, timeLimit: Option<real>, fixed: FixedSet, solve: MipSolver): (r: Solution)
    requires FixedInRange(fixed, |inst.f|, |inst.g|)
    ensures Shaped(r, |inst.f|, |inst.g|)
    ensures solve(inst, timeLimit, fixed).SolverRaised? ==>
      r.cost == PosInf && (forall i :: 0 <= i < |r.openI| ==> r.openI[i] == 0)
                       && (forall j :: 0 <= j < |r.openJ| ==> r.openJ[j] == 0)
    ensures solve(inst, timeLimit, fixed).SolverReturned? ==>
      r.cost == (match solve(inst, timeLimit, fixed).objective
                 case None => PosInf
                 case Some(v) => Fin(v))
    ensures WithinBounds(solve(inst, timeLimit, fixed)) ==>
      (forall i :: 0 <= i < |r.openI| ==> r.openI[i] == 0 || r.openI[i] == 1) &&
      (forall j :: 0 <= j < |r.openJ| ==> r.openJ[j] == 0 || r.openJ[j] == 1)
    ensures EchoesFixes(solve(inst, timeLimit, fixed), fixed) ==>
      (forall i :: i in fixed.plants ==> r.openI[i] == fixed.plants[i]) &&
      (forall j :: j in fixed.depots ==> r.openJ[j] == fixed.depots[j])
  {
    var nI, nJ := |inst.f|, |inst.g|;
    match solve(inst, timeLimit, fixed)
    case SolverRaised =>
      Solution(PosInf, seq(nI, _ => 0), seq(nJ, _ => 0))
    case SolverReturned(objective, x, y) =>
      var cost := match objective case None => PosInf case Some(v) => Fin(v);
      Solution(cost, seq(nI, i => PatternBit(x, i)), seq(nJ, j => PatternBit(y, j)))
  }

  /**
   * `max(1.0, (total_demand / total_raw) * 1.1)`: the factor that lifts a capacity total
   * to 110% of the demand total, never shrinking it.
   */
  function CapacityScale(totalDemand: real, totalRaw: real): (r: real)
    requires totalRaw != 0.0
    ensures 1.0 <= r
    ensures 0.0 < totalRaw ==> 1.1 * totalDemand <= r * totalRaw
  {
    var q := totalDemand / totalRaw * 1.1;
    assert 0.0 < totalRaw ==> q * totalRaw == 1.1 * totalDemand;
    if 1.0 < q then q else 1.0
  }

  /**
   * The scaled capacities `[u * scale for u in raw]`, or the division by zero the source
   * hits when the raw capacities sum to zero.
   */
  function ScaleCapacities(demand: seq<real>, raw: seq<real>): (r: Result<seq<real>>)
    ensures r.Err? <==> Sum(raw) == 0.0
    ensures r.Err? ==> r.error == ZeroDivision
    ensures r.Ok? ==> |r.value| == |raw|
    ensures r.Ok? ==> forall i :: 0 <= i < |raw| && 0.0 <= raw[i] ==> raw[i] <= r.value[i]
    ensures r.Ok? && 0.0 < Sum(raw) ==> 1.1 * Sum(demand) <= Sum(r.value)
  {
    if Sum(raw) == 0.0 then Err(ZeroDivision)
    else
      var k := CapacityScale(Sum(demand), Sum(raw));
      SumScale(raw, k);
      assert forall i :: 0 <= i < |raw| && 0.0 <= raw[i] ==> raw[i] * 1.0 <= raw[i] * k;
      Ok(Scale(raw, k))
  }

  /**
   * The nested loops that build a cost matrix row by row: entry [a][b] is the
   * one-dimensional distance between coordinate xs[a] and coordinate ys[b].
   */
  method DistanceMatrix(xs: seq<real>, ys: seq<real>) returns (m: seq<seq<real>>)
    ensures |m| == |xs|
    ensures forall a :: 0 <= a < |m| ==> |m[a]| == |ys|
    ensures forall a, b :: 0 <= a < |xs| && 0 <= b < |ys| ==>
      m[a][b] == (if xs[a] < ys[b] then ys[b] - xs[a] else xs[a] - ys[b])
    ensures forall a, b :: 0 <= a < |xs| && 0 <= b < |ys| ==> 0.0 <= m[a][b]
  {
    m := [];
    var a := 0;
    while a < |xs|
      invariant 0 <= a <= |xs| && |m| == a
      invariant forall a' :: 0 <= a' < a ==> |m[a']| == |ys|
      invariant forall a', b :: 0 <= a' < a && 0 <= b < |ys| ==>
        m[a'][b] == (if xs[a'] < ys[b] then ys[b] - xs[a'] else xs[a'] - ys[b])
      invariant forall a', b :: 0 <= a' < a && 0 <= b < |ys| ==> 0.0 <= m[a'][b]
    {
      var row: seq<real> := [];
      var b := 0;
      while b < |ys|
        invariant 0 <= b <= |ys| && |row| == b
        invariant forall b' :: 0 <= b' < b ==>
          row[b'] == (if xs[a] < ys[b'] then ys[b'] - xs[a] else xs[a] - ys[b'])
        invariant forall b' :: 0 <= b' < b ==> 0.0 <= row[b']
      {
        var dist := if xs[a] < ys[b] then ys[b] - xs[a] else xs[a] - ys[b];
        row := row + [dist];
        b := b + 1;
      }
      m := m + [row];
      a := a + 1;
    }
  }

  /**
   * The arithmetic part of loading an instance: scale the raw capacities (plants first,
   * as the source does) and build c from plant and depot coordinates and d from depot
   * and customer coordinates.
   */
  method BuildInstance(f: seq<real>, g: seq<real>, uRaw: seq<real>, vRaw: seq<real>, demand: seq<real>,
                       plantX: seq<real>, depotX: seq<real>, customerX: seq<real>)
    returns (res: Result<Instance>)
    requires |uRaw| == |f| && |plantX| == |f|
    requires |vRaw| == |g| && |depotX| == |g|
    requires |customerX| == |demand|
    ensures res.Err? <==> Sum(uRaw) == 0.0 || Sum(vRaw) == 0.0
    ensures res.Err? ==> res.error == ZeroDivision
    ensures res.Ok? ==> res.value.f == f && res.value.g == g && res.value.D == demand
    ensures res.Ok? ==> |res.value.U| == |f| && |res.value.V| == |g|
    ensures res.Ok? ==> |res.value.c| == |f| && forall i :: 0 <= i < |f| ==> |res.value.c[i]| == |g|
    ensures res.Ok? ==> |res.value.d| == |g| && forall j :: 0 <= j < |g| ==> |res.value.d[j]| == |demand|
    ensures res.Ok? ==> forall i :: 0 <= i < |uRaw| && 0.0 <= uRaw[i] ==> uRaw[i] <= res.value.U[i]
    ensures res.Ok? ==> forall j :: 0 <= j < |vRaw| && 0.0 <= vRaw[j] ==> vRaw[j] <= res.value.V[j]
    ensures res.Ok? && 0.0 < Sum(uRaw) ==> 1.1 * Sum(demand) <= Sum(res.value.U)
    ensures res.Ok? && 0.0 < Sum(vRaw) ==> 1.1 * Sum(demand) <= Sum(res.value.V)
    ensures res.Ok? ==> forall i, j :: 0 <= i < |f| && 0 <= j < |g| ==>
      res.value.c[i][j] == (if plantX[i] < depotX[j] then depotX[j] - plantX[i] else plantX[i] - depotX[j])
    ensures res.Ok? ==> forall j, k :: 0 <= j < |g| && 0 <= k < |demand| ==>
      res.value.d[j][k] == (if depotX[j] < customerX[k] then customerX[k] - depotX[j] else depotX[j] - customerX[k])
    ensures res.Ok? &&
      (forall i :: 0 <= i < |f| ==> 0.0 <= f[i] && 0.0 <= uRaw[i]) &&
      (forall j :: 0 <= j < |g| ==> 0.0 <= g[j] && 0.0 <= vRaw[j]) &&
      (forall k :: 0 <= k < |demand| ==> 0.0 <= demand[k])
      ==> WellFormed(res.value)
  {
    var u := ScaleCapacities(demand, uRaw);
    if u.Err? {
      return Err(u.error);
    }
    var v := ScaleCapacities(demand, vRaw);
    if v.Err? {
      return Err(v.error);
    }
    var c := DistanceMatrix(plantX, depotX);
    var d := DistanceMatrix(depotX, customerX);
    res := Ok(Instance(f, u.value, g, v.value, demand, c, d));
  }
}
