/**
 * The randomized greedy constructor (Algorithm 1): plants are opened one by one, each
 * plant's supply is routed through depots, each depot's inflow is delivered to customers,
 * every pick going through a Restricted Candidate List; the resulting open/closed pattern
 * is then handed, fully fixed, to the MILP oracle.
 *
 * Random draws come from a caller-owned stream `rng`, read at position `t`: a draw
 * below `n` is `rng(t) % n`, so every sequence of in-range draws is some stream.
 */
module Greedy {
  import opened Ordering
  import opened SeqUtil
  import opened TscflpCore

  /** The guard `1e-9` added to a capacity before dividing by it. */
  const GUARD: real := 0.000000001

  /** A candidate index with its heuristic value, lower being better. */
  type Scored = (nat, real)

  function RclKey(e: Scored): ExtReal {
    Fin(e.1)
  }

  /** `max(1, min(rcl_sz, len(scores)))`: how many of the best candidates the random pick ranges over. */
  function RclLength(n: nat, rclSize: int): (r: nat)
    ensures 1 <= r
    ensures 1 <= n ==> r <= n
    ensures 1 <= rclSize <= n ==> r == rclSize
    ensures 1 <= n < rclSize ==> r == n
    ensures rclSize <= 1 || n == 0 ==> r == 1
  {
    var m := if rclSize < n then rclSize else n;
    if m < 1 then 1 else m
  }

  /**
   * `choose_with_rcl`: sort the candidates by heuristic value (stably, ascending), keep the
   * first `RclLength` of them and return the index of the `pick`-th.  Whatever the pick,
   * fewer than `RclLength` candidates have a strictly better value than the one chosen.
   */
  function ChooseWithRcl(scores: seq<Scored>, rclSize: int, pick: nat): (r: nat)
    requires |scores| > 0
    requires pick < RclLength(|scores|, rclSize)
    ensures exists k :: (0 <= k < |scores| && scores[k].0 == r &&
                         |Below(scores, RclKey, RclKey(scores[k]))| < RclLength(|scores|, rclSize))
  {
    var sorted := SortBy(scores, RclKey);
    var chosen := sorted[pick];
    SortedRank(sorted, RclKey, pick);
    BelowPermutation(sorted, scores, RclKey, RclKey(chosen));
    assert chosen in multiset(scores);
    chosen.0
  }

  /** With an RCL of size 1 (or less) the construction is pure greedy: the pick is a candidate of minimum value. */
  lemma PureGreedyPicksMinimum(scores: seq<Scored>, rclSize: int, pick: nat)
    requires |scores| > 0 && rclSize <= 1 && pick < RclLength(|scores|, rclSize)
    ensures exists k :: (0 <= k < |scores| && scores[k].0 == ChooseWithRcl(scores, rclSize, pick) &&
                         forall m :: 0 <= m < |scores| ==> scores[k].1 <= scores[m].1)
  {
    var r := ChooseWithRcl(scores, rclSize, pick);
    var k :| 0 <= k < |scores| && scores[k].0 == r &&
      |Below(scores, RclKey, RclKey(scores[k]))| < RclLength(|scores|, rclSize);
    BelowEmpty(scores, RclKey, RclKey(scores[k]));
    forall m | 0 <= m < |scores|
      ensures scores[k].1 <= scores[m].1
    {
      assert scores[m] in scores;
    }
  }

  /** `[i for i in range(len(s)) if s[i] > 1e-6]`: the facilities with capacity left. */
  function WithCapacity(s: seq<real>): (r: seq<nat>)
    ensures forall m :: 0 <= m < |r| ==> r[m] < |s| && EPS < s[r[m]]
    ensures forall i :: 0 <= i < |s| && EPS < s[i] ==> i in r
  {
    IndicesWhere(|s|, (i: nat) => i < |s| && EPS < s[i])
  }

  /** `[k for k in K if k in unmet]`: the customers still unmet, in index order. */
  function UnmetCustomers(n: nat, unmet: set<nat>): (r: seq<nat>)
    ensures forall m :: 0 <= m < |r| ==> r[m] < n && r[m] in unmet
    ensures forall k :: 0 <= k < n && k in unmet ==> k in r
  {
    IndicesWhere(n, (k: nat) => k in unmet)
  }

  /** The plant heuristic h_p: opening cost per unit of capacity plus mean cost to the depots with capacity. */
  function PlantScore(inst: Instance, i: nat, depots: seq<nat>): real
    requires WellFormed(inst) && i < |inst.f|
    requires forall m :: 0 <= m < |depots| ==> depots[m] < |inst.g|
  {
    inst.f[i] / (inst.U[i] + GUARD) +
      Mean(seq(|depots|, m requires 0 <= m < |depots| => inst.c[i][depots[m]]))
  }

  /** The depot heuristic h_s: cost from the chosen plant, opening cost per unit of capacity,
      and mean cost to the customers still unmet. */
  function DepotScore(inst: Instance, iStar: nat, j: nat, customers: seq<nat>): real
    requires WellFormed(inst) && iStar < |inst.f| && j < |inst.g|
    requires forall m :: 0 <= m < |customers| ==> customers[m] < |inst.D|
  {
    inst.c[iStar][j] + inst.g[j] / (inst.V[j] + GUARD) +
      Mean(seq(|customers|, m requires 0 <= m < |customers| => inst.d[j][customers[m]]))
  }

  function PlantScores(inst: Instance, cand: seq<nat>, depots: seq<nat>): (r: seq<Scored>)
    requires WellFormed(inst)
    requires forall m :: 0 <= m < |cand| ==> cand[m] < |inst.f|
    requires forall m :: 0 <= m < |depots| ==> depots[m] < |inst.g|
    ensures |r| == |cand| && forall m :: 0 <= m < |r| ==> r[m].0 == cand[m]
  {
    seq(|cand|, m requires 0 <= m < |cand| => (cand[m], PlantScore(inst, cand[m], depots)))
  }

  function DepotScores(inst: Instance, iStar: nat, cand: seq<nat>, customers: seq<nat>): (r: seq<Scored>)
    requires WellFormed(inst) && iStar < |inst.f|
    requires forall m :: 0 <= m < |cand| ==> cand[m] < |inst.g|
    requires forall m :: 0 <= m < |customers| ==> customers[m] < |inst.D|
    ensures |r| == |cand| && forall m :: 0 <= m < |r| ==> r[m].0 == cand[m]
  {
    seq(|cand|, m requires 0 <= m < |cand| => (cand[m], DepotScore(inst, iStar, cand[m], customers)))
  }

  /** The customer heuristic h_c: the unit cost from the chosen depot. */
  function CustomerScores(inst: Instance, jStar: nat, cand: seq<nat>): (r: seq<Scored>)
    requires WellFormed(inst) && jStar < |inst.g|
    requires forall m :: 0 <= m < |cand| ==> cand[m] < |inst.D|
    ensures |r| == |cand| && forall m :: 0 <= m < |r| ==> r[m].0 == cand[m]
  {
    seq(|cand|, m requires 0 <= m < |cand| => (cand[m], inst.d[jStar][cand[m]]))
  }

  /**
   * The plant `choose_with_rcl` returns among `cand`, ranked by h_p against the depots with
   * capacity: fewer than the RCL length of the candidates have a strictly smaller h_p, and
   * with an RCL of size 1 none has.
   */
  function PickPlant(inst: Instance, cand: seq<nat>, depots: seq<nat>, rclSize: int, draw: nat): (i: nat)
    requires WellFormed(inst) && |cand| > 0
    requires forall m :: 0 <= m < |cand| ==> cand[m] < |inst.f|
    requires forall m :: 0 <= m < |depots| ==> depots[m] < |inst.g|
    ensures i in cand && i < |inst.f|
    ensures |Below(PlantScores(inst, cand, depots), RclKey, Fin(PlantScore(inst, i, depots)))| < RclLength(|cand|, rclSize)
    ensures rclSize <= 1 ==> forall m :: 0 <= m < |cand| ==> PlantScore(inst, i, depots) <= PlantScore(inst, cand[m], depots)
  {
    var pick := draw % RclLength(|cand|, rclSize);
    PlantPickRank(inst, cand, depots, rclSize, pick);
    ChooseWithRcl(PlantScores(inst, cand, depots), rclSize, pick)
  }

  /** The rank facts of `PickPlant`, for the `pick`-th member of the RCL. */
  lemma PlantPickRank(inst: Instance, cand: seq<nat>, depots: seq<nat>, rclSize: int, pick: nat)
    requires WellFormed(inst) && |cand| > 0
    requires forall m :: 0 <= m < |cand| ==> cand[m] < |inst.f|
    requires forall m :: 0 <= m < |depots| ==> depots[m] < |inst.g|
    requires pick < RclLength(|cand|, rclSize)
    ensures var i := ChooseWithRcl(PlantScores(inst, cand, depots), rclSize, pick);
      && i in cand && i < |inst.f|
      && |Below(PlantScores(inst, cand, depots), RclKey, Fin(PlantScore(inst, i, depots)))| < RclLength(|cand|, rclSize)
      && (rclSize <= 1 ==> forall m :: 0 <= m < |cand| ==> PlantScore(inst, i, depots) <= PlantScore(inst, cand[m], depots))
  {
    var scores := PlantScores(inst, cand, depots);
    var i := ChooseWithRcl(scores, rclSize, pick);
    var k :| 0 <= k < |scores| && scores[k].0 == i && |Below(scores, RclKey, RclKey(scores[k]))| < RclLength(|scores|, rclSize);
    assert scores[k] == (cand[k], PlantScore(inst, cand[k], depots));
    if rclSize <= 1 {
      PureGreedyPicksMinimum(scores, rclSize, pick);
      var k2 :| 0 <= k2 < |scores| && scores[k2].0 == i && forall m :: 0 <= m < |scores| ==> scores[k2].1 <= scores[m].1;
      assert scores[k2] == (cand[k2], PlantScore(inst, cand[k2], depots));
      forall m | 0 <= m < |cand|
        ensures PlantScore(inst, i, depots) <= PlantScore(inst, cand[m], depots)
      {
        assert scores[m] == (cand[m], PlantScore(inst, cand[m], depots));
      }
    }
  }

  /**
   * The depot `choose_with_rcl` returns among `cand`, ranked by h_s from plant `iStar`
   * against the unmet customers: fewer than the RCL length of the candidates have a
   * strictly smaller h_s, and with an RCL of size 1 none has.
   */
  function PickDepot(inst: Instance, iStar: nat, cand: seq<nat>, unmet: set<nat>, rclSize: int, draw: nat): (j: nat)
    requires WellFormed(inst) && iStar < |inst.f| && |cand| > 0
    requires forall m :: 0 <= m < |cand| ==> cand[m] < |inst.g|
    ensures j in cand && j < |inst.g|
    ensures |Below(DepotScores(inst, iStar, cand, UnmetCustomers(|inst.D|, unmet)), RclKey,
                   Fin(DepotScore(inst, iStar, j, UnmetCustomers(|inst.D|, unmet))))| < RclLength(|cand|, rclSize)
    ensures rclSize <= 1 ==> forall m :: 0 <= m < |cand| ==>
      DepotScore(inst, iStar, j, UnmetCustomers(|inst.D|, unmet)) <=
        DepotScore(inst, iStar, cand[m], UnmetCustomers(|inst.D|, unmet))
  {
    var pick := draw % RclLength(|cand|, rclSize);
    DepotPickRank(inst, iStar, cand, UnmetCustomers(|inst.D|, unmet), rclSize, pick);
    ChooseWithRcl(DepotScores(inst, iStar, cand, UnmetCustomers(|inst.D|, unmet)), rclSize, pick)
  }

  /** The rank facts of `PickDepot`, for the `pick`-th member of the RCL. */
  lemma DepotPickRank(inst: Instance, iStar: nat, cand: seq<nat>, customers: seq<nat>, rclSize: int, pick: nat)
    requires WellFormed(inst) && iStar < |inst.f| && |cand| > 0
    requires forall m :: 0 <= m < |cand| ==> cand[m] < |inst.g|
    requires forall m :: 0 <= m < |customers| ==> customers[m] < |inst.D|
    requires pick < RclLength(|cand|, rclSize)
    ensures var j := ChooseWithRcl(DepotScores(inst, iStar, cand, customers), rclSize, pick);
      && j in cand && j < |inst.g|
      && |Below(DepotScores(inst, iStar, cand, customers), RclKey, Fin(DepotScore(inst, iStar, j, customers)))| <
           RclLength(|cand|, rclSize)
      && (rclSize <= 1 ==> forall m :: 0 <= m < |cand| ==>
            DepotScore(inst, iStar, j, customers) <= DepotScore(inst, iStar, cand[m], customers))
  {
    var scores := DepotScores(inst, iStar, cand, customers);
    var j := ChooseWithRcl(scores, rclSize, pick);
    var k :| 0 <= k < |scores| && scores[k].0 == j && |Below(scores, RclKey, RclKey(scores[k]))| < RclLength(|scores|, rclSize);
    assert scores[k] == (cand[k], DepotScore(inst, iStar, cand[k], customers));
    if rclSize <= 1 {
      PureGreedyPicksMinimum(scores, rclSize, pick);
      var k2 :| 0 <= k2 < |scores| && scores[k2].0 == j && forall m :: 0 <= m < |scores| ==> scores[k2].1 <= scores[m].1;
      assert scores[k2] == (cand[k2], DepotScore(inst, iStar, cand[k2], customers));
      forall m | 0 <= m < |cand|
        ensures DepotScore(inst, iStar, j, customers) <= DepotScore(inst, iStar, cand[m], customers)
      {
        assert scores[m] == (cand[m], DepotScore(inst, iStar, cand[m], customers));
      }
    }
  }

  /**
   * The customer `choose_with_rcl` returns among `cand`, ranked by unit cost from depot
   * `jStar`: fewer than the RCL length of the candidates are strictly nearer, and with an
   * RCL of size 1 none is.
   */
  function PickCustomer(inst: Instance, jStar: nat, cand: seq<nat>, rclSize: int, draw: nat): (k: nat)
    requires WellFormed(inst) && jStar < |inst.g| && |cand| > 0
    requires forall m :: 0 <= m < |cand| ==> cand[m] < |inst.D|
    ensures k in cand && k < |inst.D|
    ensures |Below(CustomerScores(inst, jStar, cand), RclKey, Fin(inst.d[jStar][k]))| < RclLength(|cand|, rclSize)
    ensures rclSize <= 1 ==> forall m :: 0 <= m < |cand| ==> inst.d[jStar][k] <= inst.d[jStar][cand[m]]
  {
    var pick := draw % RclLength(|cand|, rclSize);
    CustomerPickRank(inst, jStar, cand, rclSize, pick);
    ChooseWithRcl(CustomerScores(inst, jStar, cand), rclSize, pick)
  }

  /** The rank facts of `PickCustomer`, for the `pick`-th member of the RCL. */
  lemma CustomerPickRank(inst: Instance, jStar: nat, cand: seq<nat>, rclSize: int, pick: nat)
    requires WellFormed(inst) && jStar < |inst.g| && |cand| > 0
    requires forall m :: 0 <= m < |cand| ==> cand[m] < |inst.D|
    requires pick < RclLength(|cand|, rclSize)
    ensures var k := ChooseWithRcl(CustomerScores(inst, jStar, cand), rclSize, pick);
      && k in cand && k < |inst.D|
      && |Below(CustomerScores(inst, jStar, cand), RclKey, Fin(inst.d[jStar][k]))| < RclLength(|cand|, rclSize)
      && (rclSize <= 1 ==> forall m :: 0 <= m < |cand| ==> inst.d[jStar][k] <= inst.d[jStar][cand[m]])
  {
    var scores := CustomerScores(inst, jStar, cand);
    assert forall m :: 0 <= m < |cand| ==> scores[m] == (cand[m], inst.d[jStar][cand[m]]);
    var c := ChooseWithRcl(scores, rclSize, pick);
    var k :| 0 <= k < |scores| && scores[k].0 == c && |Below(scores, RclKey, RclKey(scores[k]))| < RclLength(|scores|, rclSize);
    if rclSize <= 1 {
      PureGreedyPicksMinimum(scores, rclSize, pick);
    }
  }

  function Min(a: real, b: real): real {
    if a <= b then a else b
  }

  /** A quantity measured in tolerance steps, x / 1e-6 rounded down: the loops' termination measure. */
  function Steps(x: real): int {
    (x * 1000000.0).Floor
  }

  /**
   * The constructor's working state: remaining plant capacity U, depot capacity V and
   * customer demand D, the demand not yet committed to a plant, the facilities opened so
   * far and the customers whose demand is not yet met.
   */
  datatype WorkState = WorkState(
    U: seq<real>, V: seq<real>, D: seq<real>,
    totalDemand: real,
    selectedI: set<nat>, selectedJ: set<nat>,
    unmet: set<nat>)

  /** Supply committed at plants, routed through depots and delivered to customers so far. */
  ghost function Committed(inst: Instance, st: WorkState): real { Sum(inst.U) - Sum(st.U) }
  ghost function Routed(inst: Instance, st: WorkState): real { Sum(inst.V) - Sum(st.V) }
  ghost function Delivered(inst: Instance, st: WorkState): real { Sum(inst.D) - Sum(st.D) }

  /**
   * The bookkeeping invariant of the construction: nothing goes negative or above its
   * initial value; the supply committed equals the demand removed from `totalDemand`;
   * what is delivered was routed and what is routed was committed; a facility is selected
   * exactly when some of its capacity has been used; an unmet customer still has demand,
   * and a customer that left the unmet set has at most the tolerance left.
   */
  ghost predicate Consistent(inst: Instance, st: WorkState) {
    && |st.U| == |inst.U| && |st.V| == |inst.V| && |st.D| == |inst.D|
    && (forall i :: 0 <= i < |st.U| ==> 0.0 <= st.U[i] <= inst.U[i])
    && (forall j :: 0 <= j < |st.V| ==> 0.0 <= st.V[j] <= inst.V[j])
    && (forall k :: 0 <= k < |st.D| ==> 0.0 <= st.D[k] <= inst.D[k])
    && 0.0 <= st.totalDemand
    && Committed(inst, st) == Sum(inst.D) - st.totalDemand
    && Delivered(inst, st) <= Routed(inst, st) <= Committed(inst, st)
    && (forall i :: i in st.selectedI ==> i < |st.U|)
    && (forall i :: 0 <= i < |st.U| ==> (i in st.selectedI <==> st.U[i] < inst.U[i]))
    && (forall j :: j in st.selectedJ ==> j < |st.V|)
    && (forall j :: 0 <= j < |st.V| ==> (j in st.selectedJ <==> st.V[j] < inst.V[j]))
    && (forall k :: k in st.unmet ==> k < |st.D| && 0.0 < st.D[k])
    && (forall k :: 0 <= k < |st.D| && k !in st.unmet ==> st.D[k] <= EPS)
  }

  /** The state before the first pick: full capacities, nothing selected, customers with demand unmet. */
  function InitialState(inst: Instance): (st: WorkState)
    requires WellFormed(inst)
    ensures Consistent(inst, st)
    ensures st.totalDemand == Sum(inst.D) && st.selectedI == {} && st.selectedJ == {}
  {
    SumNonneg(inst.D);
    WorkState(inst.U, inst.V, inst.D, Sum(inst.D), {}, {},
              set k: nat | k < |inst.D| && 0.0 < inst.D[k])
  }

  /** Commit `amount` units of plant `i`'s capacity: the plant is opened and the uncommitted demand drops. */
  function TakePlant(inst: Instance, st: WorkState, i: nat, amount: real): (r: WorkState)
    requires WellFormed(inst) && Consistent(inst, st)
    requires i < |st.U| && 0.0 < amount <= st.U[i] && amount <= st.totalDemand
    ensures Consistent(inst, r)
    ensures r.U == st.U[i := st.U[i] - amount] && r.totalDemand == st.totalDemand - amount
    ensures r.selectedI == st.selectedI + {i}
    ensures r.V == st.V && r.D == st.D && r.selectedJ == st.selectedJ && r.unmet == st.unmet
    ensures Committed(inst, r) == Committed(inst, st) + amount
    ensures Routed(inst, r) == Routed(inst, st) && Delivered(inst, r) == Delivered(inst, st)
  {
    SumUpdate(st.U, i, st.U[i] - amount);
    st.(U := st.U[i := st.U[i] - amount], totalDemand := st.totalDemand - amount,
        selectedI := st.selectedI + {i})
  }

  /** Route `amount` units through depot `j`: the depot is opened and its capacity drops. */
  function TakeDepot(inst: Instance, st: WorkState, j: nat, amount: real): (r: WorkState)
    requires WellFormed(inst) && Consistent(inst, st)
    requires j < |st.V| && 0.0 < amount <= st.V[j]
    requires Routed(inst, st) + amount <= Committed(inst, st)
    ensures Consistent(inst, r)
    ensures r.V == st.V[j := st.V[j] - amount] && r.selectedJ == st.selectedJ + {j}
    ensures r.U == st.U && r.D == st.D && r.totalDemand == st.totalDemand
    ensures r.selectedI == st.selectedI && r.unmet == st.unmet
    ensures Routed(inst, r) == Routed(inst, st) + amount
    ensures Delivered(inst, r) == Delivered(inst, st) && Committed(inst, r) == Committed(inst, st)
  {
    SumUpdate(st.V, j, st.V[j] - amount);
    st.(V := st.V[j := st.V[j] - amount], selectedJ := st.selectedJ + {j})
  }

  /** Deliver `amount` units to unmet customer `k`; it leaves the unmet set once at most the tolerance is left. */
  function TakeCustomer(inst: Instance, st: WorkState, k: nat, amount: real): (r: WorkState)
    requires WellFormed(inst) && Consistent(inst, st)
    requires k in st.unmet && 0.0 <= amount <= st.D[k]
    requires Delivered(inst, st) + amount <= Routed(inst, st)
    ensures Consistent(inst, r)
    ensures r.D == st.D[k := st.D[k] - amount]
    ensures r.unmet == if r.D[k] <= EPS then st.unmet - {k} else st.unmet
    ensures r.U == st.U && r.V == st.V && r.totalDemand == st.totalDemand
    ensures r.selectedI == st.selectedI && r.selectedJ == st.selectedJ
    ensures Delivered(inst, r) == Delivered(inst, st) + amount
    ensures Routed(inst, r) == Routed(inst, st) && Committed(inst, r) == Committed(inst, st)
  {
    SumUpdate(st.D, k, st.D[k] - amount);
    var D := st.D[k := st.D[k] - amount];
    st.(D := D, unmet := if D[k] <= EPS && k in st.unmet then st.unmet - {k} else st.unmet)
  }

  /**
   * The innermost loop: deliver `inflow` units from depot `jStar` to unmet customers,
   * nearest first (through the RCL), until at most the tolerance is left or no unmet
   * customer has demand above the tolerance.
   */
  method DeliverFromDepot(inst: Instance, rclSize: int, jStar: nat, inflow: real, st0: WorkState,
                          rng: nat -> nat, t0: nat)
    returns (st: WorkState, t: nat)
    requires WellFormed(inst) && Consistent(inst, st0)
    requires jStar < |inst.g| && 0.0 <= inflow
    requires Delivered(inst, st0) + inflow <= Routed(inst, st0)
    ensures Consistent(inst, st) && t >= t0
    ensures st.U == st0.U && st.V == st0.V && st.totalDemand == st0.totalDemand
    ensures st.selectedI == st0.selectedI && st.selectedJ == st0.selectedJ
    ensures st.unmet <= st0.unmet
    ensures Delivered(inst, st0) <= Delivered(inst, st) <= Delivered(inst, st0) + inflow
    ensures Delivered(inst, st0) + inflow - EPS <= Delivered(inst, st) ||
            forall k :: k in st.unmet ==> st.D[k] <= EPS
  {
    st, t := st0, t0;
    var remaining := inflow;
    while EPS < remaining
      invariant Consistent(inst, st) && t >= t0
      invariant st.U == st0.U && st.V == st0.V && st.totalDemand == st0.totalDemand
      invariant st.selectedI == st0.selectedI && st.selectedJ == st0.selectedJ
      invariant st.unmet <= st0.unmet
      invariant 0.0 <= remaining <= inflow
      invariant Delivered(inst, st) + remaining == Delivered(inst, st0) + inflow
      decreases Steps(remaining)
    {
      var unmet, D := st.unmet, st.D;
      var cand := IndicesWhere(|D|, k => k in unmet && k < |D| && EPS < D[k]);
      if |cand| == 0 {
        assert forall k :: k in st.unmet && EPS < st.D[k] ==> k in cand;
        break;
      }
      st, remaining, t := DeliverOnce(inst, rclSize, jStar, remaining, cand, st, rng, t);
    }
  }

  /** One pass of the innermost loop: pick an unmet customer and deliver what it still needs, or what is left. */
  method DeliverOnce(inst: Instance, rclSize: int, jStar: nat, remaining: real, cand: seq<nat>, st0: WorkState,
                     rng: nat -> nat, t0: nat)
    returns (st: WorkState, rest: real, t: nat)
    requires WellFormed(inst) && Consistent(inst, st0)
    requires jStar < |inst.g| && EPS < remaining
    requires Delivered(inst, st0) + remaining <= Routed(inst, st0)
    requires |cand| > 0 && forall m :: 0 <= m < |cand| ==> cand[m] in st0.unmet && EPS < st0.D[cand[m]]
    ensures Consistent(inst, st) && t > t0
    ensures st.U == st0.U && st.V == st0.V && st.totalDemand == st0.totalDemand
    ensures st.selectedI == st0.selectedI && st.selectedJ == st0.selectedJ
    ensures st.unmet <= st0.unmet
    ensures 0.0 <= rest < remaining && Steps(rest) < Steps(remaining)
    ensures Delivered(inst, st) + rest == Delivered(inst, st0) + remaining
  {
    var kStar := PickCustomer(inst, jStar, cand, rclSize, rng(t0));
    var amount := Min(remaining, st0.D[kStar]);
    st := TakeCustomer(inst, st0, kStar, amount);
    rest := remaining - amount;
    t := t0 + 1;
  }

  /**
   * The middle loop: route `supply` units committed at plant `iStar` through depots with
   * capacity left, each chosen through the RCL and emptied into its customers.  Fails,
   * as the source raises, when no depot has capacity while more than the tolerance is unrouted.
   */
  method RouteFromPlant(inst: Instance, rclSize: int, iStar: nat, supply: real, st0: WorkState,
                        rng: nat -> nat, t0: nat)
    returns (ok: bool, st: WorkState, t: nat)
    requires WellFormed(inst) && Consistent(inst, st0)
    requires iStar < |inst.f| && 0.0 <= supply
    requires Routed(inst, st0) + supply <= Committed(inst, st0)
    ensures Consistent(inst, st) && t >= t0
    ensures st.U == st0.U && st.totalDemand == st0.totalDemand && st.selectedI == st0.selectedI
    ensures st0.selectedJ <= st.selectedJ
    ensures ok && EPS < supply ==> st.selectedJ != {}
    ensures !ok ==> (forall j :: 0 <= j < |st.V| ==> st.V[j] <= EPS) &&
                    Routed(inst, st) + EPS < Committed(inst, st)
  {
    st, t := st0, t0;
    var remaining := supply;
    while EPS < remaining
      invariant Consistent(inst, st) && t >= t0
      invariant st.U == st0.U && st.totalDemand == st0.totalDemand && st.selectedI == st0.selectedI
      invariant st0.selectedJ <= st.selectedJ
      invariant 0.0 <= remaining
      invariant Routed(inst, st) + remaining == Routed(inst, st0) + supply
      invariant remaining != supply ==> st.selectedJ != {}
      decreases Steps(remaining)
    {
      var cand := WithCapacity(st.V);
      if |cand| == 0 {
        return false, st, t;
      }
      var rest;
      st, rest, t := RouteOnce(inst, rclSize, iStar, remaining, cand, st, rng, t);
      remaining := rest;
    }
    ok := true;
  }

  /** One pass of the inner loop: pick a depot with capacity left, route what it can take and deliver it. */
  method RouteOnce(inst: Instance, rclSize: int, iStar: nat, remaining: real, cand: seq<nat>, st0: WorkState,
                   rng: nat -> nat, t0: nat)
    returns (st: WorkState, rest: real, t: nat)
    requires WellFormed(inst) && Consistent(inst, st0)
    requires iStar < |inst.f| && EPS < remaining
    requires Routed(inst, st0) + remaining <= Committed(inst, st0)
    requires cand == WithCapacity(st0.V) && |cand| > 0
    ensures Consistent(inst, st) && t >= t0
    ensures st.U == st0.U && st.totalDemand == st0.totalDemand && st.selectedI == st0.selectedI
    ensures st0.selectedJ <= st.selectedJ && st.selectedJ != {}
    ensures 0.0 <= rest && Steps(rest) < Steps(remaining)
    ensures Routed(inst, st) + rest == Routed(inst, st0) + remaining
  {
    var jStar := PickDepot(inst, iStar, cand, st0.unmet, rclSize, rng(t0));
    var used := Min(remaining, st0.V[jStar]);
    st := TakeDepot(inst, st0, jStar, used);
    rest := remaining - used;
    st, t := DeliverFromDepot(inst, rclSize, jStar, used, st, rng, t0 + 1);
  }

  /**
   * The outer loop: while more than the tolerance of demand is uncommitted, open a plant
   * with capacity left (through the RCL), commit `min(total_demand, U[i])` of it and route
   * that supply.  Fails, as the source raises, when no plant has capacity left.
   * `last` is the working state at the point the construction stopped.
   */
  method SelectFacilities(inst: Instance, rclSize: int, rng: nat -> nat, t0: nat)
    returns (res: Result<WorkState>, ghost last: WorkState, t: nat)
    requires WellFormed(inst)
    ensures Consistent(inst, last) && t >= t0
    ensures res.Ok? ==> res.value == last && last.totalDemand <= EPS
    ensures res.Ok? && EPS < Sum(inst.D) ==> last.selectedI != {} && last.selectedJ != {}
    ensures res.Err? ==> res.error == NoPrimaryCapacity || res.error == NoSecondaryCapacity
    ensures res == Err(NoPrimaryCapacity) ==>
      EPS < last.totalDemand && forall i :: 0 <= i < |last.U| ==> last.U[i] <= EPS
    ensures res == Err(NoSecondaryCapacity) ==>
      (forall j :: 0 <= j < |last.V| ==> last.V[j] <= EPS) &&
      Routed(inst, last) + EPS < Committed(inst, last)
  {
    var st := InitialState(inst);
    t := t0;
    while EPS < st.totalDemand
      invariant Consistent(inst, st) && t >= t0
      invariant st.selectedI != {} ==> st.selectedJ != {}
      decreases Steps(st.totalDemand)
    {
      var cand := WithCapacity(st.U);
      if |cand| == 0 {
        return Err(NoPrimaryCapacity), st, t;
      }
      var ok;
      ok, st, t := OpenOnce(inst, rclSize, cand, st, rng, t);
      if !ok {
        return Err(NoSecondaryCapacity), st, t;
      }
    }
    if EPS < Sum(inst.D) {
      var i := SumLtWitness(st.U, inst.U);
      assert i in st.selectedI;
    }
    res, last := Ok(st), st;
  }

  /** One pass of the outer loop: pick a plant with capacity left, commit what it can supply and route it. */
  method OpenOnce(inst: Instance, rclSize: int, cand: seq<nat>, st0: WorkState, rng: nat -> nat, t0: nat)
    returns (ok: bool, st: WorkState, t: nat)
    requires WellFormed(inst) && Consistent(inst, st0) && EPS < st0.totalDemand
    requires st0.selectedI != {} ==> st0.selectedJ != {}
    requires cand == WithCapacity(st0.U) && |cand| > 0
    ensures Consistent(inst, st) && t >= t0
    ensures ok ==> Steps(st.totalDemand) < Steps(st0.totalDemand) && st.selectedI != {} && st.selectedJ != {}
    ensures !ok ==> (forall j :: 0 <= j < |st.V| ==> st.V[j] <= EPS) &&
                    Routed(inst, st) + EPS < Committed(inst, st)
  {
    var depots := WithCapacity(st0.V);
    var iStar := PickPlant(inst, cand, depots, rclSize, rng(t0));
    var used := Min(st0.totalDemand, st0.U[iStar]);
    st := TakePlant(inst, st0, iStar, used);
    ok, st, t := RouteFromPlant(inst, rclSize, iStar, used, st, rng, t0 + 1);
  }

  /** The total fixed map handed to the oracle: every plant and every depot, 1 exactly when selected. */
  function SelectionFixedSet(inst: Instance, st: WorkState): (r: FixedSet)
    ensures forall i: nat :: i in r.plants <==> i < |inst.f|
    ensures forall j: nat :: j in r.depots <==> j < |inst.g|
    ensures forall i :: i in r.plants ==>
      (r.plants[i] == 1 <==> i in st.selectedI) && (r.plants[i] == 0 <==> i !in st.selectedI)
    ensures forall j :: j in r.depots ==>
      (r.depots[j] == 1 <==> j in st.selectedJ) && (r.depots[j] == 0 <==> j !in st.selectedJ)
  {
    FixedSet(map i: nat | i < |inst.f| :: if i in st.selectedI then 1 else 0,
             map j: nat | j < |inst.g| :: if j in st.selectedJ then 1 else 0)
  }

  /**
   * `greedy_tscflp`: select facilities, then let the oracle (no time limit) cost the pattern
   * with every facility fixed.  When the oracle honours the fixes, the pattern returned is
   * exactly the set of facilities the construction opened.
   */
  method Construct(inst: Instance, rclSize: int, solve: MipSolver, rng: nat -> nat, t0: nat)
    returns (res: Result<Solution>, ghost last: WorkState, t: nat)
    requires WellFormed(inst)
    ensures Consistent(inst, last) && t >= t0
    ensures res.Err? ==> res.error == NoPrimaryCapacity || res.error == NoSecondaryCapacity
    ensures res.Ok? ==> last.totalDemand <= EPS && Shaped(res.value, |inst.f|, |inst.g|)
    ensures res.Ok? ==> res.value == SolveFullMip(inst, None, SelectionFixedSet(inst, last), solve)
    ensures res.Ok? && EPS < Sum(inst.D) ==> last.selectedI != {} && last.selectedJ != {}
    ensures res.Ok? && EchoesFixes(solve(inst, None, SelectionFixedSet(inst, last)), SelectionFixedSet(inst, last)) ==>
      (forall i :: 0 <= i < |inst.f| ==> (res.value.openI[i] == 1 <==> i in last.selectedI)) &&
      (forall j :: 0 <= j < |inst.g| ==> (res.value.openJ[j] == 1 <==> j in last.selectedJ))
  {
    var sel;
    sel, last, t := SelectFacilities(inst, rclSize, rng, t0);
    if sel.Err? {
      return Err(sel.error), last, t;
    }
    var fixed := SelectionFixedSet(inst, sel.value);
    res := Ok(SolveFullMip(inst, None, fixed, solve));
  }
}
