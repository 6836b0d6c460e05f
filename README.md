# TSCFLP greedy construction and Matheuristic Fixed Set Search, in Dafny

This project models the core of a solver for the Two-Stage Capacitated Facility Location
Problem (TSCFLP). Plants supply depots, and depots serve customers. Each plant and each
depot is either open or closed. The aim is to minimise the opening costs plus the unit
transport costs, within capacities, while meeting every customer's demand.

The model has five modules, one per file:

- `Ordering` (`ordering.dfy`) holds the list operations both heuristics rely on:
  - costs that may be `inf` (`ExtReal`);
  - Python's stable `sorted`/`list.sort` (`SortBy`);
  - the two comprehensions "key strictly below the cutoff" and "key equal to it" (`Below`, `Level`);
  - `random.sample` (`Sample`).
- `SeqUtil` (`seq_util.dfy`) holds `sum`, `numpy.mean` (with mean of nothing = 0), `list(range(n))` and index comprehensions.
- `TscflpCore` (`tscflp_core.dfy`) holds:
  - instances and their dense index sets;
  - solutions (a cost and an open/closed pattern) and fixed sets;
  - the MILP oracle `solve_full_mip`, as a contract over a solver parameter;
  - the capacity auto-scaling and the two distance matrices built when an instance is loaded.
- `Greedy` (`greedy_tscflp.dfy`) is the randomized greedy constructor, written as imperative
  Dafny. Its three nested `while` loops become three methods: `SelectFacilities`,
  `RouteFromPlant` and `DeliverFromDepot`. They work over a working state of remaining
  capacities, remaining demand, selected facilities and unmet customers. The state is checked
  by one bookkeeping invariant, `Consistent`, and every pick goes through the Restricted
  Candidate List chooser `ChooseWithRcl`.
- `Mfss` (`mfss_tscflp.dfy`) is Fixed Set Search:
  - `BuildFixedSet` scores facilities by agreement, ranks them, selects entries with random
    tie-breaking at the cutoff, and freezes the selected ones to the base's state;
  - `Iterate` is one iteration: elite, base and subsample, oracle call, then the acceptance
    and stagnation rule (`Accept`);
  - `Populate` builds the greedy population;
  - `Search` runs the iteration loop, one `Step` per pass, and records its history (`History`, `Chain`);
  - `Mfss` is the whole run as written, and `MfssCorrected` the same run with the corrected
    number of facilities to fix (see Findings); both share `Run`, and their outcome is stated
    once, as the predicate `Outcome`.

Randomness is a stream `rng: nat -> nat` owned by the caller and read at a position `t`. A
draw below `n` is `rng(t) % n`. Every sequence of in-range draws therefore comes from some
stream, so a property proved for every `rng` holds for every outcome of the random choices.
`random.seed(0)` at the start of `mfss` becomes "the stream is read from position 0".

The MILP solve is a parameter of type `MipSolver`. It receives the instance, the time limit
and the fixed set, and returns an exception or an objective with variable values.
`SolveFullMip` is what the source does with that answer. The behaviour the source expects of
CBC is stated as two predicates:

- `WithinBounds`: the binaries stay within 0..1;
- `EchoesFixes`: each fixed value is an equality constraint.

The lemmas and `ensures` clauses that depend on the solver take these predicates as hypotheses.

Two points where the model follows the code rather than its comments:

- The docstring of `mfss` (mfss_tscflp.py:104-106) says that about `|I| + |J| − Sizemax`
  facilities are fixed. The comment beside the computation (mfss_tscflp.py:132-133) says the
  count is kept positive. The code computes `min(total_fac − 1, total_fac − Sizemax)`, and
  that value is zero or negative once `Sizemax` reaches the number of facilities (see
  Findings).
- The subsample size is `random.randint(2, max(2, len(Sn)))` (mfss_tscflp.py:152). On a
  one-member elite this draws 2, and `random.sample` then raises because it cannot take 2
  from 1. The model keeps that error.

## Model

| member | source | states |
|---|---|---|
| TscflpCore.PlantIndices | tscflp_core.py:57 | `I` has one index per plant, and an index is in `I` exactly when it is below the number of plants (no gaps) |
| TscflpCore.DepotIndices | tscflp_core.py:58 | `J` is exactly the dense range of depot indices |
| TscflpCore.CustomerIndices | tscflp_core.py:59 | `K` is exactly the dense range of customer indices |
| TscflpCore.RoundHalfEven | tscflp_core.py:195-196 | Python's `round` lies within 1/2 of its argument, sends an exact half to the even neighbour, maps a value in [0, 1] to 0 or 1, and keeps integers unchanged |
| TscflpCore.PatternBit | tscflp_core.py:195-196 | an absent value gives 0; a present one is rounded to within 1/2, an exact half to the even neighbour, and to 0 or 1 when it lies in [0, 1] |
| TscflpCore.SamePattern | mfss_tscflp.py:162-163 | two solutions have the same pattern exactly when their `open_I` and `open_J` agree entry by entry, whatever their costs |
| TscflpCore.SolveFullMip | tscflp_core.py:163-204 | the pattern has one entry per plant and one per depot. On a solver exception: cost `+inf` and an all-zero pattern. With no objective value: cost `+inf`; otherwise the objective. Every entry is 0 or 1 when the solver kept its bounds, and every fixed facility has its fixed value when the solver honoured the fixes |
| TscflpCore.CapacityScale | tscflp_core.py:282 | the scale factor is at least 1, and for a positive raw total it lifts that total to at least 110% of the demand |
| TscflpCore.ScaleCapacities | tscflp_core.py:276-287 | division by zero exactly when the raw capacities sum to 0. Otherwise: one scaled capacity per raw one, each non-negative capacity no smaller than before, and for a positive raw total a scaled total of at least 1.1 × total demand |
| TscflpCore.DistanceMatrix | tscflp_core.py:301-316 | a `len(xs)` × `len(ys)` matrix whose entry [a][b] is the absolute coordinate difference, hence non-negative |
| TscflpCore.BuildInstance | tscflp_core.py:276-319 | fails with division by zero exactly when either raw total is 0. Otherwise the instance keeps the given costs and demands, has scaled capacities bounded as above, and has `c` (plants × depots) and `d` (depots × customers) holding absolute differences. It is well formed when the inputs are non-negative |
| SeqUtil.Range | tscflp_core.py:57-59 | `list(range(n))` has length `n`, holds `i` at position `i`, and contains exactly the naturals below `n` |
| SeqUtil.IndicesWhere | greedy_tscflp.py:86 | the comprehension lists, ascending and without repeats, exactly the indices below `n` that satisfy the filter |
| SeqUtil.Scale | tscflp_core.py:283 | `[u * k for u in s]` is entrywise `s[i] * k` |
| SeqUtil.SumScale | tscflp_core.py:282-283 | scaling every capacity by `k` scales their total by `k` |
| Ordering.SortBy | greedy_tscflp.py:76 | the sort returns a permutation of its input (same multiset), in ascending key order |
| Ordering.Below | mfss_tscflp.py:68 | each element occurs as often as in the input when its key is strictly below the cutoff, and not at all otherwise |
| Ordering.Level | mfss_tscflp.py:70 | each element occurs as often as in the input when its key equals the cutoff, and not at all otherwise |
| Ordering.SortedRank | mfss_tscflp.py:66-71 | in a sorted list, at most `p` elements lie strictly below the key at position `p`, and at least `p + 1` lie at or below it |
| Ordering.Sample | mfss_tscflp.py:73 | `random.sample(pool, k)` returns `k` elements drawn without replacement, a sub-multiset of the pool |
| Greedy.RclLength | greedy_tscflp.py:77 | the RCL length is at least 1 and at most the number of candidates; it equals `rcl_sz` when that is in range, the number of candidates when `rcl_sz` exceeds it, and 1 when `rcl_sz <= 1` |
| Greedy.ChooseWithRcl | greedy_tscflp.py:58-78 | the returned index belongs to a candidate with fewer than RCL-length candidates strictly better than it |
| Greedy.PureGreedyPicksMinimum | greedy_tscflp.py:27-28 | with `rcl_size <= 1` the chosen candidate has the minimum heuristic value |
| Greedy.UnmetCustomers | greedy_tscflp.py:125 | the list holds exactly the customers still unmet, each an existing customer |
| Greedy.WithCapacity | greedy_tscflp.py:86 | exactly the facilities with more than 1e-6 capacity left are candidates |
| Greedy.PickPlant | greedy_tscflp.py:94-103 | the plant chosen is one of the candidates (those with capacity left); fewer than RCL-length candidates have a strictly smaller `h_p`, and with `rcl_size <= 1` none has |
| Greedy.PlantPickRank | greedy_tscflp.py:94-103 | the same rank facts for the plant at any position of the RCL |
| Greedy.PickDepot | greedy_tscflp.py:121-130 | the depot chosen is one of the candidates; fewer than RCL-length candidates have a strictly smaller `h_s` from `i*` against the unmet customers, and with `rcl_size <= 1` none has |
| Greedy.DepotPickRank | greedy_tscflp.py:121-130 | the same rank facts for the depot at any position of the RCL |
| Greedy.PickCustomer | greedy_tscflp.py:150-151 | the customer chosen is one of the candidates (unmet, demand above 1e-6); fewer than RCL-length candidates are strictly nearer to `j*`, and with `rcl_size <= 1` none is |
| Greedy.CustomerPickRank | greedy_tscflp.py:150-151 | the same rank facts for the customer at any position of the RCL |
| Greedy.InitialState | greedy_tscflp.py:45-56 | the initial working state satisfies the bookkeeping invariant, with nothing selected and the whole demand uncommitted |
| Greedy.TakePlant | greedy_tscflp.py:104-110 | committing `U_used` at plant `i*` keeps the invariant (nothing negative, supply committed = demand removed), opens `i*` and raises the committed supply by exactly that amount |
| Greedy.TakeDepot | greedy_tscflp.py:131-136 | routing `V_used` through depot `j*` keeps the invariant (routed ≤ committed, `0 ≤ V[j] ≤ V0[j]`), opens `j*` and changes nothing else |
| Greedy.TakeCustomer | greedy_tscflp.py:154-160 | delivering `amount` to `k*` keeps `0 ≤ D[k] ≤ D0[k]` and delivered ≤ routed; `k*` leaves the unmet set exactly when at most 1e-6 of its demand is left |
| Greedy.DeliverOnce | greedy_tscflp.py:150-160 | one customer delivery keeps the invariant, leaves capacities, commitments and the selected facilities alone, never adds to the unmet set, and moves exactly the delivered amount out of the inflow still to deliver, which strictly decreases |
| Greedy.DeliverFromDepot | greedy_tscflp.py:142-160 | the customer loop keeps the invariant and delivers at most the depot's inflow. The inflow is delivered to within 1e-6 unless no unmet customer has demand above 1e-6 (the early exit) |
| Greedy.RouteOnce | greedy_tscflp.py:116-138 | one depot pass opens a depot, routes part of the plant's supply through it and strictly decreases the unrouted supply |
| Greedy.RouteFromPlant | greedy_tscflp.py:114-160 | the depot loop keeps the invariant. It fails only when every depot has at most 1e-6 capacity while more than 1e-6 of supply is unrouted. On success with positive supply some depot is open |
| Greedy.OpenOnce | greedy_tscflp.py:86-160 | one plant pass strictly decreases the uncommitted demand (the termination measure) and leaves a plant and a depot open, or fails as the depot loop does |
| Greedy.SelectFacilities | greedy_tscflp.py:82-161 | on success at most 1e-6 of demand is uncommitted, and with positive demand a plant and a depot are open. Running out of plants fails with the primary-capacity error, with every plant at most 1e-6 and demand outstanding; running out of depots fails with the secondary-capacity error |
| Greedy.SelectionFixedSet | greedy_tscflp.py:166-169 | the fixed map has an entry for every plant and every depot, and it is 1 exactly when selected, 0 otherwise |
| Greedy.Construct | greedy_tscflp.py:19-173 | `greedy_tscflp` either raises one of the two capacity errors or returns the oracle's answer, unbounded in time, for the total fixed map. When the oracle honours fixes, the returned pattern opens exactly the facilities selected |
| Mfss.Agreement | mfss_tscflp.py:48-55 | a score is at most `len(Skn)`; it is `len(Skn)` exactly when every member agrees with the base on that facility, and 0 exactly when none does |
| Mfss.Facilities | mfss_tscflp.py:48-55 | the facilities are scored plants first, in index order, then depots |
| Mfss.ScoreEntries | mfss_tscflp.py:45-55 | one scored entry per facility, no duplicates, every entry carries its facility's agreement, every facility appears |
| Mfss.RankedScores | mfss_tscflp.py:45-58 | the same entries, sorted by score descending |
| Mfss.Selection | mfss_tscflp.py:60-73 | the chosen entries come from the scores. All are chosen when `Size >= len(scores)`. `scores[Size - 1]` raises IndexError when it is before the start, and a negative sample count raises ValueError |
| Mfss.Cutoff | mfss_tscflp.py:66 | the cutoff is the score of some entry; with `Size = 0` on ranked scores it is the lowest score |
| Mfss.TieBreak | mfss_tscflp.py:66-73 | succeeds exactly when the needed count lies in `0..len(tied)`. It then returns exactly `Size` entries from the scores, none scoring below the cutoff, and includes every entry scoring above it |
| Mfss.PrefixAndTied | mfss_tscflp.py:68-73 | `prefix + sample` stays within the scores, scores no lower than the cutoff, and contains everything above it |
| Mfss.FixOne | mfss_tscflp.py:78-82 | one dict assignment fixes exactly one more facility, to the base's state, and keeps the other entries |
| Mfss.ToFixed | mfss_tscflp.py:76-84 | the fixed facilities are exactly the chosen ones, each frozen to the base's state |
| Mfss.ToFixedCount | mfss_tscflp.py:76-84 | pairwise different chosen facilities give exactly one dict entry each |
| Mfss.BuildFixedSet | mfss_tscflp.py:24-84 | every fixed value is the base's state for that facility, and only existing facilities are fixed. It succeeds when `Size` covers every facility, and raises IndexError or ValueError for the negative sizes that make the source raise |
| Mfss.BuildFixedSetOk | mfss_tscflp.py:24-84 | `build_fixed_set` returns exactly when `Size >= 1`, or `Size = 0` and all facilities agree equally often with the base; otherwise it raises |
| Mfss.BuildFixedSetFrom | mfss_tscflp.py:24-84 | a returned fixed set has the properties of `FixedFrom`: existing facilities frozen to the base, exactly `Size` of them below `total_fac`, all from `total_fac` on, none for `Size = 0`, no unfixed facility scoring above a fixed one |
| Mfss.ChosenScored | mfss_tscflp.py:66-78 | whatever is selected is a list of pairwise different, correctly scored facilities |
| Mfss.FixAllWhenLarge | mfss_tscflp.py:60-62 | `Size >= total_fac` fixes every plant and every depot |
| Mfss.CutoffRank | mfss_tscflp.py:66-71 | fewer than `Size` entries score above `scores[Size - 1]`, and at least `Size` score at least as much, so `needed` is in range |
| Mfss.SelectionExact | mfss_tscflp.py:64-73 | for `1 <= Size < len(scores)` the selection succeeds with exactly `Size` entries, ties or not |
| Mfss.FixedSetExact | mfss_tscflp.py:64-84 | for `1 <= Size < total_fac` exactly `Size` facilities are fixed, however many tie at the cutoff |
| Mfss.SelectionOrdered | mfss_tscflp.py:58-73 | no entry left out scores higher than an entry chosen |
| Mfss.FixedSetOrdered | mfss_tscflp.py:58-84 | no unfixed facility has a higher agreement score than a fixed one |
| Mfss.SelectionZero | mfss_tscflp.py:66-73 | with `Size = 0` the cutoff is the last (lowest) score. The selection succeeds, choosing nothing, exactly when all entries share one score |
| Mfss.UniformFromAgreement | mfss_tscflp.py:48-55 | if all facilities agree equally often with the base, all scored entries share one score |
| Mfss.AgreementFromUniform | mfss_tscflp.py:48-55 | if every facility is scored and all entries share one score, all facilities agree equally often |
| Mfss.UniformScores | mfss_tscflp.py:48-58 | the ranked entries share one score if and only if all facilities agree equally often with the base |
| Mfss.FixedSetSizeZero | mfss_tscflp.py:60-84 | `build_fixed_set` with `Size = 0` succeeds, with an empty fixed set, if and only if all facilities agree equally often with the base |
| Mfss.FixedSetSizeAsWritten | mfss_tscflp.py:133 | the size as written is at most `total_fac − 1` (so the fix-everything branch is never taken) and at most `total_fac − Sizemax` |
| Mfss.FixedSetSize | mfss_tscflp.py:133 | the corrected size is at least 1, at most `total_fac − 1` when there are two or more facilities, and equal to the source's value whenever that is positive |
| Mfss.CorrectedSizeBuilds | mfss_tscflp.py:133-156 | with the corrected size `build_fixed_set` always succeeds; with two or more facilities it fixes exactly that many and leaves at least one free |
| Mfss.EliteSize | mfss_tscflp.py:146 | the slice length is `min(n_best, len(P))` for non-negative `n_best` and counts from the end for a negative one |
| Mfss.Elite | mfss_tscflp.py:145-146 | `Sn` is a prefix of the sorted population, and no elite member costs more than one left out |
| Mfss.RandInt | mfss_tscflp.py:152 | `random.randint(lo, hi)` lies in `[lo, hi]` |
| Mfss.ChooseBaseAndSample | mfss_tscflp.py:149-153 | an empty elite raises IndexError and a one-member elite raises ValueError. Otherwise the base is an elite member and `Skn` is a sub-multiset of the elite of size between 2 and `len(Sn)` |
| Mfss.FirstMin | mfss_tscflp.py:136 | `min(P, key=cost)` is a member of least cost, and the first such member |
| Mfss.Accept | mfss_tscflp.py:162-183 | the candidate is appended exactly when its pattern is new and it beats the best by more than 1e-6, and it then becomes the best with `stag` reset. The population never shrinks and grows by at most one. The best cost never rises and the best stays a least-cost member. `stag` counts up to 4 and then resets, doubling `tau`, so `tau` never decreases |
| Mfss.IsNewPattern | mfss_tscflp.py:166 | a new pattern is in particular not a member of the population |
| Mfss.NewPatternAppend | mfss_tscflp.py:166-170 | a pattern is new against the population with one more member exactly when it is new against the rest and differs from that member |
| Mfss.Improves | mfss_tscflp.py:169 | an improvement is finite and strictly below the best; against an infinite best every finite cost improves; between finite costs it is beating the best by more than 1e-6 |
| Mfss.NewAgainstPart | mfss_tscflp.py:166 | a pattern new against the population is new against any part of it |
| Mfss.AcceptSorted | mfss_tscflp.py:145-183 | accepting against the sorted population keeps the invariant and the shapes. Either population and best are unchanged up to order, or the candidate, new and strictly cheaper, is added and becomes the best |
| Mfss.Iterate | mfss_tscflp.py:144-184 | one iteration keeps best ∈ P and best cost minimal, never raises the best cost or lowers `tau`, and adds at most the oracle's solution. It raises IndexError or ValueError when the elite has fewer than 2 members and, with 2 or more, exactly when `Size < 0` or `Size = 0` with unequal agreement. It raises ZeroDivisionError exactly when the elite has 2 or more members, `build_fixed_set` returned, `best_initial` is 0, and the candidate's pattern is new and its cost beats the best by more than 1e-6. With 2 or more the base and `Skn` come from the elite, and the candidate is the oracle's answer with time limit `tau` for a fixed set satisfying `FixedFrom` (predicate `Drawn`); on success the whole iteration, from elite to acceptance, is `RoundOk` |
| Mfss.Populate | mfss_tscflp.py:121-125 | `Npop` greedy solutions of the right shape, or the first greedy error with fewer solutions; each solution is `Greedy.Construct`'s result: the oracle's answer, unbounded in time, for the total fixed map of a final working state that keeps the invariant and has at most 1e-6 of demand uncommitted (predicate `GreedyResults`) |
| Mfss.GreedyResultsAppend | mfss_tscflp.py:124-125 | appending one more greedy result keeps `GreedyResults` |
| Mfss.TracksAppend | mfss_tscflp.py:169-172 | an accepted candidate keeps the search's history invariant: population = greedy solutions + additions, each addition new and strictly cheaper than the one before |
| Mfss.TracksBest | mfss_tscflp.py:136-171 | under that invariant the best costs no more than any greedy or added solution |
| Mfss.DescendingAppend | mfss_tscflp.py:169-171 | appending a cost below the last addition keeps the additions strictly decreasing in cost |
| Mfss.NewChainAppend | mfss_tscflp.py:166-170 | appending a pattern new against the whole population keeps every addition new against everything before it |
| Mfss.TracksEliteSize | mfss_tscflp.py:145-146 | the population only grows during the search, so its elite is never smaller than the greedy population's |
| Mfss.StartTracks | mfss_tscflp.py:136 | before the loop, with `best_sol = min(P, key=cost)`, the population is the greedy one with nothing added, and the history invariant holds |
| Mfss.RoundTracks | mfss_tscflp.py:145-171 | a completed iteration keeps the history invariant, adding its candidate exactly when its pattern is new and it beats the best by more than 1e-6 |
| Mfss.StepTracks | mfss_tscflp.py:144-171 | iteration `k` of a history of completed iterations carries the invariant from state `k` to state `k + 1`, with the additions `Accepted(h, k + 1)` |
| Mfss.ChainTracks | mfss_tscflp.py:136-171 | every state of a history that starts from the greedy population satisfies the invariant, with the additions the rule took so far |
| Mfss.SortedInvariant | mfss_tscflp.py:145 | `P.sort` keeps the best in the population and no member cheaper than it |
| Mfss.RoundGrowth | mfss_tscflp.py:164-171 | in a completed iteration (`RoundOk`) the population grows exactly when the candidate's pattern is new against `P` and its cost is below `best_sol.cost - 1e-6`; it then ends with the candidate, which becomes the best, and otherwise population (up to order) and best are unchanged |
| Mfss.Accepted | mfss_tscflp.py:164-170 | the candidates the acceptance rule took over the first `n` iterations number at most `n` |
| Mfss.AcceptedAppend | mfss_tscflp.py:168-169 | one more iteration appends its candidate to the accepted ones exactly when its pattern is new and it improves the best by more than 1e-6 |
| Mfss.ChainAppend | mfss_tscflp.py:144-184 | one more completed iteration extends a history of completed iterations (`Chain`) |
| Mfss.TraceStep | mfss_tscflp.py:144-184 | a completed iteration extends the search trace: the population changes exactly when the rule takes the candidate, and the accepted candidates grow by it exactly then |
| Mfss.TraceRefused | mfss_tscflp.py:146-155 | an iteration that raised leaves the trace intact with its draw recorded; when `build_fixed_set` raised on an elite of 2 or more, the draw came from the elite and `Size < 0`, or `Size = 0` with unequal agreement |
| Mfss.Step | mfss_tscflp.py:144-184 | one pass of the loop keeps the loop invariant `Progress`, or raises, and then `Searched` holds for that error |
| Mfss.SearchClosed | mfss_tscflp.py:144-186 | when the loop has run all `max_iter` iterations, or an iteration raised, `Searched` holds for the result |
| Mfss.SearchedBest | mfss_tscflp.py:136-186 | after a successful search the returned `best_sol` is the last addition, or the greedy best if there was none, and costs no more than every greedy or added solution. There are at most `max_iter` additions, strictly decreasing in cost and starting below the greedy best, each with a pattern new against everything before it |
| Mfss.Search | mfss_tscflp.py:129-186 | `Searched`: the history starts from the greedy population and its cheapest member. It records one completed iteration per pass (elite base and subsample, a `FixedFrom` fixed set, the oracle's answer with the current `tau`, then the acceptance rule), `max_iter` of them on success and fewer on a raise. The additions are exactly the candidates the rule took, and on success the result is the best of the last state. IndexError or ValueError come only with `max_iter >= 1` and an elite below 2 or `Size <= 0`, always when the elite is below 2 or `Size < 0`, and from `build_fixed_set` only on a draw that refused the size. ZeroDivisionError comes exactly at the first candidate the rule takes when the initial best cost is 0: it needs initial best cost 0, and `h.raised` then records the iteration (an elite draw, the oracle's answer for its fixed set, and a candidate the rule took); conversely, with initial best cost 0 no completed iteration has its candidate taken, so there are no additions. `SearchedBest` gives the cost properties of a successful result |
| Mfss.Run | mfss_tscflp.py:87-186 | `Outcome` holds for a run with the given number of facilities to fix: `mfss` raises for an empty population (`Npop <= 0`), passes on the greedy errors exactly when fewer than `Npop` solutions were built, raises a sampling error only as `Search` does, raises ZeroDivisionError exactly as `Search` does (at the first candidate taken when the greedy best costs 0), and otherwise keeps `Searched` over the `Npop` greedy solutions, each of them `GreedyResults`. `SearchedBest` then gives the cost properties of a successful run's result |
| Mfss.Mfss | mfss_tscflp.py:87-186 | `Outcome` with the size as written, so ZeroDivisionError is raised exactly at the first candidate taken when the greedy best costs 0; moreover, when `Sizemax` exceeds the number of facilities, every run that builds its `Npop` solutions and iterates at least once raises IndexError or ValueError |
| Mfss.MfssCorrected | mfss_tscflp.py:87-186 | `Outcome` with the corrected size, so ZeroDivisionError is raised exactly at the first candidate taken when the greedy best costs 0; the sampling errors then occur only with an elite below 2 |

## Left out

- The PuLP model building and the CBC solve inside `solve_full_mip` (tscflp_core.py:112-182) are a call into a foreign library. They are the `solve` parameter, and their expected behaviour is the hypotheses `WithinBounds` and `EchoesFixes`.
- Reading and parsing the dataset file in `load_instance_from_file` is file I/O and is not modelled.
- The random plant coordinates (`random.seed(42)`, `random.uniform`) are inputs of `BuildInstance`. With them goes the ValueError that `min(customer_x)` raises for an instance without customers (tscflp_core.py:295): `BuildInstance` does not compute the coordinate range, so it returns an instance in that case. (Without plants or without depots the capacity scaling has already raised ZeroDivisionError, which `BuildInstance` keeps.)
- The Mersenne Twister behind `random` is not modelled. Each draw takes one position of the `rng` stream, and `random.sample` takes one position per element drawn from the shrinking pool. The model therefore covers every outcome of the draws, but not the exact sequence a given seed yields.
- Floating point is modelled as exact reals. There is no rounding, NaN or `-0.0`, and `numpy.mean` is an exact mean (0 for no values). The 1e-6 tolerance and the 1e-9 guard are exact constants.
- The order in which `unmet_customers` (a set) is iterated is taken as ascending index. That is how CPython iterates small integer sets, and it matters only for ties in the stable sort.
- The greedy loops terminate because each pass moves more than 1e-6 units. In the model the termination measure is that quantity in 1e-6 steps, rounded down (`Greedy.Steps`).
- Printing, the progress messages, timing and the `__main__` blocks are left out. The only visible effect of the improvement message, the ZeroDivisionError raised by its percentage, is kept in `Mfss.Iterate`.
- compare_greedy_mfss.py and run_batch_experiments.py (command line, reports, subprocesses) are not part of this model.
- `Greedy.PlantScore` and `Greedy.DepotScore` carry no contract of their own. They are the heuristics `h_p` and `h_s` as written; their ranking role is stated by `PickPlant` and `PickDepot` (and the `*PickRank` lemmas), which say that fewer than RCL-length candidates score strictly lower than the one chosen.
- Ordering.SortBy: stability is implemented (equal keys keep their order) but not stated; it matters only for which candidate a given draw picks, and the model covers every draw sequence.
- Mfss.Search: the time-limit doubling is not restated in its result. It is stated per iteration by `Mfss.Accept` and `Mfss.AcceptSorted`, and every iteration recorded in the history ends in `Accept`'s state.
- Mfss.Mfss: with the size as written, `Sizemax == total_fac` gives `Size = 0`. The first `build_fixed_set` then raises unless all facilities agree equally often with the base, and if they do the oracle runs with nothing fixed. Any raise ends `mfss`, since there is no handler. `Outcome` states both through `Search` and `Iterate`, but it does not say which case a given population meets.

## Findings

| source | as written | input that shows it | evidently intended | confidence | as-written member | corrected member |
|---|---|---|---|---|---|---|
| mfss_tscflp.py:133 | `Size = min(total_fac - 1, total_fac - Sizemax)`, commented "kept positive". When `Sizemax >= total_fac` the size is 0 or negative. `build_fixed_set` then indexes `scores[Size - 1]` from the end (IndexError below the start) or calls `random.sample` with a negative count (ValueError). With size 0 it succeeds only when every facility has the same score | 2 plants, 2 depots and the default `Sizemax = 10`: `Size = -6`, and `scores[-7]` on a 4-entry list raises IndexError in the first iteration | a size of at least 1, as the comment says, so that at least one facility is fixed and at least one stays free | not executed | Mfss.FixedSetSizeAsWritten, Mfss.AsWrittenSizeRaises, Mfss.DefaultSizeMaxCounterexample, Mfss.Mfss | Mfss.FixedSetSize, Mfss.CorrectedSizeBuilds, Mfss.MfssCorrected |
