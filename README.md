# Fuzzy time series forecasting with a particle-swarm tuner

This project models the forecasting core of an exchange-rate forecaster built
on Lee's fuzzy time series method, and proves properties of the model. The
core has two forecasters:

- **The PSO-tuned forecaster** (`PSOOptimizer`). A particle swarm searches for
  two padding amounts `z1, z2` and the sorted interior breakpoints of the
  universe of discourse `[Dmin - z1, Dmax + z2]`. A particle is scored by the
  MAPE of the Lee forecast its boundaries induce. At the end, the best
  particle's boundaries produce the final forecast.
- **The fixed-interval baseline** (`FTSLeeManual`). It uses `k` equal-width
  intervals over `[Dmin - 50, Dmax + 50]`, labelled fuzzy sets, textual
  relationships and rounded predictions.

Files:

- `common.dfy` (`FtsCommon`) holds what both forecasters share: MAPE,
  two-decimal rounding, the display pairs of a boundary list, minimum and
  maximum, ascending sort, and the reference grouping `Successors`. For each
  set `s`, `Successors` lists the right-hand sides of the consecutive pairs of
  a sequence that start at `s`, in order and with repetition.
- `pso_engine.dfy` (`PsoFts`) is the fuzzy time series engine of the
  PSO-tuned forecaster.
- `books.dfy` (`SwarmBooks`) is the score bookkeeping of the optimizer:
  strict-improvement bests, the fold `OfferAll` of a pass of scores into
  the personal and global bests, and the invariant that ties the bests and
  the history to every score seen.
- `swarm.dfy` (`Swarm`) is the optimizer itself, as a class whose methods
  update the swarm in place.
- `manual.dfy` (`FtsManual`) is the fixed-interval baseline.

How the model represents the source:

- A fuzzy set is an interval index.
- An undefined value (NaN, or an infinite score) is `None`.
- A score replaces a best only when it is strictly better, which is what
  `<` against NaN or infinity gives in the source.
- The optimizer's random numbers are supplied by the caller. These are the
  initial padding and breakpoint draws and the coefficient matrices `r1, r2`
  of every iteration.
- The ghost fields `seenPositions`, `seenScores` and `marks` log every
  evaluated position with its score, so that invariants can state what the
  global best and the history mean.

Where the code departs from the usual description of the method, the model
follows the code:

- **Baseline representatives.** The representatives of the fixed-interval
  baseline split the unpadded range `[Dmin, Dmax]` into `k` parts. They are
  not the midpoints of the padded intervals (fts_manual.py:116, 76-84).
  `FtsManual.RepresentativeIsMidpointIff` proves that the two agree only for
  the middle set of an odd `k`.
- **Baseline relationships.** The baseline records a relationship at each
  position `i >= 1`, from the set at `i` to the set at `i + 1`, with a
  self-loop at the last position. So the transition out of position 0 never
  reaches a group, and the final self-loop does (fts_manual.py:57-74). The
  PSO-tuned engine groups exactly the `N - 1` consecutive pairs.
- **Undefined predictions are not skipped.** An undefined prediction inside
  the scored range makes the whole MAPE undefined (`np.mean` of a NaN).
- **Fuzzification.** The two engines resolve a value on a shared boundary
  differently. The PSO-tuned engine assigns the last matching interval, and 0
  when none matches. The baseline assigns the first matching interval, and
  "Unknown" when none matches.

## Model

| member | source | states |
|---|---|---|
| FtsCommon.Mape | model_pso.py:38-39 | the MAPE (times 100) is defined exactly when there is a position, every prediction is defined and no actual value is zero; it is never negative; the baseline uses the same formula (fts_manual.py:47-49) |
| FtsCommon.MapeZeroIffExact | model_pso.py:38-39 | a defined MAPE is zero exactly when every prediction equals its actual value |
| FtsCommon.Round2 | fts_manual.py:83 | two-decimal rounding moves a value by at most half a hundredth and yields a whole number of hundredths |
| FtsCommon.Round2Idempotent | fts_manual.py:83 | a property of the two-decimal rounding itself (also used at fts_manual.py:95): rounding an already rounded value changes nothing |
| FtsCommon.IntervalTuples | model_pso.py:138-140 | one (lower, upper) pair per interval, each end rounded to two decimals, each upper end equal to the next lower end; the baseline builds its pairs the same way (fts_manual.py:40) |
| FtsCommon.IntervalTuplesRecombine | model_pso.py:138-140 | the lower ends followed by the last upper end give back every boundary, each rounded and within half a hundredth of the original |
| FtsCommon.SeqMin | model_pso.py:13 | the minimum is an element of the series and no element is smaller |
| FtsCommon.SeqMax | model_pso.py:14 | the maximum is an element of the series and no element is larger |
| FtsCommon.SortAsc | model_pso.py:81 | the sorted breakpoints are ascending and a permutation of the drawn ones |
| FtsCommon.PermutationBounds | model_pso.py:122-124 | re-sorting clipped breakpoints keeps them inside the clip bounds |
| FtsCommon.Covered | model_pso.py:47-51 | a value between the first and the last boundary lies in some interval, whatever the order of the boundaries in between |
| FtsCommon.SuccessorsMember | model_pso.py:53-57 | t is in the group of s exactly when some consecutive pair of the series is (s, t) |
| FtsCommon.SuccessorsPrefix | model_pso.py:55-56 | appending more of the series only appends to each group |
| FtsCommon.GroupLengthsTotal | model_pso.py:53-57 | with distinct keys covering every left-hand side, the groups together hold one entry per consecutive pair (N - 1) |
| PsoFts.ZRangeFor | model_pso.py:30-36 | the padding range is (0, 30), (10, 50) or (30, 100) by data range, with 0 <= lo < hi |
| PsoFts.ZRangeMonotone | model_pso.py:30-36 | a wider data range never gets a lower padding range: neither end decreases, and neither does the width |
| PsoFts.GenerateIntervals | model_pso.py:41-42 | the boundaries are Dmin - z1, then the breakpoints unchanged, then Dmax + z2 |
| PsoFts.GeneratedIntervalsSortedAndCovering | model_pso.py:41-42 | with non-negative padding and sorted breakpoints inside [Dmin, Dmax], the boundaries are sorted and every value of [Dmin, Dmax] lies in some interval |
| PsoFts.FuzzyClasses | model_pso.py:44-45 | one representative per interval, the midpoint of its two boundaries |
| PsoFts.FuzzyClassesInside | model_pso.py:44-45 | on sorted boundaries each representative lies inside its interval and the representatives are sorted |
| PsoFts.LastMatch | model_pso.py:49-50 | scanning intervals below n leaves the largest matching index, with no later match, or 0 when none matches |
| PsoFts.FuzzIndex | model_pso.py:47-51 | a value's fuzzy set names an interval; it is the largest interval holding the value, no later interval holds it, and it is 0 when no interval holds it |
| PsoFts.FuzzifySeries | model_pso.py:47-51 | the zero-initialised array overwritten interval by interval equals the last-match fuzzification of every value |
| PsoFts.MaxNat | model_pso.py:54 | the largest fuzzy set occurs in the series and bounds every set |
| PsoFts.BuildFlrg | model_pso.py:53-57 | the dictionary grown pair by pair has keys 0..max and lists for each set the sets that follow it, in order and with repetition |
| PsoFts.FlrgMembers | model_pso.py:53-57 | the keys are exactly 0..max, and t is in the group of s exactly when (s, t) is a consecutive pair |
| PsoFts.FlrgTotalLength | model_pso.py:55-56 | all groups together hold N - 1 entries |
| PsoFts.FlrgWithin | model_pso.py:64 | every group entry indexes a representative |
| PsoFts.Select | model_pso.py:64 | the representatives of a group, entry by entry |
| PsoFts.Defuzzify | model_pso.py:59-67 | each position gets the mean, with repetition, of its group's representatives, and no prediction when its group is missing or empty |
| PsoFts.RunFtsLee | model_pso.py:69-74 | the pipeline fuzzify, group, defuzzify computes the forecast function for the given boundaries |
| PsoFts.FtsLee | model_pso.py:69-74 | one prediction per value of the series, and every position but the last has one |
| PsoFts.PairsGrouped | model_pso.py:53-57 | the set of every position but the last has a non-empty group |
| PsoFts.PredictionDefinedIff | model_pso.py:59-67 | a position has a prediction exactly when its fuzzy set starts some consecutive pair, so every position but the last has one |
| PsoFts.PredictionWithinBoundaries | model_pso.py:59-67 | on sorted boundaries every prediction lies between the first and the last boundary |
| PsoFts.SelectedInside | model_pso.py:59-67 | on sorted boundaries every representative a group selects lies between the first and the last boundary |
| PsoFts.ScorableTail | model_pso.py:99-101 | scoring positions 1..N-1 is defined exactly when N >= 2 and each of them has a prediction and a non-zero actual value |
| PsoFts.ScorableFromPredictions | model_pso.py:99-101 | with all positions but the last predicted, scoring is defined exactly when N >= 2, no later actual is zero and the last position is predicted |
| PsoFts.ParticleScore | model_pso.py:94-101 | a defined particle score is a non-negative MAPE, and it needs at least two values in the series |
| PsoFts.ParticleScoreDefinedIff | model_pso.py:94-101 | a particle's score is defined exactly when N >= 2, no value after the first is zero, and the last value's fuzzy set also occurs earlier |
| SwarmBooks.BestIndex | model_pso.py:106-108 | the index kept by strict-improvement replacement holds a defined score, when there is one |
| SwarmBooks.BestScore | model_pso.py:106-108 | the best score is one of the scores seen, and undefined when none was seen |
| SwarmBooks.BestStep | model_pso.py:106-108 | a new score becomes the global best exactly when it is strictly better than the best so far |
| SwarmBooks.BestScoreIsMinimum | model_pso.py:103-108 | the best score is no worse than any score seen, and undefined only when every score is |
| SwarmBooks.BestIndexEarliest | model_pso.py:106-108 | on ties the earliest position is kept: the chosen score is strictly better than every earlier one |
| SwarmBooks.BestScorePrefix | model_pso.py:106-108 | seeing more scores never makes the best score worse |
| SwarmBooks.Offer | model_pso.py:103-108 | one particle's score never makes its personal best or the global best worse, an undefined score changes nothing, and a tie keeps the old best |
| SwarmBooks.OfferAll | model_pso.py:93-108 | a scoring pass keeps the number of particles and never makes any personal best score or the global best score worse |
| SwarmBooks.OfferAllPerParticle | model_pso.py:103-105 | after a pass, particle k's personal best moved to its position exactly when its score was strictly better than its old personal best score; unscored particles keep theirs |
| SwarmBooks.OfferAllGlobal | model_pso.py:106-108 | after a pass, the global best score is the strict-improvement best of the old global best score followed by the pass's scores |
| SwarmBooks.RecordedGrow | model_pso.py:110 | recorded history entries stay valid when more scores are seen |
| SwarmBooks.RecordedAppend | model_pso.py:110 | appending the current best score to the history keeps it recorded |
| SwarmBooks.PacedAppend | model_pso.py:110 | recording one entry a pass of n evaluations after the last keeps the history paced |
| SwarmBooks.PacedClosedForm | model_pso.py:92-110 | at a steady pace, history entry t was recorded after the first base + (t + 1) n evaluations |
| SwarmBooks.InitialScoresOk | model_pso.py:88-90 | before any scoring, personal bests are the particles with no score, there is no global best and the history is empty, which is consistent bookkeeping |
| SwarmBooks.SeenOkAppend | model_pso.py:93-101 | logging one more evaluated position with its score keeps the log consistent |
| SwarmBooks.ScoresOkStep | model_pso.py:93-108 | scoring one more particle keeps the personal bests, the log, the global best and the history consistent |
| SwarmBooks.ScoresOkPass | model_pso.py:93-108 | a whole scoring pass keeps the bookkeeping consistent: the global best is the earliest strict best of every score seen, and each defined personal best score is its position's score |
| SwarmBooks.OfferAllShape | model_pso.py:103-108 | folding scores of particle-length positions into the bests keeps every personal best and the global best of particle length |
| Swarm.NewVelocity | model_pso.py:115-119 | one velocity per dimension; a dimension where the particle sits at both its personal best and the global best keeps only the inertia w v |
| Swarm.ClampRow | model_pso.py:121-122 | the padding dimensions land in the padding range and the breakpoints in [Dmin, Dmax], and values already inside are unchanged |
| Swarm.SortTail | model_pso.py:123-124 | the padding is kept and the breakpoints become a sorted permutation of themselves |
| Swarm.Clip | model_pso.py:121-122 | np.clip puts a value within its bounds and leaves one already inside unchanged |
| Swarm.RepositionInBox | model_pso.py:120-124 | after clipping and re-sorting, a particle keeps its length, lies in the search box, keeps its clipped padding and a permutation of its clipped breakpoints |
| Swarm.ParticleMape | model_pso.py:94-101 | the MAPE computed for a particle through its boundaries and forecast is its particle score |
| Swarm.ScoreSwarm | model_pso.py:93-108 | the scoring loop over the particles computes the strict-improvement fold of their scores into the personal and global bests |
| Swarm.InitialSwarmOk | model_pso.py:76-84 | the drawn padding and the sorted breakpoint draws lie in the search box |
| Swarm.MoveSwarm | model_pso.py:114-124 | the loop over the particles gives every velocity w v + c1 r1 (pbest - x) + c2 r2 (gbest - x) and every position the clipped, re-sorted x + v, and keeps every particle in the search box |
| Swarm.PsoOptimizer.constructor | model_pso.py:76-90 | the initial swarm holds the drawn padding and the sorted breakpoint draws, velocities are zero, personal bests are the particles with no score, there is no global best, and nothing has been scored or recorded yet |
| Swarm.PsoOptimizer.Evaluate | model_pso.py:93-108 | the bests become the strict-improvement fold of the current particles' scores, the positions and scores are logged, and the bookkeeping stays consistent |
| Swarm.PsoOptimizer.Move | model_pso.py:114-124 | the new swarm is `Moved` of the old state: every velocity and position is updated as the swarm move says, the particles stay in the search box and the bests are untouched |
| Swarm.PsoOptimizer.BestsShape | model_pso.py:105-108 | every personal best and the global best have the length of a particle |
| Swarm.PsoOptimizer.Record | model_pso.py:110 | the global best score is appended to the history together with the number of scores seen so far, and the history stays consistent |
| Swarm.PsoOptimizer.Step | model_pso.py:92-124 | one iteration folds the particles' scores into the bests, logs the scored positions with their scores, appends the global best score to the history, and exactly when a global best exists gives every particle its new velocity and clipped, re-sorted position; otherwise the swarm is unmoved. The new state and the flag are `Stepped` of the old state |
| Swarm.PsoOptimizer.Iteration | model_pso.py:93-124 | one more iteration after a run of `it` iterations that all could move leaves the state, the log of scored positions and the flag of a run of `it + 1` iterations, and records one more history entry |
| Swarm.PsoOptimizer.Iterate | model_pso.py:92-124 | the swarm, the bests and the positions scored are exactly those of `Iterated`: the iterations from the initial state, each one `Stepped` with its own draws, up to nIterations or the first that fails for want of a global best. The first iteration scores the initial swarm, and one history entry is recorded per iteration |
| Swarm.PsoOptimizer.Run | model_pso.py:86-129 | the swarm, the bests and the positions scored are those of `Iterated` over nIterations iterations; the result is the forecast for the global best's boundaries, and it exists exactly when every iteration found a global best; history entry t is recorded after t + 1 iterations |
| Swarm.MoveAll | model_pso.py:114-124 | moving every particle keeps the whole swarm in the search box, with one velocity of particle length per particle |
| Swarm.MoveAllAt | model_pso.py:114-124 | row i of the move is particle i's new velocity w v + c1 r1 (pbest - x) + c2 r2 (gbest - x) and its clipped, re-sorted new position |
| Swarm.PsoOptimizer.Moved | model_pso.py:114-124 | the move towards a global best keeps the swarm in the search box and leaves the bests alone |
| Swarm.PsoOptimizer.Stepped | model_pso.py:93-124 | one iteration: the bests become the fold of the particles' scores, the iteration can move exactly when a global best then exists, a swarm that cannot move is left where it is, and the state stays one of the search |
| Swarm.IteratedAdvance | model_pso.py:92-93 | one more iteration after a run that could move leaves the state and flag of its step and logs the positions it starts from after those logged so far |
| Swarm.IteratedStopped | model_pso.py:112-119 | once an iteration fails for want of a global best, the later ones change nothing |
| Swarm.IteratedLogGrows | model_pso.py:92-101 | the positions scored only grow with more iterations, and the first iteration scores the initial swarm |
| Swarm.PsoOptimizer.IteratedOk | model_pso.py:120-124 | every state a run reaches has its particles in the search box and its bests of particle length |
| Swarm.PsoOptimizer.Finish | model_pso.py:126-129 | the result holds the best padding, its boundaries, their forecast and the whole series as the actual values |
| Swarm.PsoOptimizer.GetIntervalTuples | model_pso.py:138-140 | the display pairs of the best boundaries |
| Swarm.PsoOptimizer.HistoryNonIncreasing | model_pso.py:110 | the history of best scores never gets worse, and the current best is no worse than any entry |
| Swarm.PsoOptimizer.HistoryIsRunningMinimum | model_pso.py:110 | each history entry is one of the scores evaluated before it was recorded, no worse than any of them, and undefined only if all of them were |
| Swarm.PsoOptimizer.HistoryPerIteration | model_pso.py:92-110 | after a paced run, history entry t is the best score of the first t + 1 passes over the particles |
| Swarm.PsoOptimizer.GlobalBestIsBestSeen | model_pso.py:106-108 | the global best's score is its MAPE, no evaluated position scored better, and it is unset only while every score is undefined |
| Swarm.PsoOptimizer.PersonalBestScored | model_pso.py:103-105 | a defined personal best score is the MAPE of the personal best position, and the global best is no worse |
| Swarm.PsoOptimizer.ParticlesCoverSeries | model_pso.py:120-124 | every particle's boundaries are sorted and every value of the series lies in one of its intervals |
| FtsManual.Boundaries | fts_manual.py:30-36 | k + 1 boundaries, Dmin - 50 + i l with l = (Dmax - Dmin + 100) / k |
| FtsManual.BoundariesShape | fts_manual.py:30-36 | the boundaries start at Dmin - 50, end at Dmax + 50, are evenly spaced and strictly increasing |
| FtsManual.FirstMatch | fts_manual.py:52-55 | the search returns the first interval from i on that holds the value, or None when none does |
| FtsManual.Classify | fts_manual.py:51-55 | a value's set is the first interval holding it, none before it holds it, and "Unknown" exactly when no interval holds it |
| FtsManual.BoundariesClassify | fts_manual.py:112 | under the fixed boundaries every value of the series is classified, into a set below k |
| FtsManual.CalculateFlr | fts_manual.py:57-63 | the relationship column is the sentinel at 0, then each set to the next, and a self-loop at the end |
| FtsManual.FlrsShape | fts_manual.py:58-62 | position 0 holds the sentinel and every other position a transition out of its own set; the last loops onto itself |
| FtsManual.CalculateFlrg | fts_manual.py:65-74 | the dictionary grown from position 1 on appends each transition's target to its source's list |
| FtsManual.Groups | fts_manual.py:65-74 | every key of the grouped relationships has a non-empty list |
| FtsManual.GroupsStep | fts_manual.py:68-73 | the relationship at position n - 1 appends the next element of the chain to the list of the set at n - 1 |
| FtsManual.GroupsExtend | fts_manual.py:71-73 | appending a target to the list of the chain's last set extends the reference grouping by that pair |
| FtsManual.GroupsKeys | fts_manual.py:67-73 | after n positions the keys are exactly the sets seen at positions 1..n-1 |
| FtsManual.GroupsValues | fts_manual.py:67-73 | after n positions each list is the reference grouping of the chain's first n sets |
| FtsManual.ManualFlrgIsSuccessors | fts_manual.py:65-74 | the keys are exactly the sets at positions 1..N-1, and each group lists its targets in order and with repetition |
| FtsManual.ManualFlrgTotal | fts_manual.py:65-74 | all groups together hold N - 1 targets, the final self-loop included |
| FtsManual.MapLengthsAsGroupLengths | fts_manual.py:65-74 | the total length of the dictionary's lists is that of the reference grouping |
| FtsManual.RepresentationsOf | fts_manual.py:76-84 | the representatives have exactly the keys 0..k-1 |
| FtsManual.Representations | fts_manual.py:76-84 | one rounded representative per set, the midpoint of the i-th of k equal parts of [min, max]; none for k = 0 |
| FtsManual.RepresentationsBounds | fts_manual.py:76-84 | representatives exist exactly for sets 0..k-1, and each is within half a hundredth of a point of [min, max] |
| FtsManual.RepresentativeIsMidpointIff | fts_manual.py:116 | before rounding, a representative is its padded interval's midpoint exactly when 2i + 1 = k |
| FtsManual.MembersNonEmptyIff | fts_manual.py:92 | the filtered member list is empty exactly when no entry of the group has a representative |
| FtsManual.MembersWithin | fts_manual.py:92 | every kept member value is a representative, so it has their bounds |
| FtsManual.ManualPrediction | fts_manual.py:89-97 | a prediction exists only for a set that has a group, and it is a whole number of hundredths |
| FtsManual.ManualPredictionDefinedIff | fts_manual.py:89-97 | a prediction exists exactly when the set has a group with a member that has a representative |
| FtsManual.ManualPredictionBounds | fts_manual.py:93-95 | a defined prediction is within half a hundredth of the representatives' range |
| FtsManual.DefuzzifyLee | fts_manual.py:86-100 | every position gets the rounded mean of its group's represented members, and NaN otherwise |
| FtsManual.ManualForecast | fts_manual.py:102-120 | one prediction per value of the series, each defined one a whole number of hundredths |
| FtsManual.RunFtsLee | fts_manual.py:102-120 | the pipeline classify, relate, group, represent over [min, max], defuzzify computes the forecast function |
| FtsManual.ClassifiedPredictionDefinedIff | fts_manual.py:86-100 | when every position is classified, a set is predicted exactly when it occurs at some position from 1 on |
| FtsManual.ManualDefinedAfterFirst | fts_manual.py:38 | under the fixed boundaries every position from 1 on is predicted, and position 0 exactly when its set recurs later |
| FtsManual.FtsLeeManual.constructor | fts_manual.py:16-45 | the result holds padding 50, 50, the rounded interval pairs, the forecast, the series as actual values and the MAPE over positions 1..N-1 |
| FtsManual.ManualScoreDefinedIff | fts_manual.py:42-45 | the baseline's MAPE is defined exactly when N >= 2 and no value after the first is zero, and there are k chained interval pairs |

## Left out

- The Sturges set count `round(1 + 3.322 log10 N)` (fts_manual.py:19-20) is not modelled. The number of sets `k >= 1` is a parameter of the baseline, because logarithms and floating point rounding are outside the real arithmetic of the model.
- Random draws are parameters: `np.random.randint(5, 16)` for the interval count, the uniform initial positions, and the matrices `r1, r2`. The model states their ranges as preconditions.
- The progress `print` of every iteration (model_pso.py:112) is not modelled. It is console output only. Its failure when no global best exists is modelled as `ok == false` from `Step` and `Run`.
- `get_result_dataframe` (model_pso.py:131-136) only tabulates what `Finish` stores, so it is not modelled. The pandas and numpy containers are sequences, and masks and broadcasting are written out per element.
- Labels are indices. The set labels "A1", "A2", ... are indices 0, 1, ..., "Unknown" is `None`, the textual relationship "A → B" is the datatype `Flr`, and "NaN" is its `Sentinel`. So the parsing of the text `split(' → ')` is not modelled.
- Floating point is exact. Reals replace IEEE doubles, so the model ignores rounding error, overflow and the binary representation behind Python's `round`. `Round2` rounds exact ties to the even hundredth.
- NaN and infinity are not told apart. Both are `None`; the source never lets either replace a best.
- The single `PSOOptimizer.run` is split into several members. The set-up is the constructor (model_pso.py:5-28, 76-90); the iterations are `Iterate`, whose loop body is `Iteration`, which calls `Step`, which calls `Evaluate`, `Record` and `Move`; the end is `Finish`, called by `Run`. The random number calls in between are parameters. The state after any number of iterations is specified by the ghost function `Iterated` over `Stepped`, the state one iteration leaves.
- An empty series is refused with a precondition, where `np.min` raises in the source.
- `FtsManual.RunFtsLee` requires a non-empty series. The source fails on it in `np.min` and in the column assignment.
