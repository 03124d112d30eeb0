/** The fuzzy time series engine of the PSO-tuned forecaster (Lee's method):
    padding ranges, interval construction, fuzzification by index scan,
    relationship groups, defuzzification and the particle score.
    Fuzzy sets are the indices 0, 1, ... of the intervals. */
module PsoFts {
  import opened FtsCommon

  /** The search range shared by the left and right padding amounts. */
  datatype ZRange = ZRange(lo: real, hi: real)

  /** Padding range chosen by bucketing the range of the data. */
  function ZRangeFor(rangeData: real): (z: ZRange)
    ensures 0.0 <= z.lo < z.hi
  {
    if rangeData <= 100.0 then ZRange(0.0, 30.0)
    else if rangeData <= 300.0 then ZRange(10.0, 50.0)
    else ZRange(30.0, 100.0)
  }

  /** A wider data range never gets a narrower or lower padding range. */
  lemma ZRangeMonotone(r1: real, r2: real)
    requires r1 <= r2
    ensures ZRangeFor(r1).lo <= ZRangeFor(r2).lo && ZRangeFor(r1).hi <= ZRangeFor(r2).hi
    ensures ZRangeFor(r1).hi - ZRangeFor(r1).lo <= ZRangeFor(r2).hi - ZRangeFor(r2).lo
  {
  }

  /** The boundaries [dmin - z1, points..., dmax + z2]. */
  function GenerateIntervals(dmin: real, dmax: real, z1: real, z2: real, points: seq<real>): (b: seq<real>)
    ensures |b| == |points| + 2
    ensures b[0] == dmin - z1 && b[|b| - 1] == dmax + z2
    ensures b[1..|b| - 1] == points
  {
    [dmin - z1] + points + [dmax + z2]
  }

  /** With non-negative padding and sorted breakpoints inside [dmin, dmax],
      the boundaries are non-decreasing and every value of [dmin, dmax] lies
      in some interval. */
  lemma GeneratedIntervalsSortedAndCovering(dmin: real, dmax: real, z1: real, z2: real, points: seq<real>, v: real)
    requires z1 >= 0.0 && z2 >= 0.0 && dmin <= dmax
    requires Sorted(points) && forall k :: 0 <= k < |points| ==> dmin <= points[k] <= dmax
    requires dmin <= v <= dmax
    ensures Sorted(GenerateIntervals(dmin, dmax, z1, z2, points))
    ensures exists i :: 0 <= i < |points| + 1 && InInterval(GenerateIntervals(dmin, dmax, z1, z2, points), v, i)
  {
    var b := GenerateIntervals(dmin, dmax, z1, z2, points);
    forall i, j | 0 <= i < j < |b| ensures b[i] <= b[j] {
      if 0 < i && j < |b| - 1 {
        assert b[i] == points[i - 1] && b[j] == points[j - 1];
      } else if i == 0 && j < |b| - 1 {
        assert b[j] == points[j - 1];
      } else if 0 < i && j == |b| - 1 {
        assert b[i] == points[i - 1];
      }
    }
    Covered(b, v);
  }

  /** Representatives: the midpoint of each interval. */
  function FuzzyClasses(b: seq<real>): (reps: seq<real>)
    ensures |reps| == if |b| == 0 then 0 else |b| - 1
    ensures forall i :: 0 <= i < |reps| ==> reps[i] == (b[i] + b[i + 1]) / 2.0
  {
    if |b| == 0 then [] else seq(|b| - 1, i requires 0 <= i < |b| - 1 => (b[i] + b[i + 1]) / 2.0)
  }

  /** On sorted boundaries each representative lies inside its own interval,
      so the representatives are sorted too. */
  lemma FuzzyClassesInside(b: seq<real>)
    requires Sorted(b)
    ensures forall i :: 0 <= i < |FuzzyClasses(b)| ==> b[i] <= FuzzyClasses(b)[i] <= b[i + 1]
    ensures Sorted(FuzzyClasses(b))
  {
    var reps := FuzzyClasses(b);
    forall i, j | 0 <= i < j < |reps| ensures reps[i] <= reps[j] {
      assert b[i + 1] <= b[j];
    }
  }

  /** The last interval index i < n with b[i] <= v <= b[i+1], or 0 if none. */
  function LastMatch(b: seq<real>, v: real, n: nat): (r: nat)
    requires n < |b|
    ensures r < n || r == 0
    ensures (exists i :: 0 <= i < n && InInterval(b, v, i)) ==>
              InInterval(b, v, r) && forall i :: r < i < n ==> !InInterval(b, v, i)
    ensures (forall i :: 0 <= i < n ==> !InInterval(b, v, i)) ==> r == 0
    decreases n
  {
    if n == 0 then 0
    else if b[n - 1] <= v <= b[n] then n - 1
    else LastMatch(b, v, n - 1)
  }

  /** Fuzzy set of one value: the largest matching interval index (later
      matches overwrite earlier ones), 0 when nothing matches. */
  function FuzzIndex(b: seq<real>, v: real): (r: nat)
    ensures |b| >= 2 ==> r <= |b| - 2
    ensures (exists i :: 0 <= i < |b| - 1 && InInterval(b, v, i)) ==>
              InInterval(b, v, r) && forall i :: r < i < |b| - 1 ==> !InInterval(b, v, i)
    ensures (forall i :: 0 <= i < |b| - 1 ==> !InInterval(b, v, i)) ==> r == 0
  {
    if |b| < 2 then 0 else LastMatch(b, v, |b| - 1)
  }

  function Fuzzified(series: seq<real>, b: seq<real>): (f: seq<nat>)
    ensures |f| == |series|
  {
    seq(|series|, j requires 0 <= j < |series| => FuzzIndex(b, series[j]))
  }

  /** Fuzzification as the source does it: start from zeros, then for every
      interval in ascending order overwrite the entries whose value it holds. */
  method FuzzifySeries(series: seq<real>, b: seq<real>) returns (fuzzy: seq<nat>)
    ensures fuzzy == Fuzzified(series, b)
  {
    var a := new nat[|series|](_ => 0);
    var n := if |b| < 2 then 0 else |b| - 1;
    var i := 0;
    while i < n
      invariant 0 <= i <= n
      invariant a.Length == |series|
      invariant forall j :: 0 <= j < |series| ==> a[j] == (if i == 0 then 0 else LastMatch(b, series[j], i))
    {
      var j := 0;
      while j < |series|
        invariant 0 <= j <= |series|
        invariant forall k :: 0 <= k < j ==> a[k] == LastMatch(b, series[k], i + 1)
        invariant forall k :: j <= k < |series| ==> a[k] == (if i == 0 then 0 else LastMatch(b, series[k], i))
      {
        if b[i] <= series[j] <= b[i + 1] {
          a[j] := i;
        }
        j := j + 1;
      }
      i := i + 1;
    }
    fuzzy := a[..];
  }

  function MaxNat(f: seq<nat>): (m: nat)
    requires |f| > 0
    ensures forall i :: 0 <= i < |f| ==> f[i] <= m
    ensures exists i :: 0 <= i < |f| && f[i] == m
    decreases |f|
  {
    if |f| == 1 then f[0]
    else var m := MaxNat(f[..|f| - 1]);
      assert forall i :: 0 <= i < |f| - 1 ==> f[..|f| - 1][i] == f[i];
      if f[|f| - 1] > m then f[|f| - 1] else m
  }

  /** Relationship groups: one key per set 0..max, each listing the sets that
      follow it in the series. */
  function FlrgOf(f: seq<nat>): map<nat, seq<nat>>
    requires |f| > 0
  {
    map s: nat | s <= MaxNat(f) :: Successors(f, s)
  }

  /** The dictionary of lists, grown one consecutive pair at a time. */
  method BuildFlrg(f: seq<nat>) returns (flrg: map<nat, seq<nat>>)
    requires |f| > 0
    ensures flrg == FlrgOf(f)
  {
    var m := MaxNat(f);
    flrg := map[];
    for s := 0 to m + 1
      invariant forall t: nat :: t in flrg <==> t < s
      invariant forall t :: t in flrg ==> flrg[t] == []
    {
      flrg := flrg[s := []];
    }
    var i := 0;
    while i < |f| - 1
      invariant 0 <= i <= |f| - 1
      invariant flrg.Keys == FlrgOf(f).Keys
      invariant forall s :: s in flrg ==> flrg[s] == Successors(f[..i + 1], s)
    {
      assert f[..i + 2][..i + 1] == f[..i + 1];
      flrg := flrg[f[i] := flrg[f[i]] + [f[i + 1]]];
      i := i + 1;
    }
    assert f[..|f|] == f;
  }

  /** The keys are exactly 0..max and t is in the group of s exactly when
      some consecutive pair of the series is (s, t). */
  lemma FlrgMembers(f: seq<nat>, s: nat, t: nat)
    requires |f| > 0
    ensures s in FlrgOf(f) <==> s <= MaxNat(f)
    ensures s in FlrgOf(f) ==>
              (t in FlrgOf(f)[s] <==> exists i :: 0 <= i < |f| - 1 && f[i] == s && f[i + 1] == t)
  {
    SuccessorsMember(f, s, t);
  }

  function Range(n: nat): (r: seq<nat>)
    ensures |r| == n && forall i :: 0 <= i < n ==> r[i] == i
  {
    seq(n, i => i)
  }

  /** All groups together hold N - 1 entries: one per consecutive pair. */
  lemma FlrgTotalLength(f: seq<nat>)
    requires |f| > 0
    ensures GroupLengths(f, Range(MaxNat(f) + 1)) == |f| - 1
  {
    var m := MaxNat(f);
    var ks := Range(m + 1);
    forall i | 0 <= i < |f| - 1 ensures f[i] in ks {
      assert ks[f[i]] == f[i];
    }
    forall i, j | 0 <= i < j < |ks| ensures ks[i] != ks[j] {
    }
    GroupLengthsTotal(f, ks);
  }

  /** Every entry of every group is a valid representative index. */
  predicate GroupsIndexReps(flrg: map<nat, seq<nat>>, nreps: nat)
  {
    forall s, k :: s in flrg && 0 <= k < |flrg[s]| ==> flrg[s][k] < nreps
  }

  lemma FlrgWithin(f: seq<nat>, bound: nat)
    requires |f| > 0
    requires forall i :: 0 <= i < |f| ==> f[i] < bound
    ensures GroupsIndexReps(FlrgOf(f), bound)
  {
    forall s, k | s in FlrgOf(f) && 0 <= k < |FlrgOf(f)[s]| ensures FlrgOf(f)[s][k] < bound {
      SuccessorsMember(f, s, FlrgOf(f)[s][k]);
    }
  }

  function Select(reps: seq<real>, g: seq<nat>): (r: seq<real>)
    requires forall k :: 0 <= k < |g| ==> g[k] < |reps|
    ensures |r| == |g| && forall k :: 0 <= k < |g| ==> r[k] == reps[g[k]]
  {
    seq(|g|, k requires 0 <= k < |g| => reps[g[k]])
  }

  /** Lee's prediction for a position in fuzzy set s: the mean, with
      repetition, of the representatives of the group of s; undefined when the
      group is missing or empty. */
  function LeePrediction(flrg: map<nat, seq<nat>>, reps: seq<real>, s: nat): Option<real>
    requires GroupsIndexReps(flrg, |reps|)
  {
    if s in flrg && |flrg[s]| > 0 then Some(Mean(Select(reps, flrg[s]))) else None
  }

  function Predictions(f: seq<nat>, flrg: map<nat, seq<nat>>, reps: seq<real>): (p: seq<Option<real>>)
    requires GroupsIndexReps(flrg, |reps|)
    ensures |p| == |f|
  {
    seq(|f|, j requires 0 <= j < |f| => LeePrediction(flrg, reps, f[j]))
  }

  /** Defuzzification: one prediction appended per position. */
  method Defuzzify(f: seq<nat>, flrg: map<nat, seq<nat>>, reps: seq<real>) returns (pred: seq<Option<real>>)
    requires GroupsIndexReps(flrg, |reps|)
    ensures pred == Predictions(f, flrg, reps)
  {
    pred := [];
    for j := 0 to |f|
      invariant pred == Predictions(f[..j], flrg, reps)
    {
      var nextStates := if f[j] in flrg then flrg[f[j]] else [];
      if |nextStates| > 0 {
        var vals := [];
        for k := 0 to |nextStates|
          invariant vals == Select(reps, nextStates[..k])
        {
          vals := vals + [reps[nextStates[k]]];
        }
        assert nextStates[..|nextStates|] == nextStates;
        pred := pred + [Some(Mean(vals))];
      } else {
        pred := pred + [None];
      }
    }
    assert f[..|f|] == f;
  }

  /** The whole forecast for boundaries b: fuzzify, group, defuzzify. */
  function FtsLee(data: seq<real>, b: seq<real>): (p: seq<Option<real>>)
    requires |data| > 0 && |b| >= 2
    ensures |p| == |data|
    ensures forall j :: 0 <= j < |data| - 1 ==> p[j].Some?
  {
    var f := Fuzzified(data, b);
    FlrgWithin(f, |b| - 1);
    PairsGrouped(f);
    Predictions(f, FlrgOf(f), FuzzyClasses(b))
  }

  /** The set of every position but the last starts a consecutive pair, so
      its group exists and is not empty. */
  lemma PairsGrouped(f: seq<nat>)
    requires |f| > 0
    ensures forall j :: 0 <= j < |f| - 1 ==> f[j] in FlrgOf(f) && |FlrgOf(f)[f[j]]| > 0
  {
    forall j | 0 <= j < |f| - 1 ensures f[j] in FlrgOf(f) && |FlrgOf(f)[f[j]]| > 0 {
      assert f[j] <= MaxNat(f);
      SuccessorsMember(f, f[j], f[j + 1]);
    }
  }

  method RunFtsLee(data: seq<real>, b: seq<real>) returns (pred: seq<Option<real>>)
    requires |data| > 0 && |b| >= 2
    ensures pred == FtsLee(data, b)
  {
    var reps := FuzzyClasses(b);
    var f := FuzzifySeries(data, b);
    var flrg := BuildFlrg(f);
    FlrgWithin(f, |b| - 1);
    pred := Defuzzify(f, flrg, reps);
  }

  /** A position has a prediction exactly when its fuzzy set is the left-hand
      side of some consecutive pair; in particular every position but the
      last always has one. */
  lemma PredictionDefinedIff(data: seq<real>, b: seq<real>, j: nat)
    requires |data| > 0 && |b| >= 2 && j < |data|
    ensures var f := Fuzzified(data, b);
            FtsLee(data, b)[j].Some? <==> exists i :: 0 <= i < |data| - 1 && f[i] == f[j]
    ensures j < |data| - 1 ==> FtsLee(data, b)[j].Some?
  {
    var f := Fuzzified(data, b);
    var flrg := FlrgOf(f);
    assert f[j] <= MaxNat(f);
    assert f[j] in flrg;
    if exists i :: 0 <= i < |data| - 1 && f[i] == f[j] {
      var i :| 0 <= i < |data| - 1 && f[i] == f[j];
      SuccessorsMember(f, f[j], f[i + 1]);
    }
    if |flrg[f[j]]| > 0 {
      SuccessorsMember(f, f[j], flrg[f[j]][0]);
    }
  }

  /** On sorted boundaries the representatives a group selects lie between
      the first and the last boundary. */
  lemma SelectedInside(b: seq<real>, g: seq<nat>)
    requires |b| >= 2 && Sorted(b) && forall k :: 0 <= k < |g| ==> g[k] < |b| - 1
    ensures forall k :: 0 <= k < |g| ==> b[0] <= Select(FuzzyClasses(b), g)[k] <= b[|b| - 1]
  {
    FuzzyClassesInside(b);
    forall k | 0 <= k < |g| ensures b[0] <= Select(FuzzyClasses(b), g)[k] <= b[|b| - 1] {
      assert b[0] <= b[g[k]] && b[g[k] + 1] <= b[|b| - 1];
    }
  }

  /** On sorted boundaries every defined prediction lies between the first
      and the last boundary. */
  lemma PredictionWithinBoundaries(data: seq<real>, b: seq<real>, j: nat)
    requires |data| > 0 && |b| >= 2 && j < |data| && Sorted(b)
    requires FtsLee(data, b)[j].Some?
    ensures b[0] <= FtsLee(data, b)[j].value <= b[|b| - 1]
  {
    var f := Fuzzified(data, b);
    FlrgWithin(f, |b| - 1);
    var g := FlrgOf(f)[f[j]];
    SelectedInside(b, g);
    MeanBounds(Select(FuzzyClasses(b), g), b[0], b[|b| - 1]);
  }

  /** The score of a particle [z1, z2, breakpoints...]: MAPE of its forecast
      over positions 1..N-1. */
  function ParticleScore(data: seq<real>, dmin: real, dmax: real, p: seq<real>): (r: Option<real>)
    requires |data| > 0 && |p| >= 2
    ensures r.Some? ==> r.value >= 0.0 && |data| >= 2
  {
    var pred := FtsLee(data, GenerateIntervals(dmin, dmax, p[0], p[1], p[2..]));
    Mape(data[1..], pred[1..])
  }

  /** The score over positions 1..N-1 is defined exactly when each of those
      positions has a prediction and a non-zero actual value. */
  lemma ScorableTail(data: seq<real>, pred: seq<Option<real>>)
    requires |data| == |pred| > 0
    ensures Scorable(data[1..], pred[1..]) <==>
              |data| >= 2 && forall i :: 1 <= i < |data| ==> pred[i].Some? && data[i] != 0.0
  {
    if |data| >= 2 && forall i :: 1 <= i < |data| ==> pred[i].Some? && data[i] != 0.0 {
      forall k | 0 <= k < |data| - 1 ensures pred[1..][k].Some? && data[1..][k] != 0.0 {
        assert pred[1..][k] == pred[k + 1] && data[1..][k] == data[k + 1];
      }
    }
    if Scorable(data[1..], pred[1..]) {
      forall i | 1 <= i < |data| ensures pred[i].Some? && data[i] != 0.0 {
        assert pred[1..][i - 1] == pred[i] && data[1..][i - 1] == data[i];
      }
    }
  }

  /** Scoring positions 1..N-1 is defined exactly when N >= 2, no actual value
      after the first is zero, and the last position has a prediction (all
      others always have one). */
  lemma ScorableFromPredictions(data: seq<real>, pred: seq<Option<real>>, lastDefined: bool)
    requires |data| == |pred| > 0
    requires forall j :: 0 <= j < |data| - 1 ==> pred[j].Some?
    requires pred[|data| - 1].Some? == lastDefined
    ensures Scorable(data[1..], pred[1..]) <==>
              |data| >= 2 && (forall i :: 1 <= i < |data| ==> data[i] != 0.0) && lastDefined
  {
    ScorableTail(data, pred);
  }

  /** The forecast for boundaries b can be scored exactly when there are at
      least two values, no value after the first is zero, and the fuzzy set
      of the last value also occurs earlier in the series. */
  lemma ForecastScorableIff(data: seq<real>, b: seq<real>)
    requires |data| > 0 && |b| >= 2
    ensures var f := Fuzzified(data, b);
            var n := |data|;
            Scorable(data[1..], FtsLee(data, b)[1..]) <==>
              n >= 2 && (forall i :: 1 <= i < n ==> data[i] != 0.0) &&
              exists i :: 0 <= i < n - 1 && f[i] == f[n - 1]
  {
    var f := Fuzzified(data, b);
    var n := |data|;
    var pred := FtsLee(data, b);
    PredictionDefinedIff(data, b, n - 1);
    ScorableFromPredictions(data, pred, exists i :: 0 <= i < n - 1 && f[i] == f[n - 1]);
  }

  /** A score exists exactly when there are at least two values, no value after
      the first is zero, and the fuzzy set of the last value also occurs
      earlier in the series. */
  lemma ParticleScoreDefinedIff(data: seq<real>, dmin: real, dmax: real, p: seq<real>)
    requires |data| > 0 && |p| >= 2
    ensures var b := GenerateIntervals(dmin, dmax, p[0], p[1], p[2..]);
            var f := Fuzzified(data, b);
            var n := |data|;
            ParticleScore(data, dmin, dmax, p).Some? <==>
              n >= 2 && (forall i :: 1 <= i < n ==> data[i] != 0.0) &&
              exists i :: 0 <= i < n - 1 && f[i] == f[n - 1]
  {
    ForecastScorableIff(data, GenerateIntervals(dmin, dmax, p[0], p[1], p[2..]));
  }
}
