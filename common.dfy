/** Definitions shared by the PSO-tuned engine and the fixed-interval baseline:
    the "no prediction" option, sums and means over reals, the MAPE score,
    two-decimal rounding, consecutive-pair grouping and ascending sort. */
module FtsCommon {

  /** A prediction or a score that may be undefined (NaN or infinity in the source). */
  datatype Option<T> = None | Some(value: T)

  function Abs(x: real): (r: real)
    ensures r >= 0.0 && (r == x || r == -x)
  {
    if x < 0.0 then -x else x
  }

  function Sum(s: seq<real>): real
    decreases |s|
  {
    if |s| == 0 then 0.0 else Sum(s[..|s| - 1]) + s[|s| - 1]
  }

  /** Arithmetic mean of a non-empty sequence, repeated elements counted each time. */
  function Mean(s: seq<real>): real
    requires |s| > 0
  {
    Sum(s) / |s| as real
  }

  lemma {:induction false} SumBounds(s: seq<real>, lo: real, hi: real)
    requires forall i :: 0 <= i < |s| ==> lo <= s[i] <= hi
    ensures |s| as real * lo <= Sum(s) <= |s| as real * hi
    decreases |s|
  {
    if |s| > 0 {
      SumBounds(s[..|s| - 1], lo, hi);
      assert (|s| - 1) as real * lo + lo == |s| as real * lo;
      assert (|s| - 1) as real * hi + hi == |s| as real * hi;
    }
  }

  /** A mean lies between any lower and upper bound of its elements. */
  lemma MeanBounds(s: seq<real>, lo: real, hi: real)
    requires |s| > 0
    requires forall i :: 0 <= i < |s| ==> lo <= s[i] <= hi
    ensures lo <= Mean(s) <= hi
  {
    SumBounds(s, lo, hi);
  }

  lemma {:induction false} SumZeroIff(s: seq<real>)
    requires forall i :: 0 <= i < |s| ==> s[i] >= 0.0
    ensures Sum(s) >= 0.0
    ensures Sum(s) == 0.0 <==> forall i :: 0 <= i < |s| ==> s[i] == 0.0
    decreases |s|
  {
    if |s| > 0 {
      var t := s[..|s| - 1];
      SumZeroIff(t);
      if Sum(s) == 0.0 {
        forall i | 0 <= i < |s| ensures s[i] == 0.0 {
          if i < |s| - 1 { assert s[i] == t[i]; }
        }
      } else if Sum(t) != 0.0 {
        var i :| 0 <= i < |t| && t[i] != 0.0;
        assert s[i] != 0.0;
      } else {
        assert s[|s| - 1] != 0.0;
      }
    }
  }

  /** One absolute percentage error term |(a - p) / a| per position. */
  function PercentageErrors(actual: seq<real>, predicted: seq<Option<real>>): (e: seq<real>)
    requires |actual| == |predicted|
    requires forall i :: 0 <= i < |actual| ==> predicted[i].Some? && actual[i] != 0.0
    ensures |e| == |actual| && forall i :: 0 <= i < |e| ==> e[i] >= 0.0
  {
    seq(|actual|, i requires 0 <= i < |actual| => Abs((actual[i] - predicted[i].value) / actual[i]))
  }

  /** The score is defined when there is at least one position, every prediction
      is defined and no actual value is zero (otherwise the mean is NaN or infinite). */
  predicate Scorable(actual: seq<real>, predicted: seq<Option<real>>)
    requires |actual| == |predicted|
  {
    |actual| > 0 && forall i :: 0 <= i < |actual| ==> predicted[i].Some? && actual[i] != 0.0
  }

  /** Mean absolute percentage error, times 100.  None stands for NaN/infinity. */
  function Mape(actual: seq<real>, predicted: seq<Option<real>>): (r: Option<real>)
    requires |actual| == |predicted|
    ensures r.Some? <==> Scorable(actual, predicted)
    ensures r.Some? ==> r.value >= 0.0
  {
    if Scorable(actual, predicted) then
      var e := PercentageErrors(actual, predicted);
      MeanBounds(e, 0.0, SeqMax(e));
      Some(Mean(e) * 100.0)
    else None
  }

  /** The score is zero exactly when every defined prediction equals its actual value. */
  lemma MapeZeroIffExact(actual: seq<real>, predicted: seq<Option<real>>)
    requires |actual| == |predicted| && Scorable(actual, predicted)
    ensures Mape(actual, predicted) == Some(0.0) <==>
            forall i :: 0 <= i < |actual| ==> predicted[i].value == actual[i]
  {
    var e := PercentageErrors(actual, predicted);
    SumZeroIff(e);
    ScaledMeanZeroIff(Sum(e), |e| as real);
    forall i | 0 <= i < |e| ensures e[i] == 0.0 <==> predicted[i].value == actual[i] {
      RelativeErrorZeroIff(actual[i], predicted[i].value);
    }
  }

  lemma ScaledMeanZeroIff(total: real, n: real)
    requires n > 0.0
    ensures total / n * 100.0 == 0.0 <==> total == 0.0
  {
    if total / n * 100.0 == 0.0 {
      assert total == (total / n) * n;
    }
  }

  lemma RelativeErrorZeroIff(a: real, p: real)
    requires a != 0.0
    ensures Abs((a - p) / a) == 0.0 <==> p == a
  {
    var d := a - p;
    if d / a == 0.0 { assert d == (d / a) * a; }
  }

  /** Round to two decimals as Python's round(x, 2) does on exact values:
      to the nearest hundredth, ties to the even hundredth. */
  function Round2(x: real): (r: real)
    ensures -0.005 <= r - x <= 0.005
    ensures (r * 100.0).Floor as real == r * 100.0
  {
    var y := x * 100.0;
    var f := y.Floor;
    var frac := y - f as real;
    var n := if frac < 0.5 then f
             else if frac > 0.5 then f + 1
             else if f % 2 == 0 then f else f + 1;
    n as real / 100.0
  }

  /** Rounding an already rounded value changes nothing. */
  lemma Round2Idempotent(x: real)
    ensures Round2(Round2(x)) == Round2(x)
  {
    var r := Round2(x);
    var y := r * 100.0;
    assert y.Floor as real == y;
    assert y - y.Floor as real == 0.0;
  }

  /** Display pairs (lower, upper) of each interval, both rounded to two decimals. */
  function IntervalTuples(b: seq<real>): (t: seq<(real, real)>)
    ensures |t| == if |b| == 0 then 0 else |b| - 1
    ensures forall i :: 0 <= i < |t| ==> t[i] == (Round2(b[i]), Round2(b[i + 1]))
    ensures forall i :: 0 <= i < |t| - 1 ==> t[i].1 == t[i + 1].0
  {
    if |b| == 0 then []
    else seq(|b| - 1, i requires 0 <= i < |b| - 1 => (Round2(b[i]), Round2(b[i + 1])))
  }

  /** The lower ends of the pairs followed by the last upper end give back the
      boundaries, each within half a hundredth of the original. */
  lemma IntervalTuplesRecombine(b: seq<real>)
    requires |b| >= 2
    ensures var t := IntervalTuples(b);
            var back := seq(|t|, i requires 0 <= i < |t| => t[i].0) + [t[|t| - 1].1];
            |back| == |b| && forall i :: 0 <= i < |b| ==> back[i] == Round2(b[i]) && -0.005 <= back[i] - b[i] <= 0.005
  {
    var t := IntervalTuples(b);
    var back := seq(|t|, i requires 0 <= i < |t| => t[i].0) + [t[|t| - 1].1];
    forall i | 0 <= i < |b| ensures back[i] == Round2(b[i]) {
      if i < |t| { assert back[i] == t[i].0; } else { assert back[i] == t[|t| - 1].1; }
    }
  }

  /** The smallest element of a non-empty sequence. */
  function SeqMin(s: seq<real>): (m: real)
    requires |s| > 0
    ensures forall i :: 0 <= i < |s| ==> m <= s[i]
    ensures exists i :: 0 <= i < |s| && s[i] == m
    decreases |s|
  {
    if |s| == 1 then s[0]
    else var m := SeqMin(s[..|s| - 1]);
      assert forall i :: 0 <= i < |s| - 1 ==> s[..|s| - 1][i] == s[i];
      if s[|s| - 1] < m then s[|s| - 1] else m
  }

  /** The largest element of a non-empty sequence. */
  function SeqMax(s: seq<real>): (m: real)
    requires |s| > 0
    ensures forall i :: 0 <= i < |s| ==> s[i] <= m
    ensures exists i :: 0 <= i < |s| && s[i] == m
    decreases |s|
  {
    if |s| == 1 then s[0]
    else var m := SeqMax(s[..|s| - 1]);
      assert forall i :: 0 <= i < |s| - 1 ==> s[..|s| - 1][i] == s[i];
      if s[|s| - 1] > m then s[|s| - 1] else m
  }

  /** Value v lies in the closed interval [b[i], b[i+1]]. */
  predicate InInterval(b: seq<real>, v: real, i: nat)
  {
    i + 1 < |b| && b[i] <= v <= b[i + 1]
  }

  /** A value between the first and the last boundary lies in some interval,
      whatever the order of the boundaries in between. */
  lemma {:induction false} Covered(b: seq<real>, v: real)
    requires |b| >= 2 && b[0] <= v <= b[|b| - 1]
    ensures exists i :: 0 <= i < |b| - 1 && InInterval(b, v, i)
    decreases |b|
  {
    if b[1] >= v {
      assert InInterval(b, v, 0);
    } else {
      Covered(b[1..], v);
      var i :| 0 <= i < |b| - 2 && InInterval(b[1..], v, i);
      assert InInterval(b, v, i + 1);
    }
  }

  predicate Sorted(s: seq<real>)
  {
    forall i, j :: 0 <= i < j < |s| ==> s[i] <= s[j]
  }

  function Insert(x: real, s: seq<real>): (r: seq<real>)
    requires Sorted(s)
    ensures |r| == |s| + 1
    ensures Sorted(r) && multiset(r) == multiset(s) + multiset{x}
    decreases |s|
  {
    if |s| == 0 then [x]
    else if x <= s[0] then [x] + s
    else
      var t := Insert(x, s[1..]);
      InsertHead(x, s, t);
      [s[0]] + t
  }

  /** Putting the head of a sorted sequence back in front of the sorted
      insertion into its tail gives a sorted permutation. */
  lemma InsertHead(x: real, s: seq<real>, t: seq<real>)
    requires Sorted(s) && |s| > 0 && s[0] < x
    requires Sorted(t) && multiset(t) == multiset(s[1..]) + multiset{x}
    ensures Sorted([s[0]] + t) && multiset([s[0]] + t) == multiset(s) + multiset{x}
  {
    assert s == [s[0]] + s[1..];
    var u := s[1..] + [x];
    assert multiset(u) == multiset(s[1..]) + multiset{x};
    forall i | 0 <= i < |u| ensures s[0] <= u[i] {
      if i < |s| - 1 {
        assert u[i] == s[i + 1];
      }
    }
    LowerBoundKept(t, u, s[0]);
  }

  /** A permutation keeps a lower bound that held for the original. */
  lemma LowerBoundKept(a: seq<real>, b: seq<real>, lo: real)
    requires multiset(a) == multiset(b)
    requires forall i :: 0 <= i < |b| ==> lo <= b[i]
    ensures forall i :: 0 <= i < |a| ==> lo <= a[i]
  {
    forall i | 0 <= i < |a| ensures lo <= a[i] {
      assert a[i] in multiset(a);
      var j :| 0 <= j < |b| && b[j] == a[i];
    }
  }

  /** Ascending sort (np.sort): the result is sorted and a permutation of the input. */
  function SortAsc(s: seq<real>): (r: seq<real>)
    ensures |r| == |s|
    ensures Sorted(r) && multiset(r) == multiset(s)
    decreases |s|
  {
    if |s| == 0 then []
    else
      assert s == [s[0]] + s[1..];
      Insert(s[0], SortAsc(s[1..]))
  }

  /** A permutation keeps every element inside bounds that held for the original. */
  lemma PermutationBounds(a: seq<real>, b: seq<real>, lo: real, hi: real)
    requires multiset(a) == multiset(b)
    requires forall i :: 0 <= i < |b| ==> lo <= b[i] <= hi
    ensures forall i :: 0 <= i < |a| ==> lo <= a[i] <= hi
  {
    forall i | 0 <= i < |a| ensures lo <= a[i] <= hi {
      assert a[i] in multiset(a);
      assert a[i] in multiset(b);
      var j :| 0 <= j < |b| && b[j] == a[i];
    }
  }

  /** The right-hand sides of all consecutive pairs (g[i], g[i+1]) whose
      left-hand side is s, in the order in which they occur. */
  function Successors<T(==)>(g: seq<T>, s: T): seq<T>
    decreases |g|
  {
    if |g| < 2 then []
    else Successors(g[..|g| - 1], s) + (if g[|g| - 2] == s then [g[|g| - 1]] else [])
  }

  /** t follows s in the grouping exactly when some consecutive pair is (s, t). */
  lemma {:induction false} SuccessorsMember<T>(g: seq<T>, s: T, t: T)
    ensures t in Successors(g, s) <==> exists i :: 0 <= i < |g| - 1 && g[i] == s && g[i + 1] == t
    decreases |g|
  {
    if |g| >= 2 {
      var h := g[..|g| - 1];
      SuccessorsMember(h, s, t);
      if exists i :: 0 <= i < |h| - 1 && h[i] == s && h[i + 1] == t {
        var i :| 0 <= i < |h| - 1 && h[i] == s && h[i + 1] == t;
        assert g[i] == s && g[i + 1] == t;
      }
      if exists i :: 0 <= i < |g| - 1 && g[i] == s && g[i + 1] == t {
        var i :| 0 <= i < |g| - 1 && g[i] == s && g[i + 1] == t;
        if i < |g| - 2 { assert h[i] == s && h[i + 1] == t; }
      }
    }
  }

  /** The grouping of a prefix is a prefix of the grouping: outcomes are only appended. */
  lemma {:induction false} SuccessorsPrefix<T>(g: seq<T>, m: nat, s: T)
    requires m <= |g|
    ensures Successors(g[..m], s) <= Successors(g, s)
    decreases |g|
  {
    if m < |g| {
      assert g[..|g| - 1][..m] == g[..m];
      SuccessorsPrefix(g[..|g| - 1], m, s);
    } else {
      assert g[..m] == g;
    }
  }

  /** Total length of the groups of the keys ks. */
  function GroupLengths<T(==)>(g: seq<T>, ks: seq<T>): nat
    decreases |ks|
  {
    if |ks| == 0 then 0 else GroupLengths(g, ks[..|ks| - 1]) + |Successors(g, ks[|ks| - 1])|
  }

  function Hits<T(==)>(x: T, ks: seq<T>): nat
    decreases |ks|
  {
    if |ks| == 0 then 0 else Hits(x, ks[..|ks| - 1]) + (if ks[|ks| - 1] == x then 1 else 0)
  }

  predicate Distinct<T(==)>(ks: seq<T>)
  {
    forall i, j :: 0 <= i < j < |ks| ==> ks[i] != ks[j]
  }

  lemma {:induction false} HitsOnce<T>(x: T, ks: seq<T>)
    requires Distinct(ks) && x in ks
    ensures Hits(x, ks) == 1
    decreases |ks|
  {
    var p := ks[..|ks| - 1];
    if ks[|ks| - 1] == x {
      assert x !in p by {
        forall j | 0 <= j < |p| ensures p[j] != x { assert ks[j] != ks[|ks| - 1]; }
      }
      HitsNone(x, p);
    } else {
      assert x in p by {
        var j :| 0 <= j < |ks| && ks[j] == x;
        assert p[j] == x;
      }
      HitsOnce(x, p);
    }
  }

  lemma {:induction false} HitsNone<T>(x: T, ks: seq<T>)
    requires x !in ks
    ensures Hits(x, ks) == 0
    decreases |ks|
  {
    if |ks| > 0 {
      assert x !in ks[..|ks| - 1];
      HitsNone(x, ks[..|ks| - 1]);
    }
  }

  lemma {:induction false} GroupLengthsStep<T>(g: seq<T>, ks: seq<T>)
    requires |g| >= 2
    ensures GroupLengths(g, ks) == GroupLengths(g[..|g| - 1], ks) + Hits(g[|g| - 2], ks)
    decreases |ks|
  {
    if |ks| > 0 {
      GroupLengthsStep(g, ks[..|ks| - 1]);
    }
  }

  /** When the keys are distinct and include every left-hand side, all groups
      together hold one entry per consecutive pair. */
  lemma {:induction false} GroupLengthsTotal<T>(g: seq<T>, ks: seq<T>)
    requires Distinct(ks)
    requires forall i :: 0 <= i < |g| - 1 ==> g[i] in ks
    ensures GroupLengths(g, ks) == if |g| == 0 then 0 else |g| - 1
    decreases |g|
  {
    if |g| < 2 {
      GroupLengthsEmpty(g, ks);
    } else {
      var h := g[..|g| - 1];
      assert forall i :: 0 <= i < |h| - 1 ==> h[i] == g[i];
      GroupLengthsTotal(h, ks);
      GroupLengthsStep(g, ks);
      HitsOnce(g[|g| - 2], ks);
    }
  }

  lemma {:induction false} GroupLengthsEmpty<T>(g: seq<T>, ks: seq<T>)
    requires |g| < 2
    ensures GroupLengths(g, ks) == 0
    decreases |ks|
  {
    if |ks| > 0 {
      GroupLengthsEmpty(g, ks[..|ks| - 1]);
    }
  }
}
