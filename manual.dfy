/** The fixed-interval baseline: Lee's fuzzy time series over k equal-width
    intervals of [Dmin - 50, Dmax + 50].  Fuzzy sets are indices: set i is the
    label A{i+1}; None stands for the label "Unknown" and for NaN. */
module FtsManual {
  import opened FtsCommon

  /** The fixed padding below the minimum and above the maximum. */
  const Pad: real := 50.0

  /** The k + 1 boundaries Dmin - 50 + i * l, with l = (Dmax + 50 - (Dmin - 50)) / k. */
  function Boundaries(dmin: real, dmax: real, k: nat): (b: seq<real>)
    requires k >= 1
    ensures |b| == k + 1
  {
    var start := dmin - Pad;
    var l := (dmax + Pad - start) / (k as real);
    seq(k + 1, i => start + (i as real) * l)
  }

  /** The boundaries are strictly increasing, start at Dmin - 50 and end at
      Dmax + 50 exactly, and are spaced (Dmax - Dmin + 100) / k apart. */
  lemma BoundariesShape(dmin: real, dmax: real, k: nat)
    requires k >= 1 && dmin <= dmax
    ensures var b := Boundaries(dmin, dmax, k);
            && b[0] == dmin - Pad && b[k] == dmax + Pad
            && (forall i :: 0 <= i < k ==> b[i + 1] - b[i] == (dmax - dmin + 2.0 * Pad) / (k as real))
            && (forall i, j :: 0 <= i < j <= k ==> b[i] < b[j])
  {
    var b := Boundaries(dmin, dmax, k);
    var l := (dmax + Pad - (dmin - Pad)) / (k as real);
    assert l * (k as real) == dmax - dmin + 2.0 * Pad;
    assert l > 0.0;
    forall i, j | 0 <= i < j <= k ensures b[i] < b[j] {
      assert b[j] - b[i] == ((j - i) as real) * l;
    }
  }

  /** First interval, from index i on, whose closed range holds v. */
  function FirstMatch(b: seq<real>, v: real, i: nat): (r: Option<nat>)
    ensures r.Some? ==> i <= r.value && InInterval(b, v, r.value)
    ensures r.Some? ==> forall j :: i <= j < r.value ==> !InInterval(b, v, j)
    ensures r.None? ==> forall j :: i <= j ==> !InInterval(b, v, j)
    decreases |b| - i
  {
    if i + 1 >= |b| then None
    else if b[i] <= v <= b[i + 1] then Some(i)
    else FirstMatch(b, v, i + 1)
  }

  /** Fuzzification of one value: the first interval in ascending order that
      holds it, before which none does; None ("Unknown") exactly when no
      interval holds it. */
  function Classify(b: seq<real>, v: real): (c: Option<nat>)
    ensures c.Some? ==> c.value < |b| - 1 && InInterval(b, v, c.value)
    ensures c.Some? ==> forall j :: 0 <= j < c.value ==> !InInterval(b, v, j)
    ensures c.None? <==> forall j :: 0 <= j < |b| - 1 ==> !InInterval(b, v, j)
  {
    FirstMatch(b, v, 0)
  }

  function Classified(series: seq<real>, b: seq<real>): (fz: seq<Option<nat>>)
    ensures |fz| == |series|
  {
    seq(|series|, j requires 0 <= j < |series| => Classify(b, series[j]))
  }

  /** Under the fixed boundaries every value between the minimum and the
      maximum is classified, into a set below k. */
  lemma BoundariesClassify(dmin: real, dmax: real, k: nat, v: real)
    requires k >= 1 && dmin <= v <= dmax
    ensures var c := Classify(Boundaries(dmin, dmax, k), v);
            c.Some? && c.value < k
  {
    var b := Boundaries(dmin, dmax, k);
    BoundariesShape(dmin, dmax, k);
    Covered(b, v);
  }

  /** One fuzzy logical relationship: the sentinel at position 0, or a
      transition from one set to the next. */
  datatype Flr = Sentinel | Trans(from: Option<nat>, to: Option<nat>)

  /** The relationship recorded at position i: the sentinel at 0, the
      transition to the next position's set in between, and a self-loop at
      the last position. */
  function FlrAt(fz: seq<Option<nat>>, i: nat): Flr
    requires i < |fz|
  {
    if i == 0 then Sentinel
    else if i + 1 < |fz| then Trans(fz[i], fz[i + 1])
    else Trans(fz[i], fz[i])
  }

  function FlrsOf(fz: seq<Option<nat>>): (flr: seq<Flr>)
    ensures |flr| == |fz|
  {
    seq(|fz|, i requires 0 <= i < |fz| => FlrAt(fz, i))
  }

  /** The FLR column, one relationship appended per position.  An empty
      series is refused, as the column assignment in the source fails on it. */
  method CalculateFlr(fz: seq<Option<nat>>) returns (flr: seq<Flr>)
    requires |fz| > 0
    ensures flr == FlrsOf(fz)
  {
    flr := [Sentinel];
    var i := 1;
    while i < |fz|
      invariant 1 <= i <= |fz|
      invariant |flr| == i && forall j :: 0 <= j < i ==> flr[j] == FlrAt(fz, j)
    {
      var current := fz[i];
      var next := if i + 1 < |fz| then fz[i + 1] else current;
      flr := flr + [Trans(current, next)];
      i := i + 1;
    }
  }

  /** Position 0 holds the sentinel, every other position a transition out
      of its own set: the step from position 0 to position 1 is never
      recorded, and the last position loops onto itself. */
  lemma FlrsShape(fz: seq<Option<nat>>)
    requires |fz| > 0
    ensures var flr := FlrsOf(fz);
            && flr[0] == Sentinel
            && (forall i :: 1 <= i < |fz| ==> flr[i].Trans? && flr[i].from == fz[i])
            && (forall i :: 1 <= i < |fz| - 1 ==> flr[i].to == fz[i + 1])
            && (|fz| >= 2 ==> flr[|fz| - 1] == Trans(fz[|fz| - 1], fz[|fz| - 1]))
  {
  }

  /** The relationship groups built from positions 1..n-1: each transition's
      target is appended to the list of its source, the sentinel is skipped. */
  function Groups(flr: seq<Flr>, n: nat): (r: map<Option<nat>, seq<Option<nat>>>)
    requires n <= |flr|
    ensures forall s :: s in r ==> |r[s]| > 0
  {
    if n <= 1 then map[]
    else
      var m := Groups(flr, n - 1);
      match flr[n - 1]
      case Sentinel => m
      case Trans(f, t) => m[f := (if f in m then m[f] else []) + [t]]
  }

  /** The dictionary of lists, grown one relationship at a time from position 1 on. */
  method CalculateFlrg(flr: seq<Flr>) returns (flrg: map<Option<nat>, seq<Option<nat>>>)
    ensures flrg == Groups(flr, |flr|)
  {
    flrg := map[];
    if |flr| == 0 {
      return;
    }
    var i := 1;
    while i < |flr|
      invariant 1 <= i <= |flr|
      invariant flrg == Groups(flr, i)
    {
      match flr[i] {
        case Sentinel =>
        case Trans(f, t) =>
          if f !in flrg {
            flrg := flrg[f := []];
          }
          flrg := flrg[f := flrg[f] + [t]];
      }
      i := i + 1;
    }
  }

  /** The chain of sets whose consecutive pairs are exactly the recorded
      relationships: positions 1..N-1 followed by the last set once more. */
  function FlrChain(fz: seq<Option<nat>>): (g: seq<Option<nat>>)
    requires |fz| > 0
    ensures |g| == |fz|
  {
    fz[1..] + [fz[|fz| - 1]]
  }

  /** Relationship n - 1 is the transition from the set at n - 1 to the
      next element of the chain, and the chain's first n elements end with it. */
  lemma GroupsStep(fz: seq<Option<nat>>, n: nat)
    requires 2 <= n <= |fz|
    ensures var m0 := Groups(FlrsOf(fz), n - 1);
            var f := fz[n - 1];
            Groups(FlrsOf(fz), n) == m0[f := (if f in m0 then m0[f] else []) + [FlrChain(fz)[n - 1]]]
    ensures FlrChain(fz)[..n] == FlrChain(fz)[..n - 1] + [FlrChain(fz)[n - 1]]
    ensures FlrChain(fz)[..n - 1][n - 2] == fz[n - 1]
  {
    assert FlrsOf(fz)[n - 1] == Trans(fz[n - 1], FlrChain(fz)[n - 1]);
  }

  /** Appending the target t to the list of the last set of h turns the
      reference grouping of h into that of h + [t]. */
  lemma GroupsExtend(m0: map<Option<nat>, seq<Option<nat>>>, h: seq<Option<nat>>, t: Option<nat>)
    requires |h| >= 1
    requires forall s :: (if s in m0 then m0[s] else []) == Successors(h, s)
    ensures var f := h[|h| - 1];
            var m := m0[f := (if f in m0 then m0[f] else []) + [t]];
            forall s :: (if s in m then m[s] else []) == Successors(h + [t], s)
  {
    var f := h[|h| - 1];
    var m := m0[f := (if f in m0 then m0[f] else []) + [t]];
    assert (h + [t])[..|h|] == h;
    forall s ensures (if s in m then m[s] else []) == Successors(h + [t], s) {
      assert Successors(h + [t], s) == Successors(h, s) + (if f == s then [t] else []);
    }
  }

  /** After n positions the keys are the sets seen at positions 1..n-1. */
  lemma {:induction false} GroupsKeys(fz: seq<Option<nat>>, n: nat)
    requires 1 <= n <= |fz|
    ensures forall s :: s in Groups(FlrsOf(fz), n) <==> exists j :: 1 <= j < n && fz[j] == s
    decreases n
  {
    if n > 1 {
      GroupsKeys(fz, n - 1);
      GroupsStep(fz, n);
      var m0 := Groups(FlrsOf(fz), n - 1);
      var m := Groups(FlrsOf(fz), n);
      forall s ensures s in m <==> exists j :: 1 <= j < n && fz[j] == s {
        if s in m {
          if s == fz[n - 1] {
            assert 1 <= n - 1 < n && fz[n - 1] == s;
          } else {
            assert s in m0;
            var j :| 1 <= j < n - 1 && fz[j] == s;
            assert 1 <= j < n && fz[j] == s;
          }
        }
        if exists j :: 1 <= j < n && fz[j] == s {
          var j :| 1 <= j < n && fz[j] == s;
          if j < n - 1 {
            assert s in m0;
          }
        }
      }
    }
  }

  /** After n positions every list is the reference grouping of the first n
      elements of the chain, and a set without a list has an empty one there. */
  lemma {:induction false} GroupsValues(fz: seq<Option<nat>>, n: nat)
    requires 1 <= n <= |fz|
    ensures var m := Groups(FlrsOf(fz), n);
            forall s :: (if s in m then m[s] else []) == Successors(FlrChain(fz)[..n], s)
    decreases n
  {
    var chain := FlrChain(fz);
    if n > 1 {
      GroupsValues(fz, n - 1);
      GroupsStep(fz, n);
      GroupsExtend(Groups(FlrsOf(fz), n - 1), chain[..n - 1], chain[n - 1]);
    } else {
      forall s ensures Successors(chain[..n], s) == [] {
      }
    }
  }

  /** The manual grouping is the reference grouping of the chain: its keys
      are the sets seen at positions 1..N-1, and each key lists, in order and
      with repetition, the targets of the relationships it is the source of. */
  lemma ManualFlrgIsSuccessors(fz: seq<Option<nat>>)
    requires |fz| > 0
    ensures var m := Groups(FlrsOf(fz), |fz|);
            && (forall s :: s in m <==> exists j :: 1 <= j < |fz| && fz[j] == s)
            && (forall s :: s in m ==> m[s] == Successors(FlrChain(fz), s))
  {
    GroupsKeys(fz, |fz|);
    GroupsValues(fz, |fz|);
    assert FlrChain(fz)[..|fz|] == FlrChain(fz);
  }

  /** Total length of the lists of the keys ks (a missing key counts 0). */
  function MapGroupLengths(m: map<Option<nat>, seq<Option<nat>>>, ks: seq<Option<nat>>): nat
    decreases |ks|
  {
    if |ks| == 0 then 0
    else MapGroupLengths(m, ks[..|ks| - 1]) + (if ks[|ks| - 1] in m then |m[ks[|ks| - 1]]| else 0)
  }

  /** All groups together hold one target per position 1..N-1, including the
      final self-loop. */
  lemma {:induction false} ManualFlrgTotal(fz: seq<Option<nat>>, ks: seq<Option<nat>>)
    requires |fz| > 0 && Distinct(ks)
    requires forall s :: s in Groups(FlrsOf(fz), |fz|) ==> s in ks
    ensures MapGroupLengths(Groups(FlrsOf(fz), |fz|), ks) == |fz| - 1
  {
    var m := Groups(FlrsOf(fz), |fz|);
    var g := FlrChain(fz);
    GroupsValues(fz, |fz|);
    GroupsKeys(fz, |fz|);
    assert g[..|fz|] == g;
    MapLengthsAsGroupLengths(m, g, ks);
    forall i | 0 <= i < |g| - 1 ensures g[i] in ks {
      assert g[i] == fz[i + 1];
      assert 1 <= i + 1 < |fz| && fz[i + 1] == g[i];
      assert g[i] in m;
    }
    GroupLengthsTotal(g, ks);
  }

  lemma {:induction false} MapLengthsAsGroupLengths(m: map<Option<nat>, seq<Option<nat>>>, g: seq<Option<nat>>,
                                                    ks: seq<Option<nat>>)
    requires forall s :: (if s in m then m[s] else []) == Successors(g, s)
    ensures MapGroupLengths(m, ks) == GroupLengths(g, ks)
    decreases |ks|
  {
    if |ks| > 0 {
      MapLengthsAsGroupLengths(m, g, ks[..|ks| - 1]);
      var s := ks[|ks| - 1];
      assert (if s in m then m[s] else []) == Successors(g, s);
    }
  }

  /** The representative of set i: the midpoint of the i-th of k equal parts
      of [mn, mx], before rounding. */
  function RawRepresentative(mn: real, mx: real, k: nat, i: nat): real
    requires k >= 1
  {
    var width := (mx - mn) / (k as real);
    var lower := mn + (i as real) * width;
    (lower + (lower + width)) / 2.0
  }

  function RepresentationsOf(mn: real, mx: real, k: nat): (r: map<nat, real>)
    ensures forall i: nat :: i in r <==> i < k
  {
    if k == 0 then map[] else map i: nat | i < k :: Round2(RawRepresentative(mn, mx, k, i))
  }

  /** The representatives, one dictionary entry per set, rounded to two decimals. */
  method Representations(mn: real, mx: real, k: nat) returns (rep: map<nat, real>)
    ensures rep == RepresentationsOf(mn, mx, k)
  {
    rep := map[];
    if k == 0 {
      return;
    }
    var width := (mx - mn) / (k as real);
    for i := 0 to k
      invariant forall j: nat :: j in rep <==> j < i
      invariant forall j :: j in rep ==> rep[j] == Round2(RawRepresentative(mn, mx, k, j))
    {
      var lower := mn + (i as real) * width;
      var upper := lower + width;
      assert (lower + upper) / 2.0 == RawRepresentative(mn, mx, k, i);
      rep := rep[i := Round2((lower + upper) / 2.0)];
    }
  }

  /** Representatives exist for exactly the sets 0..k-1; each is within half
      a hundredth of mn + (i + 1/2)(mx - mn)/k and so, when mn <= mx, of
      [mn, mx]. */
  lemma RepresentationsBounds(mn: real, mx: real, k: nat, i: nat)
    requires mn <= mx
    ensures i in RepresentationsOf(mn, mx, k) <==> i < k
    ensures i < k ==>
              var raw := mn + ((i as real) + 0.5) * ((mx - mn) / (k as real));
              && RawRepresentative(mn, mx, k, i) == raw
              && mn <= raw <= mx
              && -0.005 <= RepresentationsOf(mn, mx, k)[i] - raw <= 0.005
  {
    if i < k {
      var width := (mx - mn) / (k as real);
      var raw := mn + ((i as real) + 0.5) * width;
      RawClosedForm(mn, width, i as real);
      EqualParts(mx - mn, k as real);
      ScaledWithin(mn, mx, width, (i as real) + 0.5, k as real);
      assert RepresentationsOf(mn, mx, k)[i] == Round2(RawRepresentative(mn, mx, k, i));
    }
  }

  lemma RawClosedForm(mn: real, width: real, x: real)
    ensures (mn + x * width + (mn + x * width + width)) / 2.0 == mn + (x + 0.5) * width
  {
  }

  lemma EqualParts(len: real, k: real)
    requires 0.0 <= len && k >= 1.0
    ensures 0.0 <= len / k && k * (len / k) == len
  {
  }

  lemma ScaledWithin(mn: real, mx: real, width: real, y: real, k: real)
    requires 0.0 <= width && 0.0 <= y <= k && k * width == mx - mn
    ensures mn <= mn + y * width <= mx
  {
    assert (k - y) * width >= 0.0;
    assert y * width >= 0.0;
  }

  /** The representatives split the unpadded range [Dmin, Dmax], whereas
      the intervals pad it by 50 on both sides: before rounding, the
      representative of set i is the midpoint of interval i only for the
      middle set of an odd count (2i + 1 = k). */
  lemma RepresentativeIsMidpointIff(dmin: real, dmax: real, k: nat, i: nat)
    requires k >= 1 && i < k && dmin <= dmax
    ensures var b := Boundaries(dmin, dmax, k);
            RawRepresentative(dmin, dmax, k, i) == (b[i] + b[i + 1]) / 2.0 <==> 2 * i + 1 == k
  {
    var b := Boundaries(dmin, dmax, k);
    var kr := k as real;
    var x := (i as real) + 0.5;
    var l := (dmax - dmin + 2.0 * Pad) / kr;
    var width := (dmax - dmin) / kr;
    assert (b[i] + b[i + 1]) / 2.0 == dmin - Pad + x * l;
    assert RawRepresentative(dmin, dmax, k, i) == dmin + x * width;
    assert x * l - x * width == x * (2.0 * Pad) / kr;
    assert dmin - Pad + x * l == dmin + x * width <==> x * 100.0 / kr == 50.0;
    assert x * 100.0 / kr == 50.0 <==> x * 2.0 == kr;
  }

  /** The representatives of the members of group t that have one, in order
      and with repetition. */
  function Members(rep: map<nat, real>, t: seq<Option<nat>>): (r: seq<real>)
    ensures |r| <= |t|
    decreases |t|
  {
    if |t| == 0 then []
    else
      var s := t[|t| - 1];
      Members(rep, t[..|t| - 1]) + (if s.Some? && s.value in rep then [rep[s.value]] else [])
  }

  /** Members is empty exactly when no entry of the group has a representative. */
  lemma {:induction false} MembersNonEmptyIff(rep: map<nat, real>, t: seq<Option<nat>>)
    ensures |Members(rep, t)| > 0 <==> exists j :: 0 <= j < |t| && t[j].Some? && t[j].value in rep
    decreases |t|
  {
    if |t| > 0 {
      var p := t[..|t| - 1];
      MembersNonEmptyIff(rep, p);
      if exists j :: 0 <= j < |p| && p[j].Some? && p[j].value in rep {
        var j :| 0 <= j < |p| && p[j].Some? && p[j].value in rep;
        assert t[j] == p[j];
      }
      if exists j :: 0 <= j < |t| && t[j].Some? && t[j].value in rep {
        var j :| 0 <= j < |t| && t[j].Some? && t[j].value in rep;
        if j < |p| { assert p[j] == t[j]; }
      }
    }
  }

  /** Every value Members keeps is a representative, so it has their bounds. */
  lemma {:induction false} MembersWithin(rep: map<nat, real>, t: seq<Option<nat>>, lo: real, hi: real)
    requires forall s :: s in rep ==> lo <= rep[s] <= hi
    ensures forall x :: 0 <= x < |Members(rep, t)| ==> lo <= Members(rep, t)[x] <= hi
    decreases |t|
  {
    if |t| > 0 {
      MembersWithin(rep, t[..|t| - 1], lo, hi);
    }
  }

  /** Lee's prediction for a position in set s: the rounded mean, with
      repetition, of the representatives of its group; None when s has no
      group or no member of it has a representative. */
  function ManualPrediction(flrg: map<Option<nat>, seq<Option<nat>>>, rep: map<nat, real>, s: Option<nat>): (r: Option<real>)
    ensures r.Some? ==> s in flrg && (r.value * 100.0).Floor as real == r.value * 100.0
  {
    if s in flrg then
      var vals := Members(rep, flrg[s]);
      if |vals| > 0 then Some(Round2(Sum(vals) / (|vals| as real))) else None
    else None
  }

  /** A prediction exists exactly when the set has a group with at least
      one member that has a representative. */
  lemma ManualPredictionDefinedIff(flrg: map<Option<nat>, seq<Option<nat>>>, rep: map<nat, real>, s: Option<nat>)
    ensures ManualPrediction(flrg, rep, s).Some? <==>
              s in flrg && exists j :: 0 <= j < |flrg[s]| && flrg[s][j].Some? && flrg[s][j].value in rep
  {
    if s in flrg {
      MembersNonEmptyIff(rep, flrg[s]);
    }
  }

  /** When defined, the prediction is the two-decimal rounding of a mean of
      representatives, so it lies within half a hundredth of their range. */
  lemma ManualPredictionBounds(flrg: map<Option<nat>, seq<Option<nat>>>, rep: map<nat, real>, s: Option<nat>,
                               lo: real, hi: real)
    requires forall t :: t in rep ==> lo <= rep[t] <= hi
    ensures ManualPrediction(flrg, rep, s).Some? ==>
              lo - 0.005 <= ManualPrediction(flrg, rep, s).value <= hi + 0.005
  {
    if s in flrg {
      var vals := Members(rep, flrg[s]);
      MembersWithin(rep, flrg[s], lo, hi);
      if |vals| > 0 {
        MeanBounds(vals, lo, hi);
        assert Mean(vals) == Sum(vals) / (|vals| as real);
      }
    }
  }

  function ManualPredictions(fz: seq<Option<nat>>, flrg: map<Option<nat>, seq<Option<nat>>>,
                             rep: map<nat, real>): (p: seq<Option<real>>)
    ensures |p| == |fz|
  {
    seq(|fz|, i requires 0 <= i < |fz| => ManualPrediction(flrg, rep, fz[i]))
  }

  /** Defuzzification: one prediction appended per position. */
  method DefuzzifyLee(fz: seq<Option<nat>>, flrg: map<Option<nat>, seq<Option<nat>>>, rep: map<nat, real>)
    returns (pred: seq<Option<real>>)
    ensures pred == ManualPredictions(fz, flrg, rep)
  {
    pred := [];
    for i := 0 to |fz|
      invariant |pred| == i && forall j :: 0 <= j < i ==> pred[j] == ManualPrediction(flrg, rep, fz[j])
    {
      var current := fz[i];
      var prediction: Option<real> := None;
      if current in flrg {
        var members := [];
        var total := 0.0;
        var next := flrg[current];
        for k := 0 to |next|
          invariant members == Members(rep, next[..k]) && total == Sum(members)
        {
          assert next[..k + 1][..k] == next[..k];
          if next[k].Some? && next[k].value in rep {
            members := members + [rep[next[k].value]];
            total := total + rep[next[k].value];
          }
        }
        assert next[..|next|] == next;
        if |members| > 0 {
          prediction := Some(Round2(total / (|members| as real)));
        }
      }
      pred := pred + [prediction];
    }
  }

  /** Number of fuzzy sets for a boundary list: one fewer than its length,
      and none for an empty list. */
  function SetCount(b: seq<real>): nat
  {
    if |b| == 0 then 0 else |b| - 1
  }

  /** The whole forecast for boundaries b: classify, relate, group,
      represent over the unpadded range, defuzzify. */
  function ManualForecast(data: seq<real>, b: seq<real>): (p: seq<Option<real>>)
    requires |data| > 0
    ensures |p| == |data|
    ensures forall i :: 0 <= i < |p| && p[i].Some? ==> (p[i].value * 100.0).Floor as real == p[i].value * 100.0
  {
    var fz := Classified(data, b);
    ManualPredictions(fz, Groups(FlrsOf(fz), |fz|), RepresentationsOf(SeqMin(data), SeqMax(data), SetCount(b)))
  }

  method RunFtsLee(data: seq<real>, b: seq<real>) returns (pred: seq<Option<real>>)
    requires |data| > 0
    ensures pred == ManualForecast(data, b)
  {
    var fz := Classified(data, b);
    var flr := CalculateFlr(fz);
    var flrg := CalculateFlrg(flr);
    var rep := Representations(SeqMin(data), SeqMax(data), SetCount(b));
    pred := DefuzzifyLee(fz, flrg, rep);
  }

  /** When every position is classified into a set that has a representative,
      a set is predicted exactly when it occurs at some position from 1 on:
      the relationship recorded there leads to a classified set. */
  lemma {:induction false} ClassifiedPredictionDefinedIff(fz: seq<Option<nat>>, rep: map<nat, real>, s: Option<nat>)
    requires |fz| > 0
    requires forall j :: 0 <= j < |fz| ==> fz[j].Some? && fz[j].value in rep
    ensures ManualPrediction(Groups(FlrsOf(fz), |fz|), rep, s).Some? <==> exists j :: 1 <= j < |fz| && fz[j] == s
  {
    var flrg := Groups(FlrsOf(fz), |fz|);
    var chain := FlrChain(fz);
    ManualFlrgIsSuccessors(fz);
    ManualPredictionDefinedIff(flrg, rep, s);
    if exists j :: 1 <= j < |fz| && fz[j] == s {
      var j :| 1 <= j < |fz| && fz[j] == s;
      assert chain[j - 1] == fz[j];
      var t := chain[j];
      SuccessorsMember(chain, s, t);
      assert t == fz[if j + 1 < |fz| then j + 1 else j];
      var x :| 0 <= x < |flrg[s]| && flrg[s][x] == t;
    }
  }

  /** Under the fixed boundaries, every position from 1 on has a prediction,
      and position 0 has one exactly when its set recurs later. */
  lemma ManualDefinedAfterFirst(data: seq<real>, k: nat, i: nat)
    requires |data| > 0 && k >= 1 && i < |data|
    ensures var p := ManualForecast(data, Boundaries(SeqMin(data), SeqMax(data), k));
            var fz := Classified(data, Boundaries(SeqMin(data), SeqMax(data), k));
            && (i >= 1 ==> p[i].Some?)
            && (p[0].Some? <==> exists j :: 1 <= j < |data| && fz[j] == fz[0])
  {
    var mn, mx := SeqMin(data), SeqMax(data);
    var b := Boundaries(mn, mx, k);
    var fz := Classified(data, b);
    var rep := RepresentationsOf(mn, mx, k);
    assert SetCount(b) == k;
    forall j | 0 <= j < |data| ensures fz[j].Some? && fz[j].value in rep {
      BoundariesClassify(mn, mx, k, data[j]);
      RepresentationsBounds(mn, mx, k, fz[j].value);
    }
    ClassifiedPredictionDefinedIff(fz, rep, fz[i]);
    ClassifiedPredictionDefinedIff(fz, rep, fz[0]);
  }

  /** The baseline's result: the fixed padding, the rounded interval pairs,
      the predictions, the actual series and the score over positions 1..N-1. */
  class FtsLeeManual {
    var z1: real
    var z2: real
    var intervals: seq<(real, real)>
    var predictions: seq<Option<real>>
    var actual: seq<real>
    var mape: Option<real>

    /** The construction runs the forecast with k sets, k taken in place of
        the Sturges count round(1 + 3.322 log10 N). */
    constructor (data: seq<real>, k: nat)
      requires |data| > 0 && k >= 1
      ensures z1 == Pad && z2 == Pad
      ensures var b := Boundaries(SeqMin(data), SeqMax(data), k);
              && intervals == IntervalTuples(b)
              && predictions == ManualForecast(data, b)
              && actual == data
              && mape == Mape(data[1..], predictions[1..])
    {
      var dmin, dmax := SeqMin(data), SeqMax(data);
      z1, z2 := Pad, Pad;
      var b := Boundaries(dmin, dmax, k);
      var pred := RunFtsLee(data, b);
      assert data[..|pred|] == data;
      var act := data[..|pred|];
      predictions := pred;
      actual := act;
      intervals := IntervalTuples(b);
      mape := Mape(act[1..], pred[1..]);
    }
  }

  /** The baseline's score is defined exactly when the series has at least
      two values and none of them after the first is zero; its interval
      pairs are k chained pairs. */
  lemma ManualScoreDefinedIff(data: seq<real>, k: nat)
    requires |data| > 0 && k >= 1
    ensures var b := Boundaries(SeqMin(data), SeqMax(data), k);
            var p := ManualForecast(data, b);
            && (Mape(data[1..], p[1..]).Some? <==> |data| >= 2 && forall i :: 1 <= i < |data| ==> data[i] != 0.0)
            && |IntervalTuples(b)| == k
            && (forall i :: 0 <= i < k - 1 ==> IntervalTuples(b)[i].1 == IntervalTuples(b)[i + 1].0)
  {
    var b := Boundaries(SeqMin(data), SeqMax(data), k);
    var p := ManualForecast(data, b);
    forall i | 1 <= i < |data| ensures p[i].Some? {
      ManualDefinedAfterFirst(data, k, i);
    }
    if |data| >= 2 && forall i :: 1 <= i < |data| ==> data[i] != 0.0 {
      assert Scorable(data[1..], p[1..]) by {
        forall j | 0 <= j < |data| - 1 ensures p[1..][j].Some? && data[1..][j] != 0.0 {
          assert p[1..][j] == p[j + 1];
        }
      }
    }
    if Scorable(data[1..], p[1..]) {
      forall i | 1 <= i < |data| ensures data[i] != 0.0 {
        assert data[1..][i - 1] == data[i];
      }
    }
  }
}
