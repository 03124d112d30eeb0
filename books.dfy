/** The score bookkeeping of the particle swarm: strict-improvement bests,
    the log of every evaluated position with its score, the personal and
    global bests and the recorded history of best scores.  Scores are
    options: None stands for an undefined (NaN or infinite) MAPE. */
module SwarmBooks {
  import opened FtsCommon

  /** Score a is strictly better than score b.  An undefined score (NaN or
      infinity) is never better, and any defined score beats an undefined one. */
  predicate Better(a: Option<real>, b: Option<real>)
  {
    a.Some? && (b.None? || a.value < b.value)
  }

  /** Score a is at least as good as score b (None ordered above every real). */
  predicate NoWorse(a: Option<real>, b: Option<real>)
  {
    b.None? || (a.Some? && a.value <= b.value)
  }

  /** Index of the best score when the scores are visited in order and the
      best is replaced only on strict improvement. */
  function BestIndex(s: seq<Option<real>>): (k: Option<nat>)
    ensures k.Some? ==> k.value < |s| && s[k.value].Some?
    decreases |s|
  {
    if |s| == 0 then None
    else
      var k := BestIndex(s[..|s| - 1]);
      var best := if k.None? then None else s[k.value];
      if Better(s[|s| - 1], best) then Some(|s| - 1) else k
  }

  /** The best score: the score at BestIndex, so one of the scores seen, and
      undefined when no score was seen. */
  function BestScore(s: seq<Option<real>>): (r: Option<real>)
    ensures r.Some? ==> exists i :: 0 <= i < |s| && s[i] == r
    ensures |s| == 0 ==> r.None?
  {
    match BestIndex(s)
    case None => None
    case Some(k) => s[k]
  }

  /** One more score: it becomes the best exactly when it is strictly better. */
  lemma BestStep(s: seq<Option<real>>, x: Option<real>)
    ensures BestIndex(s + [x]) == if Better(x, BestScore(s)) then Some(|s|) else BestIndex(s)
    ensures BestScore(s + [x]) == if Better(x, BestScore(s)) then x else BestScore(s)
  {
    assert (s + [x])[..|s|] == s;
  }

  /** The best score is no worse than any score seen, and it is undefined only
      when every score is. */
  lemma {:induction false} BestScoreIsMinimum(s: seq<Option<real>>)
    ensures forall i :: 0 <= i < |s| ==> NoWorse(BestScore(s), s[i])
    ensures BestScore(s).None? <==> forall i :: 0 <= i < |s| ==> s[i].None?
    decreases |s|
  {
    if |s| > 0 {
      var t := s[..|s| - 1];
      var x := s[|s| - 1];
      BestScoreIsMinimum(t);
      BestStep(t, x);
      assert s == t + [x];
      var bt := BestScore(t);
      forall i | 0 <= i < |s| ensures NoWorse(BestScore(s), s[i]) {
        if i < |t| {
          assert s[i] == t[i];
          assert NoWorse(bt, t[i]);
        }
      }
      if BestScore(s).None? {
        assert !Better(x, bt) && bt.None? && x.None?;
        forall i | 0 <= i < |s| ensures s[i].None? {
          if i < |t| { assert s[i] == t[i]; }
        }
      }
    }
  }

  /** Ties keep the earliest: the chosen score is strictly better than every
      score before it. */
  lemma {:induction false} BestIndexEarliest(s: seq<Option<real>>)
    ensures BestIndex(s).Some? ==> forall i :: 0 <= i < BestIndex(s).value ==> Better(s[BestIndex(s).value], s[i])
    decreases |s|
  {
    if |s| > 0 {
      var t := s[..|s| - 1];
      BestIndexEarliest(t);
      BestScoreIsMinimum(t);
      BestStep(t, s[|s| - 1]);
      assert s == t + [s[|s| - 1]];
      assert forall i :: 0 <= i < |t| ==> t[i] == s[i];
    }
  }

  /** Seeing more scores never makes the best score worse. */
  lemma BestScorePrefix(s: seq<Option<real>>, m: nat)
    requires m <= |s|
    ensures NoWorse(BestScore(s), BestScore(s[..m]))
  {
    BestScoreIsMinimum(s);
    var k := BestIndex(s[..m]);
    if k.Some? {
      assert s[..m][k.value] == s[k.value];
    }
  }



  /** The position logged at index k, if there is one. */
  function Pick(ps: seq<seq<real>>, k: Option<nat>): Option<seq<real>>
  {
    match k
    case None => None
    case Some(k) => if k < |ps| then Some(ps[k]) else None
  }

  /** The personal bests with their scores and the global best with its
      score (model_pso.py:89-90, 19-20).  A score of None stands for the
      source's initial infinity as well as for a NaN score. */
  datatype Bests = Bests(pbest: seq<seq<real>>, pbestScores: seq<Option<real>>,
                         gbest: Option<seq<real>>, gbestScore: Option<real>)

  /** Particle i, at position p, has just been scored s (model_pso.py:103-108):
      its personal best and the global best move to p only when s is strictly
      better than their scores. */
  function Offer(b: Bests, i: nat, p: seq<real>, s: Option<real>): (r: Bests)
    requires i < |b.pbest| == |b.pbestScores|
    ensures |r.pbest| == |r.pbestScores| == |b.pbest|
    ensures s.None? ==> r == b
    ensures NoWorse(r.pbestScores[i], s) && NoWorse(r.pbestScores[i], b.pbestScores[i])
    ensures NoWorse(r.gbestScore, s) && NoWorse(r.gbestScore, b.gbestScore)
    ensures s == b.pbestScores[i] ==> r.pbest == b.pbest && r.pbestScores == b.pbestScores
    ensures s == b.gbestScore ==> r.gbest == b.gbest && r.gbestScore == b.gbestScore
  {
    var better := Better(s, b.pbestScores[i]);
    var gbetter := Better(s, b.gbestScore);
    Bests(if better then b.pbest[i := p] else b.pbest,
          if better then b.pbestScores[i := s] else b.pbestScores,
          if gbetter then Some(p) else b.gbest,
          if gbetter then s else b.gbestScore)
  }

  /** Particles 0, 1, ... at positions xs are scored s in turn. */
  function OfferAll(b: Bests, xs: seq<seq<real>>, s: seq<Option<real>>): (r: Bests)
    requires |xs| == |s| <= |b.pbest| == |b.pbestScores|
    ensures |r.pbest| == |r.pbestScores| == |b.pbest|
    ensures forall k :: 0 <= k < |b.pbestScores| ==> NoWorse(r.pbestScores[k], b.pbestScores[k])
    ensures NoWorse(r.gbestScore, b.gbestScore)
    decreases |xs|
  {
    if |xs| == 0 then b
    else Offer(OfferAll(b, xs[..|xs| - 1], s[..|s| - 1]), |xs| - 1, xs[|xs| - 1], s[|s| - 1])
  }

  /** A pass only moves a best to one of the scored positions, so when the
      old bests and the positions all have length dim, so do the new bests. */
  lemma {:induction false} OfferAllShape(b: Bests, xs: seq<seq<real>>, s: seq<Option<real>>, dim: nat)
    requires |xs| == |s| <= |b.pbest| == |b.pbestScores|
    requires forall k :: 0 <= k < |xs| ==> |xs[k]| == dim
    requires forall i :: 0 <= i < |b.pbest| ==> |b.pbest[i]| == dim
    requires b.gbest.Some? ==> |b.gbest.value| == dim
    ensures var r := OfferAll(b, xs, s);
            && (forall i :: 0 <= i < |r.pbest| ==> |r.pbest[i]| == dim)
            && (r.gbest.Some? ==> |r.gbest.value| == dim)
    decreases |xs|
  {
    if |xs| > 0 {
      var n := |xs| - 1;
      OfferAllShape(b, xs[..n], s[..n], dim);
    }
  }

  /** After a pass, the personal best of each scored particle k moved to
      xs[k] exactly when s[k] was strictly better than its old score; the
      particles not scored keep theirs. */
  lemma {:induction false} OfferAllPerParticle(b: Bests, xs: seq<seq<real>>, s: seq<Option<real>>, k: nat)
    requires |xs| == |s| <= |b.pbest| == |b.pbestScores| && k < |b.pbest|
    ensures var r := OfferAll(b, xs, s);
            if k < |xs| then
              && r.pbestScores[k] == (if Better(s[k], b.pbestScores[k]) then s[k] else b.pbestScores[k])
              && r.pbest[k] == (if Better(s[k], b.pbestScores[k]) then xs[k] else b.pbest[k])
            else r.pbestScores[k] == b.pbestScores[k] && r.pbest[k] == b.pbest[k]
    decreases |xs|
  {
    if |xs| > 0 {
      var n := |xs| - 1;
      OfferAllPerParticle(b, xs[..n], s[..n], k);
      if k < n {
        assert xs[..n][k] == xs[k] && s[..n][k] == s[k];
      }
    }
  }

  /** After a pass, the global best score is the strict-improvement best of
      the old global best score followed by the new scores. */
  lemma {:induction false} OfferAllGlobal(b: Bests, xs: seq<seq<real>>, s: seq<Option<real>>)
    requires |xs| == |s| <= |b.pbest| == |b.pbestScores|
    ensures OfferAll(b, xs, s).gbestScore == BestScore([b.gbestScore] + s)
    decreases |xs|
  {
    if |xs| == 0 {
      assert BestIndex([b.gbestScore]) == (if b.gbestScore.Some? then Some(0) else None) by {
        assert [b.gbestScore][..0] == [];
      }
    } else {
      var n := |xs| - 1;
      OfferAllGlobal(b, xs[..n], s[..n]);
      assert [b.gbestScore] + s == ([b.gbestScore] + s[..n]) + [s[n]];
      BestStep([b.gbestScore] + s[..n], s[n]);
    }
  }

  /** The score sc gives each of the positions xs. */
  function Scores(sc: seq<real> -> Option<real>, xs: seq<seq<real>>): seq<Option<real>>
  {
    seq(|xs|, k requires 0 <= k < |xs| => sc(xs[k]))
  }

  /** ss lists the scores sc gives the positions ps, one for one. */
  ghost predicate Evaluated(ps: seq<seq<real>>, ss: seq<Option<real>>, sc: seq<real> -> Option<real>)
  {
    |ps| == |ss| && forall j :: 0 <= j < |ss| ==> ss[j] == sc(ps[j])
  }

  /** Each evaluated position has the particle length and is recorded with its own score. */
  ghost predicate SeenOk(ps: seq<seq<real>>, ss: seq<Option<real>>, dim: nat, sc: seq<real> -> Option<real>)
  {
    && (forall j :: 0 <= j < |ps| ==> |ps[j]| == dim)
    && Evaluated(ps, ss, sc)
  }

  /** A defined personal best score is the score of the personal best
      position, and the global best score is no worse than any personal best score. */
  ghost predicate PbestOk(b: Bests, sc: seq<real> -> Option<real>)
  {
    && |b.pbest| == |b.pbestScores|
    && forall i :: 0 <= i < |b.pbestScores| ==>
         && (b.pbestScores[i].Some? ==> b.pbestScores[i] == sc(b.pbest[i]))
         && NoWorse(b.gbestScore, b.pbestScores[i])
  }

  /** Entry j of the history is the best of the first marks[j] scores seen. */
  predicate Recorded(history: seq<Option<real>>, marks: seq<nat>, ss: seq<Option<real>>)
  {
    && |marks| == |history|
    && (forall j :: 0 <= j < |marks| ==> marks[j] <= |ss| && history[j] == BestScore(ss[..marks[j]]))
    && (forall j, j' :: 0 <= j < j' < |marks| ==> marks[j] <= marks[j'])
  }

  /** Seeing more scores leaves every recorded history entry valid. */
  lemma RecordedGrow(history: seq<Option<real>>, marks: seq<nat>, ss: seq<Option<real>>, more: seq<Option<real>>)
    requires Recorded(history, marks, ss)
    ensures Recorded(history, marks, ss + more)
  {
    forall j | 0 <= j < |marks| ensures (ss + more)[..marks[j]] == ss[..marks[j]] {
    }
  }

  /** Recording the best score so far keeps the history consistent. */
  lemma RecordedAppend(history: seq<Option<real>>, marks: seq<nat>, ss: seq<Option<real>>)
    requires Recorded(history, marks, ss)
    ensures Recorded(history + [BestScore(ss)], marks + [|ss|], ss)
  {
    assert ss[..|ss|] == ss;
  }

  /** The number of scores seen when the last history entry was recorded, or
      base before the first. */
  function LastMark(marks: seq<nat>, base: nat): nat
  {
    if |marks| == 0 then base else marks[|marks| - 1]
  }

  /** Every history entry was recorded n evaluations after the previous one
      (after base for the first): one entry per pass over n particles. */
  predicate Paced(marks: seq<nat>, base: nat, n: nat)
    decreases |marks|
  {
    |marks| == 0 ||
    (Paced(marks[..|marks| - 1], base, n) && marks[|marks| - 1] == LastMark(marks[..|marks| - 1], base) + n)
  }

  /** Recording n evaluations after the last entry keeps the pace. */
  lemma PacedAppend(marks: seq<nat>, base: nat, n: nat, total: nat)
    requires Paced(marks, base, n) && total == LastMark(marks, base) + n
    ensures Paced(marks + [total], base, n) && LastMark(marks + [total], base) == total
  {
    assert (marks + [total])[..|marks|] == marks;
  }

  /** Under a steady pace, entry t of the history was recorded after the
      first base + (t + 1) n evaluations. */
  lemma {:induction false} PacedClosedForm(marks: seq<nat>, base: nat, n: nat, t: nat)
    requires Paced(marks, base, n) && t < |marks|
    ensures marks[t] == base + (t + 1) * n
    decreases |marks|
  {
    var m := marks[..|marks| - 1];
    if t < |m| {
      PacedClosedForm(m, base, n, t);
      assert marks[t] == m[t];
    } else if t > 0 {
      PacedClosedForm(m, base, n, t - 1);
      assert m[t - 1] == base + t * n;
      assert marks[t] == base + t * n + n;
    }
  }

  /** The score bookkeeping of the optimizer: n personal bests of length dim,
      every position evaluated so far with its score, the global best as the
      strict-improvement best of those scores, and the recorded history. */
  ghost predicate ScoresOk(sc: seq<real> -> Option<real>, n: nat, dim: nat, b: Bests,
                           ps: seq<seq<real>>, ss: seq<Option<real>>,
                           history: seq<Option<real>>, marks: seq<nat>)
  {
    && |b.pbest| == n && (forall i :: 0 <= i < n ==> |b.pbest[i]| == dim)
    && PbestOk(b, sc)
    && SeenOk(ps, ss, dim, sc)
    && b.gbestScore == BestScore(ss)
    && b.gbest == Pick(ps, BestIndex(ss))
    && Recorded(history, marks, ss)
  }

  /** The bookkeeping before any particle has been scored. */
  lemma InitialScoresOk(sc: seq<real> -> Option<real>, n: nat, dim: nat, ps: seq<seq<real>>)
    requires |ps| == n && forall i :: 0 <= i < n ==> |ps[i]| == dim
    ensures ScoresOk(sc, n, dim, Bests(ps, seq(n, i => None), None, None), [], [], [], [])
  {
  }

  /** Logging one more position of particle length with its score keeps the log consistent. */
  lemma SeenOkAppend(ps: seq<seq<real>>, ss: seq<Option<real>>, dim: nat, sc: seq<real> -> Option<real>,
                     p: seq<real>)
    requires SeenOk(ps, ss, dim, sc) && |p| == dim
    ensures SeenOk(ps + [p], ss + [sc(p)], dim, sc)
  {
    forall j | 0 <= j < |ss| + 1 ensures (ss + [sc(p)])[j] == sc((ps + [p])[j]) {
      if j < |ss| {
        assert (ps + [p])[j] == ps[j];
      }
    }
  }

  /** Scoring one more particle keeps the bookkeeping consistent. */
  lemma ScoresOkStep(sc: seq<real> -> Option<real>, n: nat, dim: nat, b: Bests,
                     ps: seq<seq<real>>, ss: seq<Option<real>>,
                     history: seq<Option<real>>, marks: seq<nat>, i: nat, p: seq<real>)
    requires ScoresOk(sc, n, dim, b, ps, ss, history, marks)
    requires i < n && |p| == dim
    ensures ScoresOk(sc, n, dim, Offer(b, i, p, sc(p)), ps + [p], ss + [sc(p)], history, marks)
  {
    var s := sc(p);
    var r := Offer(b, i, p, s);
    BestStep(ss, s);
    RecordedGrow(history, marks, ss, [s]);
    SeenOkAppend(ps, ss, dim, sc, p);
    forall k | 0 <= k < n
      ensures (r.pbestScores[k].Some? ==> r.pbestScores[k] == sc(r.pbest[k]))
      ensures NoWorse(r.gbestScore, r.pbestScores[k])
    {
      assert NoWorse(b.gbestScore, b.pbestScores[k]);
    }
    assert (ps + [p])[|ps|] == p;
  }

  /** A whole scoring pass keeps the bookkeeping consistent, and logs the
      positions with their scores. */
  lemma {:induction false} ScoresOkPass(sc: seq<real> -> Option<real>, n: nat, dim: nat, b: Bests,
                                        ps: seq<seq<real>>, ss: seq<Option<real>>,
                                        history: seq<Option<real>>, marks: seq<nat>, xs: seq<seq<real>>)
    requires ScoresOk(sc, n, dim, b, ps, ss, history, marks)
    requires |xs| <= n && forall k :: 0 <= k < |xs| ==> |xs[k]| == dim
    ensures ScoresOk(sc, n, dim, OfferAll(b, xs, Scores(sc, xs)), ps + xs, ss + Scores(sc, xs), history, marks)
    decreases |xs|
  {
    if |xs| == 0 {
      assert ps + xs == ps && ss + Scores(sc, xs) == ss;
    } else {
      var m := |xs| - 1;
      var x := xs[m];
      ScoresOkPass(sc, n, dim, b, ps, ss, history, marks, xs[..m]);
      assert Scores(sc, xs)[..m] == Scores(sc, xs[..m]);
      ScoresOkStep(sc, n, dim, OfferAll(b, xs[..m], Scores(sc, xs[..m])),
                   ps + xs[..m], ss + Scores(sc, xs[..m]), history, marks, m, x);
      assert ps + xs == (ps + xs[..m]) + [x];
      assert ss + Scores(sc, xs) == (ss + Scores(sc, xs[..m])) + [sc(x)];
    }
  }
}
