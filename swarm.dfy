/** The particle swarm that tunes the padding amounts and the interior
    breakpoints of the PSO-tuned engine.  Randomness (the number of intervals,
    the initial positions and the coefficients r1, r2 of every step) is
    supplied by the caller. */
module Swarm {
  import opened FtsCommon
  import opened PsoFts
  import opened SwarmBooks

  /** np.clip of one value. */
  function Clip(x: real, lo: real, hi: real): (r: real)
    requires lo <= hi
    ensures lo <= r <= hi
    ensures lo <= x <= hi ==> r == x
  {
    if x < lo then lo else if x > hi then hi else x
  }

  /** The velocity update w*v + c1*r1*(pbest - x) + c2*r2*(gbest - x), per dimension. */
  function NewVelocity(w: real, c1: real, c2: real, v: seq<real>, x: seq<real>, pb: seq<real>,
                       g: seq<real>, r1: seq<real>, r2: seq<real>): (r: seq<real>)
    requires |v| == |x| == |pb| == |g| == |r1| == |r2|
    ensures |r| == |x|
    ensures forall d :: 0 <= d < |x| && pb[d] == x[d] && g[d] == x[d] ==> r[d] == w * v[d]
  {
    seq(|x|, d requires 0 <= d < |x| => w * v[d] + c1 * r1[d] * (pb[d] - x[d]) + c2 * r2[d] * (g[d] - x[d]))
  }

  function Add(x: seq<real>, v: seq<real>): (r: seq<real>)
    requires |x| == |v|
    ensures |r| == |x|
  {
    seq(|x|, d requires 0 <= d < |x| => x[d] + v[d])
  }

  /** Padding dimensions clipped into the padding range, breakpoints into [dmin, dmax]. */
  function ClampRow(x: seq<real>, zr: ZRange, dmin: real, dmax: real): (r: seq<real>)
    requires zr.lo <= zr.hi && dmin <= dmax
    ensures |r| == |x|
    ensures forall d :: 0 <= d < 2 && d < |x| ==>
              zr.lo <= r[d] <= zr.hi && (zr.lo <= x[d] <= zr.hi ==> r[d] == x[d])
    ensures forall d :: 2 <= d < |x| ==> dmin <= r[d] <= dmax && (dmin <= x[d] <= dmax ==> r[d] == x[d])
  {
    seq(|x|, d requires 0 <= d < |x| => if d < 2 then Clip(x[d], zr.lo, zr.hi) else Clip(x[d], dmin, dmax))
  }

  /** Keep the two padding dimensions and sort the breakpoints ascending. */
  function SortTail(x: seq<real>): (r: seq<real>)
    requires |x| >= 2
    ensures |r| == |x| && r[0] == x[0] && r[1] == x[1]
    ensures Sorted(r[2..]) && multiset(r[2..]) == multiset(x[2..])
  {
    var t := SortAsc(x[2..]);
    assert (x[..2] + t)[2..] == t;
    x[..2] + t
  }

  /** A particle lies in the search box: padding in its range, breakpoints
      sorted and inside [dmin, dmax]. */
  predicate InBox(p: seq<real>, dim: nat, zr: ZRange, dmin: real, dmax: real)
  {
    && |p| == dim && dim >= 2
    && zr.lo <= p[0] <= zr.hi && zr.lo <= p[1] <= zr.hi
    && (forall k :: 2 <= k < |p| ==> dmin <= p[k] <= dmax)
    && Sorted(p[2..])
  }

  /** After clamping and re-sorting, the particle has its old length, lies in
      the search box, keeps its clipped padding values and its breakpoints are
      a permutation of the clipped breakpoints. */
  lemma RepositionInBox(x: seq<real>, zr: ZRange, dmin: real, dmax: real)
    requires |x| >= 2 && zr.lo <= zr.hi && dmin <= dmax
    ensures var c := ClampRow(x, zr, dmin, dmax);
            var r := SortTail(c);
            && InBox(r, |x|, zr, dmin, dmax)
            && r[0] == Clip(x[0], zr.lo, zr.hi) && r[1] == Clip(x[1], zr.lo, zr.hi)
            && multiset(r[2..]) == multiset(c[2..])
  {
    var c := ClampRow(x, zr, dmin, dmax);
    var r := SortTail(c);
    var t := SortAsc(c[2..]);
    assert r[2..] == t;
    PermutationBounds(t, c[2..], dmin, dmax);
    forall k | 2 <= k < |r| ensures dmin <= r[k] <= dmax {
      assert r[k] == t[k - 2];
    }
  }

  /** A caller-supplied matrix of uniform draws in [0, 1). */
  predicate Draws(r: seq<seq<real>>, n: nat, dim: nat)
  {
    |r| == n && forall i :: 0 <= i < n ==> |r[i]| == dim && forall d :: 0 <= d < dim ==> 0.0 <= r[i][d] < 1.0
  }

  /** The score of a position; None for a position too short to hold the padding. */
  function Score(data: seq<real>, dmin: real, dmax: real, p: seq<real>): Option<real>
  {
    if |data| > 0 && |p| >= 2 then ParticleScore(data, dmin, dmax, p) else None
  }

  /** Shape of the swarm arrays and the search-box invariant of every particle. */
  predicate SwarmOk(particles: seq<seq<real>>, velocities: seq<seq<real>>,
                    n: nat, dim: nat, zr: ZRange, dmin: real, dmax: real)
  {
    && |particles| == n && |velocities| == n
    && forall i :: 0 <= i < n ==> InBox(particles[i], dim, zr, dmin, dmax) && |velocities[i]| == dim
  }

  /** sc gives every position its score.  The quantifier fires only on a
      Score term, so reasoning about sc alone never unfolds the forecast
      behind a score. */
  ghost predicate ScoresBy(sc: seq<real> -> Option<real>, data: seq<real>, dmin: real, dmax: real)
  {
    forall q {:trigger Score(data, dmin, dmax, q)} :: sc(q) == Score(data, dmin, dmax, q)
  }

  /** The scoring of one particle (model_pso.py:94-101): its boundaries, its
      forecast and the MAPE over positions 1..N-1. */
  method ParticleMape(data: seq<real>, dmin: real, dmax: real, p: seq<real>, ghost sc: seq<real> -> Option<real>)
    returns (mape: Option<real>)
    requires |data| > 0 && |p| >= 2 && ScoresBy(sc, data, dmin, dmax)
    ensures mape == Score(data, dmin, dmax, p) && mape == sc(p)
  {
    var intervals := GenerateIntervals(dmin, dmax, p[0], p[1], p[2..]);
    var predictions := RunFtsLee(data, intervals);
    mape := Mape(data[1..], predictions[1..]);
  }



  /** The scoring pass of one iteration (model_pso.py:93-108): particle k,
      at position xs[k], is scored in turn, and its personal best and the
      global best are replaced only on strict improvement. */
  method ScoreSwarm(data: seq<real>, dmin: real, dmax: real, xs: seq<seq<real>>, b0: Bests,
                    ghost sc: seq<real> -> Option<real>)
    returns (pbest: seq<seq<real>>, pbestScores: seq<Option<real>>, gbest: Option<seq<real>>, gbestScore: Option<real>)
    requires |data| > 0 && ScoresBy(sc, data, dmin, dmax)
    requires |xs| <= |b0.pbest| == |b0.pbestScores| && forall k :: 0 <= k < |xs| ==> |xs[k]| >= 2
    ensures Bests(pbest, pbestScores, gbest, gbestScore) == OfferAll(b0, xs, Scores(sc, xs))
  {
    pbest, pbestScores, gbest, gbestScore := b0.pbest, b0.pbestScores, b0.gbest, b0.gbestScore;
    for i := 0 to |xs|
      invariant Bests(pbest, pbestScores, gbest, gbestScore) == OfferAll(b0, xs[..i], Scores(sc, xs[..i]))
    {
      var mape := ParticleMape(data, dmin, dmax, xs[i], sc);
      assert xs[..i + 1][..i] == xs[..i];
      assert Scores(sc, xs[..i + 1])[..i] == Scores(sc, xs[..i]);
      if Better(mape, pbestScores[i]) {
        pbestScores := pbestScores[i := mape];
        pbest := pbest[i := xs[i]];
      }
      if Better(mape, gbestScore) {
        gbestScore := mape;
        gbest := Some(xs[i]);
      }
    }
    assert xs[..|xs|] == xs;
  }

  /** The initial swarm (model_pso.py:80-90) lies in the search box: drawn
      padding stays in its range and the sorted breakpoints stay in
      [dmin, dmax]. */
  lemma InitialSwarmOk(z1s: seq<real>, z2s: seq<real>, points: seq<seq<real>>,
                       ps: seq<seq<real>>, vs: seq<seq<real>>, dim: nat, zr: ZRange, dmin: real, dmax: real)
    requires |z1s| == |z2s| == |points| && dim >= 2
    requires forall i :: 0 <= i < |points| ==>
               zr.lo <= z1s[i] <= zr.hi && zr.lo <= z2s[i] <= zr.hi && |points[i]| == dim - 2
    requires forall i, k :: 0 <= i < |points| && 0 <= k < |points[i]| ==> dmin <= points[i][k] <= dmax
    requires ps == seq(|points|, i requires 0 <= i < |points| => [z1s[i], z2s[i]] + SortAsc(points[i]))
    requires vs == seq(|points|, i => seq(dim, d => 0.0))
    ensures SwarmOk(ps, vs, |points|, dim, zr, dmin, dmax)
  {
    forall i | 0 <= i < |points| ensures InBox(ps[i], dim, zr, dmin, dmax) {
      var t := SortAsc(points[i]);
      assert ps[i][2..] == t;
      PermutationBounds(t, points[i], dmin, dmax);
    }
  }

  /** Every particle of a well-shaped swarm has the particle length. */
  lemma SwarmShape(particles: seq<seq<real>>, velocities: seq<seq<real>>,
                    n: nat, dim: nat, zr: ZRange, dmin: real, dmax: real)
    requires SwarmOk(particles, velocities, n, dim, zr, dmin, dmax)
    ensures |particles| == n && forall k :: 0 <= k < n ==> |particles[k]| == dim
  {
  }

  /** The arguments of a move fit together: the swarm lies in the search
      box, and the personal bests, the global best and the draws have
      particle length. */
  predicate MoveArgs(xs: seq<seq<real>>, vs: seq<seq<real>>, pb: seq<seq<real>>, g: seq<real>,
                     r1: seq<seq<real>>, r2: seq<seq<real>>, dim: nat, zr: ZRange, dmin: real, dmax: real)
  {
    && zr.lo <= zr.hi && dmin <= dmax && |g| == dim
    && SwarmOk(xs, vs, |xs|, dim, zr, dmin, dmax)
    && |pb| == |xs| && (forall i :: 0 <= i < |xs| ==> |pb[i]| == dim)
    && Draws(r1, |xs|, dim) && Draws(r2, |xs|, dim)
  }

  /** The arguments without their first particle still fit. */
  lemma MoveArgsTail(xs: seq<seq<real>>, vs: seq<seq<real>>, pb: seq<seq<real>>, g: seq<real>,
                     r1: seq<seq<real>>, r2: seq<seq<real>>, dim: nat, zr: ZRange, dmin: real, dmax: real)
    requires MoveArgs(xs, vs, pb, g, r1, r2, dim, zr, dmin, dmax) && |xs| > 0
    ensures MoveArgs(xs[1..], vs[1..], pb[1..], g, r1[1..], r2[1..], dim, zr, dmin, dmax)
  {
    forall i | 0 <= i < |xs| - 1
      ensures InBox(xs[1..][i], dim, zr, dmin, dmax) && |vs[1..][i]| == dim && |pb[1..][i]| == dim
    {
      assert xs[1..][i] == xs[i + 1] && vs[1..][i] == vs[i + 1] && pb[1..][i] == pb[i + 1];
    }
    forall i | 0 <= i < |xs| - 1
      ensures |r1[1..][i]| == dim && forall d :: 0 <= d < dim ==> 0.0 <= r1[1..][i][d] < 1.0
      ensures |r2[1..][i]| == dim && forall d :: 0 <= d < dim ==> 0.0 <= r2[1..][i][d] < 1.0
    {
      assert r1[1..][i] == r1[i + 1] && r2[1..][i] == r2[i + 1];
    }
  }

  /** The move of the particles xs (model_pso.py:114-124) as a function,
      row by row: the new velocities, and the new positions clipped into the
      search box with their breakpoints re-sorted.  The swarm stays in the box. */
  function MoveAll(xs: seq<seq<real>>, vs: seq<seq<real>>, pb: seq<seq<real>>, g: seq<real>,
                   r1: seq<seq<real>>, r2: seq<seq<real>>, w: real, c1: real, c2: real,
                   dim: nat, zr: ZRange, dmin: real, dmax: real): (r: (seq<seq<real>>, seq<seq<real>>))
    requires MoveArgs(xs, vs, pb, g, r1, r2, dim, zr, dmin, dmax)
    ensures SwarmOk(r.0, r.1, |xs|, dim, zr, dmin, dmax)
    decreases |xs|
  {
    if |xs| == 0 then ([], [])
    else
      MoveArgsTail(xs, vs, pb, g, r1, r2, dim, zr, dmin, dmax);
      var v := NewVelocity(w, c1, c2, vs[0], xs[0], pb[0], g, r1[0], r2[0]);
      var x := SortTail(ClampRow(Add(xs[0], v), zr, dmin, dmax));
      var rest := MoveAll(xs[1..], vs[1..], pb[1..], g, r1[1..], r2[1..], w, c1, c2, dim, zr, dmin, dmax);
      RepositionInBox(Add(xs[0], v), zr, dmin, dmax);
      SwarmOkCons(x, v, rest.0, rest.1, dim, zr, dmin, dmax);
      ([x] + rest.0, [v] + rest.1)
  }

  /** A particle in the box in front of a swarm in the box. */
  lemma SwarmOkCons(x: seq<real>, v: seq<real>, xs: seq<seq<real>>, vs: seq<seq<real>>,
                    dim: nat, zr: ZRange, dmin: real, dmax: real)
    requires InBox(x, dim, zr, dmin, dmax) && |v| == dim && SwarmOk(xs, vs, |xs|, dim, zr, dmin, dmax)
    ensures SwarmOk([x] + xs, [v] + vs, |xs| + 1, dim, zr, dmin, dmax)
  {
    forall i | 1 <= i < |xs| + 1 ensures InBox(([x] + xs)[i], dim, zr, dmin, dmax) {
      assert ([x] + xs)[i] == xs[i - 1];
    }
  }

  /** Row i of the move is particle i's new velocity and its clipped,
      re-sorted new position. */
  lemma {:induction false} MoveAllAt(xs: seq<seq<real>>, vs: seq<seq<real>>, pb: seq<seq<real>>, g: seq<real>,
                                     r1: seq<seq<real>>, r2: seq<seq<real>>, w: real, c1: real, c2: real,
                                     dim: nat, zr: ZRange, dmin: real, dmax: real, i: nat)
    requires MoveArgs(xs, vs, pb, g, r1, r2, dim, zr, dmin, dmax) && i < |xs|
    ensures var r := MoveAll(xs, vs, pb, g, r1, r2, w, c1, c2, dim, zr, dmin, dmax);
            && r.1[i] == NewVelocity(w, c1, c2, vs[i], xs[i], pb[i], g, r1[i], r2[i])
            && r.0[i] == SortTail(ClampRow(Add(xs[i], r.1[i]), zr, dmin, dmax))
    decreases i
  {
    if i > 0 {
      MoveArgsTail(xs, vs, pb, g, r1, r2, dim, zr, dmin, dmax);
      MoveAllAt(xs[1..], vs[1..], pb[1..], g, r1[1..], r2[1..], w, c1, c2, dim, zr, dmin, dmax, i - 1);
      assert xs[1..][i - 1] == xs[i] && vs[1..][i - 1] == vs[i] && pb[1..][i - 1] == pb[i];
      assert r1[1..][i - 1] == r1[i] && r2[1..][i - 1] == r2[i];
    }
  }

  /** Logging in two steps is logging the two parts at once. */
  lemma AppendAssoc(a: seq<seq<real>>, b: seq<seq<real>>, c: seq<seq<real>>)
    ensures (a + b) + c == a + (b + c)
  {
  }

  /** A prefix of a log stays a prefix after the same earlier entries. */
  lemma PrefixAppend(a: seq<seq<real>>, b: seq<seq<real>>, c: seq<seq<real>>)
    requires b <= c
    ensures a + b <= a + c
  {
    assert (a + c)[..|a + b|] == a + b;
  }

  /** The move of the whole swarm (model_pso.py:114-124): particle by
      particle, the new velocity, the new position clipped into the search box
      and its breakpoints re-sorted. */
  method MoveSwarm(xs: seq<seq<real>>, vs: seq<seq<real>>, pb: seq<seq<real>>, g: seq<real>,
                   r1: seq<seq<real>>, r2: seq<seq<real>>, w: real, c1: real, c2: real,
                   n: nat, dim: nat, zr: ZRange, dmin: real, dmax: real)
    returns (ps: seq<seq<real>>, v: seq<seq<real>>)
    requires SwarmOk(xs, vs, n, dim, zr, dmin, dmax) && zr.lo <= zr.hi && dmin <= dmax
    requires |g| == dim && |pb| == n && forall i :: 0 <= i < n ==> |pb[i]| == dim
    requires Draws(r1, n, dim) && Draws(r2, n, dim)
    ensures SwarmOk(ps, v, n, dim, zr, dmin, dmax)
    ensures forall i :: 0 <= i < n ==> v[i] == NewVelocity(w, c1, c2, vs[i], xs[i], pb[i], g, r1[i], r2[i])
    ensures forall i :: 0 <= i < n ==> ps[i] == SortTail(ClampRow(Add(xs[i], v[i]), zr, dmin, dmax))
  {
    ps, v := xs, vs;
    for i := 0 to n
      invariant |ps| == n && |v| == n
      invariant forall k :: 0 <= k < i ==>
                  && v[k] == NewVelocity(w, c1, c2, vs[k], xs[k], pb[k], g, r1[k], r2[k])
                  && ps[k] == SortTail(ClampRow(Add(xs[k], v[k]), zr, dmin, dmax))
                  && InBox(ps[k], dim, zr, dmin, dmax) && |v[k]| == dim
      invariant forall k :: i <= k < n ==> v[k] == vs[k] && ps[k] == xs[k]
    {
      var vi := NewVelocity(w, c1, c2, vs[i], xs[i], pb[i], g, r1[i], r2[i]);
      RepositionInBox(Add(xs[i], vi), zr, dmin, dmax);
      v := v[i := vi];
      ps := ps[i := SortTail(ClampRow(Add(xs[i], vi), zr, dmin, dmax))];
    }
  }

  /** The optimizer's final result: the best padding, its boundaries and the
      forecast they induce. */
  datatype Forecast = Forecast(z1: real, z2: real, intervals: seq<real>,
                               predictions: seq<Option<real>>, actual: seq<real>)

  /** What one iteration hands to the next: positions, velocities and the
      personal and global bests. */
  datatype SwarmState = SwarmState(particles: seq<seq<real>>, velocities: seq<seq<real>>, books: Bests)

  /** A sequence of iterations: step(p, j) is the state iteration j leaves
      from state p and whether it could move. */
  type Stepper = (SwarmState, nat) -> (SwarmState, bool)

  /** The first t iterations from state s (model_pso.py:92-124): the state
      they leave, the positions they scored in order, and whether every one
      of them could move.  The iterations stop at the first that could not. */
  ghost function Iterated(step: Stepper, s: SwarmState, t: nat): (SwarmState, seq<seq<real>>, bool)
  {
    if t == 0 then (s, [], true)
    else
      var p := Iterated(step, s, t - 1);
      if !p.2 then p
      else
        var q := step(p.0, t - 1);
        (q.0, p.1 + p.0.particles, q.1)
  }

  /** One more iteration after t that all could move: it leaves the state the
      step leaves, with the step's flag, and logs the positions it started
      from after those logged so far. */
  lemma IteratedAdvance(step: Stepper, s: SwarmState, t: nat, log0: seq<seq<real>>,
                        cur: SwarmState, log: seq<seq<real>>, next: SwarmState, ok: bool, log': seq<seq<real>>)
    requires var r := Iterated(step, s, t); cur == r.0 && log == log0 + r.1 && r.2
    requires (next, ok) == step(cur, t) && log' == log + cur.particles
    ensures var r := Iterated(step, s, t + 1); next == r.0 && log' == log0 + r.1 && ok == r.2
  {
    AppendAssoc(log0, Iterated(step, s, t).1, cur.particles);
  }

  /** Once an iteration could not move, the later ones change nothing. */
  lemma {:induction false} IteratedStopped(step: Stepper, s: SwarmState, t: nat, u: nat)
    requires t <= u && !Iterated(step, s, t).2
    ensures Iterated(step, s, u) == Iterated(step, s, t)
    decreases u
  {
    if u > t {
      IteratedStopped(step, s, t, u - 1);
    }
  }

  /** The log of scored positions only grows: the positions scored by the
      first t iterations are a prefix of those scored by the first u, and the
      first iteration scores the initial swarm. */
  lemma {:induction false} IteratedLogGrows(step: Stepper, s: SwarmState, t: nat, u: nat)
    requires t <= u
    ensures Iterated(step, s, t).1 <= Iterated(step, s, u).1
    ensures u > 0 ==> s.particles <= Iterated(step, s, u).1
    decreases u
  {
    if u > 0 {
      IteratedLogGrows(step, s, 0, u - 1);
      if u > t {
        IteratedLogGrows(step, s, t, u - 1);
      }
    }
  }

  class PsoOptimizer {
    const data: seq<real>
    const dmin: real
    const dmax: real
    const zRange: ZRange
    const nParticles: nat
    const nIterations: nat
    const nIntervals: nat
    const w: real
    const c1: real
    const c2: real
    /** The score of a position, as a value the bookkeeping can mention
        without unfolding the forecast behind it. */
    ghost const scoreFn: seq<real> -> Option<real>

    var particles: seq<seq<real>>
    var velocities: seq<seq<real>>
    var pbest: seq<seq<real>>
    var pbestScores: seq<Option<real>>
    var gbest: Option<seq<real>>
    var gbestScore: Option<real>
    var history: seq<Option<real>>
    var result: Option<Forecast>

    /** Every position evaluated so far and its score, in evaluation order. */
    ghost var seenPositions: seq<seq<real>>
    ghost var seenScores: seq<Option<real>>
    /** For each history entry, how many evaluations had been made when it was recorded. */
    ghost var marks: seq<nat>

    /** Particle length: two padding amounts and nIntervals - 1 breakpoints. */
    function Dim(): nat
    {
      nIntervals + 1
    }

    /** The personal and global bests as one value. */
    function Books(): Bests
      reads this`pbest, this`pbestScores, this`gbest, this`gbestScore
    {
      Bests(pbest, pbestScores, gbest, gbestScore)
    }

    /** The swarm and its bests as one value. */
    function Current(): SwarmState
      reads this`particles, this`velocities, this`pbest, this`pbestScores, this`gbest, this`gbestScore
    {
      SwarmState(particles, velocities, Books())
    }

    /** The class invariant: the shape of the swarm and the score
        bookkeeping.  It does not constrain the final result, so storing the
        result cannot disturb it. */
    ghost predicate Valid()
      reads this`particles, this`velocities, this`pbest, this`pbestScores, this`gbest, this`gbestScore
      reads this`history, this`seenPositions, this`seenScores, this`marks
    {
      SwarmValid() && BooksValid() && BestsFit()
    }

    /** What a state of this search needs beyond the swarm and the books:
        the ranges are ordered and the global best has particle length. */
    ghost predicate BestsFit()
      reads this`pbestScores, this`gbest
    {
      && zRange.lo <= zRange.hi && dmin <= dmax && |pbestScores| == nParticles
      && (gbest.Some? ==> |gbest.value| == Dim())
    }

    /** A state of this search: the particles in the search box, and every
        personal best and the global best of particle length. */
    ghost predicate StateOk(s: SwarmState)
    {
      && zRange.lo <= zRange.hi && dmin <= dmax
      && SwarmOk(s.particles, s.velocities, nParticles, Dim(), zRange, dmin, dmax)
      && |s.books.pbest| == nParticles && |s.books.pbestScores| == nParticles
      && (forall i :: 0 <= i < nParticles ==> |s.books.pbest[i]| == Dim())
      && (s.books.gbest.Some? ==> |s.books.gbest.value| == Dim())
    }

    /** The move of model_pso.py:114-124 towards the global best g, as a
        function of the state: it keeps the swarm in the search box and
        leaves the bests alone. */
    ghost function Moved(s: SwarmState, g: seq<real>, r1: seq<seq<real>>, r2: seq<seq<real>>): (r: SwarmState)
      requires StateOk(s) && |g| == Dim()
      requires Draws(r1, nParticles, Dim()) && Draws(r2, nParticles, Dim())
      ensures StateOk(r) && r.books == s.books
    {
      var m := MoveAll(s.particles, s.velocities, s.books.pbest, g, r1, r2, w, c1, c2, Dim(), zRange, dmin, dmax);
      SwarmState(m.0, m.1, s.books)
    }

    /** One iteration from state s with draws r1, r2 (model_pso.py:93-124):
        the particles' scores folded into the bests, then the move when a
        global best exists.  The flag says whether it could move. */
    ghost function Stepped(s: SwarmState, r1: seq<seq<real>>, r2: seq<seq<real>>): (r: (SwarmState, bool))
      requires StateOk(s)
      requires Draws(r1, nParticles, Dim()) && Draws(r2, nParticles, Dim())
      ensures StateOk(r.0)
      ensures r.0.books == OfferAll(s.books, s.particles, Scores(scoreFn, s.particles))
      ensures r.1 <==> r.0.books.gbest.Some?
      ensures !r.1 ==> r.0.particles == s.particles && r.0.velocities == s.velocities
    {
      var b := OfferAll(s.books, s.particles, Scores(scoreFn, s.particles));
      OfferAllShape(s.books, s.particles, Scores(scoreFn, s.particles), Dim());
      var t := SwarmState(s.particles, s.velocities, b);
      if b.gbest.None? then (t, false) else (Moved(t, b.gbest.value, r1, r2), true)
    }

    /** The iterations of this search with the draws r1s and r2s: iteration
        j from a state of this search is Stepped with r1s[j] and r2s[j].  Every
        state a run reaches is one (IteratedOk); from any other the step
        does not move. */
    ghost function StepOf(r1s: seq<seq<seq<real>>>, r2s: seq<seq<seq<real>>>): Stepper
    {
      (p: SwarmState, j: nat) =>
        if && StateOk(p) && j < |r1s| && j < |r2s|
           && Draws(r1s[j], nParticles, Dim()) && Draws(r2s[j], nParticles, Dim())
        then Stepped(p, r1s[j], r2s[j])
        else (p, false)
    }

    /** On a state of this search, iteration j is Stepped with the j-th draws. */
    lemma StepOfStepped(r1s: seq<seq<seq<real>>>, r2s: seq<seq<seq<real>>>, j: nat,
                        p: SwarmState, next: SwarmState, ok: bool)
      requires StateOk(p) && j < |r1s| && j < |r2s|
      requires Draws(r1s[j], nParticles, Dim()) && Draws(r2s[j], nParticles, Dim())
      requires (next, ok) == Stepped(p, r1s[j], r2s[j])
      ensures (next, ok) == StepOf(r1s, r2s)(p, j)
    {
    }

    /** Every state a run of this search reaches is a state of this search. */
    lemma {:induction false} IteratedOk(s: SwarmState, r1s: seq<seq<seq<real>>>, r2s: seq<seq<seq<real>>>, t: nat)
      requires StateOk(s)
      ensures StateOk(Iterated(StepOf(r1s, r2s), s, t).0)
      decreases t
    {
      if t > 0 {
        IteratedOk(s, r1s, r2s, t - 1);
      }
    }

    /** scoreFn is the particle score of the series. */
    ghost predicate Linked()
    {
      ScoresBy(scoreFn, data, dmin, dmax)
    }

    /** The data summary and the search-box invariant of every particle. */
    ghost predicate SwarmValid()
      reads this`particles, this`velocities
    {
      && |data| > 0 && dmin == SeqMin(data) && dmax == SeqMax(data)
      && zRange == ZRangeFor(dmax - dmin) && 5 <= nIntervals <= 15
      && SwarmOk(particles, velocities, nParticles, Dim(), zRange, dmin, dmax)
    }

    /** The score bookkeeping; moving the swarm leaves it alone. */
    ghost predicate BooksValid()
      reads this`pbest, this`pbestScores, this`gbest, this`gbestScore
      reads this`history, this`seenPositions, this`seenScores, this`marks
    {
      ScoresOk(scoreFn, nParticles, Dim(), Books(), seenPositions, seenScores, history, marks)
    }

    /** Set-up and initial swarm (model_pso.py:5-28, 76-90): padding draws and
        breakpoint draws are supplied by the caller, the breakpoints are
        sorted, velocities are zero and no score has been seen. */
    constructor (data: seq<real>, nParticles: nat, nIterations: nat, nIntervals: nat,
                 w: real, c1: real, c2: real,
                 z1s: seq<real>, z2s: seq<real>, points: seq<seq<real>>)
      requires |data| > 0 && 5 <= nIntervals <= 15
      requires |z1s| == nParticles && |z2s| == nParticles && |points| == nParticles
      requires var zr := ZRangeFor(SeqMax(data) - SeqMin(data));
               forall i :: 0 <= i < nParticles ==>
                 zr.lo <= z1s[i] <= zr.hi && zr.lo <= z2s[i] <= zr.hi && |points[i]| == nIntervals - 1
      requires forall i, k :: 0 <= i < nParticles && 0 <= k < |points[i]| ==>
                 SeqMin(data) <= points[i][k] <= SeqMax(data)
      ensures Valid() && Linked()
      ensures this.data == data && this.nParticles == nParticles && this.nIterations == nIterations
      ensures this.nIntervals == nIntervals && this.w == w && this.c1 == c1 && this.c2 == c2
      ensures particles == seq(nParticles, i requires 0 <= i < nParticles => [z1s[i], z2s[i]] + SortAsc(points[i]))
      ensures velocities == seq(nParticles, i => seq(nIntervals + 1, d => 0.0))
      ensures pbest == particles && pbestScores == seq(nParticles, i => None)
      ensures gbest.None? && gbestScore.None? && history == [] && result.None?
      ensures seenPositions == [] && seenScores == [] && marks == []
    {
      this.data := data;
      this.nParticles := nParticles;
      this.nIterations := nIterations;
      this.nIntervals := nIntervals;
      this.w, this.c1, this.c2 := w, c1, c2;
      var mn, mx := SeqMin(data), SeqMax(data);
      dmin, dmax := mn, mx;
      scoreFn := q => Score(data, mn, mx, q);
      var zr := ZRangeFor(mx - mn);
      zRange := zr;
      assert mn <= data[0] <= mx;
      var ps := seq(nParticles, i requires 0 <= i < nParticles => [z1s[i], z2s[i]] + SortAsc(points[i]));
      var vs := seq(nParticles, i => seq(nIntervals + 1, d => 0.0));
      InitialSwarmOk(z1s, z2s, points, ps, vs, nIntervals + 1, zr, mn, mx);
      InitialScoresOk(q => Score(data, mn, mx, q), nParticles, nIntervals + 1, ps);
      particles, velocities := ps, vs;
      pbest := ps;
      pbestScores := seq(nParticles, i => None);
      gbest, gbestScore := None, None;
      history, result := [], None;
      seenPositions, seenScores, marks := [], [], [];
    }

    /** Score every particle in turn, replacing its personal best and the
        global best only on strict improvement, and log the positions with
        their scores. */
    method Evaluate()
      requires SwarmValid() && BooksValid() && Linked()
      modifies this`pbest, this`pbestScores, this`gbest, this`gbestScore
      modifies this`seenPositions, this`seenScores
      ensures BooksValid()
      ensures Books() == OfferAll(old(Books()), particles, Scores(scoreFn, particles))
      ensures seenPositions == old(seenPositions) + particles
      ensures seenScores == old(seenScores) + Scores(scoreFn, particles)
    {
      var xs := particles;
      SwarmShape(xs, velocities, nParticles, Dim(), zRange, dmin, dmax);
      ScoresOkPass(scoreFn, nParticles, Dim(), Books(), seenPositions, seenScores, history, marks, xs);
      pbest, pbestScores, gbest, gbestScore := ScoreSwarm(data, dmin, dmax, xs, Books(), scoreFn);
      seenPositions := seenPositions + particles;
      seenScores := seenScores + Scores(scoreFn, particles);
    }

    /** Velocity and position update, clipping and re-sorting of the
        breakpoints (model_pso.py:114-124). */
    method Move(r1: seq<seq<real>>, r2: seq<seq<real>>)
      requires SwarmValid() && StateOk(Current()) && gbest.Some?
      requires Draws(r1, nParticles, Dim()) && Draws(r2, nParticles, Dim())
      modifies this`particles, this`velocities
      ensures SwarmValid()
      ensures Current() == Moved(old(Current()), gbest.value, r1, r2)
      ensures forall i :: 0 <= i < nParticles ==>
                velocities[i] == NewVelocity(w, c1, c2, old(velocities)[i], old(particles)[i], pbest[i],
                                             gbest.value, r1[i], r2[i])
      ensures forall i :: 0 <= i < nParticles ==>
                particles[i] == SortTail(ClampRow(Add(old(particles)[i], velocities[i]), zRange, dmin, dmax))
    {
      assert data[0] in data;
      var ps, v := MoveSwarm(particles, velocities, pbest, gbest.value, r1, r2, w, c1, c2,
                             nParticles, Dim(), zRange, dmin, dmax);
      velocities := v;
      particles := ps;
      ghost var m := MoveAll(old(particles), old(velocities), pbest, gbest.value, r1, r2, w, c1, c2,
                             Dim(), zRange, dmin, dmax);
      forall i | 0 <= i < nParticles ensures m.0[i] == ps[i] && m.1[i] == v[i] {
        MoveAllAt(old(particles), old(velocities), pbest, gbest.value, r1, r2, w, c1, c2,
                  Dim(), zRange, dmin, dmax, i);
      }
      assert m.0 == ps && m.1 == v;
    }

    /** Every valid optimizer is in a state of its search. */
    lemma CurrentOk()
      requires Valid()
      ensures StateOk(Current())
    {
      BestsShape();
    }

    /** The global best, once set, has the length of a particle, and so has
        every personal best. */
    lemma BestsShape()
      requires BooksValid()
      ensures |pbest| == nParticles && forall i :: 0 <= i < nParticles ==> |pbest[i]| == Dim()
      ensures gbest.Some? ==> |gbest.value| == Dim()
    {
      if gbest.Some? {
        var k := BestIndex(seenScores).value;
        assert gbest.value == seenPositions[k];
      }
    }

    /** Append the global best score to the history (model_pso.py:110). */
    method Record()
      requires BooksValid()
      modifies this`history, this`marks
      ensures BooksValid()
      ensures history == old(history) + [gbestScore]
      ensures marks == old(marks) + [|seenScores|]
    {
      RecordedAppend(history, marks, seenScores);
      history := history + [gbestScore];
      marks := marks + [|seenScores|];
    }

    /** One iteration (model_pso.py:93-124): evaluate, record the global best
        score, then move the swarm.  Moving needs a global best; without one
        the source fails (it formats and subtracts an unset best), which is
        reported as ok == false with the swarm left unmoved. */
    method Step(r1: seq<seq<real>>, r2: seq<seq<real>>) returns (ok: bool)
      requires Valid() && Linked()
      requires Draws(r1, nParticles, Dim()) && Draws(r2, nParticles, Dim())
      modifies this`particles, this`velocities, this`pbest, this`pbestScores, this`gbest, this`gbestScore
      modifies this`history, this`seenPositions, this`seenScores, this`marks
      ensures Valid()
      ensures Books() == OfferAll(old(Books()), old(particles), Scores(scoreFn, old(particles)))
      ensures seenPositions == old(seenPositions) + old(particles)
      ensures seenScores == old(seenScores) + Scores(scoreFn, old(particles))
      ensures |seenScores| == |old(seenScores)| + nParticles
      ensures history == old(history) + [gbestScore]
      ensures marks == old(marks) + [|seenScores|]
      ensures ok <==> gbest.Some?
      ensures ok ==> forall i :: 0 <= i < nParticles ==>
                       && velocities[i] == NewVelocity(w, c1, c2, old(velocities)[i], old(particles)[i], pbest[i],
                                                       gbest.value, r1[i], r2[i])
                       && particles[i] == SortTail(ClampRow(Add(old(particles)[i], velocities[i]), zRange, dmin, dmax))
      ensures !ok ==> particles == old(particles) && velocities == old(velocities)
      ensures (Current(), ok) == Stepped(old(Current()), r1, r2)
    {
      Evaluate();
      Record();
      BestsShape();
      if gbest.None? {
        return false;
      }
      Move(r1, r2);
      ok := true;
    }

    /** Iteration it of the search (model_pso.py:93-124) after a run of it
        iterations from s0 that all could move: one Step, which extends the
        run by one iteration. */
    method Iteration(r1s: seq<seq<seq<real>>>, r2s: seq<seq<seq<real>>>, it: nat,
                     ghost s0: SwarmState, ghost log0: seq<seq<real>>, ghost base: nat) returns (ok: bool)
      requires Valid() && Linked() && it < |r1s| && it < |r2s|
      requires Draws(r1s[it], nParticles, Dim()) && Draws(r2s[it], nParticles, Dim())
      requires Paced(marks, base, nParticles) && LastMark(marks, base) == |seenScores|
      requires var r := Iterated(StepOf(r1s, r2s), s0, it); Current() == r.0 && seenPositions == log0 + r.1 && r.2
      modifies this`particles, this`velocities, this`pbest, this`pbestScores, this`gbest, this`gbestScore
      modifies this`history, this`seenPositions, this`seenScores, this`marks
      ensures Valid() && |history| == |old(history)| + 1 && (!ok ==> gbest.None?)
      ensures Paced(marks, base, nParticles) && LastMark(marks, base) == |seenScores|
      ensures var r := Iterated(StepOf(r1s, r2s), s0, it + 1); Current() == r.0 && seenPositions == log0 + r.1 && ok == r.2
    {
      ghost var m, log, cur := marks, seenPositions, Current();
      CurrentOk();
      ok := Step(r1s[it], r2s[it]);
      PacedAppend(m, base, nParticles, |seenScores|);
      StepOfStepped(r1s, r2s, it, cur, Current(), ok);
      IteratedAdvance(StepOf(r1s, r2s), s0, it, log0, cur, log, Current(), ok, seenPositions);
    }

    /** The iterations of the search (model_pso.py:92-124): up to nIterations
        steps, stopping at the first that fails for want of a global best. */
    method Iterate(r1s: seq<seq<seq<real>>>, r2s: seq<seq<seq<real>>>) returns (ok: bool)
      requires Valid() && Linked() && history == []
      requires |r1s| == nIterations && |r2s| == nIterations
      requires forall t :: 0 <= t < nIterations ==> Draws(r1s[t], nParticles, Dim()) && Draws(r2s[t], nParticles, Dim())
      modifies this`particles, this`velocities, this`pbest, this`pbestScores, this`gbest, this`gbestScore
      modifies this`history, this`seenPositions, this`seenScores, this`marks
      ensures Valid()
      ensures var r := Iterated(StepOf(r1s, r2s), old(Current()), nIterations);
              Current() == r.0 && seenPositions == old(seenPositions) + r.1 && ok == r.2
      ensures nIterations > 0 ==> old(seenPositions) + old(particles) <= seenPositions
      ensures ok ==> |history| == nIterations
      ensures !ok ==> gbest.None?
      ensures Paced(marks, |old(seenScores)|, nParticles) && LastMark(marks, |old(seenScores)|) == |seenScores|
    {
      ghost var base := |seenScores|;
      ghost var s0, log0 := Current(), seenPositions;
      ok := true;
      var it := 0;
      while it < nIterations && ok
        invariant 0 <= it <= nIterations
        invariant Valid()
        invariant |history| == it && (!ok ==> gbest.None?)
        invariant Paced(marks, base, nParticles) && LastMark(marks, base) == |seenScores|
        invariant var r := Iterated(StepOf(r1s, r2s), s0, it);
                  Current() == r.0 && seenPositions == log0 + r.1 && ok == r.2
      {
        ok := Iteration(r1s, r2s, it, s0, log0, base);
        it := it + 1;
      }
      if it < nIterations {
        IteratedStopped(StepOf(r1s, r2s), s0, it, nIterations);
      }
      if nIterations > 0 {
        IteratedLogGrows(StepOf(r1s, r2s), s0, 0, nIterations);
        PrefixAppend(log0, s0.particles, Iterated(StepOf(r1s, r2s), s0, nIterations).1);
      }
    }

    /** The whole search: nIterations steps, then the forecast of the global
        best.  It fails (ok == false) when no particle ever got a defined
        score, where the source fails on the unset best.  History entry t was
        recorded after the first (t + 1) nParticles evaluations of the run
        (PacedClosedForm), so it is the best of them. */
    method Run(r1s: seq<seq<seq<real>>>, r2s: seq<seq<seq<real>>>) returns (ok: bool)
      requires Valid() && Linked() && history == []
      requires |r1s| == nIterations && |r2s| == nIterations
      requires forall t :: 0 <= t < nIterations ==> Draws(r1s[t], nParticles, Dim()) && Draws(r2s[t], nParticles, Dim())
      modifies this
      ensures Valid()
      ensures ok ==> |history| == nIterations
      ensures ok <==> result.Some?
      ensures ok <==> gbest.Some?
      ensures ok ==> gbestScore.Some?
      ensures Paced(marks, |old(seenScores)|, nParticles) && LastMark(marks, |old(seenScores)|) == |seenScores|
      ensures var r := Iterated(StepOf(r1s, r2s), old(Current()), nIterations);
              Current() == r.0 && seenPositions == old(seenPositions) + r.1 && (ok <==> r.2 && r.0.books.gbest.Some?)
      ensures nIterations > 0 ==> old(seenPositions) + old(particles) <= seenPositions
      ensures ok ==> var g := gbest.value;
                     var b := GenerateIntervals(dmin, dmax, g[0], g[1], g[2..]);
                     result == Some(Forecast(g[0], g[1], b, FtsLee(data, b), data))
    {
      result := None;
      ok := Iterate(r1s, r2s);
      if !ok || gbest.None? {
        return false;
      }
      GlobalBestIsBestSeen();
      Finish();
    }

    /** The end of the search (model_pso.py:126-129): the boundaries and the
        forecast of the global best. */
    method Finish()
      requires Valid() && gbest.Some?
      modifies this`result
      ensures var g := gbest.value;
              var b := GenerateIntervals(dmin, dmax, g[0], g[1], g[2..]);
              result == Some(Forecast(g[0], g[1], b, FtsLee(data, b), data))
    {
      BestsShape();
      var g := gbest.value;
      var intervals := GenerateIntervals(dmin, dmax, g[0], g[1], g[2..]);
      var predictions := RunFtsLee(data, intervals);
      assert data[..|predictions|] == data;
      result := Some(Forecast(g[0], g[1], intervals, predictions, data[..|predictions|]));
    }

    /** The best intervals as rounded (lower, upper) pairs (model_pso.py:138-140). */
    method GetIntervalTuples() returns (t: seq<(real, real)>)
      requires result.Some?
      ensures t == IntervalTuples(result.value.intervals)
    {
      t := IntervalTuples(result.value.intervals);
    }

    /** The recorded best scores never get worse, and the current global best
        is no worse than any of them. */
    lemma HistoryNonIncreasing()
      requires Valid()
      ensures forall j, j' :: 0 <= j < j' < |history| ==> NoWorse(history[j'], history[j])
      ensures forall j :: 0 <= j < |history| ==> NoWorse(gbestScore, history[j])
    {
      forall j, j' | 0 <= j < j' < |history| ensures NoWorse(history[j'], history[j]) {
        var s := seenScores[..marks[j']];
        assert s[..marks[j]] == seenScores[..marks[j]];
        BestScorePrefix(s, marks[j]);
      }
      forall j | 0 <= j < |history| ensures NoWorse(gbestScore, history[j]) {
        BestScorePrefix(seenScores, marks[j]);
      }
    }

    /** Each recorded entry is no worse than every score evaluated before it
        was recorded, and is undefined only if all of those were. */
    lemma HistoryIsRunningMinimum(j: nat)
      requires Valid() && j < |history|
      ensures forall i :: 0 <= i < marks[j] ==> NoWorse(history[j], seenScores[i])
      ensures history[j].None? <==> forall i :: 0 <= i < marks[j] ==> seenScores[i].None?
      ensures history[j].Some? ==> exists i :: 0 <= i < marks[j] && seenScores[i] == history[j]
    {
      var s := seenScores[..marks[j]];
      BestScoreIsMinimum(s);
      assert forall i :: 0 <= i < marks[j] ==> s[i] == seenScores[i];
      if history[j].Some? {
        var k := BestIndex(s).value;
        assert seenScores[k] == history[j];
      }
    }

    /** After a run at a steady pace from base evaluations, history entry t
        is the best score of the first base + (t + 1) nParticles evaluated. */
    lemma HistoryPerIteration(base: nat, t: nat)
      requires BooksValid() && Paced(marks, base, nParticles) && t < |history|
      ensures marks[t] == base + (t + 1) * nParticles && marks[t] <= |seenScores|
      ensures history[t] == BestScore(seenScores[..marks[t]])
    {
      PacedClosedForm(marks, base, nParticles, t);
      assert Recorded(history, marks, seenScores);
    }

    /** The global best is the position with the lowest score evaluated so
        far (the first one on ties), its score is that position's MAPE, and it
        is undefined only while every score seen is undefined. */
    lemma GlobalBestIsBestSeen()
      requires Valid() && Linked()
      ensures gbest.Some? <==> gbestScore.Some?
      ensures gbest.Some? ==> gbestScore == Score(data, dmin, dmax, gbest.value)
      ensures forall k :: 0 <= k < |seenPositions| ==> NoWorse(gbestScore, Score(data, dmin, dmax, seenPositions[k]))
      ensures gbestScore.None? <==> forall k :: 0 <= k < |seenPositions| ==> Score(data, dmin, dmax, seenPositions[k]).None?
    {
      BestScoreIsMinimum(seenScores);
      forall k | 0 <= k < |seenPositions| ensures Score(data, dmin, dmax, seenPositions[k]) == seenScores[k] {
      }
      if gbest.Some? {
        var k := BestIndex(seenScores).value;
        assert gbest.value == seenPositions[k];
        assert seenScores[k] == Score(data, dmin, dmax, seenPositions[k]);
      }
    }

    /** A defined personal best score is the MAPE of the personal best position,
        and the global best score is no worse. */
    lemma PersonalBestScored(i: nat)
      requires Valid() && Linked() && i < nParticles
      ensures pbestScores[i].Some? ==> pbestScores[i] == Score(data, dmin, dmax, pbest[i])
      ensures NoWorse(gbestScore, pbestScores[i])
    {
      if pbestScores[i].Some? {
        assert pbestScores[i] == scoreFn(pbest[i]);
        assert scoreFn(pbest[i]) == Score(data, dmin, dmax, pbest[i]);
      }
    }

    /** Every current particle induces non-decreasing boundaries under which
        every value of the series lies in some interval. */
    lemma ParticlesCoverSeries(i: nat, v: real)
      requires Valid() && i < nParticles && dmin <= v <= dmax
      ensures var p := particles[i];
              var b := GenerateIntervals(dmin, dmax, p[0], p[1], p[2..]);
              Sorted(b) && exists k :: 0 <= k < |b| - 1 && InInterval(b, v, k)
    {
      var p := particles[i];
      GeneratedIntervalsSortedAndCovering(dmin, dmax, p[0], p[1], p[2..], v);
    }
  }
}
