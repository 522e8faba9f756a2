/** Arithmetic shared by both training engines: the decay helper, the C++
    double-to-int conversion, a neuron's squared distance and weighted nudge,
    and the row-major best-matching-unit (BMU) scan.

    Weights are exact reals. `exp` and `ln` are supplied by the caller as
    function values; a lemma that needs a fact about them (exp(0) == 1, exp
    increasing) states it as a precondition. */
module SomMath {

  /** One neuron's weight vector (also the type of one training input). */
  type Weights = seq<real>

  /** The weight vectors of a grid, indexed [row][column]. */
  type Grid = seq<seq<Weights>>

  function Max(a: int, b: int): int { if a < b then b else a }

  function Min(a: int, b: int): int { if a < b then a else b }

  /** Number of times a `for (t = 0; t < n; ++t)` loop runs. */
  function Iterations(n: int): nat { if n > 0 then n else 0 }

  // ---------------------------------------------------------------------------
  // Decay and truncation
  // ---------------------------------------------------------------------------

  /** math::Decay and decayFunction: s0 * exp(-t / lambda), where the integer
      step is negated before it is divided by the real time constant. */
  function Decay(s0: real, t: int, lambda: real, exp: real -> real): real
    requires lambda != 0.0
  {
    s0 * exp((-t) as real / lambda)
  }

  /** At step 0 the decayed value is the starting value. */
  lemma DecayAtStart(s0: real, lambda: real, exp: real -> real)
    requires lambda != 0.0
    requires exp(0.0) == 1.0
    ensures Decay(s0, 0, lambda, exp) == s0
  {
  }

  /** For a positive time constant and an increasing exp, a positive value
      decays strictly as the step grows. */
  lemma DecayDecreasing(s0: real, t1: int, t2: int, lambda: real, exp: real -> real)
    requires lambda > 0.0 && s0 > 0.0 && t1 < t2
    requires forall a: real, b: real :: a < b ==> exp(a) < exp(b)
    ensures Decay(s0, t2, lambda, exp) < Decay(s0, t1, lambda, exp)
  {
    var a1 := (-t1) as real / lambda;
    var a2 := (-t2) as real / lambda;
    assert a2 * lambda < a1 * lambda;
    assert a2 < a1;
    assert exp(a2) < exp(a1);
    assert s0 * exp(a2) < s0 * exp(a1);
  }

  /** The C++ conversion of a double to int: truncation toward zero. */
  function Trunc(x: real): (r: int)
    ensures 0.0 <= x ==> 0 <= r && r as real <= x < r as real + 1.0
    ensures x < 0.0 ==> r <= 0 && r as real - 1.0 < x <= r as real
  {
    if x >= 0.0 then x.Floor else -((-x).Floor)
  }

  /** Truncation toward zero never reverses the order of two values. */
  lemma TruncMonotone(x: real, y: real)
    requires x <= y
    ensures Trunc(x) <= Trunc(y)
  {
  }

  // ---------------------------------------------------------------------------
  // One neuron
  // ---------------------------------------------------------------------------

  /** Neuron::CalcSqrDistance: the sum, over the indices of the input, of the
      squared difference between input and weight, accumulated from index 0 up.
      Weights beyond the input's length are ignored. */
  function SqrDistance(w: Weights, x: Weights): (d: real)
    requires |x| <= |w|
    ensures 0.0 <= d
  {
    if |x| == 0 then 0.0
    else
      var k := |x| - 1;
      SquareNonNegative(x[k] - w[k]);
      SqrDistance(w, x[..k]) + Square(x[k] - w[k])
  }

  /** a * b as one named term; squares are written through it so that the
      solver reasons about them as terms of their own. */
  function Product(a: real, b: real): real { a * b }

  /** diff * diff */
  function Square(e: real): real { Product(e, e) }

  lemma ProductPositive(a: real, b: real)
    requires (a > 0.0 && b > 0.0) || (a < 0.0 && b < 0.0)
    ensures Product(a, b) > 0.0
  {
  }

  lemma SquarePositive(e: real)
    requires e != 0.0
    ensures Square(e) > 0.0
  {
    ProductPositive(e, e);
  }

  lemma SquareNonNegative(e: real)
    ensures Square(e) >= 0.0
  {
    if e != 0.0 {
      SquarePositive(e);
    }
  }

  /** The distance is zero exactly when the first |x| weights equal the input. */
  lemma {:induction false} SqrDistanceZeroIff(w: Weights, x: Weights)
    requires |x| <= |w|
    ensures SqrDistance(w, x) == 0.0 <==> w[..|x|] == x
  {
    if |x| > 0 {
      var k := |x| - 1;
      SqrDistanceZeroIff(w, x[..k]);
      var e := x[k] - w[k];
      assert SqrDistance(w, x) == SqrDistance(w, x[..k]) + Square(e);
      assert w[..|x|] == w[..k] + [w[k]];
      assert x == x[..k] + [x[k]];
      if e != 0.0 {
        SquarePositive(e);
        assert SqrDistance(w, x) > 0.0;
        assert w[..|x|] != x by {
          assert w[k] != x[k];
        }
      }
    }
  }

  /** Neuron::UpdateWeights: every weight at an index of the input moves by
      influence * (input - weight); the rest, and the length, stay. */
  function Nudge(w: Weights, x: Weights, influence: real): Weights
    requires |x| <= |w|
  {
    seq(|w|, i requires 0 <= i < |w| =>
      if i < |x| then w[i] + influence * (x[i] - w[i]) else w[i])
  }

  /** What one nudge does to each weight: the length stays, indices past the
      input are untouched, influence 1 copies the input and influence 0 changes
      nothing. */
  lemma NudgeEffect(w: Weights, x: Weights, influence: real)
    requires |x| <= |w|
    ensures |Nudge(w, x, influence)| == |w|
    ensures forall i :: |x| <= i < |w| ==> Nudge(w, x, influence)[i] == w[i]
    ensures influence == 1.0 ==> Nudge(w, x, influence)[..|x|] == x
    ensures influence == 0.0 ==> Nudge(w, x, influence) == w
  {
  }

  /** The term of index i of the distance of w to x. */
  function Term(w: Weights, x: Weights, i: int): real
    requires 0 <= i < |x| && |x| <= |w|
  {
    Square(x[i] - w[i])
  }

  /** Every term of the distance of v to x is s times the same term for w. */
  predicate ScaledTerms(v: Weights, w: Weights, x: Weights, s: real)
    requires |x| <= |w| && |x| <= |v|
  {
    forall i :: 0 <= i < |x| ==> Term(v, x, i) == s * Term(w, x, i)
  }

  /** When every compared term of one distance is s times the same term of
      another, the whole distance is s times the other. */
  lemma {:induction false} ScaledTermsDistance(v: Weights, w: Weights, x: Weights, s: real)
    requires |x| <= |w| && |x| <= |v|
    requires ScaledTerms(v, w, x, s)
    ensures SqrDistance(v, x) == s * SqrDistance(w, x)
  {
    if |x| > 0 {
      var k := |x| - 1;
      var p := x[..k];
      forall i | 0 <= i < |p|
        ensures Term(v, p, i) == s * Term(w, p, i)
      {
        assert Term(v, p, i) == Term(v, x, i) && Term(w, p, i) == Term(w, x, i);
      }
      ScaledTermsDistance(v, w, p, s);
      SqrDistanceLast(v, x);
      SqrDistanceLast(w, x);
      assert Term(v, x, k) == s * Term(w, x, k);
      ScaledSum(s, SqrDistance(v, p), SqrDistance(w, p), Term(v, x, k), Term(w, x, k),
                SqrDistance(v, x), SqrDistance(w, x));
    }
  }

  /** The last index's term of the distance, split off. */
  lemma SqrDistanceLast(w: Weights, x: Weights)
    requires 0 < |x| <= |w|
    ensures SqrDistance(w, x) == SqrDistance(w, x[..|x| - 1]) + Term(w, x, |x| - 1)
  {
  }

  /** One weight's squared gap to the input after a nudge is
      (1 - influence)^2 times its squared gap before. */
  lemma GapScales(xk: real, wk: real, vk: real, influence: real)
    requires vk == wk + influence * (xk - wk)
    ensures Square(xk - vk) == Square(1.0 - influence) * Square(xk - wk)
  {
    var c, e := 1.0 - influence, xk - wk;
    assert xk - vk == c * e;
    SquareOfProduct(c, e);
  }

  lemma SquareOfProduct(c: real, e: real)
    ensures Square(c * e) == Square(c) * Square(e)
  {
    assert (c * e) * (c * e) == (c * c) * (e * e);
  }

  /** Scaling both summands by s scales their sum by s. */
  lemma ScaledSum(s: real, dv: real, dw: real, sv: real, sw: real, sumV: real, sumW: real)
    requires dv == s * dw && sv == s * sw
    requires sumV == dv + sv && sumW == dw + sw
    ensures sumV == s * sumW
  {
  }

  /** A nudge scales the neuron's distance to the same input by (1 - influence)^2. */
  lemma {:induction false} NudgeScalesDistance(w: Weights, x: Weights, influence: real)
    requires |x| <= |w|
    ensures SqrDistance(Nudge(w, x, influence), x) == Square(1.0 - influence) * SqrDistance(w, x)
  {
    NudgeScalesTerms(w, x, influence);
    ScaledTermsDistance(Nudge(w, x, influence), w, x, Square(1.0 - influence));
  }

  /** Every term of the distance after a nudge is the old term scaled. */
  lemma NudgeScalesTerms(w: Weights, x: Weights, influence: real)
    requires |x| <= |w|
    ensures ScaledTerms(Nudge(w, x, influence), w, x, Square(1.0 - influence))
  {
    forall i | 0 <= i < |x|
      ensures Term(Nudge(w, x, influence), x, i) == Square(1.0 - influence) * Term(w, x, i)
    {
      NudgeTerm(w, x, influence, i);
    }
  }

  /** One term of the distance after a nudge. */
  lemma NudgeTerm(w: Weights, x: Weights, influence: real, i: int)
    requires |x| <= |w| && 0 <= i < |x|
    ensures Term(Nudge(w, x, influence), x, i) == Square(1.0 - influence) * Term(w, x, i)
  {
    GapScales(x[i], w[i], Nudge(w, x, influence)[i], influence);
  }

  /** With an influence strictly between 0 and 1, a neuron that does not
      already match the input moves strictly closer to it. */
  lemma NudgeMovesCloser(w: Weights, x: Weights, influence: real)
    requires |x| <= |w|
    requires 0.0 < influence < 1.0 && SqrDistance(w, x) > 0.0
    ensures SqrDistance(Nudge(w, x, influence), x) < SqrDistance(w, x)
  {
    NudgeScalesDistance(w, x, influence);
    ProductBelowOne(1.0 - influence, 1.0 - influence);
    ScaleBelow(Square(1.0 - influence), SqrDistance(w, x));
  }

  lemma ProductBelowOne(a: real, b: real)
    requires 0.0 < a < 1.0 && 0.0 < b < 1.0
    ensures Product(a, b) < 1.0
  {
    assert a * b < 1.0 * b;
  }

  lemma ScaleBelow(f: real, d: real)
    requires f < 1.0 && d > 0.0
    ensures f * d < d
  {
  }

  // ---------------------------------------------------------------------------
  // The grid and the best matching unit
  // ---------------------------------------------------------------------------

  /** Every row has as many cells as there are rows. */
  predicate IsSquare(G: Grid)
  {
    forall i :: 0 <= i < |G| ==> |G[i]| == |G|
  }

  /** Every cell has exactly d weights. */
  predicate Uniform(G: Grid, d: nat)
  {
    forall i, j :: 0 <= i < |G| && 0 <= j < |G[i]| ==> |G[i][j]| == d
  }

  /** Every cell has at least as many weights as the input has entries, so the
      unchecked indexing in the distance loop stays in bounds. */
  predicate Fits(G: Grid, x: Weights)
  {
    forall i, j :: 0 <= i < |G| && 0 <= j < |G[i]| ==> |x| <= |G[i][j]|
  }

  /** Cell p is on a square grid of side n. */
  predicate OnGrid(n: int, p: (int, int))
  {
    0 <= p.0 < n && 0 <= p.1 < n
  }

  /** Cell p is scanned strictly before cell q in row-major order. */
  predicate Before(p: (int, int), q: (int, int))
  {
    p.0 < q.0 || (p.0 == q.0 && p.1 < q.1)
  }

  /** The squared distance of cell p to the input. */
  function CellDistance(G: Grid, x: Weights, p: (int, int)): real
    requires IsSquare(G) && Fits(G, x) && OnGrid(|G|, p)
  {
    SqrDistance(G[p.0][p.1], x)
  }

  /** b is the best matching unit: no cell is closer, and every cell scanned
      before b is strictly farther (the strict `<` of the scan keeps the first
      minimum). */
  predicate IsBMU(G: Grid, x: Weights, b: (int, int))
    requires IsSquare(G) && Fits(G, x)
  {
    OnGrid(|G|, b) &&
    (forall i, j {:trigger SqrDistance(G[i][j], x)} :: 0 <= i < |G| && 0 <= j < |G| ==>
      CellDistance(G, x, b) <= SqrDistance(G[i][j], x)) &&
    (forall i, j {:trigger SqrDistance(G[i][j], x)} :: 0 <= i < |G| && 0 <= j < |G| && Before((i, j), b) ==>
      CellDistance(G, x, b) < SqrDistance(G[i][j], x))
  }

  /** best is the first minimum among the cells scanned before (i, j). */
  predicate SeenMinimum(G: Grid, x: Weights, i: int, j: int, best: (int, int))
    requires IsSquare(G) && Fits(G, x) && OnGrid(|G|, best)
  {
    (forall k, l :: 0 <= k < |G| && 0 <= l < |G| && Before((k, l), (i, j)) ==>
      CellDistance(G, x, best) <= SqrDistance(G[k][l], x)) &&
    (forall k, l :: 0 <= k < |G| && 0 <= l < |G| && Before((k, l), best) ==>
      CellDistance(G, x, best) < SqrDistance(G[k][l], x))
  }

  /** The row-major scan of FindBMU from cell (i, j) on, with the best cell so
      far; a cell replaces it only when strictly closer. */
  function ScanBMU(G: Grid, x: Weights, i: int, j: int, best: (int, int)): (b: (int, int))
    requires IsSquare(G) && Fits(G, x)
    requires 0 <= i <= |G| && 0 <= j <= |G| && OnGrid(|G|, best)
    ensures OnGrid(|G|, b)
    decreases |G| - i, |G| - j
  {
    if i == |G| then best
    else if j == |G| then ScanBMU(G, x, i + 1, 0, best)
    else
      var next := if SqrDistance(G[i][j], x) < CellDistance(G, x, best) then (i, j) else best;
      ScanBMU(G, x, i, j + 1, next)
  }

  /** One cell of the scan: cell (i, j) replaces best only when strictly
      closer. */
  lemma ScanStep(G: Grid, x: Weights, i: int, j: int, best: (int, int))
    requires IsSquare(G) && Fits(G, x)
    requires 0 <= i < |G| && 0 <= j < |G| && OnGrid(|G|, best)
    ensures ScanBMU(G, x, i, j, best)
         == ScanBMU(G, x, i, j + 1, if SqrDistance(G[i][j], x) < CellDistance(G, x, best) then (i, j) else best)
  {
  }

  /** A scan that resumes at (i, j) holding the first minimum of the cells
      before (i, j), with best not after (i, j), ends at the best matching
      unit. */
  lemma {:induction false} ScanFindsBMU(G: Grid, x: Weights, i: int, j: int, best: (int, int))
    requires IsSquare(G) && Fits(G, x)
    requires 0 <= i <= |G| && 0 <= j <= |G| && OnGrid(|G|, best)
    requires !Before((i, j), best) && SeenMinimum(G, x, i, j, best)
    ensures IsBMU(G, x, ScanBMU(G, x, i, j, best))
    decreases |G| - i, |G| - j
  {
    if i == |G| {
      SeenAllIsBMU(G, x, j, best);
    } else if j == |G| {
      SeenRowEnd(G, x, i, best);
      ScanFindsBMU(G, x, i + 1, 0, best);
    } else {
      var next := if SqrDistance(G[i][j], x) < CellDistance(G, x, best) then (i, j) else best;
      SeenCell(G, x, i, j, best);
      ScanFindsBMU(G, x, i, j + 1, next);
    }
  }

  /** Once every cell is scanned, the first minimum is the best matching unit. */
  lemma SeenAllIsBMU(G: Grid, x: Weights, j: int, best: (int, int))
    requires IsSquare(G) && Fits(G, x) && OnGrid(|G|, best)
    requires SeenMinimum(G, x, |G|, j, best)
    ensures IsBMU(G, x, best)
  {
  }

  /** The end of a row is the start of the next one. */
  lemma SeenRowEnd(G: Grid, x: Weights, i: int, best: (int, int))
    requires IsSquare(G) && Fits(G, x) && OnGrid(|G|, best) && 0 <= i < |G|
    requires SeenMinimum(G, x, i, |G|, best)
    ensures SeenMinimum(G, x, i + 1, 0, best)
  {
  }

  /** Scanning cell (i, j) keeps the first minimum, and it is never after the
      next cell to scan. */
  lemma SeenCell(G: Grid, x: Weights, i: int, j: int, best: (int, int))
    requires IsSquare(G) && Fits(G, x) && OnGrid(|G|, best)
    requires 0 <= i < |G| && 0 <= j < |G|
    requires !Before((i, j), best) && SeenMinimum(G, x, i, j, best)
    ensures var next := if SqrDistance(G[i][j], x) < CellDistance(G, x, best) then (i, j) else best;
      !Before((i, j + 1), next) && SeenMinimum(G, x, i, j + 1, next)
  {
  }

  /** The best matching unit of a non-empty square grid: the scan starts at
      cell (0, 0), which is taken as the minimum so far. */
  function BMU(G: Grid, x: Weights): (b: (int, int))
    requires IsSquare(G) && Fits(G, x) && |G| > 0
    ensures IsBMU(G, x, b)
  {
    ScanFindsBMU(G, x, 0, 0, (0, 0));
    ScanBMU(G, x, 0, 0, (0, 0))
  }

  /** At most one cell is the best matching unit. */
  lemma BMUUnique(G: Grid, x: Weights, a: (int, int), b: (int, int))
    requires IsSquare(G) && Fits(G, x)
    requires IsBMU(G, x, a) && IsBMU(G, x, b)
    ensures a == b
  {
    assert SqrDistance(G[a.0][a.1], x) == CellDistance(G, x, a);
    assert SqrDistance(G[b.0][b.1], x) == CellDistance(G, x, b);
    assert !Before(a, b) && !Before(b, a);
  }

  /** When some cell's compared weights equal the input, the best matching
      unit is at distance 0, and it is the first such cell in row-major order. */
  lemma BMUExactMatch(G: Grid, x: Weights, p: (int, int))
    requires IsSquare(G) && Fits(G, x) && OnGrid(|G|, p)
    requires G[p.0][p.1][..|x|] == x
    requires forall q :: OnGrid(|G|, q) && Before(q, p) ==> G[q.0][q.1][..|x|] != x
    ensures BMU(G, x) == p
  {
    var b := BMU(G, x);
    SqrDistanceZeroIff(G[p.0][p.1], x);
    SqrDistanceZeroIff(G[b.0][b.1], x);
    assert CellDistance(G, x, b) <= CellDistance(G, x, p) == 0.0;
    assert !Before(p, b);
    assert !Before(b, p);
  }
}
