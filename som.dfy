/** The live training engine of SOM.h (namespace som): Neuron, Network and
    CreateRandomData, over math::Decay.

    The process-wide generator is a parameter: draw(k) is its k-th value of the
    uniform real distribution on [0, 1), and picks[t] its t-th value of the
    uniform integer distribution on [0, |data| - 1]. */
module Som {
  import opened SomMath

  // ---------------------------------------------------------------------------
  // The neighbourhood window of Network::UpdateWeights (SOM.h:104-125)
  // ---------------------------------------------------------------------------

  /** First offset of the window along one axis: -radius, raised to -b when
      that would step below index 0. */
  function WindowStart(b: int, radius: int): int
  {
    if b - radius < 0 then -b else -radius
  }

  /** One past the last offset along one axis: radius, lowered to n - b when
      b + radius passes the grid. The test compares a signed sum with the
      unsigned vector size, so a negative sum also counts as passing it. */
  function WindowEnd(b: int, radius: int, n: int): int
  {
    if b + radius < 0 || b + radius > n then n - b else radius
  }

  /** Every offset of the window addresses an index inside the grid, whatever
      the sign of the radius. */
  lemma WindowInBounds(b: int, radius: int, n: int, off: int)
    requires 0 <= b < n
    requires WindowStart(b, radius) <= off < WindowEnd(b, radius, n)
    ensures 0 <= b + off < n
  {
  }

  /** For a non-negative radius the window covers the indices
      [max(b - radius, 0), min(b + radius, n)): b - radius is included and
      b + radius is not. */
  lemma WindowClamped(b: int, radius: int, n: int)
    requires 0 <= b < n && 0 <= radius
    ensures b + WindowStart(b, radius) == Max(b - radius, 0)
    ensures b + WindowEnd(b, radius, n) == Min(b + radius, n)
  {
  }

  /** Offset (ii, jj) from the BMU is visited by the two loops and passes the
      closed filter radiusSqr >= distanceSqr. */
  predicate InNeighbourhood(b: (int, int), radius: int, n: int, ii: int, jj: int)
  {
    WindowStart(b.0, radius) <= ii < WindowEnd(b.0, radius, n) &&
    WindowStart(b.1, radius) <= jj < WindowEnd(b.1, radius, n) &&
    radius * radius >= ii * ii + jj * jj
  }

  lemma MulMonotone(a: int, b: int, c: int, d: int)
    requires 0 <= c <= a && 0 <= d <= b
    ensures c * d <= a * b
  {
  }

  /** A radius of 0 leaves both ranges empty, and a negative radius starts
      both ranges at -radius, where the filter fails: so an updated cell always
      has a positive radius and sigma = 2 * radius^2 is never 0 there. */
  lemma NeighbourRadiusPositive(b: (int, int), radius: int, n: int, ii: int, jj: int)
    requires OnGrid(n, b)
    requires InNeighbourhood(b, radius, n, ii, jj)
    ensures radius > 0
  {
    if radius < 0 {
      MulMonotone(ii, ii, -radius, -radius);
      MulMonotone(jj, jj, -radius, -radius);
      assert false;
    }
  }

  /** sigma = 2 * radiusSqr, computed in int and converted to double. */
  function Sigma(radius: int): real
  {
    (2 * (radius * radius)) as real
  }

  lemma SigmaPositive(radius: int)
    requires radius > 0
    ensures Sigma(radius) > 0.0
  {
  }

  /** The influence on the cell at offset (ii, jj):
      Decay(learningRate, distanceSqr, sigma). */
  function Influence(learningRate: real, ii: int, jj: int, radius: int, exp: real -> real): real
    requires radius != 0
  {
    Decay(learningRate, ii * ii + jj * jj, Sigma(radius), exp)
  }

  /** Cell (i, j) after the update pass around BMU b. */
  function UpdatedCell(G: Grid, x: Weights, b: (int, int), radius: int, learningRate: real,
                       exp: real -> real, i: int, j: int): Weights
    requires IsSquare(G) && Fits(G, x) && OnGrid(|G|, b) && OnGrid(|G|, (i, j))
  {
    var ii, jj := i - b.0, j - b.1;
    if InNeighbourhood(b, radius, |G|, ii, jj) then
      NeighbourRadiusPositive(b, radius, |G|, ii, jj);
      Nudge(G[i][j], x, Influence(learningRate, ii, jj, radius, exp))
    else
      G[i][j]
  }

  /** Every cell of G updated around b. */
  function WindowUpdate(G: Grid, x: Weights, b: (int, int), radius: int, learningRate: real,
                        exp: real -> real): (r: Grid)
    requires IsSquare(G) && Fits(G, x) && OnGrid(|G|, b)
    ensures |r| == |G| && IsSquare(r)
    ensures forall i, j :: 0 <= i < |G| && 0 <= j < |G| ==> |r[i][j]| == |G[i][j]|
  {
    seq(|G|, i requires 0 <= i < |G| =>
      seq(|G|, j requires 0 <= j < |G| => UpdatedCell(G, x, b, radius, learningRate, exp, i, j)))
  }

  /** Network::UpdateWeights as a function of the grid: find the BMU of the
      input, then nudge every cell of the clamped, filtered window around it. */
  function NeighbourhoodUpdate(G: Grid, x: Weights, radius: int, learningRate: real,
                               exp: real -> real): (r: Grid)
    requires IsSquare(G) && Fits(G, x) && |G| > 0
    ensures |r| == |G| && IsSquare(r)
    ensures forall i, j :: 0 <= i < |G| && 0 <= j < |G| ==> |r[i][j]| == |G[i][j]|
  {
    WindowUpdate(G, x, BMU(G, x), radius, learningRate, exp)
  }

  /** Cell (i, j) while the update pass is at offset (ii, jj): updated when
      its offset from b comes before (ii, jj) in the order of the two loops,
      as in G otherwise. */
  ghost function Progress(G: Grid, x: Weights, b: (int, int), radius: int, learningRate: real,
                          exp: real -> real, ii: int, jj: int, i: int, j: int): Weights
    requires IsSquare(G) && Fits(G, x) && OnGrid(|G|, b) && OnGrid(|G|, (i, j))
  {
    if i - b.0 < ii || (i - b.0 == ii && j - b.1 < jj) then UpdatedCell(G, x, b, radius, learningRate, exp, i, j)
    else G[i][j]
  }

  /** Before the first offset of the window nothing has changed. */
  lemma ProgressStart(G: Grid, x: Weights, b: (int, int), radius: int, learningRate: real,
                      exp: real -> real)
    requires IsSquare(G) && Fits(G, x) && OnGrid(|G|, b)
    ensures forall i, j :: 0 <= i < |G| && 0 <= j < |G| ==>
      Progress(G, x, b, radius, learningRate, exp, WindowStart(b.0, radius), WindowStart(b.1, radius), i, j)
        == G[i][j]
  {
  }

  /** Visiting offset (ii, jj) with the distance and sigma the loop computes
      turns grid C of offset (ii, jj) into grid D of offset (ii, jj + 1). */
  lemma ProgressStep(G: Grid, x: Weights, b: (int, int), radius: int, learningRate: real,
                     exp: real -> real, ii: int, jj: int, C: Grid, D: Grid,
                     distanceSqr: int, sigma: real, influence: real)
    requires IsSquare(G) && Fits(G, x) && OnGrid(|G|, b) && OnGrid(|G|, (b.0 + ii, b.1 + jj))
    requires WindowStart(b.0, radius) <= ii < WindowEnd(b.0, radius, |G|)
    requires WindowStart(b.1, radius) <= jj < WindowEnd(b.1, radius, |G|)
    requires |C| == |G| && IsSquare(C)
    requires forall i, j :: 0 <= i < |G| && 0 <= j < |G| ==>
      C[i][j] == Progress(G, x, b, radius, learningRate, exp, ii, jj, i, j)
    requires distanceSqr == ii * ii + jj * jj && sigma == Sigma(radius)
    requires radius * radius >= distanceSqr ==>
      sigma != 0.0 && influence == Decay(learningRate, distanceSqr, sigma, exp) &&
      D == C[b.0 + ii := C[b.0 + ii][b.1 + jj := Nudge(G[b.0 + ii][b.1 + jj], x, influence)]]
    requires radius * radius < distanceSqr ==> D == C
    ensures |D| == |G| && IsSquare(D)
    ensures forall i, j :: 0 <= i < |G| && 0 <= j < |G| ==>
      D[i][j] == Progress(G, x, b, radius, learningRate, exp, ii, jj + 1, i, j)
  {
    if radius * radius >= distanceSqr {
      assert InNeighbourhood(b, radius, |G|, ii, jj);
      NeighbourRadiusPositive(b, radius, |G|, ii, jj);
    }
  }

  /** Past the last offset of a row, the pass moves to the first offset of
      the next row without changing anything. */
  lemma ProgressRow(G: Grid, x: Weights, b: (int, int), radius: int, learningRate: real,
                    exp: real -> real, ii: int, jj: int)
    requires IsSquare(G) && Fits(G, x) && OnGrid(|G|, b)
    requires WindowEnd(b.1, radius, |G|) <= jj
    ensures forall i, j :: 0 <= i < |G| && 0 <= j < |G| ==>
      Progress(G, x, b, radius, learningRate, exp, ii, jj, i, j)
        == Progress(G, x, b, radius, learningRate, exp, ii + 1, WindowStart(b.1, radius), i, j)
  {
  }

  /** Past the last row of the window, every cell holds its update. */
  lemma ProgressEnd(G: Grid, x: Weights, b: (int, int), radius: int, learningRate: real,
                    exp: real -> real, ii: int, C: Grid)
    requires IsSquare(G) && Fits(G, x) && OnGrid(|G|, b)
    requires WindowEnd(b.0, radius, |G|) <= ii
    requires |C| == |G| && IsSquare(C)
    requires forall i, j :: 0 <= i < |G| && 0 <= j < |G| ==>
      C[i][j] == Progress(G, x, b, radius, learningRate, exp, ii, WindowStart(b.1, radius), i, j)
    ensures C == WindowUpdate(G, x, b, radius, learningRate, exp)
  {
    var r := WindowUpdate(G, x, b, radius, learningRate, exp);
    forall i | 0 <= i < |G|
      ensures C[i] == r[i]
    {
      assert forall j :: 0 <= j < |G| ==> C[i][j] == r[i][j];
    }
  }

  /** Only cells of the window [b - radius, b + radius) clamped to the grid, on
      both axes, and within the closed disc of the radius can change. */
  lemma ChangedCellsInWindow(G: Grid, x: Weights, radius: int, learningRate: real,
                             exp: real -> real, i: int, j: int)
    requires IsSquare(G) && Fits(G, x) && |G| > 0 && OnGrid(|G|, (i, j))
    requires NeighbourhoodUpdate(G, x, radius, learningRate, exp)[i][j] != G[i][j]
    ensures 0 < radius
    ensures var b := BMU(G, x);
      Max(b.0 - radius, 0) <= i < Min(b.0 + radius, |G|) &&
      Max(b.1 - radius, 0) <= j < Min(b.1 + radius, |G|) &&
      (i - b.0) * (i - b.0) + (j - b.1) * (j - b.1) <= radius * radius
  {
    var b := BMU(G, x);
    assert NeighbourhoodUpdate(G, x, radius, learningRate, exp)[i][j]
        == UpdatedCell(G, x, b, radius, learningRate, exp, i, j);
    assert InNeighbourhood(b, radius, |G|, i - b.0, j - b.1);
    NeighbourRadiusPositive(b, radius, |G|, i - b.0, j - b.1);
    WindowClamped(b.0, radius, |G|);
    WindowClamped(b.1, radius, |G|);
  }

  /** With radius <= 0 the pass changes nothing, not even the BMU. */
  lemma NonPositiveRadiusKeepsGrid(G: Grid, x: Weights, radius: int, learningRate: real,
                                   exp: real -> real)
    requires IsSquare(G) && Fits(G, x) && |G| > 0 && radius <= 0
    ensures NeighbourhoodUpdate(G, x, radius, learningRate, exp) == G
  {
    var r := NeighbourhoodUpdate(G, x, radius, learningRate, exp);
    forall i | 0 <= i < |G|
      ensures r[i] == G[i]
    {
      forall j | 0 <= j < |G|
        ensures r[i][j] == G[i][j]
      {
        if r[i][j] != G[i][j] {
          ChangedCellsInWindow(G, x, radius, learningRate, exp, i, j);
        }
      }
    }
  }

  /** For a positive radius the BMU itself is updated with influence exactly
      learningRate, since its grid distance is 0 and exp(0) == 1. */
  lemma BMUTakesLearningRate(G: Grid, x: Weights, radius: int, learningRate: real,
                             exp: real -> real)
    requires IsSquare(G) && Fits(G, x) && |G| > 0 && radius > 0
    requires exp(0.0) == 1.0
    ensures var b := BMU(G, x);
      NeighbourhoodUpdate(G, x, radius, learningRate, exp)[b.0][b.1] == Nudge(G[b.0][b.1], x, learningRate)
  {
    var b := BMU(G, x);
    assert InNeighbourhood(b, radius, |G|, 0, 0);
    DecayAtStart(learningRate, Sigma(radius), exp);
  }

  /** A learning rate strictly between 0 and 1 moves a BMU that does not match
      the input strictly closer to it. */
  lemma BMUMovesCloser(G: Grid, x: Weights, radius: int, learningRate: real,
                       exp: real -> real)
    requires IsSquare(G) && Fits(G, x) && |G| > 0 && radius > 0
    requires exp(0.0) == 1.0 && 0.0 < learningRate < 1.0
    requires CellDistance(G, x, BMU(G, x)) > 0.0
    ensures var b := BMU(G, x);
      SqrDistance(NeighbourhoodUpdate(G, x, radius, learningRate, exp)[b.0][b.1], x) < CellDistance(G, x, b)
  {
    var b := BMU(G, x);
    BMUTakesLearningRate(G, x, radius, learningRate, exp);
    NudgeMovesCloser(G[b.0][b.1], x, learningRate);
  }

  // ---------------------------------------------------------------------------
  // The training schedule of ProcessData and ProcessDataRandomly
  // ---------------------------------------------------------------------------

  /** The radius of step t: Decay(startingRadius, t, timeConstant) with
      timeConstant = numberOfIteration / log(startingRadius), truncated to int.
      When the logarithm is 0 the quotient is +infinity in double arithmetic,
      every exponent -t / timeConstant is 0 and the radius stays at
      startingRadius. */
  function StepRadius(startingRadius: int, t: int, numberOfIteration: int,
                      exp: real -> real, ln: real -> real): int
    requires numberOfIteration > 0
  {
    var logRadius := ln(startingRadius as real);
    if logRadius == 0.0 then startingRadius
    else Trunc(Decay(startingRadius as real, t, numberOfIteration as real / logRadius, exp))
  }

  /** The first step uses the starting radius itself. */
  lemma StepRadiusAtStart(startingRadius: int, numberOfIteration: int,
                          exp: real -> real, ln: real -> real)
    requires numberOfIteration > 0 && exp(0.0) == 1.0
    ensures StepRadius(startingRadius, 0, numberOfIteration, exp, ln) == startingRadius
  {
    var logRadius := ln(startingRadius as real);
    if logRadius != 0.0 {
      DecayAtStart(startingRadius as real, numberOfIteration as real / logRadius, exp);
    }
  }

  /** For a starting radius whose logarithm is non-negative and an increasing
      exp, the radius never grows from one step to a later one. */
  lemma StepRadiusNonIncreasing(startingRadius: int, t1: int, t2: int, numberOfIteration: int,
                                exp: real -> real, ln: real -> real)
    requires numberOfIteration > 0 && startingRadius > 0 && t1 < t2
    requires ln(startingRadius as real) >= 0.0
    requires forall a: real, b: real :: a < b ==> exp(a) < exp(b)
    ensures StepRadius(startingRadius, t2, numberOfIteration, exp, ln)
         <= StepRadius(startingRadius, t1, numberOfIteration, exp, ln)
  {
    var logRadius := ln(startingRadius as real);
    if logRadius != 0.0 {
      var timeConstant := numberOfIteration as real / logRadius;
      DecayDecreasing(startingRadius as real, t1, t2, timeConstant, exp);
      TruncMonotone(Decay(startingRadius as real, t2, timeConstant, exp),
                    Decay(startingRadius as real, t1, timeConstant, exp));
    }
  }

  /** The learning rate of step t: Decay(startingLearningRate, t, numberOfIteration). */
  function StepRate(startingLearningRate: real, t: int, numberOfIteration: int, exp: real -> real): real
    requires numberOfIteration > 0
  {
    Decay(startingLearningRate, t, numberOfIteration as real, exp)
  }

  /** A positive learning rate decays strictly from step to step when exp is
      increasing. */
  lemma StepRateDecreasing(startingLearningRate: real, t1: int, t2: int, numberOfIteration: int,
                           exp: real -> real)
    requires numberOfIteration > 0 && startingLearningRate > 0.0 && t1 < t2
    requires forall a: real, b: real :: a < b ==> exp(a) < exp(b)
    ensures StepRate(startingLearningRate, t2, numberOfIteration, exp)
          < StepRate(startingLearningRate, t1, numberOfIteration, exp)
  {
    DecayDecreasing(startingLearningRate, t1, t2, numberOfIteration as real, exp);
  }

  /** The grid after steps t, t + 1, ... of a run that feeds inputs[s] at
      step s; a run of numberOfIteration steps has Iterations(numberOfIteration)
      inputs. */
  function Train(G: Grid, d: nat, inputs: seq<Weights>, t: nat, numberOfIteration: int,
                 startingRadius: int, startingLearningRate: real,
                 exp: real -> real, ln: real -> real): (r: Grid)
    requires IsSquare(G) && Uniform(G, d)
    requires t <= |inputs| <= Iterations(numberOfIteration)
    requires t < |inputs| ==> |G| > 0
    requires forall s :: 0 <= s < |inputs| ==> |inputs[s]| <= d
    ensures |r| == |G| && IsSquare(r) && Uniform(r, d)
    decreases |inputs| - t
  {
    if t == |inputs| then G
    else
      var next := NeighbourhoodUpdate(G, inputs[t],
                    StepRadius(startingRadius, t, numberOfIteration, exp, ln),
                    StepRate(startingLearningRate, t, numberOfIteration, exp), exp);
      Train(next, d, inputs, t + 1, numberOfIteration, startingRadius, startingLearningRate, exp, ln)
  }

  /** One step of a run: the update of step t, then the rest of the run. */
  lemma TrainUnfold(G: Grid, d: nat, inputs: seq<Weights>, t: nat, numberOfIteration: int,
                    startingRadius: int, startingLearningRate: real,
                    exp: real -> real, ln: real -> real)
    requires IsSquare(G) && Uniform(G, d) && |G| > 0
    requires t < |inputs| <= Iterations(numberOfIteration)
    requires forall s :: 0 <= s < |inputs| ==> |inputs[s]| <= d
    ensures var next := NeighbourhoodUpdate(G, inputs[t],
                          StepRadius(startingRadius, t, numberOfIteration, exp, ln),
                          StepRate(startingLearningRate, t, numberOfIteration, exp), exp);
      Uniform(next, d) &&
      Train(G, d, inputs, t, numberOfIteration, startingRadius, startingLearningRate, exp, ln)
        == Train(next, d, inputs, t + 1, numberOfIteration, startingRadius, startingLearningRate, exp, ln)
  {
  }

  /** A run from grid start over inputs has reached grid C after its first
      t steps: what is left of the run from C ends where the whole run does. */
  ghost predicate RunReaches(start: Grid, C: Grid, d: nat, inputs: seq<Weights>, t: nat,
                             numberOfIteration: int, startingRadius: int, startingLearningRate: real,
                             exp: real -> real, ln: real -> real)
  {
    IsSquare(start) && Uniform(start, d) && IsSquare(C) && Uniform(C, d) &&
    t <= |inputs| <= Iterations(numberOfIteration) &&
    (forall s :: 0 <= s < |inputs| ==> |inputs[s]| <= d) &&
    (0 < |inputs| ==> 0 < |start|) && |C| == |start| &&
    Train(C, d, inputs, t, numberOfIteration, startingRadius, startingLearningRate, exp, ln)
      == Train(start, d, inputs, 0, numberOfIteration, startingRadius, startingLearningRate, exp, ln)
  }

  /** A run that has taken no step is where it started. */
  lemma RunReachesStart(G: Grid, d: nat, inputs: seq<Weights>, numberOfIteration: int,
                        startingRadius: int, startingLearningRate: real,
                        exp: real -> real, ln: real -> real)
    requires IsSquare(G) && Uniform(G, d) && |inputs| <= Iterations(numberOfIteration)
    requires forall s :: 0 <= s < |inputs| ==> |inputs[s]| <= d
    requires 0 < |inputs| ==> 0 < |G|
    ensures RunReaches(G, G, d, inputs, 0, numberOfIteration, startingRadius,
                       startingLearningRate, exp, ln)
  {
  }

  /** A run that has taken every step has produced the grid of the whole
      run. */
  lemma RunReachesEnd(start: Grid, C: Grid, d: nat, inputs: seq<Weights>, t: nat,
                      numberOfIteration: int, startingRadius: int, startingLearningRate: real,
                      exp: real -> real, ln: real -> real)
    requires RunReaches(start, C, d, inputs, t, numberOfIteration, startingRadius,
                        startingLearningRate, exp, ln)
    requires t == |inputs|
    ensures C == Train(start, d, inputs, 0, numberOfIteration, startingRadius,
                       startingLearningRate, exp, ln)
  {
  }

  /** The update of step t takes the run one step further. */
  lemma RunReachesStep(start: Grid, C: Grid, next: Grid, d: nat, inputs: seq<Weights>, t: nat,
                       numberOfIteration: int, startingRadius: int, startingLearningRate: real,
                       exp: real -> real, ln: real -> real)
    requires RunReaches(start, C, d, inputs, t, numberOfIteration, startingRadius,
                        startingLearningRate, exp, ln)
    requires t < |inputs|
    requires next == NeighbourhoodUpdate(C, inputs[t],
                       StepRadius(startingRadius, t, numberOfIteration, exp, ln),
                       StepRate(startingLearningRate, t, numberOfIteration, exp), exp)
    ensures RunReaches(start, next, d, inputs, t + 1, numberOfIteration, startingRadius,
                       startingLearningRate, exp, ln)
  {
    TrainUnfold(C, d, inputs, t, numberOfIteration, startingRadius, startingLearningRate, exp, ln);
  }

  /** The inputs of ProcessData: data[t % |data|] at step t. */
  function SequentialInputs(data: seq<Weights>, numberOfIteration: int): seq<Weights>
    requires numberOfIteration > 0 ==> |data| > 0
  {
    seq(Iterations(numberOfIteration), t requires 0 <= t < Iterations(numberOfIteration) =>
      data[t % |data|])
  }

  /** The inputs of ProcessDataRandomly: data[picks[t]] at step t, picks[t]
      being the t-th draw of randomizer(0, |data| - 1). */
  function RandomInputs(data: seq<Weights>, picks: seq<int>, numberOfIteration: int): seq<Weights>
    requires |picks| >= Iterations(numberOfIteration)
    requires forall t :: 0 <= t < Iterations(numberOfIteration) ==> 0 <= picks[t] < |data|
  {
    seq(Iterations(numberOfIteration), t requires 0 <= t < Iterations(numberOfIteration) =>
      data[picks[t]])
  }

  /** A run with no iterations leaves the grid exactly as it was. */
  lemma NoIterationsKeepGrid(G: Grid, d: nat, inputs: seq<Weights>, numberOfIteration: int,
                             startingRadius: int, startingLearningRate: real,
                             exp: real -> real, ln: real -> real)
    requires IsSquare(G) && Uniform(G, d) && numberOfIteration <= 0
    requires |inputs| <= Iterations(numberOfIteration)
    ensures Train(G, d, inputs, 0, numberOfIteration, startingRadius, startingLearningRate, exp, ln) == G
  {
  }

  /** Sequential selection is random selection whose t-th draw is t % |data|. */
  lemma SequentialIsModuloPicks(data: seq<Weights>, numberOfIteration: int)
    requires |data| > 0
    ensures var picks := seq(Iterations(numberOfIteration), t => t % |data|);
      SequentialInputs(data, numberOfIteration) == RandomInputs(data, picks, numberOfIteration)
  {
  }

  /** A run whose every step has a non-positive radius leaves the grid as it
      was: every step's window is empty. */
  lemma {:induction false} NoRadiusKeepsGrid(G: Grid, d: nat, inputs: seq<Weights>, t: nat,
                                             numberOfIteration: int, startingRadius: int,
                                             startingLearningRate: real,
                                             exp: real -> real, ln: real -> real)
    requires IsSquare(G) && Uniform(G, d)
    requires t <= |inputs| <= Iterations(numberOfIteration)
    requires t < |inputs| ==> |G| > 0
    requires forall s :: 0 <= s < |inputs| ==> |inputs[s]| <= d
    requires forall s :: t <= s < |inputs| ==>
      StepRadius(startingRadius, s, numberOfIteration, exp, ln) <= 0
    ensures Train(G, d, inputs, t, numberOfIteration, startingRadius, startingLearningRate, exp, ln) == G
    decreases |inputs| - t
  {
    if t < |inputs| {
      NonPositiveRadiusKeepsGrid(G, inputs[t], StepRadius(startingRadius, t, numberOfIteration, exp, ln),
        StepRate(startingLearningRate, t, numberOfIteration, exp), exp);
      NoRadiusKeepsGrid(G, d, inputs, t + 1, numberOfIteration, startingRadius, startingLearningRate, exp, ln);
    }
  }

  // ---------------------------------------------------------------------------
  // som::Neuron
  // ---------------------------------------------------------------------------

  /** A weight vector updated in place. Neuron::GetWeights is read access to
      the field `weights`. */
  class Neuron {
    var weights: Weights

    constructor (w: Weights)
      ensures weights == w
    {
      weights := w;
    }

    /** Neuron::UpdateWeights: w[i] += influence * (x[i] - w[i]) for every
        index of the input. There is no bounds check, so the input may not be
        longer than the weight vector. */
    method UpdateWeights(input: Weights, influence: real)
      requires |input| <= |weights|
      modifies this
      ensures weights == Nudge(old(weights), input, influence)
    {
      var ii := 0;
      while ii < |input|
        invariant 0 <= ii <= |input|
        invariant |weights| == |old(weights)|
        invariant forall k :: 0 <= k < |weights| ==>
          weights[k] == if k < ii then old(weights)[k] + influence * (input[k] - old(weights)[k])
                        else old(weights)[k]
      {
        weights := weights[ii := weights[ii] + influence * (input[ii] - weights[ii])];
        ii := ii + 1;
      }
      assert forall k :: 0 <= k < |weights| ==> weights[k] == Nudge(old(weights), input, influence)[k];
    }

    /** Neuron::CalcSqrDistance: the running sum of diff * diff. */
    method CalcSqrDistance(input: Weights) returns (sum: real)
      requires |input| <= |weights|
      ensures sum == SqrDistance(weights, input)
    {
      sum := 0.0;
      var ii := 0;
      while ii < |input|
        invariant 0 <= ii <= |input|
        invariant sum == SqrDistance(weights, input[..ii])
      {
        var diff := input[ii] - weights[ii];
        assert input[..ii + 1][..ii] == input[..ii];
        sum := sum + Square(diff);
        ii := ii + 1;
      }
      assert input[..ii] == input;
    }
  }

  // ---------------------------------------------------------------------------
  // som::Network
  // ---------------------------------------------------------------------------

  /** The square grid m_Neurons of neurons. The rows never change after
      construction; the neurons in them are updated in place. */
  class Network {
    const neurons: seq<seq<Neuron>>
    /** The weights of every cell, [row][column]. */
    ghost var Contents: Grid
    /** The common length of every weight vector. */
    ghost const Dim: nat
    /** The coordinates of every neuron; it makes the neurons pairwise distinct. */
    ghost const Position: map<Neuron, (int, int)>

    ghost predicate Valid()
      reads this, Position.Keys
    {
      (forall i :: 0 <= i < |neurons| ==> |neurons[i]| == |neurons|) &&
      |Contents| == |neurons| &&
      (forall i :: 0 <= i < |neurons| ==> |Contents[i]| == |neurons|) &&
      (forall i, j :: 0 <= i < |neurons| && 0 <= j < |neurons| ==>
        neurons[i][j] in Position && Position[neurons[i][j]] == (i, j) &&
        neurons[i][j].weights == Contents[i][j] && |Contents[i][j]| == Dim)
    }

    lemma ContentsShape()
      requires Valid()
      ensures IsSquare(Contents) && Uniform(Contents, Dim)
    {
    }

    /** Network::CreateRandomNetwork: size rows of size neurons, each with
        weightsNumber weights; draw(k) is the k-th value of the generator, and
        the values are drawn in row, column, weight order. */
    constructor CreateRandomNetwork(size: nat, weightsNumber: nat := 3, draw: int -> real)
      requires forall k :: 0.0 <= draw(k) < 1.0
      ensures Valid() && |neurons| == size && Dim == weightsNumber
      ensures fresh(Position.Keys)
      ensures forall i, j, k :: 0 <= i < size && 0 <= j < size && 0 <= k < weightsNumber ==>
        Contents[i][j][k] == draw((i * size + j) * weightsNumber + k)
      ensures forall i, j, k :: 0 <= i < size && 0 <= j < size && 0 <= k < weightsNumber ==>
        0.0 <= Contents[i][j][k] < 1.0
    {
      var rows: seq<seq<Neuron>> := [];
      ghost var grid: Grid := [];
      ghost var position: map<Neuron, (int, int)> := map[];
      var ii := 0;
      while ii < size
        invariant 0 <= ii <= size && fresh(position.Keys)
        invariant |rows| == ii && |grid| == ii
        invariant forall i :: 0 <= i < ii ==> |rows[i]| == size && |grid[i]| == size
        invariant forall i, j :: 0 <= i < ii && 0 <= j < size ==>
          rows[i][j] in position && position[rows[i][j]] == (i, j) &&
          rows[i][j].weights == grid[i][j] && |grid[i][j]| == weightsNumber
        invariant forall i, j, k :: 0 <= i < ii && 0 <= j < size && 0 <= k < weightsNumber ==>
          grid[i][j][k] == draw((i * size + j) * weightsNumber + k)
      {
        var row: seq<Neuron> := [];
        ghost var gridRow: seq<Weights> := [];
        var jj := 0;
        while jj < size
          invariant 0 <= jj <= size && fresh(position.Keys)
          invariant |row| == jj && |gridRow| == jj
          invariant forall i, j :: 0 <= i < ii && 0 <= j < size ==>
            rows[i][j] in position && position[rows[i][j]] == (i, j) &&
            rows[i][j].weights == grid[i][j]
          invariant forall j :: 0 <= j < jj ==>
            row[j] in position && position[row[j]] == (ii, j) &&
            row[j].weights == gridRow[j] && |gridRow[j]| == weightsNumber
          invariant forall j, k :: 0 <= j < jj && 0 <= k < weightsNumber ==>
            gridRow[j][k] == draw((ii * size + j) * weightsNumber + k)
        {
          var weights: Weights := [];
          var kk := 0;
          while kk < weightsNumber
            invariant 0 <= kk <= weightsNumber && |weights| == kk
            invariant forall k :: 0 <= k < kk ==> weights[k] == draw((ii * size + jj) * weightsNumber + k)
          {
            weights := weights + [draw((ii * size + jj) * weightsNumber + kk)];
            kk := kk + 1;
          }
          var neuron := new Neuron(weights);
          row := row + [neuron];
          gridRow := gridRow + [weights];
          position := position[neuron := (ii, jj)];
          jj := jj + 1;
        }
        rows := rows + [row];
        grid := grid + [gridRow];
        ii := ii + 1;
      }
      neurons := rows;
      Contents := grid;
      Dim := weightsNumber;
      Position := position;
    }

    /** Network::GetNeuron: the neuron at (x, y); there is no bounds check. */
    function GetNeuron(x: int, y: int): (n: Neuron)
      reads this, Position.Keys
      requires Valid() && OnGrid(|neurons|, (x, y))
      ensures n in Position.Keys && n.weights == Contents[x][y]
    {
      neurons[x][y]
    }

    /** Network::FindBMU: the row-major scan with a strict `<`. The minimum
        starts at numeric_limits<double>::max(), which the first cell always
        beats (`unset`). The point is left uninitialised when there are no
        neurons, so the grid may not be empty. */
    method FindBMU(input: Weights) returns (bmu: (int, int))
      requires Valid() && |neurons| > 0 && |input| <= Dim
      ensures bmu == BMU(Contents, input)
      ensures IsBMU(Contents, input, bmu)
    {
      ContentsShape();
      ghost var G := Contents;
      var n := |neurons|;
      var unset := true;
      var minDistance := 0.0;
      bmu := (0, 0);
      var ii := 0;
      while ii < n
        invariant 0 <= ii <= n && OnGrid(n, bmu)
        invariant unset ==> ii == 0 && bmu == (0, 0)
        invariant !unset ==> minDistance == CellDistance(G, input, bmu)
        invariant ScanBMU(G, input, ii, 0, bmu) == ScanBMU(G, input, 0, 0, (0, 0))
      {
        bmu, minDistance, unset := ScanRow(input, ii, bmu, minDistance, unset);
        ii := ii + 1;
      }
      assert bmu == ScanBMU(G, input, n, 0, bmu);
    }

    /** The inner loop of FindBMU over row ii: a cell becomes the minimum
        when it is the first one scanned or strictly closer than the minimum
        so far. */
    method ScanRow(input: Weights, ii: int, bmu: (int, int), minDistance: real, unset: bool)
      returns (bmu': (int, int), minDistance': real, unset': bool)
      requires Valid() && |input| <= Dim && 0 <= ii < |neurons| && OnGrid(|neurons|, bmu)
      requires unset ==> ii == 0 && bmu == (0, 0)
      requires !unset ==> minDistance == CellDistance(Contents, input, bmu)
      ensures OnGrid(|neurons|, bmu') && !unset'
      ensures minDistance' == CellDistance(Contents, input, bmu')
      ensures ScanBMU(Contents, input, ii + 1, 0, bmu') == ScanBMU(Contents, input, ii, 0, bmu)
    {
      ContentsShape();
      ghost var G := Contents;
      var n := |neurons|;
      bmu', minDistance', unset' := bmu, minDistance, unset;
      var jj := 0;
      while jj < |neurons[ii]|
        invariant 0 <= jj <= n && OnGrid(n, bmu')
        invariant unset' ==> ii == 0 && jj == 0 && bmu' == (0, 0)
        invariant !unset' ==> minDistance' == CellDistance(G, input, bmu')
        invariant ScanBMU(G, input, ii, jj, bmu') == ScanBMU(G, input, ii, 0, bmu)
      {
        ScanStep(G, input, ii, jj, bmu');
        var distance := neurons[ii][jj].CalcSqrDistance(input);
        if unset' || distance < minDistance' {
          unset' := false;
          minDistance' := distance;
          bmu' := (ii, jj);
        }
        jj := jj + 1;
      }
    }

    /** One neuron's update inside Network::UpdateWeights; every other neuron
        keeps its weights. */
    method NudgeNeuron(i: int, j: int, input: Weights, influence: real)
      requires Valid() && OnGrid(|neurons|, (i, j)) && |input| <= Dim
      modifies this, neurons[i][j]
      ensures Valid()
      ensures Contents == old(Contents)[i := old(Contents)[i][j := Nudge(old(Contents)[i][j], input, influence)]]
    {
      var neuron := neurons[i][j];
      neuron.UpdateWeights(input, influence);
      Contents := Contents[i := Contents[i][j := neuron.weights]];
    }

    /** Network::UpdateWeights: the BMU is found again from the input, then
        the neighbourhood around it is updated. */
    method UpdateWeights(input: Weights, radius: int, learningRate: real, exp: real -> real)
      requires Valid() && |neurons| > 0 && |input| <= Dim
      modifies this, Position.Keys
      ensures Valid()
      ensures Contents == NeighbourhoodUpdate(old(Contents), input, radius, learningRate, exp)
    {
      var bmu := FindBMU(input);
      UpdateAround(bmu, input, radius, learningRate, exp);
    }

    /** The two loops of Network::UpdateWeights: every cell of the clamped
        window around bmu whose offset passes the closed filter
        radiusSqr >= ii*ii + jj*jj is nudged with
        Decay(learningRate, distanceSqr, sigma). */
    method UpdateAround(bmu: (int, int), input: Weights, radius: int, learningRate: real,
                        exp: real -> real)
      requires Valid() && OnGrid(|neurons|, bmu) && |input| <= Dim
      modifies this, Position.Keys
      ensures Valid()
      ensures Contents == WindowUpdate(old(Contents), input, bmu, radius, learningRate, exp)
    {
      ContentsShape();
      var radiusSqr := radius * radius;
      var sigma := (2 * radiusSqr) as real;
      assert sigma == Sigma(radius);
      ghost var before := Contents;
      var n := |neurons|;
      var xStart, xEnd := WindowStart(bmu.0, radius), WindowEnd(bmu.0, radius, n);
      var yStart, yEnd := WindowStart(bmu.1, radius), WindowEnd(bmu.1, radius, n);
      ProgressStart(before, input, bmu, radius, learningRate, exp);
      var ii := xStart;
      while ii < xEnd
        invariant Valid() && xStart <= ii
        invariant forall i, j :: 0 <= i < n && 0 <= j < n ==>
          Contents[i][j] == Progress(before, input, bmu, radius, learningRate, exp, ii, yStart, i, j)
      {
        UpdateRow(before, bmu, input, radius, radiusSqr, sigma, learningRate, exp, ii);
        ii := ii + 1;
      }
      ProgressEnd(before, input, bmu, radius, learningRate, exp, ii, Contents);
    }

    /** One row of the window of UpdateWeights: the offsets (ii, jj) for every
        jj of the window, each cell within the radius nudged by its
        influence. */
    method UpdateRow(ghost before: Grid, bmu: (int, int), input: Weights, radius: int,
                     radiusSqr: int, sigma: real, learningRate: real, exp: real -> real, ii: int)
      requires Valid() && OnGrid(|neurons|, bmu) && |input| <= Dim
      requires radiusSqr == radius * radius && sigma == Sigma(radius)
      requires IsSquare(before) && |before| == |neurons| && Fits(before, input)
      requires WindowStart(bmu.0, radius) <= ii < WindowEnd(bmu.0, radius, |neurons|)
      requires forall i, j :: 0 <= i < |neurons| && 0 <= j < |neurons| ==>
        Contents[i][j] == Progress(before, input, bmu, radius, learningRate, exp, ii,
                                   WindowStart(bmu.1, radius), i, j)
      modifies this, Position.Keys
      ensures Valid()
      ensures forall i, j :: 0 <= i < |neurons| && 0 <= j < |neurons| ==>
        Contents[i][j] == Progress(before, input, bmu, radius, learningRate, exp, ii + 1,
                                   WindowStart(bmu.1, radius), i, j)
    {
      ContentsShape();
      var n := |neurons|;
      var yStart, yEnd := WindowStart(bmu.1, radius), WindowEnd(bmu.1, radius, n);
      WindowInBounds(bmu.0, radius, n, ii);
      var jj := yStart;
      while jj < yEnd
        invariant Valid() && yStart <= jj
        invariant forall i, j :: 0 <= i < n && 0 <= j < n ==>
          Contents[i][j] == Progress(before, input, bmu, radius, learningRate, exp, ii, jj, i, j)
      {
        WindowInBounds(bmu.1, radius, n, jj);
        ghost var visited := Contents;
        var distanceSqr := ii * ii + jj * jj;
        if radiusSqr >= distanceSqr {
          assert InNeighbourhood(bmu, radius, n, ii, jj);
          NeighbourRadiusPositive(bmu, radius, n, ii, jj);
          SigmaPositive(radius);
          var influence := Decay(learningRate, distanceSqr, sigma, exp);
          NudgeNeuron(bmu.0 + ii, bmu.1 + jj, input, influence);
          ProgressStep(before, input, bmu, radius, learningRate, exp, ii, jj, visited, Contents,
                       distanceSqr, sigma, influence);
        } else {
          ProgressStep(before, input, bmu, radius, learningRate, exp, ii, jj, visited, Contents,
                       distanceSqr, sigma, 0.0);
        }
        jj := jj + 1;
      }
      ProgressRow(before, input, bmu, radius, learningRate, exp, ii, jj);
    }

    /** The body of the loops of ProcessData and ProcessDataRandomly: the
        radius and learning rate of step t, then one update with the input of
        step t, which takes the run one step further. */
    method TrainingStep(input: Weights, ghost start: Grid, ghost inputs: seq<Weights>, t: nat,
                        numberOfIteration: int, startingRadius: int, startingLearningRate: real,
                        logRadius: real, timeConstant: real, exp: real -> real, ln: real -> real)
      requires Valid() && t < |inputs| && input == inputs[t]
      requires RunReaches(start, Contents, Dim, inputs, t, numberOfIteration, startingRadius,
                          startingLearningRate, exp, ln)
      requires logRadius == ln(startingRadius as real)
      requires logRadius != 0.0 ==> timeConstant == numberOfIteration as real / logRadius
      modifies this, Position.Keys
      ensures Valid()
      ensures RunReaches(start, Contents, Dim, inputs, t + 1, numberOfIteration, startingRadius,
                         startingLearningRate, exp, ln)
    {
      ghost var before := Contents;
      var radius := if logRadius == 0.0 then startingRadius
                    else Trunc(Decay(startingRadius as real, t, timeConstant, exp));
      var learningRate := Decay(startingLearningRate, t, numberOfIteration as real, exp);
      UpdateWeights(input, radius, learningRate, exp);
      RunReachesStep(start, before, Contents, Dim, inputs, t, numberOfIteration, startingRadius,
                     startingLearningRate, exp, ln);
    }

    /** Network::ProcessData: numberOfIteration steps; step t feeds
        data[t % |data|] with the decayed radius and learning rate. */
    method ProcessData(data: seq<Weights>, numberOfIteration: int, startingRadius: int,
                       startingLearningRate: real, exp: real -> real, ln: real -> real)
      requires Valid()
      requires numberOfIteration > 0 ==> |data| > 0 && |neurons| > 0
      requires forall t :: 0 <= t < numberOfIteration ==> |data[t % |data|]| <= Dim
      modifies this, Position.Keys
      ensures Valid()
      ensures Contents == Train(old(Contents), Dim, SequentialInputs(data, numberOfIteration), 0,
                                numberOfIteration, startingRadius, startingLearningRate, exp, ln)
    {
      ContentsShape();
      ghost var inputs := SequentialInputs(data, numberOfIteration);
      ghost var start := Contents;
      var logRadius := ln(startingRadius as real);
      // a zero logarithm makes the time constant +infinity: see StepRadius
      var timeConstant := if logRadius != 0.0 then numberOfIteration as real / logRadius else 0.0;
      RunReachesStart(start, Dim, inputs, numberOfIteration, startingRadius, startingLearningRate,
                      exp, ln);
      var timeIter := 0;
      while timeIter < numberOfIteration
        invariant Valid()
        invariant 0 <= timeIter <= Iterations(numberOfIteration)
        invariant RunReaches(start, Contents, Dim, inputs, timeIter, numberOfIteration,
                             startingRadius, startingLearningRate, exp, ln)
      {
        TrainingStep(data[timeIter % |data|], start, inputs, timeIter, numberOfIteration, startingRadius,
                     startingLearningRate, logRadius, timeConstant, exp, ln);
        timeIter := timeIter + 1;
      }
      RunReachesEnd(start, Contents, Dim, inputs, timeIter, numberOfIteration, startingRadius,
                    startingLearningRate, exp, ln);
      ContentsShape();
    }

    /** Network::ProcessDataRandomly: as ProcessData, but step t feeds
        data[picks[t]]. The distribution over [0, |data| - 1] is built before
        the loop, so data may not be empty even for zero iterations. */
    method ProcessDataRandomly(data: seq<Weights>, numberOfIteration: int, startingRadius: int,
                               startingLearningRate: real, picks: seq<int>,
                               exp: real -> real, ln: real -> real)
      requires Valid() && |data| > 0
      requires numberOfIteration > 0 ==> |neurons| > 0
      requires |picks| >= Iterations(numberOfIteration)
      requires forall t :: 0 <= t < Iterations(numberOfIteration) ==>
        0 <= picks[t] < |data| && |data[picks[t]]| <= Dim
      modifies this, Position.Keys
      ensures Valid()
      ensures Contents == Train(old(Contents), Dim, RandomInputs(data, picks, numberOfIteration), 0,
                                numberOfIteration, startingRadius, startingLearningRate, exp, ln)
    {
      ContentsShape();
      ghost var inputs := RandomInputs(data, picks, numberOfIteration);
      ghost var start := Contents;
      var logRadius := ln(startingRadius as real);
      // a zero logarithm makes the time constant +infinity: see StepRadius
      var timeConstant := if logRadius != 0.0 then numberOfIteration as real / logRadius else 0.0;
      RunReachesStart(start, Dim, inputs, numberOfIteration, startingRadius, startingLearningRate,
                      exp, ln);
      var timeIter := 0;
      while timeIter < numberOfIteration
        invariant Valid()
        invariant 0 <= timeIter <= Iterations(numberOfIteration)
        invariant RunReaches(start, Contents, Dim, inputs, timeIter, numberOfIteration,
                             startingRadius, startingLearningRate, exp, ln)
      {
        TrainingStep(data[picks[timeIter]], start, inputs, timeIter, numberOfIteration, startingRadius,
                     startingLearningRate, logRadius, timeConstant, exp, ln);
        timeIter := timeIter + 1;
      }
      RunReachesEnd(start, Contents, Dim, inputs, timeIter, numberOfIteration, startingRadius,
                    startingLearningRate, exp, ln);
      ContentsShape();
    }
  }

  /** som::CreateRandomData: size input vectors of weightsNumber values each;
      draw(k) is the k-th value of the generator, drawn vector by vector. */
  method CreateRandomData(size: nat, weightsNumber: nat := 3, draw: int -> real) returns (data: seq<Weights>)
    requires forall k :: 0.0 <= draw(k) < 1.0
    ensures |data| == size
    ensures forall i :: 0 <= i < size ==> |data[i]| == weightsNumber
    ensures forall i, k :: 0 <= i < size && 0 <= k < weightsNumber ==>
      data[i][k] == draw(i * weightsNumber + k)
    ensures forall i, k :: 0 <= i < size && 0 <= k < weightsNumber ==> 0.0 <= data[i][k] < 1.0
  {
    data := [];
    var ii := 0;
    while ii < size
      invariant 0 <= ii <= size && |data| == ii
      invariant forall i :: 0 <= i < ii ==> |data[i]| == weightsNumber
      invariant forall i, k :: 0 <= i < ii && 0 <= k < weightsNumber ==>
        data[i][k] == draw(i * weightsNumber + k)
    {
      var input: Weights := [];
      var kk := 0;
      while kk < weightsNumber
        invariant 0 <= kk <= weightsNumber && |input| == kk
        invariant forall k :: 0 <= k < kk ==> input[k] == draw(ii * weightsNumber + k)
      {
        input := input + [draw(ii * weightsNumber + kk)];
        kk := kk + 1;
      }
      data := data + [input];
      ii := ii + 1;
    }
  }
}
