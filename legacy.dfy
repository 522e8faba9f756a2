/** The older training engine of Neuron.h: struct Neuron and class Network
    with FindBMU and Update.

    Neuron.h's struct Neuron is the same code as som::Neuron and is modelled
    by Som.Neuron. Network's members m_StartLearningRate and m_StartingRadius
    are never given a value by the source; here they are fixed when the
    network is built. As in Som, picks[t] is the t-th draw of the uniform
    integer distribution on [0, |data| - 1]. */
module SomLegacy {
  import opened SomMath
  import Som

  // ---------------------------------------------------------------------------
  // One step of Network::Update (Neuron.h:79-107)
  // ---------------------------------------------------------------------------

  /** Network::FindBMU on any grid: the first minimum of the row-major scan,
      and the default PointI (0, 0) when the matrix is empty. */
  function LegacyBMU(G: Grid, x: Weights): (b: (int, int))
    requires IsSquare(G) && Fits(G, x)
    ensures |G| > 0 ==> IsBMU(G, x, b)
    ensures |G| == 0 ==> b == (0, 0)
  {
    if |G| == 0 then (0, 0) else BMU(G, x)
  }

  /** The radius of step t as Update computes it: the starting LEARNING RATE
      decayed with the radius's time constant numOfIterations /
      log(m_StartingRadius), truncated to int. A zero logarithm makes the
      time constant +infinity, so the exponent is 0 at every step. */
  function LegacyRadius(startLearningRate: real, startingRadius: int, t: int, numOfIterations: int,
                        exp: real -> real, ln: real -> real): int
    requires numOfIterations > 0
  {
    var logRadius := ln(startingRadius as real);
    if logRadius == 0.0 then Trunc(startLearningRate)
    else Trunc(Decay(startLearningRate, t, numOfIterations as real / logRadius, exp))
  }

  /** The influence on a selected cell at squared index distance d:
      learningRate * exp(-d / sigma) with sigma = 2 * learningRate^2. A zero
      learning rate makes sigma 0; for the positive d of a selected cell,
      -d / 0 is -infinity and the influence is 0 * exp(-infinity) = 0. */
  function LegacyInfluence(learningRate: real, d: int, exp: real -> real): real
  {
    var sigma := 2.0 * learningRate * learningRate;
    if sigma == 0.0 then 0.0 else Decay(learningRate, d, sigma, exp)
  }

  /** Cell (i, j) is visited by the two loops around b and passes the filter
      distanceSqr > radiusSqr: both indices run over
      [max(b.0 - radius, 0), min(b.0 + radius, size)), and the distance is
      that of the indices themselves, not of their offsets from b. */
  predicate LegacySelected(b: (int, int), radius: int, n: int, i: int, j: int)
  {
    Max(b.0 - radius, 0) <= i < Min(b.0 + radius, n) &&
    Max(b.0 - radius, 0) <= j < Min(b.0 + radius, n) &&
    i * i + j * j > radius * radius
  }

  /** Cell (i, j) after the update pass around b. */
  function LegacyCell(G: Grid, x: Weights, b: (int, int), radius: int, learningRate: real,
                      exp: real -> real, i: int, j: int): Weights
    requires IsSquare(G) && Fits(G, x) && OnGrid(|G|, (i, j))
  {
    if LegacySelected(b, radius, |G|, i, j) then
      Nudge(G[i][j], x, LegacyInfluence(learningRate, i * i + j * j, exp))
    else
      G[i][j]
  }

  /** Every cell of G after the update pass around b. */
  function LegacyWindowUpdate(G: Grid, x: Weights, b: (int, int), radius: int, learningRate: real,
                              exp: real -> real): (r: Grid)
    requires IsSquare(G) && Fits(G, x)
    ensures |r| == |G| && IsSquare(r)
    ensures forall i, j :: 0 <= i < |G| && 0 <= j < |G| ==> |r[i][j]| == |G[i][j]|
  {
    seq(|G|, i requires 0 <= i < |G| =>
      seq(|G|, j requires 0 <= j < |G| => LegacyCell(G, x, b, radius, learningRate, exp, i, j)))
  }

  /** One training step of Update for a given input, radius and learning
      rate: find the BMU, then update the cells it selects. */
  function LegacyStep(G: Grid, x: Weights, radius: int, learningRate: real,
                      exp: real -> real): (r: Grid)
    requires IsSquare(G) && Fits(G, x)
    ensures |r| == |G| && IsSquare(r)
    ensures forall i, j :: 0 <= i < |G| && 0 <= j < |G| ==> |r[i][j]| == |G[i][j]|
  {
    LegacyWindowUpdate(G, x, LegacyBMU(G, x), radius, learningRate, exp)
  }

  /** The grid after steps t, t + 1, ... of Update: the run stops for good at
      the first step whose radius is below 1. The learning rate of step t is
      Decay(startLearningRate, t, numOfIterations), as in Som. */
  function LegacyRun(G: Grid, d: nat, inputs: seq<Weights>, t: nat, numOfIterations: int,
                     startLearningRate: real, startingRadius: int,
                     exp: real -> real, ln: real -> real): (r: Grid)
    requires IsSquare(G) && Uniform(G, d)
    requires t <= |inputs| <= Iterations(numOfIterations)
    requires forall s :: 0 <= s < |inputs| ==> |inputs[s]| <= d
    ensures |r| == |G| && IsSquare(r) && Uniform(r, d)
    decreases |inputs| - t
  {
    if t == |inputs| then G
    else
      var radius := LegacyRadius(startLearningRate, startingRadius, t, numOfIterations, exp, ln);
      if radius < 1 then G
      else
        var next := LegacyStep(G, inputs[t], radius,
                               Som.StepRate(startLearningRate, t, numOfIterations, exp), exp);
        LegacyRun(next, d, inputs, t + 1, numOfIterations, startLearningRate, startingRadius, exp, ln)
  }

  /** A run from grid start over inputs has reached grid C after its first
      t steps without stopping: what is left of the run from C ends where the
      whole run does. */
  ghost predicate LegacyRunReaches(start: Grid, C: Grid, d: nat, inputs: seq<Weights>, t: nat,
                                   numOfIterations: int, startLearningRate: real, startingRadius: int,
                                   exp: real -> real, ln: real -> real)
  {
    IsSquare(start) && Uniform(start, d) && IsSquare(C) && Uniform(C, d) &&
    t <= |inputs| <= Iterations(numOfIterations) &&
    (forall s :: 0 <= s < |inputs| ==> |inputs[s]| <= d) &&
    LegacyRun(C, d, inputs, t, numOfIterations, startLearningRate, startingRadius, exp, ln)
      == LegacyRun(start, d, inputs, 0, numOfIterations, startLearningRate, startingRadius, exp, ln)
  }

  /** A step whose radius is at least 1 takes the run one step further. */
  lemma LegacyRunReachesStep(start: Grid, C: Grid, next: Grid, d: nat, inputs: seq<Weights>, t: nat,
                             numOfIterations: int, startLearningRate: real, startingRadius: int,
                             exp: real -> real, ln: real -> real)
    requires LegacyRunReaches(start, C, d, inputs, t, numOfIterations, startLearningRate,
                              startingRadius, exp, ln)
    requires t < |inputs|
    requires LegacyRadius(startLearningRate, startingRadius, t, numOfIterations, exp, ln) >= 1
    requires next == LegacyStep(C, inputs[t],
                       LegacyRadius(startLearningRate, startingRadius, t, numOfIterations, exp, ln),
                       Som.StepRate(startLearningRate, t, numOfIterations, exp), exp)
    ensures LegacyRunReaches(start, next, d, inputs, t + 1, numOfIterations, startLearningRate,
                             startingRadius, exp, ln)
  {
  }

  /** A step whose radius is below 1 ends the run where it is. */
  lemma LegacyRunStops(start: Grid, C: Grid, d: nat, inputs: seq<Weights>, t: nat,
                       numOfIterations: int, startLearningRate: real, startingRadius: int,
                       exp: real -> real, ln: real -> real)
    requires LegacyRunReaches(start, C, d, inputs, t, numOfIterations, startLearningRate,
                              startingRadius, exp, ln)
    requires t < |inputs|
    requires LegacyRadius(startLearningRate, startingRadius, t, numOfIterations, exp, ln) < 1
    ensures C == LegacyRun(start, d, inputs, 0, numOfIterations, startLearningRate, startingRadius, exp, ln)
  {
  }

  // ---------------------------------------------------------------------------
  // What the step does
  // ---------------------------------------------------------------------------

  /** The first radius is the truncated starting learning rate, whatever the
      starting radius is. */
  lemma RadiusFromLearningRate(startLearningRate: real, startingRadius: int, numOfIterations: int,
                               exp: real -> real, ln: real -> real)
    requires numOfIterations > 0 && exp(0.0) == 1.0
    ensures LegacyRadius(startLearningRate, startingRadius, 0, numOfIterations, exp, ln)
         == Trunc(startLearningRate)
  {
    var logRadius := ln(startingRadius as real);
    if logRadius != 0.0 {
      DecayAtStart(startLearningRate, numOfIterations as real / logRadius, exp);
    }
  }

  /** A starting learning rate below 1 makes the first radius 0, so Update
      returns before it changes any neuron, whatever the starting radius. */
  lemma SmallRateKeepsGrid(G: Grid, d: nat, inputs: seq<Weights>, numOfIterations: int,
                           startLearningRate: real, startingRadius: int,
                           exp: real -> real, ln: real -> real)
    requires IsSquare(G) && Uniform(G, d)
    requires |inputs| <= Iterations(numOfIterations)
    requires forall s :: 0 <= s < |inputs| ==> |inputs[s]| <= d
    requires exp(0.0) == 1.0 && startLearningRate < 1.0
    ensures LegacyRun(G, d, inputs, 0, numOfIterations, startLearningRate, startingRadius, exp, ln) == G
  {
    if 0 < |inputs| {
      RadiusFromLearningRate(startLearningRate, startingRadius, numOfIterations, exp, ln);
    }
  }

  /** A cell that the step changes has both indices in the window built from
      the BMU's row index alone, lies strictly outside the disc of the radius
      around cell (0, 0), and the radius and the learning rate are both
      non-zero. */
  lemma LegacyChangedCells(G: Grid, x: Weights, radius: int, learningRate: real,
                           exp: real -> real, i: int, j: int)
    requires IsSquare(G) && Fits(G, x) && OnGrid(|G|, (i, j))
    requires LegacyStep(G, x, radius, learningRate, exp)[i][j] != G[i][j]
    ensures 0 < radius && learningRate != 0.0
    ensures var b := LegacyBMU(G, x);
      Max(b.0 - radius, 0) <= i < Min(b.0 + radius, |G|) &&
      Max(b.0 - radius, 0) <= j < Min(b.0 + radius, |G|) &&
      i * i + j * j > radius * radius
  {
    var b := LegacyBMU(G, x);
    assert LegacyStep(G, x, radius, learningRate, exp)[i][j]
        == LegacyCell(G, x, b, radius, learningRate, exp, i, j);
    assert LegacySelected(b, radius, |G|, i, j);
    if learningRate == 0.0 {
      NudgeEffect(G[i][j], x, 0.0);
      assert false;
    }
  }

  /** A BMU inside the disc of the radius around cell (0, 0) is never
      updated: the filter skips it. */
  lemma LegacyNearBMUUntouched(G: Grid, x: Weights, radius: int, learningRate: real,
                               exp: real -> real)
    requires IsSquare(G) && Fits(G, x) && |G| > 0
    requires var b := BMU(G, x); b.0 * b.0 + b.1 * b.1 <= radius * radius
    ensures var b := BMU(G, x);
      LegacyStep(G, x, radius, learningRate, exp)[b.0][b.1] == G[b.0][b.1]
  {
    var b := BMU(G, x);
    assert LegacyStep(G, x, radius, learningRate, exp)[b.0][b.1]
        == LegacyCell(G, x, b, radius, learningRate, exp, b.0, b.1);
  }

  /** With the BMU at cell (0, 0) and radius 1 the window is that one cell,
      and the strict filter skips it: the step changes nothing at all. */
  lemma LegacyCornerBMUChangesNothing(G: Grid, x: Weights, learningRate: real, exp: real -> real)
    requires IsSquare(G) && Fits(G, x) && LegacyBMU(G, x) == (0, 0)
    ensures LegacyStep(G, x, 1, learningRate, exp) == G
  {
    var r := LegacyStep(G, x, 1, learningRate, exp);
    forall i | 0 <= i < |G|
      ensures r[i] == G[i]
    {
      forall j | 0 <= j < |G|
        ensures r[i][j] == G[i][j]
      {
        assert r[i][j] == LegacyCell(G, x, (0, 0), 1, learningRate, exp, i, j);
        assert !LegacySelected((0, 0), 1, |G|, i, j);
      }
    }
  }

  // ---------------------------------------------------------------------------
  // The update pass, step by step
  // ---------------------------------------------------------------------------

  /** Cell (i, j) while the pass is at cell (ii, jj): updated when it comes
      before (ii, jj) in the order of the two loops, as in G otherwise. */
  ghost function LegacyProgress(G: Grid, x: Weights, b: (int, int), radius: int, learningRate: real,
                                exp: real -> real, ii: int, jj: int, i: int, j: int): Weights
    requires IsSquare(G) && Fits(G, x) && OnGrid(|G|, (i, j))
  {
    if i < ii || (i == ii && j < jj) then LegacyCell(G, x, b, radius, learningRate, exp, i, j)
    else G[i][j]
  }

  /** Before the first cell of the window nothing has changed. */
  lemma LegacyProgressStart(G: Grid, x: Weights, b: (int, int), radius: int, learningRate: real,
                            exp: real -> real)
    requires IsSquare(G) && Fits(G, x)
    ensures var lo := Max(b.0 - radius, 0);
      forall i, j :: 0 <= i < |G| && 0 <= j < |G| ==>
        LegacyProgress(G, x, b, radius, learningRate, exp, lo, lo, i, j) == G[i][j]
  {
  }

  /** Visiting cell (ii, jj) with the distance and influence the loop
      computes turns grid C of cell (ii, jj) into grid D of cell (ii, jj + 1). */
  lemma LegacyProgressStep(G: Grid, x: Weights, b: (int, int), radius: int, learningRate: real,
                           exp: real -> real, ii: int, jj: int, C: Grid, D: Grid,
                           distanceSqr: int, influence: real)
    requires IsSquare(G) && Fits(G, x)
    requires Max(b.0 - radius, 0) <= ii < Min(b.0 + radius, |G|)
    requires Max(b.0 - radius, 0) <= jj < Min(b.0 + radius, |G|)
    requires |C| == |G| && IsSquare(C)
    requires forall i, j :: 0 <= i < |G| && 0 <= j < |G| ==>
      C[i][j] == LegacyProgress(G, x, b, radius, learningRate, exp, ii, jj, i, j)
    requires distanceSqr == ii * ii + jj * jj
    requires distanceSqr > radius * radius ==>
      influence == LegacyInfluence(learningRate, distanceSqr, exp) &&
      D == C[ii := C[ii][jj := Nudge(G[ii][jj], x, influence)]]
    requires distanceSqr <= radius * radius ==> D == C
    ensures |D| == |G| && IsSquare(D)
    ensures forall i, j :: 0 <= i < |G| && 0 <= j < |G| ==>
      D[i][j] == LegacyProgress(G, x, b, radius, learningRate, exp, ii, jj + 1, i, j)
  {
  }

  /** Past the end of a row the pass moves to the start of the next row
      without changing anything. */
  lemma LegacyProgressRow(G: Grid, x: Weights, b: (int, int), radius: int, learningRate: real,
                          exp: real -> real, ii: int, jj: int)
    requires IsSquare(G) && Fits(G, x)
    requires Min(b.0 + radius, |G|) <= jj
    ensures forall i, j :: 0 <= i < |G| && 0 <= j < |G| ==>
      LegacyProgress(G, x, b, radius, learningRate, exp, ii, jj, i, j)
        == LegacyProgress(G, x, b, radius, learningRate, exp, ii + 1, Max(b.0 - radius, 0), i, j)
  {
  }

  /** Past the last row of the window, every cell holds its update. */
  lemma LegacyProgressEnd(G: Grid, x: Weights, b: (int, int), radius: int, learningRate: real,
                          exp: real -> real, ii: int, C: Grid)
    requires IsSquare(G) && Fits(G, x)
    requires Min(b.0 + radius, |G|) <= ii
    requires |C| == |G| && IsSquare(C)
    requires forall i, j :: 0 <= i < |G| && 0 <= j < |G| ==>
      C[i][j] == LegacyProgress(G, x, b, radius, learningRate, exp, ii, Max(b.0 - radius, 0), i, j)
    ensures C == LegacyWindowUpdate(G, x, b, radius, learningRate, exp)
  {
    var r := LegacyWindowUpdate(G, x, b, radius, learningRate, exp);
    forall i | 0 <= i < |G|
      ensures C[i] == r[i]
    {
      assert forall j :: 0 <= j < |G| ==> C[i][j] == r[i][j];
    }
  }

  // ---------------------------------------------------------------------------
  // Network
  // ---------------------------------------------------------------------------

  /** The square matrix m_NeuronMatrix of neurons with the two training
      constants. The rows never change after construction; the neurons in
      them are updated in place. */
  class Network {
    const neuronMatrix: seq<seq<Som.Neuron>>
    /** m_StartLearningRate. */
    const startLearningRate: real
    /** m_StartingRadius. */
    const startingRadius: int
    /** The weights of every cell, [row][column]. */
    ghost var Contents: Grid
    /** The common length of every weight vector. */
    ghost const Dim: nat
    /** The coordinates of every neuron; it makes the neurons pairwise distinct. */
    ghost const Position: map<Som.Neuron, (int, int)>

    ghost predicate Valid()
      reads this, Position.Keys
    {
      (forall i :: 0 <= i < |neuronMatrix| ==> |neuronMatrix[i]| == |neuronMatrix|) &&
      |Contents| == |neuronMatrix| &&
      (forall i :: 0 <= i < |neuronMatrix| ==> |Contents[i]| == |neuronMatrix|) &&
      (forall i, j :: 0 <= i < |neuronMatrix| && 0 <= j < |neuronMatrix| ==>
        neuronMatrix[i][j] in Position && Position[neuronMatrix[i][j]] == (i, j) &&
        neuronMatrix[i][j].weights == Contents[i][j] && |Contents[i][j]| == Dim)
    }

    lemma ContentsShape()
      requires Valid()
      ensures IsSquare(Contents) && Uniform(Contents, Dim)
    {
    }

    /** A network holding the square grid of weights G, one new neuron per
        cell, with the given training constants. */
    constructor (G: Grid, d: nat, startLearningRate: real, startingRadius: int)
      requires IsSquare(G) && Uniform(G, d)
      ensures Valid() && Contents == G && Dim == d && fresh(Position.Keys)
      ensures this.startLearningRate == startLearningRate && this.startingRadius == startingRadius
    {
      var n := |G|;
      var rows: seq<seq<Som.Neuron>> := [];
      ghost var position: map<Som.Neuron, (int, int)> := map[];
      var ii := 0;
      while ii < n
        invariant 0 <= ii <= n && |rows| == ii && fresh(position.Keys)
        invariant forall i :: 0 <= i < ii ==> |rows[i]| == n
        invariant forall i, j :: 0 <= i < ii && 0 <= j < n ==>
          rows[i][j] in position && position[rows[i][j]] == (i, j) && rows[i][j].weights == G[i][j]
      {
        var row: seq<Som.Neuron> := [];
        var jj := 0;
        while jj < n
          invariant 0 <= jj <= n && |row| == jj && fresh(position.Keys)
          invariant forall i, j :: 0 <= i < ii && 0 <= j < n ==>
            rows[i][j] in position && position[rows[i][j]] == (i, j) && rows[i][j].weights == G[i][j]
          invariant forall j :: 0 <= j < jj ==>
            row[j] in position && position[row[j]] == (ii, j) && row[j].weights == G[ii][j]
        {
          var neuron := new Som.Neuron(G[ii][jj]);
          row := row + [neuron];
          position := position[neuron := (ii, jj)];
          jj := jj + 1;
        }
        rows := rows + [row];
        ii := ii + 1;
      }
      neuronMatrix := rows;
      this.startLearningRate := startLearningRate;
      this.startingRadius := startingRadius;
      Contents := G;
      Dim := d;
      Position := position;
    }

    /** Network::FindBMU: the row-major scan with a strict `<`, starting from
        numeric_limits<double>::max() (`unset`) and the default point (0, 0). */
    method FindBMU(input: Weights) returns (bmu: (int, int))
      requires Valid() && |input| <= Dim
      ensures bmu == LegacyBMU(Contents, input)
      ensures |Contents| > 0 ==> IsBMU(Contents, input, bmu)
    {
      ContentsShape();
      ghost var G := Contents;
      var n := |neuronMatrix|;
      var unset := true;
      var minDistance := 0.0;
      bmu := (0, 0);
      var ii := 0;
      while ii < n
        invariant 0 <= ii <= n && OnGrid(n, bmu)
        invariant unset ==> ii == 0 && bmu == (0, 0)
        invariant !unset ==> minDistance == CellDistance(G, input, bmu)
        invariant ScanBMU(G, input, ii, 0, bmu) == ScanBMU(G, input, 0, 0, (0, 0))
      {
        bmu, minDistance, unset := ScanRow(input, ii, bmu, minDistance, unset);
        ii := ii + 1;
      }
      assert bmu == ScanBMU(G, input, n, 0, bmu);
    }

    /** The inner loop of FindBMU over row ii: a cell becomes the minimum
        when it is the first one scanned or strictly closer than the minimum
        so far. */
    method ScanRow(input: Weights, ii: int, bmu: (int, int), minDistance: real, unset: bool)
      returns (bmu': (int, int), minDistance': real, unset': bool)
      requires Valid() && |input| <= Dim && 0 <= ii < |neuronMatrix| && OnGrid(|neuronMatrix|, bmu)
      requires unset ==> ii == 0 && bmu == (0, 0)
      requires !unset ==> minDistance == CellDistance(Contents, input, bmu)
      ensures OnGrid(|neuronMatrix|, bmu') && !unset'
      ensures minDistance' == CellDistance(Contents, input, bmu')
      ensures ScanBMU(Contents, input, ii + 1, 0, bmu') == ScanBMU(Contents, input, ii, 0, bmu)
    {
      ContentsShape();
      ghost var G := Contents;
      var n := |neuronMatrix|;
      bmu', minDistance', unset' := bmu, minDistance, unset;
      var jj := 0;
      while jj < |neuronMatrix[ii]|
        invariant 0 <= jj <= n && OnGrid(n, bmu')
        invariant unset' ==> ii == 0 && jj == 0 && bmu' == (0, 0)
        invariant !unset' ==> minDistance' == CellDistance(G, input, bmu')
        invariant ScanBMU(G, input, ii, jj, bmu') == ScanBMU(G, input, ii, 0, bmu)
      {
        ScanStep(G, input, ii, jj, bmu');
        var distance := neuronMatrix[ii][jj].CalcSqrDistance(input);
        if unset' || distance < minDistance' {
          unset' := false;
          minDistance' := distance;
          bmu' := (ii, jj);
        }
        jj := jj + 1;
      }
    }

    /** One neuron's update inside Update; every other neuron keeps its
        weights. */
    method NudgeNeuron(i: int, j: int, input: Weights, influence: real)
      requires Valid() && OnGrid(|neuronMatrix|, (i, j)) && |input| <= Dim
      modifies this, neuronMatrix[i][j]
      ensures Valid()
      ensures Contents == old(Contents)[i := old(Contents)[i][j := Nudge(old(Contents)[i][j], input, influence)]]
    {
      var neuron := neuronMatrix[i][j];
      neuron.UpdateWeights(input, influence);
      Contents := Contents[i := Contents[i][j := neuron.weights]];
    }

    /** The body of one iteration of Update once the radius is known: find
        the BMU of the input, then run the two loops around it. */
    method Step(input: Weights, radius: int, learningRate: real, exp: real -> real)
      requires Valid() && |input| <= Dim
      modifies this, Position.Keys
      ensures Valid()
      ensures Contents == LegacyStep(old(Contents), input, radius, learningRate, exp)
    {
      var bmu := FindBMU(input);
      UpdateWindow(bmu, input, radius, learningRate, exp);
    }

    /** The two loops of Update: both indices run over
        [max(bmu.x - radius, 0), min(bmu.x + radius, size)), and a cell is
        nudged when ii*ii + jj*jj > radiusSqr. */
    method UpdateWindow(bmu: (int, int), input: Weights, radius: int, learningRate: real,
                        exp: real -> real)
      requires Valid() && |input| <= Dim
      modifies this, Position.Keys
      ensures Valid()
      ensures Contents == LegacyWindowUpdate(old(Contents), input, bmu, radius, learningRate, exp)
    {
      ContentsShape();
      ghost var before := Contents;
      var n := |neuronMatrix|;
      var radiusSqr := radius * radius;
      var startPos := Max(bmu.0 - radius, 0);
      var endPos := Min(bmu.0 + radius, n);
      var sigma := 2.0 * learningRate * learningRate;
      LegacyProgressStart(before, input, bmu, radius, learningRate, exp);
      var ii := startPos;
      while ii < endPos
        invariant Valid() && startPos <= ii
        invariant forall i, j :: 0 <= i < n && 0 <= j < n ==>
          Contents[i][j] == LegacyProgress(before, input, bmu, radius, learningRate, exp, ii, startPos, i, j)
      {
        var iiSqr := ii * ii;
        var jj := startPos;
        while jj < endPos
          invariant Valid() && startPos <= jj
          invariant forall i, j :: 0 <= i < n && 0 <= j < n ==>
            Contents[i][j] == LegacyProgress(before, input, bmu, radius, learningRate, exp, ii, jj, i, j)
        {
          ghost var visited := Contents;
          var distanceSqr := iiSqr + jj * jj;
          if distanceSqr > radiusSqr {
            // with sigma == 0, -distanceSqr / sigma is -infinity and the influence 0
            var influence := if sigma != 0.0 then Decay(learningRate, distanceSqr, sigma, exp) else 0.0;
            NudgeNeuron(ii, jj, input, influence);
            LegacyProgressStep(before, input, bmu, radius, learningRate, exp, ii, jj, visited, Contents,
                               distanceSqr, influence);
          } else {
            LegacyProgressStep(before, input, bmu, radius, learningRate, exp, ii, jj, visited, Contents,
                               distanceSqr, 0.0);
          }
          jj := jj + 1;
        }
        LegacyProgressRow(before, input, bmu, radius, learningRate, exp, ii, jj);
        ii := ii + 1;
      }
      LegacyProgressEnd(before, input, bmu, radius, learningRate, exp, ii, Contents);
    }

    /** Network::Update: at most numOfIterations steps; step t stops the
        whole run when its radius is below 1, and otherwise feeds
        data[picks[t]]. The distribution over [0, |data| - 1] is built before
        the loop, so data may not be empty. */
    method Update(data: seq<Weights>, numOfIterations: int, picks: seq<int>,
                  exp: real -> real, ln: real -> real)
      requires Valid() && |data| > 0
      requires |picks| >= Iterations(numOfIterations)
      requires forall t :: 0 <= t < Iterations(numOfIterations) ==>
        0 <= picks[t] < |data| && |data[picks[t]]| <= Dim
      modifies this, Position.Keys
      ensures Valid()
      ensures Contents == LegacyRun(old(Contents), Dim, Som.RandomInputs(data, picks, numOfIterations), 0,
                                    numOfIterations, startLearningRate, startingRadius, exp, ln)
    {
      ContentsShape();
      ghost var inputs := Som.RandomInputs(data, picks, numOfIterations);
      ghost var start := Contents;
      var logRadius := ln(startingRadius as real);
      // a zero logarithm makes the time constant +infinity: see LegacyRadius
      var timeConstant := if logRadius != 0.0 then numOfIterations as real / logRadius else 0.0;
      var timeIter := 0;
      while timeIter < numOfIterations
        invariant Valid()
        invariant 0 <= timeIter <= Iterations(numOfIterations)
        invariant LegacyRunReaches(start, Contents, Dim, inputs, timeIter, numOfIterations,
                                   startLearningRate, startingRadius, exp, ln)
      {
        ContentsShape();
        ghost var before := Contents;
        var radius := if logRadius == 0.0 then Trunc(startLearningRate)
                      else Trunc(Decay(startLearningRate, timeIter, timeConstant, exp));
        if radius < 1 {
          LegacyRunStops(start, before, Dim, inputs, timeIter, numOfIterations, startLearningRate,
                         startingRadius, exp, ln);
          return;
        }
        var input := data[picks[timeIter]];
        var learningRate := Decay(startLearningRate, timeIter, numOfIterations as real, exp);
        Step(input, radius, learningRate, exp);
        LegacyRunReachesStep(start, before, Contents, Dim, inputs, timeIter, numOfIterations,
                             startLearningRate, startingRadius, exp, ln);
        timeIter := timeIter + 1;
      }
      ContentsShape();
    }
  }
}
