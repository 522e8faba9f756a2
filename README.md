# Self-Organizing Map training engine

A Dafny model of the SOM training core of this repository, with proofs. The
core is a square grid of neurons, each holding a weight vector. Training
repeats four steps:

1. Pick an input.
2. Find the best matching unit (BMU): the first neuron, in row-major order,
   whose weights are nearest to the input.
3. Nudge the neurons in a window around the BMU toward the input.
4. Decay the radius and the learning rate over the iterations.

There are two variants of the engine.

- `SOM.h` is the live variant, modelled by module `Som`. It has
  `som::Neuron` and `som::Network` with random construction, `FindBMU`,
  `UpdateWeights` and the training loops `ProcessData` and
  `ProcessDataRandomly`. It also has `CreateRandomData`.
- `Neuron.h` is an older variant, modelled by module `SomLegacy`. It has a
  `Network` with `FindBMU` and an `Update` loop that stops early.
  - Its `struct Neuron` is the same code as `som::Neuron`, so it is modelled
    by `Som.Neuron`.
  - Its `decayFunction` is the same expression as `math::Decay`, so it is
    modelled by `SomMath.Decay`.

Module `SomMath` holds what both variants share:

- the decay `s0 * exp(-t / lambda)`;
- the double-to-int cast, which truncates toward zero;
- a neuron's squared distance to an input, and its nudge toward it;
- the row-major BMU scan.

## How the model is built

Weights are exact reals. `exp` and `ln` are function parameters, and the
model assumes no general fact about them. A lemma that needs a fact about
them states it as a precondition:

- `exp(0) == 1` for the lemmas about the first step, and for
  `Som.BMUTakesLearningRate` and `Som.BMUMovesCloser`, because the BMU is
  at grid distance 0 from itself;
- `exp` increasing for the lemmas that say a value decays
  (`SomMath.DecayDecreasing`, `Som.StepRateDecreasing`,
  `Som.StepRadiusNonIncreasing`);
- `ln(startingRadius) >= 0` as well, for `Som.StepRadiusNonIncreasing`.

One value is fixed without calling `exp`. When `ln(startingRadius)` is 0,
the time constant is +infinity, so exp(-t / +infinity) is taken as 1. This
happens in the zero-log branches of `Som.StepRadius` and
`SomLegacy.LegacyRadius`.

The random generator is also a parameter:

- `draw(k)` is the k-th uniform real in [0, 1);
- `picks[t]` is the t-th uniform index in [0, |data| - 1].

Both network classes keep the neurons in `const` rows, because the rows never
change after construction. The neurons are updated in place. A ghost
`Contents` grid mirrors their weights. A ghost `Position` map keeps the
neurons pairwise distinct.

Each training loop is proved against a specification function on the grid:

- `Som.Train`, which applies `Som.NeighbourhoodUpdate` once per step;
- `SomLegacy.LegacyRun`, which applies `SomLegacy.LegacyStep` once per step.

`Neuron::GetWeights` is read access to the field `Som.Neuron.weights`.

### Modelling choices

- **Window.** In `SOM.h` the window offsets run over `[-radius, radius)`
  before clamping. The window is half-open.
- **Radius cast.** The radius is the truncating cast of a double.
- **Input length.** An input only has to be no longer than the weight vectors.
  There is no bounds check, and any extra weights are ignored.
- **Error handling.** The code raises no configuration, dimension or
  empty-dataset errors.
  - Where the code would read out of bounds or build an invalid distribution,
    the model has a precondition instead.
  - When `log(startingRadius)` is 0, the time constant is +infinity in double
    arithmetic. The radius then stays at its starting value.
- **Empty matrix in `Neuron.h`.** `Network::FindBMU` gives the point `(0, 0)`
  for an empty matrix, because `Point2D`'s members default to 0. The model
  accepts the empty matrix.

## Model

| member | source | states |
|---|---|---|
| SomMath.Decay | SOM.h:12-15 | `math::Decay`, and `decayFunction` of Neuron.h:9-12: s0 * exp(-t / lambda), with the division of `-t` by lambda done in double. |
| SomMath.DecayAtStart | SOM.h:12-15 | At step 0 the decayed value equals the starting value (given exp(0) == 1). |
| SomMath.DecayDecreasing | SOM.h:12-15 | For a positive time constant and an increasing exp, a positive value decays strictly as the step grows. |
| SomMath.Trunc | SOM.h:132 | The double-to-int cast truncates toward zero: the result is within 1 of the value, on the side of 0. |
| SomMath.TruncMonotone | SOM.h:132 | The cast never reverses the order of two values. |
| SomMath.SqrDistance | SOM.h:41-50 | The squared distance over the indices of the input is never negative. |
| SomMath.SqrDistanceZeroIff | SOM.h:41-50 | The distance is 0 exactly when the first \|input\| weights equal the input. |
| SomMath.Nudge | SOM.h:33-39 | The weights after `Neuron::UpdateWeights`: w[i] + influence * (x[i] - w[i]) below the input's length, w[i] past it. |
| SomMath.NudgeEffect | SOM.h:33-39 | A nudge keeps the length, leaves indices past the input alone, copies the input for influence 1 and changes nothing for influence 0. |
| SomMath.NudgeScalesDistance | SOM.h:33-39 | A nudge with influence f scales the neuron's squared distance to that input by (1 - f)^2. |
| SomMath.ScaledTermsDistance | SOM.h:41-50 | When each term of one distance is s times the same term of another, the whole distance is s times the other. |
| SomMath.NudgeMovesCloser | SOM.h:33-39 | With influence strictly between 0 and 1, a neuron that does not match the input moves strictly closer to it. |
| SomMath.ScanBMU | SOM.h:89-100 | The row-major scan with a strict `<` always ends on a cell of the grid. |
| SomMath.ScanFindsBMU | SOM.h:89-100 | A scan resumed from a first minimum of the cells seen so far ends at the best matching unit. |
| SomMath.BMU | SOM.h:85-102 | On a non-empty grid the scan result is a cell of minimal distance, and every cell scanned before it is strictly farther. |
| SomMath.BMUUnique | SOM.h:85-102 | At most one cell meets that characterisation, so the tie-break is deterministic. |
| SomMath.BMUExactMatch | SOM.h:85-102 | When some cell's weights match the input, the BMU is the first such cell in row-major order. |
| Som.WindowStart | SOM.h:110-111 | The first offset along one axis: -b when b - radius is negative, -radius otherwise. |
| Som.WindowEnd | SOM.h:110-111 | One past the last offset along one axis: size - b when b + radius passes the grid (including the signed/unsigned compare of a negative sum), radius otherwise. |
| Som.InNeighbourhood | SOM.h:110-118 | Offset (ii, jj) from the BMU is visited by both loop ranges and passes the closed filter radiusSqr >= ii*ii + jj*jj. |
| Som.WindowInBounds | SOM.h:110-112 | Every offset the two ranges produce addresses an index inside the grid, whatever the sign of the radius. |
| Som.WindowClamped | SOM.h:110-111 | For a non-negative radius the window covers [max(b - radius, 0), min(b + radius, size)). |
| Som.NeighbourRadiusPositive | SOM.h:112-118 | A cell can pass the loops and the filter only when the radius is positive. |
| Som.Sigma | SOM.h:106-107 | sigma = 2 * radius * radius, computed in int and converted to double. |
| Som.SigmaPositive | SOM.h:107 | For a positive radius, sigma = 2 * radiusSqr is positive, so the influence is well defined. |
| Som.Influence | SOM.h:117-120 | The influence at offset (ii, jj): Decay(learningRate, ii*ii + jj*jj, sigma). |
| Som.UpdatedCell | SOM.h:112-121 | A cell in the neighbourhood is nudged toward the input with influence Decay(learningRate, distanceSqr, sigma); every other cell keeps its weights. |
| Som.WindowUpdate | SOM.h:112-124 | The update pass keeps the grid square and every weight vector's length. |
| Som.NeighbourhoodUpdate | SOM.h:104-125 | Finding the BMU and updating around it keeps the grid's shape. |
| Som.ChangedCellsInWindow | SOM.h:106-124 | A cell that changes lies in the clamped window around the BMU on both axes and in the closed disc of the radius, and then the radius is positive. |
| Som.NonPositiveRadiusKeepsGrid | SOM.h:106-124 | With radius <= 0 no cell changes, not even the BMU. |
| Som.BMUTakesLearningRate | SOM.h:117-121 | For a positive radius the BMU is nudged with influence exactly the learning rate. |
| Som.BMUMovesCloser | SOM.h:117-121 | For a positive radius and a learning rate in (0, 1), a BMU that does not match the input moves strictly closer to it. |
| Som.StepRadius | SOM.h:129-132 | The radius of step t: the starting radius decayed with time constant n / log(startingRadius), truncated to int; the starting radius itself when the log is 0. |
| Som.StepRate | SOM.h:133 | The learning rate of step t: Decay(startingLearningRate, t, n). |
| Som.StepRadiusAtStart | SOM.h:129-132 | The first step uses the starting radius. |
| Som.StepRadiusNonIncreasing | SOM.h:129-132 | For a positive starting radius with a non-negative log and an increasing exp, the radius never grows. |
| Som.StepRateDecreasing | SOM.h:133 | A positive learning rate decays strictly from step to step. |
| Som.Train | SOM.h:130-136 | A run of updates keeps the grid square and every vector's length. |
| Som.TrainUnfold | SOM.h:130-136 | A run from step t is the update of step t, with that step's radius and learning rate, followed by the run from step t + 1. |
| Som.RunReachesStep | SOM.h:130-136 | Applying the update of step t to a grid the run has reached after t steps gives the grid it reaches after t + 1 steps. |
| Som.RunReachesStart | SOM.h:130 | Before the first step the run is at its starting grid. |
| Som.RunReachesEnd | SOM.h:130 | After the last step the grid reached is the result of the whole run. |
| Som.SequentialInputs | SOM.h:135 | The input of step t of ProcessData: data[t % \|data\|]. |
| Som.RandomInputs | SOM.h:141-148 | The input of step t of ProcessDataRandomly: data[picks[t]]. |
| Som.NoIterationsKeepGrid | SOM.h:130 | A run with no iterations leaves the grid unchanged. |
| Som.SequentialIsModuloPicks | SOM.h:135-148 | Sequential selection equals random selection whose t-th draw is t % \|data\|. |
| Som.NoRadiusKeepsGrid | SOM.h:127-137 | A run in which every step's radius is non-positive leaves the grid unchanged. |
| Som.Neuron.UpdateWeights | SOM.h:33-39 | The in-place loop leaves the weights equal to the nudge of the old weights. |
| Som.Neuron.CalcSqrDistance | SOM.h:41-50 | The running sum equals the squared distance. |
| Som.Network.CreateRandomNetwork | SOM.h:64-84 | The network has size rows of size neurons, all newly allocated, with weightsNumber weights each (3 by default), drawn in row, column, weight order, all in [0, 1). |
| Som.Network.GetNeuron | SOM.h:151-153 | The neuron returned holds the weights of cell (x, y). |
| Som.Network.FindBMU | SOM.h:85-102 | The loops return the BMU: minimal distance, and the first minimum in row-major order. |
| Som.Network.ScanRow | SOM.h:91-99 | One pass of the inner loop over row ii moves the scan to the start of row ii + 1 without changing where it ends, and keeps minDistance the distance of the best cell so far. |
| Som.Network.NudgeNeuron | SOM.h:121 | One neuron is nudged and every other cell keeps its weights. |
| Som.Network.UpdateWeights | SOM.h:104-125 | The new grid is the neighbourhood update of the old grid for this input, radius and learning rate. |
| Som.Network.UpdateAround | SOM.h:110-124 | The two loops leave every cell equal to its window update around the given BMU. |
| Som.Network.UpdateRow | SOM.h:115-123 | One pass of the inner loop nudges exactly the cells of row ii of the window that the whole update changes, leaving the rest as they were. |
| Som.Network.ProcessData | SOM.h:127-137 | The new grid is the training run with input data[t % \|data\|] at step t, for max(numberOfIteration, 0) steps. |
| Som.Network.ProcessDataRandomly | SOM.h:139-150 | The new grid is the training run with input data[picks[t]] at step t; data must be non-empty. |
| Som.Network.TrainingStep | SOM.h:130-135 | The radius and learning rate computed from timeIter, followed by one update with that step's input, take the run one step further. |
| Som.CreateRandomData | SOM.h:158-174 | The result has size vectors of weightsNumber values (3 by default), drawn vector by vector, all in [0, 1). |
| SomLegacy.LegacyRadius | Neuron.h:77-81 | The radius of step t: the starting learning rate decayed with time constant n / log(startingRadius), truncated to int. |
| SomLegacy.LegacyInfluence | Neuron.h:90-101 | learningRate * exp(-d / sigma) with sigma = 2 * learningRate^2, and 0 when sigma is 0. |
| SomLegacy.LegacySelected | Neuron.h:87-99 | A cell is updated when both its indices lie in [max(bmu.x - r, 0), min(bmu.x + r, size)) and ii*ii + jj*jj > r*r. |
| SomLegacy.LegacyBMU | Neuron.h:39-56 | On a non-empty matrix the result is the best matching unit; on an empty one it is (0, 0). |
| SomLegacy.Network.FindBMU | Neuron.h:39-56 | The loops return the first minimal cell, or (0, 0) for an empty matrix. |
| SomLegacy.Network.ScanRow | Neuron.h:45-53 | One pass of the inner loop over row ii moves the scan to the start of row ii + 1 without changing where it ends. |
| SomLegacy.LegacyCell | Neuron.h:93-102 | A cell selected by bmu.x's window and the strict filter ii*ii + jj*jj > radiusSqr is nudged with the legacy influence; every other cell keeps its weights. |
| SomLegacy.LegacyWindowUpdate | Neuron.h:93-105 | The update pass keeps the grid square and every weight vector's length. |
| SomLegacy.LegacyStep | Neuron.h:86-105 | One step keeps the grid's shape. |
| SomLegacy.LegacyRun | Neuron.h:79-107 | The run keeps the grid square and every vector's length; it stops for good at the first radius below 1. |
| SomLegacy.LegacyRunReachesStep | Neuron.h:79-106 | A step whose radius is at least 1 applies the legacy step and takes the run one step further. |
| SomLegacy.LegacyRunStops | Neuron.h:81-82 | A step whose radius is below 1 ends the run with the grid it has reached. |
| SomLegacy.RadiusFromLearningRate | Neuron.h:77-81 | The first radius is the truncated starting learning rate, whatever the starting radius. |
| SomLegacy.SmallRateKeepsGrid | Neuron.h:79-82 | A starting learning rate below 1 makes Update return before any neuron changes. |
| SomLegacy.LegacyChangedCells | Neuron.h:87-102 | A changed cell has both indices in the window built from the BMU's row alone, and it lies strictly outside the radius disc around cell (0, 0). The radius and the learning rate are then non-zero. |
| SomLegacy.LegacyNearBMUUntouched | Neuron.h:98-99 | A BMU inside the radius disc around (0, 0) is never updated. |
| SomLegacy.LegacyCornerBMUChangesNothing | Neuron.h:87-104 | With the BMU at (0, 0) and radius 1, the step leaves the whole grid unchanged. |
| SomLegacy.Network.constructor | Neuron.h:110-113 | The network holds the given square grid, with one newly allocated neuron per cell, and the two training constants. |
| SomLegacy.Network.NudgeNeuron | Neuron.h:102 | One neuron is nudged and every other cell keeps its weights. |
| SomLegacy.Network.Step | Neuron.h:86-105 | One iteration's BMU search and update loops give the legacy step of the old grid. |
| SomLegacy.Network.UpdateWindow | Neuron.h:87-105 | Both loops over [max(bmu.x - r, 0), min(bmu.x + r, size)) leave every cell equal to its legacy update. |
| SomLegacy.Network.Update | Neuron.h:75-108 | The new grid is the legacy run with input data[picks[t]] at step t, stopping at the first radius below 1; data must be non-empty. |

## Left out

- main.cpp is not part of this model. It holds the window, the rendering, the console prompts, keyboard dispatch, timing and `WeightsToColor`.
- Point2D.h is not part of this model, apart from the zero default of `PointI`. A coordinate is a pair of ints.
- RandomSystem.h and `g_RandomEngine` are not part of this model. Random values are the parameters `draw` and `picks`, and nothing is stated about their distribution.
- Floating point is not modelled.
  - Weights are exact reals, and `exp` and `ln` are uninterpreted parameters.
  - NaN, infinities other than the zero-logarithm time constant, and underflow are not modelled.
  - The `numeric_limits<double>::max()` starting minimum is modelled as "the first cell always wins". This holds for every distance below `DBL_MAX`.
- A negative `size` or `weightsNumber` for `CreateRandomNetwork` or `CreateRandomData` is not modelled. In the source, `reserve` then throws `std::length_error` inside a `noexcept` function, and the program terminates. The `nat` parameters rule these cases out.
- Integer overflow is not modelled: `radius * radius`, the index squares and the casts are unbounded.
- A double-to-int cast of a value outside the int range is undefined behaviour in C++. `Trunc` truncates every real.
- A starting radius of 0 or less gives `log` an argument where it returns -infinity or NaN. `ln` is a parameter here, so whatever it returns is used as is.
- The 1×1 convergence and two-cluster end-to-end scenarios are not modelled. They depend on the real behaviour of `exp`.
- Som.Network.FindBMU: it requires a non-empty grid, because `SOM.h`'s `math::PointI` is a plain aggregate and the result would be uninitialised.
- Neuron.h `Network::Initialize` is undefined behaviour: it indexes an empty vector after `reserve`. It is replaced by `SomLegacy.Network.constructor`, which takes a square grid.
- The source never initialises `m_StartLearningRate` and `m_StartingRadius`. They are constructor parameters.
- Neuron.h's `SOM` struct is empty glue and is left out.
- Neuron.h: `sigma = 2 * learningRate^2` is modelled as written, in `SomLegacy.LegacyInfluence`. For a zero learning rate the influence is taken as 0, which is the IEEE result of `0 * exp(-d / 0)` for d > 0.

## Findings

| source | as written | input that shows it | evidently intended | confidence | as-written member | corrected member |
|---|---|---|---|---|---|---|
| Neuron.h:81 | The radius of each step is decayed from `m_StartLearningRate`, not from `m_StartingRadius`. | startLearningRate 0.5, startingRadius 5: the first radius is Trunc(0.5) = 0 < 1, so `Update` returns before any training. | Decay the starting radius, so the first radius is 5 (as `SOM.h:132` does). | not executed | SomLegacy.SmallRateKeepsGrid | Som.StepRadiusAtStart |
| Neuron.h:87-99 | Both loops use `bmu.x`'s window and measure `ii*ii + jj*jj` from cell (0, 0). The filter is `distanceSqr > radiusSqr`. | A grid whose BMU is cell (0, 0), with radius 1: the window is the single cell (0, 0), and the strict filter skips it, so no cell is touched at all. | Update the cells within the radius of the BMU, the BMU itself with the full learning rate (as `SOM.h:110-121` does). | not executed | SomLegacy.LegacyCornerBMUChangesNothing | Som.BMUTakesLearningRate |
