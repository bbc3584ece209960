# RANSAC line-fitting engine, modelled in Dafny

This project models the estimation engine of a small C program that fits a line
`price = slope * rooms + intercept` to a point set with RANSAC (random sample
consensus). The engine repeats one step a fixed number of times: pick two points
at random, draw the line through them, and count the points that lie within a
tolerance `epsilon` of it. It then keeps the line with the most inliers. The C
program spreads the iterations over one POSIX thread per processor core. Each
thread fills its own slice of a shared buffer of models, and a final scan picks
the best model.

The model is imperative where the C code is:

- `Partitioner.Partition` is the set-up loop of `ransac`. It keeps a running
  `currentIndex` and an `extraIterations` counter, and fills an
  `array<ThreadData>` with each worker's `(offset, iterations)`.
- `Worker.GenerateModelThread` is a loop that writes successive slots of the
  shared `array<Model>`.
- `Scoring.CountInliers` is a counting loop.
- `Reducer.SelectBestModel` is a running argmax loop.
- `Engine.Ransac` ties these together. It runs the workers one after another,
  in worker order.

Each method is proved against a reference function:

- `InlierCount` for the counting loop.
- `Share`, `Offset` and `Assignment` for the partition.
- `SlotModel` and `Candidates` for the buffer contents.
- `BestIndex` for the reduction.

Lemmas then state what those functions promise: the shares sum to the
iteration count, slices are contiguous and disjoint, every slot has exactly one
owner, the inlier count equals the size of the consensus set, and the first
maximum wins.

Modelling choices:

- A C `double` is the type `Double`, a 64-bit pattern that is never computed
  with. The three floating-point steps are fields of `FloatOps` and are passed
  in as uninterpreted functions. They are the slope `(y2-y1)/(x2-x1)`, the
  intercept `y1 - slope*x1`, and the test `|slope*x - y + b| / sqrt(1+slope^2) < epsilon`.
- `rand()` is the oracle `draw: nat -> nat`, which returns non-negative values.
  Slot `k` of the buffer consumes `draw(2k)` and `draw(2k+1)`. Because each
  slot has its own draws, the buffer does not depend on the number of workers.
- The core count from `sysconf` is the parameter `numCores >= 1`.
- The point store is a read-only `seq<Point>`. Its length plays the role of `numPoints`.
- `Engine.Ransac` returns a ghost `writes` sequence that counts how many times
  each slot was written. Its postcondition says every count is exactly 1.

## Model

| member | source | states |
|---|---|---|
| `Scoring.InlierCount` | main.c:168-177 | the number of points within epsilon of a line never exceeds the number of points |
| `Scoring.InlierCountIsConsensusSize` | main.c:168-177 | the inlier count equals the size of the set of indices whose point passes the distance test |
| `Scoring.AllInliersIff` | main.c:170-175 | the count equals the number of points if and only if every point passes the distance test |
| `Scoring.NoInliersIff` | main.c:170-175 | the count is zero if and only if no point passes the distance test |
| `Scoring.CountInliers` | main.c:168-177 | the counting loop returns exactly the inlier count of the model's line (slope and intercept only), a value in `[0, numPoints]` |
| `Scoring.SampleIndex` | main.c:155-156 | `rand() % numPoints` with a non-negative draw and `numPoints >= 1` is an index in `[0, numPoints)`, and it is the draw itself when the draw is already below `numPoints` |
| `Scoring.GeneratedModelSound` | main.c:154-166 | a generated model is the line fitted through two stored points (possibly the same one), its `inliers` field is the inlier count of that line over all points, and so lies in `[0, numPoints]` |
| `Scoring.GenerateModel` | main.c:154-166 | sampling two indices, fitting the line and scoring it yields the generated model for those two draws, already scored and within `[0, numPoints]` |
| `Partitioner.OffsetClosedForm` | main.c:193-212 | after `i` workers the running index is `i * (maxIterations / numCores)` plus one for each of the first `maxIterations % numCores` workers among them |
| `Partitioner.SharesSumToTotal` | main.c:193-215 | the per-worker iteration counts add up to `maxIterations`: after the last worker `currentIndex == maxIterations` |
| `Partitioner.OffsetMonotone` | main.c:202-212 | a later worker's slice never starts before an earlier worker's |
| `Partitioner.SliceInBuffer` | main.c:202-212 | every worker's slice ends at or before slot `maxIterations`, the end of the buffer the workers write into |
| `Partitioner.SlicesDisjoint` | main.c:202-212 | the slice of worker `i` ends at or before the start of the slice of any later worker `j`, so slices never overlap |
| `Partitioner.SlotOwner` | main.c:198-215 | every slot `k < maxIterations` lies in the slice of exactly one worker |
| `Partitioner.TrailingWorkersIdle` | main.c:193-212 | with fewer iterations than workers, workers `0 .. maxIterations-1` get one iteration each, and every later worker gets none, with its empty slice at the end of the buffer |
| `Partitioner.Partition` | main.c:193-215 | the set-up loop gives worker `i` offset `Offset(i)` and `maxIterations / numCores` iterations, plus one for each of the first `maxIterations % numCores` workers, and ends with `currentIndex == maxIterations` |
| `Worker.GenerateModelThread` | main.c:232-242 | the worker writes the generated model for slot `k` into every slot `k` of `[offset, offset + iterations)`, leaves every other slot unchanged, and records one write per slot of its slice |
| `Reducer.BestIndex` | main.c:244-254 | the selected index holds a model whose inlier count is at least every model's, and every model before it has strictly fewer inliers (first occurrence wins a tie) |
| `Reducer.FirstMaximumUnique` | main.c:247-251 | being maximal and having strictly fewer inliers at every earlier index determines the selected index uniquely |
| `Reducer.SelectBestModel` | main.c:244-254 | starting from `models[0]` and replacing only on strictly more inliers returns the model at the first index of maximal inlier count among `models[0 .. numModels)` |
| `Engine.Ransac` | main.c:179-230 | for any number of workers, every buffer slot is written exactly once, and the result is the first candidate with the most inliers among the `maxIterations` generated candidates, scored and within `[0, numPoints]` |

## Left out

- Reading the points from the CSV file (`readPointsFromFile`, main.c:109-152) is not modelled. It is file I/O. The point store is a parameter.
- `main` (main.c:39-107) is not modelled. It does argument parsing, clock timing, seeding `srand` and printing. Only its guarantee that the iteration count is non-zero (main.c:59) is kept, as a precondition of `Ransac`.
- `printBestModel` (main.c:256-260) is not modelled. It only prints. The outlier count `numPoints - inliers` is non-negative because `Ransac` ensures `inliers <= numPoints`.
- Threads are not modelled: `pthread_create`, `pthread_join` and `pthread_exit` (main.c:214-220, 241). The workers run one after another in worker order. This gives the same buffer as a threaded run in which slot `k` receives the same two `rand()` values, because each worker writes only its own slice and the slices are disjoint.
- The unsynchronised, process-wide `rand()` (main.c:155-156) is replaced by the oracle `draw`, indexed by buffer slot. The order in which threads call `rand()`, and the data race on its state, are not modelled.
- `sysconf(_SC_NPROCESSORS_ONLN)` (main.c:188) is not modelled. It is a host query. The worker count is the parameter `numCores >= 1`, and a failing `sysconf` returning -1 is not modelled.
- The floating-point slope, intercept and distance computations (main.c:161-162, 171) are uninterpreted functions. They include `fabs`, `sqrt`, `pow` and a possible division by zero when two sampled points share an x-value. Nothing is proved about the geometry or about IEEE 754 behaviour.
- Allocation and its failure paths are not modelled: main.c:134-139, 180-185 and 223, and the `free` calls. A negative `-N` value passes `main`'s check and only fails through `malloc` in `ransac`, so `Ransac` takes the iteration count as a natural number of at least 1.
- Counts are unbounded integers. `inliers <= numPoints` and `currentIndex <= maxIterations` are proved, so these counts never exceed the C `int` values they are bounded by. The size computation `maxIterations * sizeof(Model)` is not modelled.
- `Engine.Ransac` frees nothing and returns the model by value. The heap-allocated copy that `ransac` returns (main.c:223-229) is not modelled.
- `Engine.Ransac` requires at least one point: with none, `rand() % numPoints` divides by zero (main.c:155). No error result is modelled, because the code has none.
- `Reducer.SelectBestModel` requires `numModels >= 1`: with none it reads `models[0]` (main.c:245). `main` rejects a zero iteration count (main.c:59), so `Engine.Ransac` requires `maxIterations >= 1`.
