# RaceCarControl: reference-path extraction and car control, modelled in Dafny

The racing agent looks at a 65×96 bird's-eye crop of the track. It turns the
drivable-surface mask into an ordered *reference line* of skeleton pixels. Then
it writes an action `(steering, throttle, brake)` with either a proportional
("PID") controller or a receding-horizon predictive ("MPC") controller.

The project models two parts of the program.

- `vision.dfy` (module `Vision`) covers `BEV_Vision` in `vision.py`.
  - The border of the thinned mask is cleared in place.
  - The candidate pixels are collected in row-major order.
  - The start pixel is the first candidate nearest the anchor `(70, 48)`.
  - The greedy 8-neighbour walk is modelled with its `while`/`for` loops, its
    closed list, and its habit of scanning the remaining offsets from the pixel
    just entered.
  - It also covers the two-slot grayscale frame history and the fixed
    optical-flow sample grid.
  - The walk is written twice. The methods `ScanNeighbors` and `GreedyWalk`
    build the path and the closed list by appending, as the source does. The reference functions
    `PassFrom` and `Walk` are proved equal to them, and the lemmas state what
    the resulting path is.
- `control.dfy` (module `Control`) covers `Car_Controller` in `control.py`:
  - the clamped speed law and the clamped look-ahead steering law;
  - the bicycle kinematic model and its rollout;
  - the predictive cost and its five terms;
  - the interleaved initial guess and bounds;
  - the post-solve action write;
  - the nearest-point index rebuild in `feed_back`;
  - the strategy dispatch.
- `common.dfy` (module `Common`) holds `Option`, `Point` and the facts about
  duplicate-free sequences that bound the walk.

Conventions used throughout:

- Python floats are Dafny `real`s.
- `sqrt`, `cos`, `sin` and `tan` are uninterpreted functions supplied as a
  `MathFns` value. No fact about them is used.
- The thinning output is given to the extractor as a `65×96` boolean array.
- The optimiser is an argument of `MpcSolve`.
- The infinite `while True: pass` in `direction_controller` cannot return. It is
  represented as the outcome `Spins`.

## Model

| member | source | states |
|---|---|---|
| `Vision.SqDist` | vision.py:8-10 | the squared pixel distance is non-negative and zero exactly for equal points; it orders candidates like `distance` |
| `Vision.StepMoves` | vision.py:32 | every one of the eight offsets leads to a different pixel that is an 8-neighbour |
| `Vision.ClearBorderOf` | vision.py:80-83 | the grid keeps its shape; a pixel stays set iff it was set and is not on row 0, row 64, column 0 or column 95 |
| `Vision.ClearBorderOfImage` | vision.py:80-83 | clearing the border of a 65×96 image gives a 65×96 image with no border pixel set |
| `Vision.CandidatesMembers` | vision.py:89-93 | `Vision.Candidates` (the row-by-row collection of set pixels that models `np.where`) lists a pixel exactly when it is set in the grid |
| `Vision.CandidatesRowMajor` | vision.py:89-93 | candidates are listed in strictly increasing row-major order, hence without repeats |
| `Vision.CandidatesAvoidBorder` | vision.py:80-93 | after border clearing no candidate has row 0, row 64, column 0 or column 95 |
| `Vision.NearestIndex` | vision.py:94-95 | the chosen index is a minimum of the distance to the anchor and every earlier index is strictly farther (first minimum, like `dist.index(min(dist))`) |
| `Vision.NearestIsFirst` | vision.py:93-95 | every candidate before the start point in row-major order is strictly farther from the anchor |
| `Vision.AdvanceKeepsInv` | vision.py:103-108 | `Vision.Advance` models one test of the inner loop (the neighbour, the membership tests, the two appends and the move); it either leaves the state as is (exactly when the neighbour is not an open candidate) or appends the neighbour to the path and the left point to the closed list, keeping the walk invariant |
| `Vision.PassFrom` | vision.py:101-109 | a pass over the remaining offsets keeps the walk invariant, only extends the path, and when it adds nothing every remaining offset was blocked |
| `Vision.BlockedPassStuck` | vision.py:102-111 | a pass with no move means every candidate neighbour of the last point is already on the path |
| `Vision.WalkSpec` | vision.py:100-111 | `Vision.Walk` repeats `PassFrom` passes until one makes no move, as the `while True` loop with its `ct == 0` exit does; the repeated passes extend the start path, keep it a duplicate-free 8-connected path of candidates, and stop only when stuck |
| `Vision.ExtractPathSpec` | vision.py:86-111 | `Vision.ExtractPath` is the whole extraction: the candidates of the cleared grid, empty when there are none, else `Walk` from the candidate chosen by `NearestIndex`; the path is empty iff there are no candidates; otherwise it starts at the first nearest candidate, is a duplicate-free 8-connected path of candidates no longer than the candidate list, and ends stuck |
| `Vision.ExtractPathInterior` | vision.py:80-111 | every point of a path extracted from a border-cleared image is an interior pixel |
| `Vision.ScanNeighbors` | vision.py:101-109 | the `for` pass over the eight offsets, appending to the path and the closed list, ends in the state `PassFrom` describes, and `ct` counts the moves |
| `Vision.GreedyWalk` | vision.py:96-111 | the `while` loop of passes from the start point terminates with exactly the path `Walk` describes |
| `Vision.Range` | vision.py:35 | `range(lo, hi, step)`: element k is `lo + k*step`, every element is below `hi`, and no further element fits |
| `Vision.Product` | vision.py:35 | the nested comprehension has `|xs|*|ys|` entries |
| `Vision.ProductAt` | vision.py:35 | entry `a*|ys| + b` of the comprehension is `(xs[a], ys[b])`: x is the outer index |
| `Vision.Relative` | vision.py:36 | each relative sample point plus the anchor gives back the sample point |
| `Vision.SamplePointsShape` | vision.py:34-35 | `Vision.SamplePoints` is the comprehension over `range(10, 64, 25)` and `range(10, 95, 25)`; there are 12 sample points and entry `4a+b` is `(10+25a, 10+25b)` |
| `Vision.BevVision.constructor` | vision.py:18-38 | empty frame history, no mask, no path, anchor `(70, 48)`, the sample grid and its anchor-relative copy, zero velocity |
| `Vision.BevVision.GetRawImage` | vision.py:44-47 | the history keeps two slots, slot 1 is the new frame and slot 0 the previous frame (the new frame on the first call); nothing else changes |
| `Vision.BevVision.ClearBorder` | vision.py:80-83 | in place, every border pixel of the array becomes unset and every other pixel keeps its value |
| `Vision.BevVision.ReferenceLineExtractor` | vision.py:73-111 | without a mask neither the path nor the array changes; otherwise the array border is cleared and the path becomes `ExtractPath` of the cleared skeleton, whose every point is interior |
| `Control.SpeedLaw` | control.py:36-44 | throttle and brake lie in [0, 1] and are never both nonzero; throttle is `min(1, 0.6(refV - speed))` when that error is non-negative, otherwise the brake is `min(1, 0.6(speed - refV))` |
| `Control.SpeedLawMonotone` | control.py:36-44 | a higher target speed never gives less throttle nor more brake |
| `Control.SpeedLawAtTarget` | control.py:36-40 | at the target speed both throttle and brake are zero |
| `Control.SteerLaw` | control.py:53-55 | the command lies in [-1, 1], equals `0.1(col - 48)` within ten columns of the centre and saturates beyond |
| `Control.SteerLawMonotone` | control.py:53-55 | the command grows with the column |
| `Control.SteerLawSymmetric` | control.py:53-55 | columns mirrored about 48 give opposite commands, and column 48 gives 0 |
| `Control.LookAhead` | control.py:47 | the look-ahead length is at most the path length and at most 10, and equals one of them |
| `Control.Kinematics` | control.py:59-67 | zero velocity leaves x, y and yaw unchanged |
| `Control.KinematicsSteerTurnsOnly` | control.py:63-65 | the next position does not depend on the steer angle (it only changes the yaw) |
| `Control.Trajectory` | control.py:70-88 | the rollout of n steps has n+1 poses, starts at (65, 48, 0), and each pose is the kinematic step from the previous one with the pair `(cmd[2i], cmd[2i+1])` |
| `Control.TrajectoryPrefix` | control.py:81-88 | a shorter rollout is a prefix of a longer one |
| `Control.TrajectoryReadsPrefix` | control.py:81-83 | an n-step rollout depends only on the first 2n commands |
| `Control.TrajectoryAtRest` | control.py:59-90 | with all velocities zero every predicted pose is the start pose |
| `Control.Pairs` | control.py:139 | `range(int(len/2) - 1)` gives exactly the horizon length minus one pairs when the horizon is nonempty, and none otherwise |
| `Control.SmoothSum` | control.py:139-141 | the velocity-change and steer-change sums are non-negative |
| `Control.SmoothSumZeroIff` | control.py:139-141 | a smoothness sum is zero iff the summed quantity is the same at every neighbouring pair of horizon steps |
| `Control.MinSqDist` | control.py:145 | `Control.Query`, the cKDTree distance, is `sqrt` of this minimum; the nearest-point query's squared distance is at most the distance to every path point and attained by one of them |
| `Control.WeightedCostMonotone` | control.py:151 | `Control.WeightedCost` is `1·ref_error − 1·sum_s + 0.01·centripetal + 300·sum_acc + 10·sum_df`; the cost rises strictly with the velocity-change sum and with the steer-change sum, by 300 per unit of velocity change |
| `Control.CostOfSteadyPlan` | control.py:139-151 | for a plan with constant velocity and steer the cost is tracking error minus progress plus 0.01 times the centripetal load |
| `Control.InitialCommand` | control.py:155-157 | the initial guess has 2n entries: 2.0 at even and 0.0 at odd indices |
| `Control.Bounds` | control.py:156-158 | the bounds have 2n entries: (0.5, 5) at even and (-π/4, π/4) at odd indices |
| `Control.InitialCommandFeasible` | control.py:155-158 | the initial guess lies inside the bounds |
| `Control.InitialCommandSteady` | control.py:155-157 | both smoothness sums of the initial guess are zero |
| `Control.NormalisedSteer` | control.py:167 | a steer angle within (-π/4, π/4) normalises to a steering command in [-1, 1] |
| `Control.CarController.constructor` | control.py:9-20 | no velocity, path or index yet, action `[0, 0, 0]`, horizon 4 |
| `Control.CarController.FeedBack` | control.py:22-27 | velocity and path are stored; the index is rebuilt over the path only when it is nonempty and otherwise keeps the previous one |
| `Control.CarController.VelocityController` | control.py:34-44 | the measured speed is `Control.Speed`, `sqrt(v0² + v1²)` (control.py:35); throttle and brake become the speed law of the target and the measured speed; steering is untouched; a valid action stays valid |
| `Control.CarController.DirectionController` | control.py:46-56 | it spins iff the look-ahead length is 2; an empty path or a spin leaves the action alone; otherwise only the steering changes, to the steering law of the look-ahead point's column |
| `Control.CarController.MpcForward` | control.py:69-90 | both lists have `len/2` entries and entry i is the x (resp. y) of rollout pose i+1 |
| `Control.CarController.SmoothnessSums` | control.py:139-141 | the loop computes both smoothness sums over all neighbouring horizon pairs |
| `Control.CarController.TrackingSums` | control.py:143-149 | the loop computes `Control.RefErrorSum` (summed nearest-point distances of the predicted positions), `Control.ArcLengthSum` (summed step lengths from (65, 48) on) and `Control.CentripetalSum` (summed `v·tan(s)`) of the rollout |
| `Control.CarController.MpcOptimizeFunc` | control.py:129-151 | there is no cost exactly when an index is missing and the horizon is nonempty (the query fails); otherwise it is `Control.Cost` of the command vector, the weighted sum of the rollout's tracking, progress, centripetal and smoothness terms |
| `Control.CarController.MpcSolve` | control.py:153-167 | the optimiser receives the cost objective `Control.Objective` (control.py:160, `Cost` against the indexed path), the interleaved initial guess and the bounds; throttle/brake follow the speed law for the first velocity and steering is the first steer angle over π/4; a within-bounds answer gives a valid action |
| `Control.CarController.ControlTask` | control.py:169-174 | "PID" runs the speed law for 0.8 and then the steering law; "MPC" runs one predictive step; any other name changes nothing |

## Left out

- The thinning call `cv2.ximgproc.thinning` (vision.py:79) is foreign. Its output is the extractor's `thin` argument, with `true` for 255.
- The colour conversions and crop in `get_raw_image` (vision.py:41-43) are foreign. The new grayscale frame is the method's argument.
- `lane_detector` (vision.py:53-71) is foreign: HSV thresholding and contour filling in OpenCV.
- `optical_flow` (vision.py:122-154) is left out: dense optical flow and least-squares fitting in floating point over foreign libraries.
- `func` (vision.py:13-14) is unused by the program.
- Debug output is left out: every `print`, every `cv2.imshow`, and `debug_forward` (control.py:92-127), which calls `cv2.imshow`.
- `main.py` and `data_recorder.py` are environment and capture I/O.
- The L-BFGS-B call (control.py:160-163) is the `solve` argument of `MpcSolve`. The model assumes only that it returns a vector as long as the initial guess.
- The cKDTree (control.py:27, 145) is a value holding the path points. A query is the square root of the least squared distance to a path point.
- No fact about `sqrt`, `cos`, `sin` or `tan` is used, and floating-point rounding is not modelled.
- `Vision.SqDist`: the start point is chosen by squared distance, not by `math.sqrt` of it. The two orders agree because the square root is strictly increasing.
- `Vision.BevVision.ReferenceLineExtractor`: the walk builds the path in local sequences and assigns `refLine` once when it ends; the source appends to `self.ref_line` as it walks. No other code runs during the walk, so the intermediate field values are not observable.
- `Control.CarController.DirectionController`: the endless `while True: pass` when the look-ahead length is 2 is reported as `Spins` and leaves `action` unchanged. The model keeps every method terminating, so the endless loop is reported as an outcome instead.
- `Control.CarController.ControlTask`: the PID branch inherits the same representation of the endless loop.
- `Control.CarController.MpcOptimizeFunc`: the `AttributeError` raised when no index has been built yet is reported as `None`.
- `Control.CarController.MpcSolve`: the objective evaluations inside the optimiser are not modelled. It therefore requires an index to exist, because the optimiser's first evaluation at the initial guess queries it.
- `Control.CarController.FeedBack`: `len(None)` would crash. The model takes the path as a sequence, so the new path is never `None`.
- `Control.CarController.VelocityController`: it requires a velocity of at least two components, because the source indexes `velocity[0]` and `velocity[1]` and fails otherwise.
- Four behaviours of the code that the model keeps:
  - The path has no maximum length; the walk only stops when it is stuck.
  - A missing velocity is an error, not a speed of zero.
  - An empty path keeps the spatial index of the previous frame for the predictive cost.
  - The look-ahead length 2 spins instead of falling back to a terminating behaviour.
