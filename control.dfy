/**
 * The car controller: a proportional speed law, a look-ahead steering law, and a
 * receding-horizon controller that rolls a kinematic bicycle model forward over a
 * short command horizon and scores it against the reference path.
 *
 * Floating-point numbers are modelled as reals. `sqrt`, `cos`, `sin` and `tan` are
 * uninterpreted functions handed in as a `MathFns` value; no fact about them is used.
 */
module Control {
  import opened Common

  const Pi: real := 3.141592653589793
  /** Time step and wheelbase of the kinematic model. */
  const Dt: real := 4.0
  const CarL: real := 4.0
  /** Speed-controller gains; only the proportional gain `VelPd[0]` is used. */
  const VelPd: seq<real> := [0.6, 0.5]
  /** The target speed of the proportional ("PID") strategy. */
  const PidSpeed: real := 0.8
  /** The column the steering law centres on, and the farthest look-ahead point. */
  const CenterCol: int := 48
  const LookAheadCap: nat := 10
  /** Horizon length of the predictive controller. */
  const ForwardStep: nat := 4
  /** Weights of the predictive cost. */
  const RefWeight: real := 1.0
  const ProgressWeight: real := 1.0
  const CentripetalWeight: real := 0.01
  const AccWeight: real := 300.0
  const SteerChangeWeight: real := 10.0

  /** The foreign numeric functions the controller calls. */
  datatype MathFns = MathFns(sqrt: real -> real, cos: real -> real, sin: real -> real, tan: real -> real)

  /** A simulated vehicle pose in the body-relative frame of the bird's-eye image. */
  datatype Pose = Pose(x: real, y: real, yaw: real)

  /** Every rollout starts at the car's pixel position, heading straight up. */
  const StartPose: Pose := Pose(65.0, 48.0, 0.0)

  /** A box constraint `(lo, hi)` on one optimisation variable. */
  datatype Bound = Bound(lo: real, hi: real)

  /** The spatial index over the reference path; queries return the nearest-point distance. */
  datatype KdTree = KdTree(data: seq<Point>)

  /** How a control step ends: it returns, or it spins forever without returning. */
  datatype Outcome = Returned | Spins

  function Min(a: real, b: real): real { if a <= b then a else b }
  function Max(a: real, b: real): real { if a >= b then a else b }
  function Abs(a: real): real { if a >= 0.0 then a else -a }

  // ----------------------------------------------------------------------------
  // Action laws
  // ----------------------------------------------------------------------------

  /** A well-formed action: steering in [-1, 1], throttle and brake in [0, 1], never both on. */
  predicate ActionValid(a: seq<real>)
  {
    && |a| == 3
    && -1.0 <= a[0] <= 1.0
    && 0.0 <= a[1] <= 1.0
    && 0.0 <= a[2] <= 1.0
    && (a[1] == 0.0 || a[2] == 0.0)
  }

  /** The speed magnitude of a velocity vector. */
  function Speed(m: MathFns, v: seq<real>): real
    requires |v| >= 2
  {
    m.sqrt(v[0] * v[0] + v[1] * v[1])
  }

  /**
   * The clamped proportional speed law: the pair (throttle, brake) for a target speed
   * `refV` when the car runs at `speed`.
   */
  function SpeedLaw(refV: real, speed: real): (tb: (real, real))
    ensures 0.0 <= tb.0 <= 1.0 && 0.0 <= tb.1 <= 1.0
    ensures tb.0 == 0.0 || tb.1 == 0.0
    ensures refV >= speed ==> tb.0 == Min(1.0, VelPd[0] * (refV - speed)) && tb.1 == 0.0
    ensures refV < speed ==> tb.0 == 0.0 && tb.1 == Min(1.0, VelPd[0] * (speed - refV))
  {
    var vc := Min(1.0, VelPd[0] * (refV - speed));
    if vc >= 0.0 then (vc, 0.0) else (0.0, -Max(-1.0, vc))
  }

  /** A higher target speed never gives less throttle nor more brake. */
  lemma SpeedLawMonotone(refV1: real, refV2: real, speed: real)
    requires refV1 <= refV2
    ensures SpeedLaw(refV1, speed).0 <= SpeedLaw(refV2, speed).0
    ensures SpeedLaw(refV1, speed).1 >= SpeedLaw(refV2, speed).1
  {
  }

  /** At the target speed the car neither accelerates nor brakes. */
  lemma SpeedLawAtTarget(speed: real)
    ensures SpeedLaw(speed, speed) == (0.0, 0.0)
  {
  }

  /** The clamped proportional steering command toward the column `col`. */
  function SteerLaw(col: int): (c: real)
    ensures -1.0 <= c <= 1.0
    ensures -10 <= col - CenterCol <= 10 ==> c == 0.1 * (col - CenterCol) as real
    ensures col - CenterCol >= 10 ==> c == 1.0
    ensures col - CenterCol <= -10 ==> c == -1.0
  {
    Min(1.0, Max(-1.0, 0.1 * (col - CenterCol) as real))
  }

  /** Steering grows with the column of the look-ahead point. */
  lemma SteerLawMonotone(col1: int, col2: int)
    requires col1 <= col2
    ensures SteerLaw(col1) <= SteerLaw(col2)
  {
  }

  /** Points mirrored about the centre column get opposite commands; the centre gets none. */
  lemma SteerLawSymmetric(d: int)
    ensures SteerLaw(CenterCol + d) == -SteerLaw(CenterCol - d)
    ensures SteerLaw(CenterCol) == 0.0
  {
  }

  /** The index, counted from 1, of the path point the steering law looks at. */
  function LookAhead(n: nat): (f: nat)
    ensures f <= n && f <= LookAheadCap
    ensures f == n || f == LookAheadCap
  {
    if n <= LookAheadCap then n else LookAheadCap
  }

  // ----------------------------------------------------------------------------
  // Kinematic model and rollout
  // ----------------------------------------------------------------------------

  /** One step of the discrete bicycle model under velocity `v` and steer angle `s`. */
  function Kinematics(m: MathFns, p: Pose, v: real, s: real): (q: Pose)
    ensures v == 0.0 ==> q == p
  {
    Pose(p.x - v * m.cos(p.yaw) * Dt,
         p.y + v * m.sin(p.yaw) * Dt,
         p.yaw + v * m.sin(s) * Dt / CarL)
  }

  /** The steer angle only turns the car: the new position does not depend on it. */
  lemma KinematicsSteerTurnsOnly(m: MathFns, p: Pose, v: real, s1: real, s2: real)
    ensures Kinematics(m, p, v, s1).x == Kinematics(m, p, v, s2).x
    ensures Kinematics(m, p, v, s1).y == Kinematics(m, p, v, s2).y
  {
  }

  /**
   * The poses visited when the first `n` (velocity, steer) pairs of `cmd` are applied
   * from `StartPose`; element 0 is the start.
   */
  function Trajectory(m: MathFns, cmd: seq<real>, n: nat): (t: seq<Pose>)
    requires 2 * n <= |cmd|
    ensures |t| == n + 1 && t[0] == StartPose
    ensures forall i :: 0 <= i < n ==> t[i + 1] == Kinematics(m, t[i], cmd[2 * i], cmd[2 * i + 1])
  {
    if n == 0 then [StartPose]
    else
      var t := Trajectory(m, cmd, n - 1);
      t + [Kinematics(m, t[n - 1], cmd[2 * (n - 1)], cmd[2 * (n - 1) + 1])]
  }

  /** A longer rollout extends a shorter one. */
  lemma {:induction false} TrajectoryPrefix(m: MathFns, cmd: seq<real>, k: nat, n: nat)
    requires k <= n && 2 * n <= |cmd|
    ensures Trajectory(m, cmd, k) == Trajectory(m, cmd, n)[..k + 1]
    decreases n
  {
    if k < n {
      TrajectoryPrefix(m, cmd, k, n - 1);
      assert Trajectory(m, cmd, n)[..n] == Trajectory(m, cmd, n - 1);
    }
  }

  /** A rollout of `n` steps reads only the first `2n` commands. */
  lemma {:induction false} TrajectoryReadsPrefix(m: MathFns, cmd1: seq<real>, cmd2: seq<real>, n: nat)
    requires 2 * n <= |cmd1| && 2 * n <= |cmd2| && cmd1[..2 * n] == cmd2[..2 * n]
    ensures Trajectory(m, cmd1, n) == Trajectory(m, cmd2, n)
  {
    if n > 0 {
      assert cmd1[..2 * (n - 1)] == cmd1[..2 * n][..2 * (n - 1)];
      assert cmd2[..2 * (n - 1)] == cmd2[..2 * n][..2 * (n - 1)];
      TrajectoryReadsPrefix(m, cmd1, cmd2, n - 1);
      assert cmd1[2 * (n - 1)] == cmd1[..2 * n][2 * (n - 1)];
      assert cmd1[2 * (n - 1) + 1] == cmd1[..2 * n][2 * (n - 1) + 1];
    }
  }

  /** Commands with zero velocity keep the car at its start pose. */
  lemma {:induction false} TrajectoryAtRest(m: MathFns, cmd: seq<real>, n: nat)
    requires 2 * n <= |cmd|
    requires forall i :: 0 <= i < n ==> cmd[2 * i] == 0.0
    ensures forall i :: 0 <= i <= n ==> Trajectory(m, cmd, n)[i] == StartPose
  {
    if n > 0 {
      TrajectoryAtRest(m, cmd, n - 1);
      TrajectoryPrefix(m, cmd, n - 1, n);
    }
  }

  // ----------------------------------------------------------------------------
  // Cost terms
  // ----------------------------------------------------------------------------

  /** The number of neighbouring horizon pairs of a command vector of length `len`. */
  function Pairs(len: nat): (k: nat)
    ensures len >= 2 ==> k + 1 == len / 2
    ensures len < 2 ==> k == 0
  {
    if len / 2 >= 1 then len / 2 - 1 else 0
  }

  /**
   * The sum over the first `k` neighbouring horizon pairs of |cmd[2i+off] - cmd[2i+off+2]|:
   * `off` 0 sums the velocity changes, `off` 1 the steer changes.
   */
  function SmoothSum(cmd: seq<real>, off: nat, k: nat): (r: real)
    requires k == 0 || 2 * k + off + 1 <= |cmd|
    ensures r >= 0.0
  {
    if k == 0 then 0.0
    else SmoothSum(cmd, off, k - 1) + Abs(cmd[2 * (k - 1) + off] - cmd[2 * (k - 1) + off + 2])
  }

  /** A smoothness sum vanishes exactly when the summed quantity never changes. */
  lemma {:induction false} SmoothSumZeroIff(cmd: seq<real>, off: nat, k: nat)
    requires k == 0 || 2 * k + off + 1 <= |cmd|
    ensures SmoothSum(cmd, off, k) == 0.0 <==>
      forall i :: 0 <= i < k ==> cmd[2 * i + off] == cmd[2 * i + off + 2]
  {
    if k > 0 {
      SmoothSumZeroIff(cmd, off, k - 1);
    }
  }

  /** The squared distance from the real position (x, y) to the pixel `p`. */
  function SqDistTo(p: Point, x: real, y: real): real
  {
    (x - p.row as real) * (x - p.row as real) + (y - p.col as real) * (y - p.col as real)
  }

  /** The least squared distance from (x, y) to a point of `data`. */
  function MinSqDist(data: seq<Point>, x: real, y: real): (d: real)
    requires |data| > 0
    ensures forall i :: 0 <= i < |data| ==> d <= SqDistTo(data[i], x, y)
    ensures exists i :: 0 <= i < |data| && d == SqDistTo(data[i], x, y)
  {
    if |data| == 1 then SqDistTo(data[0], x, y)
    else Min(MinSqDist(data[..|data| - 1], x, y), SqDistTo(data[|data| - 1], x, y))
  }

  /** A nearest-neighbour query: the Euclidean distance from (x, y) to the closest point. */
  function Query(m: MathFns, data: seq<Point>, x: real, y: real): real
    requires |data| > 0
  {
    m.sqrt(MinSqDist(data, x, y))
  }

  /** The summed distances of the predicted poses `t[1..n]` to the reference path. */
  function RefErrorSum(m: MathFns, data: seq<Point>, t: seq<Pose>, n: nat): real
    requires n < |t| && (n == 0 || |data| > 0)
  {
    if n == 0 then 0.0
    else RefErrorSum(m, data, t, n - 1) + Query(m, data, t[n].x, t[n].y)
  }

  /** The Euclidean length of the step from (x0, y0) to (x1, y1). */
  function StepLength(m: MathFns, x0: real, y0: real, x1: real, y1: real): real
  {
    m.sqrt((x1 - x0) * (x1 - x0) + (y1 - y0) * (y1 - y0))
  }

  /** The centripetal load of one horizon step with velocity `v` and steer angle `s`. */
  function Load(m: MathFns, v: real, s: real): real
  {
    v * m.tan(s)
  }

  /** The length of the polyline `t[0..n]`: the progress term. */
  function ArcLengthSum(m: MathFns, t: seq<Pose>, n: nat): real
    requires n < |t|
  {
    if n == 0 then 0.0
    else
      ArcLengthSum(m, t, n - 1) + StepLength(m, t[n - 1].x, t[n - 1].y, t[n].x, t[n].y)
  }

  /** The summed centripetal load v * tan(s) over the first `n` horizon steps. */
  function CentripetalSum(m: MathFns, cmd: seq<real>, n: nat): real
    requires 2 * n <= |cmd|
  {
    if n == 0 then 0.0
    else CentripetalSum(m, cmd, n - 1) + Load(m, cmd[2 * (n - 1)], cmd[2 * (n - 1) + 1])
  }

  /** The weighted predictive cost from its five terms. */
  function WeightedCost(refError: real, sumS: real, sumCent: real, sumAcc: real, sumDf: real): real
  {
    RefWeight * refError - ProgressWeight * sumS + CentripetalWeight * sumCent
    + AccWeight * sumAcc + SteerChangeWeight * sumDf
  }

  /** The cost rises strictly with the velocity changes and with the steer changes. */
  lemma WeightedCostMonotone(refError: real, sumS: real, sumCent: real, acc1: real, acc2: real, df1: real, df2: real)
    ensures acc1 < acc2 ==>
      WeightedCost(refError, sumS, sumCent, acc1, df1) < WeightedCost(refError, sumS, sumCent, acc2, df1)
    ensures df1 < df2 ==>
      WeightedCost(refError, sumS, sumCent, acc1, df1) < WeightedCost(refError, sumS, sumCent, acc1, df2)
    ensures acc1 - acc2 == 1.0 ==>
      WeightedCost(refError, sumS, sumCent, acc1, df1) - WeightedCost(refError, sumS, sumCent, acc2, df1) == AccWeight
  {
  }

  /** A reference path is needed unless the command vector holds no horizon step. */
  predicate CostDefined(data: seq<Point>, cmd: seq<real>)
  {
    |cmd| / 2 == 0 || |data| > 0
  }

  /** The cost of a command vector against the reference path `data`. */
  function Cost(m: MathFns, data: seq<Point>, cmd: seq<real>): real
    requires CostDefined(data, cmd)
  {
    var h := |cmd| / 2;
    var t := Trajectory(m, cmd, h);
    var k := Pairs(|cmd|);
    WeightedCost(RefErrorSum(m, data, t, h), ArcLengthSum(m, t, h), CentripetalSum(m, cmd, h),
                 SmoothSum(cmd, 0, k), SmoothSum(cmd, 1, k))
  }

  /** With constant velocity and constant steer the smoothness terms add nothing. */
  lemma CostOfSteadyPlan(m: MathFns, data: seq<Point>, cmd: seq<real>)
    requires CostDefined(data, cmd)
    requires forall i :: 0 <= i < |cmd| - 2 ==> cmd[i] == cmd[i + 2]
    ensures var h := |cmd| / 2; var t := Trajectory(m, cmd, h);
      Cost(m, data, cmd)
      == RefWeight * RefErrorSum(m, data, t, h) - ProgressWeight * ArcLengthSum(m, t, h)
         + CentripetalWeight * CentripetalSum(m, cmd, h)
  {
    var k := Pairs(|cmd|);
    SmoothSumZeroIff(cmd, 0, k);
    SmoothSumZeroIff(cmd, 1, k);
    assert forall i :: 0 <= i < k ==> cmd[2 * i] == cmd[2 * i + 2] by {
      forall i | 0 <= i < k ensures cmd[2 * i] == cmd[2 * i + 2] {
        assert 2 * i < |cmd| - 2;
      }
    }
    assert forall i :: 0 <= i < k ==> cmd[2 * i + 1] == cmd[2 * i + 1 + 2] by {
      forall i | 0 <= i < k ensures cmd[2 * i + 1] == cmd[2 * i + 1 + 2] {
        assert 2 * i + 1 < |cmd| - 2;
      }
    }
  }

  /** The objective handed to the optimiser. */
  function Objective(m: MathFns, data: seq<Point>): seq<real> -> real
    requires |data| > 0
  {
    cmd => Cost(m, data, cmd)
  }

  // ----------------------------------------------------------------------------
  // Initial guess and bounds
  // ----------------------------------------------------------------------------

  const InitCmd: seq<real> := [2.0, 0.0]
  const CmdBound: seq<Bound> := [Bound(0.5, 5.0), Bound(-Pi / 4.0, Pi / 4.0)]

  /** The initial guess for `n` horizon steps: velocity 2.0 and steer 0.0, interleaved. */
  function InitialCommand(n: nat): (c: seq<real>)
    ensures |c| == 2 * n
    ensures forall i :: 0 <= i < n ==> c[2 * i] == 2.0 && c[2 * i + 1] == 0.0
  {
    seq(2 * n, i requires 0 <= i < 2 * n => InitCmd[i % 2])
  }

  /** The box constraints for `n` horizon steps, interleaved like the commands. */
  function Bounds(n: nat): (b: seq<Bound>)
    ensures |b| == 2 * n
    ensures forall i :: 0 <= i < n ==> b[2 * i] == Bound(0.5, 5.0) && b[2 * i + 1] == Bound(-Pi / 4.0, Pi / 4.0)
  {
    seq(2 * n, i requires 0 <= i < 2 * n => CmdBound[i % 2])
  }

  /** `x` lies inside the box `b`. */
  predicate InBounds(x: seq<real>, b: seq<Bound>)
  {
    |x| == |b| && forall i :: 0 <= i < |x| ==> b[i].lo <= x[i] <= b[i].hi
  }

  /** The initial guess is feasible. */
  lemma InitialCommandFeasible(n: nat)
    ensures InBounds(InitialCommand(n), Bounds(n))
  {
    var c, b := InitialCommand(n), Bounds(n);
    forall i | 0 <= i < |c| ensures b[i].lo <= c[i] <= b[i].hi {
      if i % 2 == 0 {
        assert c[2 * (i / 2)] == 2.0 && b[2 * (i / 2)] == Bound(0.5, 5.0);
      } else {
        assert c[2 * (i / 2) + 1] == 0.0 && b[2 * (i / 2) + 1] == Bound(-Pi / 4.0, Pi / 4.0);
      }
    }
  }

  /** The initial guess is a steady plan: its smoothness terms vanish. */
  lemma InitialCommandSteady(n: nat)
    ensures SmoothSum(InitialCommand(n), 0, Pairs(2 * n)) == 0.0
    ensures SmoothSum(InitialCommand(n), 1, Pairs(2 * n)) == 0.0
  {
    var c, k := InitialCommand(n), Pairs(2 * n);
    SmoothSumZeroIff(c, 0, k);
    SmoothSumZeroIff(c, 1, k);
  }

  /** A steer angle within its bound normalises to a steering command in [-1, 1]. */
  lemma NormalisedSteer(s: real)
    requires -Pi / 4.0 <= s <= Pi / 4.0
    ensures -1.0 <= s / (Pi / 4.0) <= 1.0
  {
    var q := Pi / 4.0;
    assert s / q * q == s;
  }

  // ----------------------------------------------------------------------------
  // The controller object
  // ----------------------------------------------------------------------------

  /** The path data held by an optional spatial index (none without an index). */
  function TreeData(t: Option<KdTree>): seq<Point>
  {
    if t.Some? then t.value.data else []
  }

  class CarController {
    const math: MathFns
    var velocity: Option<seq<real>>
    var refLine: Option<seq<Point>>
    var refKdTree: Option<KdTree>
    /** (steering, throttle, brake), read by the environment after each step. */
    var action: seq<real>
    const forwardStep: nat := ForwardStep

    /** The action has three slots, and an index is only ever built over a nonempty path. */
    ghost predicate Valid()
      reads this
    {
      |action| == 3 && (refKdTree.Some? ==> |refKdTree.value.data| > 0)
    }

    constructor (m: MathFns)
      ensures Valid() && ActionValid(action)
      ensures math == m && velocity == None && refLine == None && refKdTree == None
      ensures action == [0.0, 0.0, 0.0] && forwardStep == ForwardStep
    {
      math := m;
      velocity := None;
      refLine := None;
      refKdTree := None;
      action := [0.0, 0.0, 0.0];
    }

    /** Take the new velocity and path; the index is rebuilt only for a nonempty path. */
    method FeedBack(v: seq<real>, r: seq<Point>)
      requires Valid()
      modifies this`velocity, this`refLine, this`refKdTree
      ensures Valid()
      ensures velocity == Some(v) && refLine == Some(r)
      ensures refKdTree == if |r| != 0 then Some(KdTree(r)) else old(refKdTree)
    {
      velocity := Some(v);
      refLine := Some(r);
      if |r| != 0 {
        refKdTree := Some(KdTree(r));
      }
    }

    /** Write throttle and brake for the target speed `refV`, leaving the steering alone. */
    method VelocityController(refV: real)
      requires Valid() && velocity.Some? && |velocity.value| >= 2
      modifies this`action
      ensures Valid()
      ensures var tb := SpeedLaw(refV, Speed(math, velocity.value));
        action == old(action)[1 := tb.0][2 := tb.1]
      ensures ActionValid(old(action)) ==> ActionValid(action)
    {
      var v := velocity.value;
      var vel := Speed(math, v);
      var vc := VelPd[0] * (refV - vel);
      vc := Min(1.0, vc);
      assert vc >= 0.0 <==> refV >= vel;
      if vc >= 0.0 {
        action := action[1 := vc];
        action := action[2 := 0.0];
      } else {
        vc := Max(-1.0, vc);
        action := action[1 := 0.0];
        action := action[2 := -vc];
      }
    }

    /**
     * Steer toward the look-ahead point of the path. A path whose look-ahead length is
     * exactly 2 makes the step spin forever; an empty path leaves the action alone.
     */
    method DirectionController() returns (o: Outcome)
      requires Valid() && refLine.Some?
      modifies this`action
      ensures Valid()
      ensures o == Spins <==> LookAhead(|refLine.value|) == 2
      ensures o == Spins || |refLine.value| == 0 ==> action == old(action)
      ensures o == Returned && |refLine.value| != 0 ==>
        action == old(action)[0 := SteerLaw(refLine.value[LookAhead(|refLine.value|) - 1].col)]
      ensures ActionValid(old(action)) ==> ActionValid(action)
    {
      var line := refLine.value;
      var foresee := LookAhead(|line|);
      if foresee == 2 {
        return Spins;
      }
      if foresee != 0 {
        var c0 := 0.1 * (line[foresee - 1].col - CenterCol) as real;
        c0 := Max(-1.0, c0);
        c0 := Min(1.0, c0);
        action := action[0 := c0];
      }
      return Returned;
    }

    /** Roll the kinematic model over the command pairs of `cmd` from the start pose. */
    method MpcForward(cmd: seq<real>) returns (px: seq<real>, py: seq<real>)
      ensures |px| == |cmd| / 2 && |py| == |cmd| / 2
      ensures forall i :: 0 <= i < |px| ==> px[i] == Trajectory(math, cmd, |cmd| / 2)[i + 1].x
      ensures forall i :: 0 <= i < |py| ==> py[i] == Trajectory(math, cmd, |cmd| / 2)[i + 1].y
    {
      var h := |cmd| / 2;
      ghost var t := Trajectory(math, cmd, h);
      px, py := [], [];
      var cur := StartPose;
      for i := 0 to h
        invariant |px| == i && |py| == i && cur == t[i]
        invariant forall k :: 0 <= k < i ==> px[k] == t[k + 1].x && py[k] == t[k + 1].y
      {
        var next := Kinematics(math, cur, cmd[2 * i], cmd[2 * i + 1]);
        px := px + [next.x];
        py := py + [next.y];
        cur := next;
      }
    }

    /** The velocity-change and steer-change sums over neighbouring horizon steps. */
    static method SmoothnessSums(cmd: seq<real>) returns (sumAcc: real, sumDf: real)
      ensures sumAcc == SmoothSum(cmd, 0, Pairs(|cmd|))
      ensures sumDf == SmoothSum(cmd, 1, Pairs(|cmd|))
    {
      sumAcc, sumDf := 0.0, 0.0;
      for i := 0 to Pairs(|cmd|)
        invariant sumAcc == SmoothSum(cmd, 0, i) && sumDf == SmoothSum(cmd, 1, i)
      {
        sumAcc := sumAcc + Abs(cmd[2 * i] - cmd[2 * i + 2]);
        sumDf := sumDf + Abs(cmd[2 * i + 1] - cmd[2 * i + 3]);
      }
    }

    /**
     * The tracking error, progress and centripetal sums of the predicted positions
     * (`preX`, `preY`) of `cmd` against the path `data`.
     */
    method TrackingSums(cmd: seq<real>, preX: seq<real>, preY: seq<real>, data: seq<Point>)
      returns (refError: real, sumS: real, sumCent: real)
      requires CostDefined(data, cmd) && |preX| == |cmd| / 2 && |preY| == |cmd| / 2
      requires forall i :: 0 <= i < |preX| ==> preX[i] == Trajectory(math, cmd, |cmd| / 2)[i + 1].x
      requires forall i :: 0 <= i < |preY| ==> preY[i] == Trajectory(math, cmd, |cmd| / 2)[i + 1].y
      ensures var t := Trajectory(math, cmd, |cmd| / 2);
        && refError == RefErrorSum(math, data, t, |cmd| / 2)
        && sumS == ArcLengthSum(math, t, |cmd| / 2)
        && sumCent == CentripetalSum(math, cmd, |cmd| / 2)
    {
      var h := |cmd| / 2;
      ghost var t := Trajectory(math, cmd, h);
      refError, sumS, sumCent := 0.0, 0.0, 0.0;
      var lastX, lastY := 65.0, 48.0;
      for i := 0 to h
        invariant lastX == t[i].x && lastY == t[i].y
        invariant refError == RefErrorSum(math, data, t, i)
        invariant sumS == ArcLengthSum(math, t, i)
        invariant sumCent == CentripetalSum(math, cmd, i)
      {
        var x, y := preX[i], preY[i];
        refError := refError + Query(math, data, x, y);
        sumS := sumS + StepLength(math, lastX, lastY, x, y);
        sumCent := sumCent + Load(math, cmd[2 * i], cmd[2 * i + 1]);
        lastX, lastY := x, y;
      }
    }

    /**
     * The cost of `cmd`. Without an index the first distance query fails, so there is
     * no cost for a command vector with at least one horizon step.
     */
    method MpcOptimizeFunc(cmd: seq<real>) returns (r: Option<real>)
      requires Valid()
      ensures r.None? <==> refKdTree.None? && |cmd| / 2 > 0
      ensures r.Some? ==> CostDefined(TreeData(refKdTree), cmd) && r.value == Cost(math, TreeData(refKdTree), cmd)
    {
      var preX, preY := MpcForward(cmd);
      var sumAcc, sumDf := SmoothnessSums(cmd);
      if |cmd| / 2 > 0 && refKdTree.None? {
        return None;
      }
      var refError, sumS, sumCent := TrackingSums(cmd, preX, preY, TreeData(refKdTree));
      return Some(WeightedCost(refError, sumS, sumCent, sumAcc, sumDf));
    }

    /**
     * One predictive control step: minimise the cost from the fixed initial guess
     * within the bounds, then apply the first horizon step. `solve` is the optimiser;
     * it returns a vector of the initial guess's length.
     */
    method MpcSolve(solve: (seq<real> -> real, seq<real>, seq<Bound>) -> seq<real>)
      requires Valid() && velocity.Some? && |velocity.value| >= 2 && refKdTree.Some?
      requires forall f, c, b :: |solve(f, c, b)| == |c|
      modifies this`action
      ensures Valid()
      ensures var x := solve(Objective(math, refKdTree.value.data), InitialCommand(forwardStep), Bounds(forwardStep));
        var tb := SpeedLaw(x[0], Speed(math, velocity.value));
        action == old(action)[0 := x[1] / (Pi / 4.0)][1 := tb.0][2 := tb.1]
      ensures var x := solve(Objective(math, refKdTree.value.data), InitialCommand(forwardStep), Bounds(forwardStep));
        InBounds(x, Bounds(forwardStep)) ==> ActionValid(action)
    {
      var cmd0 := InitialCommand(forwardStep);
      var bound := Bounds(forwardStep);
      var x := solve(Objective(math, refKdTree.value.data), cmd0, bound);
      assert |x| == 2 * ForwardStep;
      VelocityController(x[0]);
      action := action[0 := x[1] / (Pi / 4.0)];
      if InBounds(x, bound) {
        NormalisedSteer(x[1]);
      }
    }

    /** Dispatch one control step to the "PID" or the "MPC" strategy; any other name does nothing. */
    method ControlTask(controller: string, solve: (seq<real> -> real, seq<real>, seq<Bound>) -> seq<real>)
      returns (o: Outcome)
      requires Valid()
      requires controller == "PID" ==> velocity.Some? && |velocity.value| >= 2 && refLine.Some?
      requires controller == "MPC" ==> velocity.Some? && |velocity.value| >= 2 && refKdTree.Some?
      requires controller == "MPC" ==> forall f, c, b :: |solve(f, c, b)| == |c|
      modifies this`action
      ensures Valid()
      ensures controller != "PID" && controller != "MPC" ==> o == Returned && action == old(action)
      ensures controller == "PID" ==>
        var line := refLine.value;
        var tb := SpeedLaw(PidSpeed, Speed(math, velocity.value));
        var sped := old(action)[1 := tb.0][2 := tb.1];
        && (o == Spins <==> LookAhead(|line|) == 2)
        && (o == Spins || |line| == 0 ==> action == sped)
        && (o == Returned && |line| != 0 ==> action == sped[0 := SteerLaw(line[LookAhead(|line|) - 1].col)])
      ensures controller == "PID" && ActionValid(old(action)) ==> ActionValid(action)
      ensures controller == "MPC" ==> o == Returned
      ensures controller == "MPC" ==>
        var x := solve(Objective(math, refKdTree.value.data), InitialCommand(forwardStep), Bounds(forwardStep));
        var tb := SpeedLaw(x[0], Speed(math, velocity.value));
        action == old(action)[0 := x[1] / (Pi / 4.0)][1 := tb.0][2 := tb.1]
    {
      o := Returned;
      if controller == "PID" {
        VelocityController(PidSpeed);
        o := DirectionController();
      } else if controller == "MPC" {
        MpcSolve(solve);
      }
    }
  }
}
