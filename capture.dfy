/**
  The main loop of calib_camera_pose.py: each cycle detects the chessboard
  in both cameras, waits for a key, and dispatches the two capture commands.
  'a' stores T_baxter_to_chess; 'b' combines the stored transform with the
  depth camera's detection into T_arm_to_depth. Image transport, detection,
  drawing and the robot's pose queries are inputs; a file write is the
  step's outcome.
*/
module Capture {
  import opened Wrappers
  import opened Matrices
  import opened Transforms

  /** What `waitKeyPress(time_out=1.0)` returns: a key, or nothing once the second is up. */
  datatype Key = Timeout | Pressed(ch: char)

  /** One camera's `getChessboardPose` result: whether the board was found, then R and p. */
  datatype Detection = Detection(found: bool, r: Matrix, p: Vector)

  /**
    Where the robot transforms come from: the identity in debug mode
    (DEBUG_MODE), the robot's current poses, converted by pose2T, otherwise.
  */
  datatype RobotPoses = DebugIdentity | Live(baxterToColor: Matrix, baxterToArm: Matrix)

  /** Everything one pass of the loop consumes. */
  datatype Cycle = Cycle(detections: seq<Detection>, key: Key, robot: RobotPoses)

  /** What one pass of the command dispatch produces. */
  datatype Outcome =
    | NoCommand                      // any other key, or the timeout
    | SavedBaxterToChess(t: Matrix)  // 'a': T_baxter_to_chess, written to file_name1
    | SavedArmToDepth(t: Matrix)     // 'b' after an 'a': T_arm_to_depth, written to file_name2
    | CaptureAFirst                  // 'b' before any 'a': only the message is shown

  /** The stored T_baxter_to_chess after a dispatch, and what the dispatch produced. */
  datatype Transition = Transition(state: Option<Matrix>, outcome: Outcome)

  /** The stored state after a run of cycles, and what each cycle produced. */
  datatype History = History(state: Option<Matrix>, outcomes: seq<Outcome>)

  predicate ValidState(state: Option<Matrix>)
  {
    state.Some? ==> IsMatrix(state.value, 4, 4)
  }

  predicate WellFormedRobot(robot: RobotPoses)
  {
    robot.Live? ==> IsMatrix(robot.baxterToColor, 4, 4) && IsMatrix(robot.baxterToArm, 4, 4)
  }

  /** `Rs` and `ps` as the detection loop leaves them: one pose per camera, color first. */
  predicate WellFormedPoses(rs: seq<Matrix>, ps: seq<Vector>)
  {
    |rs| == 2 && |ps| == 2 && IsPose(rs[0], ps[0]) && IsPose(rs[1], ps[1])
  }

  predicate WellFormedCycle(c: Cycle)
  {
    |c.detections| == 2
    && IsPose(c.detections[0].r, c.detections[0].p)
    && IsPose(c.detections[1].r, c.detections[1].p)
    && WellFormedRobot(c.robot)
  }

  /** T_baxter_to_color: `np.identity(4)` in debug mode, the color camera's pose otherwise. */
  function BaxterToColor(robot: RobotPoses): (t: Matrix)
    requires WellFormedRobot(robot)
    ensures IsMatrix(t, 4, 4)
    ensures robot.DebugIdentity? ==> t == Identity(4)
    ensures robot.Live? ==> t == robot.baxterToColor
  {
    if robot.DebugIdentity? then Identity(4) else robot.baxterToColor
  }

  /** T_baxter_to_arm: `np.identity(4)` in debug mode, the pose of the depth camera's mount frame otherwise. */
  function BaxterToArm(robot: RobotPoses): (t: Matrix)
    requires WellFormedRobot(robot)
    ensures IsMatrix(t, 4, 4)
    ensures robot.DebugIdentity? ==> t == Identity(4)
    ensures robot.Live? ==> t == robot.baxterToArm
  {
    if robot.DebugIdentity? then Identity(4) else robot.baxterToArm
  }

  /** Command 'a': T_baxter_to_color · form_T(Rs[0], ps[0]). */
  function BaxterToChess(rs: seq<Matrix>, ps: seq<Vector>, robot: RobotPoses): (t: Matrix)
    requires |rs| > 0 && |ps| > 0 && IsPose(rs[0], ps[0]) && WellFormedRobot(robot)
    ensures IsMatrix(t, 4, 4)
  {
    Mul(BaxterToColor(robot), FormT(rs[0], ps[0]))
  }

  /** Command 'b': inv(T_baxter_to_arm) · T_baxter_to_chess · inv(form_T(Rs[1], ps[1])). */
  function ArmToDepth(baxterToChess: Matrix, rs: seq<Matrix>, ps: seq<Vector>, robot: RobotPoses): (t: Matrix)
    requires IsMatrix(baxterToChess, 4, 4) && |rs| > 1 && |ps| > 1 && IsPose(rs[1], ps[1]) && WellFormedRobot(robot)
    ensures IsMatrix(t, 4, 4)
  {
    Mul(Mul(RigidInverse(BaxterToArm(robot)), baxterToChess), RigidInverse(FormT(rs[1], ps[1])))
  }

  /** The `if c == 'a' ... elif c == 'b' ...` dispatch of one cycle. */
  function Dispatch(state: Option<Matrix>, key: Key, rs: seq<Matrix>, ps: seq<Vector>, robot: RobotPoses): (tr: Transition)
    requires ValidState(state) && WellFormedPoses(rs, ps) && WellFormedRobot(robot)
    ensures ValidState(tr.state)
    ensures key == Pressed('a') <==> tr.outcome.SavedBaxterToChess?
    ensures tr.outcome.SavedBaxterToChess? ==> tr.state == Some(tr.outcome.t)
    ensures key != Pressed('a') ==> tr.state == state
    ensures tr.outcome.SavedArmToDepth? ==> key == Pressed('b') && state.Some?
  {
    if key == Pressed('a') then
      var t := BaxterToChess(rs, ps, robot);
      Transition(Some(t), SavedBaxterToChess(t))
    else if key == Pressed('b') then
      if state.None? then Transition(state, CaptureAFirst)
      else Transition(state, SavedArmToDepth(ArmToDepth(state.value, rs, ps, robot)))
    else
      Transition(state, NoCommand)
  }

  function Rotations(ds: seq<Detection>): (rs: seq<Matrix>)
    ensures |rs| == |ds|
  {
    seq(|ds|, i requires 0 <= i < |ds| => ds[i].r)
  }

  function Translations(ds: seq<Detection>): (ps: seq<Vector>)
    ensures |ps| == |ds|
  {
    seq(|ds|, i requires 0 <= i < |ds| => ds[i].p)
  }

  /** One whole cycle: the poses of this cycle's detections, then the dispatch. */
  function DispatchCycle(state: Option<Matrix>, c: Cycle): (tr: Transition)
    requires ValidState(state) && WellFormedCycle(c)
    ensures ValidState(tr.state)
  {
    Dispatch(state, c.key, Rotations(c.detections), Translations(c.detections), c.robot)
  }

  /** The loop run over a sequence of cycles, from a given stored state. */
  function Trace(state: Option<Matrix>, cycles: seq<Cycle>): (h: History)
    requires ValidState(state) && forall i :: 0 <= i < |cycles| ==> WellFormedCycle(cycles[i])
    ensures ValidState(h.state) && |h.outcomes| == |cycles|
    decreases |cycles|
  {
    if |cycles| == 0 then History(state, [])
    else
      var h := Trace(state, cycles[..|cycles| - 1]);
      var tr := DispatchCycle(h.state, cycles[|cycles| - 1]);
      History(tr.state, h.outcomes + [tr.outcome])
  }

  /** Command 'a' stores, and saves, T_baxter_to_color · T_color_to_chess, whatever was stored before. */
  lemma CaptureAOverwrites(state: Option<Matrix>, rs: seq<Matrix>, ps: seq<Vector>, robot: RobotPoses)
    requires ValidState(state) && WellFormedPoses(rs, ps) && WellFormedRobot(robot)
    ensures Dispatch(state, Pressed('a'), rs, ps, robot)
      == Transition(Some(BaxterToChess(rs, ps, robot)), SavedBaxterToChess(BaxterToChess(rs, ps, robot)))
  {
  }

  /** In debug mode the stored transform is the color camera's chessboard pose itself. */
  lemma CaptureAInDebugMode(state: Option<Matrix>, rs: seq<Matrix>, ps: seq<Vector>)
    requires ValidState(state) && WellFormedPoses(rs, ps)
    ensures Dispatch(state, Pressed('a'), rs, ps, DebugIdentity).state == Some(FormT(rs[0], ps[0]))
  {
    MulIdentityLeft(FormT(rs[0], ps[0]));
  }

  /** Of two 'a' commands in a row only the second one's result stays stored. */
  lemma SecondCaptureWins(state: Option<Matrix>, rs1: seq<Matrix>, ps1: seq<Vector>, robot1: RobotPoses,
                          rs2: seq<Matrix>, ps2: seq<Vector>, robot2: RobotPoses)
    requires ValidState(state) && WellFormedPoses(rs1, ps1) && WellFormedRobot(robot1)
    requires WellFormedPoses(rs2, ps2) && WellFormedRobot(robot2)
    ensures Dispatch(Dispatch(state, Pressed('a'), rs1, ps1, robot1).state, Pressed('a'), rs2, ps2, robot2).state
      == Some(BaxterToChess(rs2, ps2, robot2))
  {
  }

  /** Command 'b' before any 'a' keeps the state unset and saves nothing: only the message. */
  lemma CaptureBNeedsCaptureA(rs: seq<Matrix>, ps: seq<Vector>, robot: RobotPoses)
    requires WellFormedPoses(rs, ps) && WellFormedRobot(robot)
    ensures Dispatch(None, Pressed('b'), rs, ps, robot) == Transition(None, CaptureAFirst)
  {
  }

  /** Command 'b' after an 'a' saves T_arm_to_depth and leaves the stored transform alone. */
  lemma CaptureBKeepsState(t: Matrix, rs: seq<Matrix>, ps: seq<Vector>, robot: RobotPoses)
    requires IsMatrix(t, 4, 4) && WellFormedPoses(rs, ps) && WellFormedRobot(robot)
    ensures Dispatch(Some(t), Pressed('b'), rs, ps, robot) == Transition(Some(t), SavedArmToDepth(ArmToDepth(t, rs, ps, robot)))
  {
  }

  /** Any other key, and the timeout, change nothing and save nothing. */
  lemma OtherKeysDoNothing(state: Option<Matrix>, key: Key, rs: seq<Matrix>, ps: seq<Vector>, robot: RobotPoses)
    requires ValidState(state) && WellFormedPoses(rs, ps) && WellFormedRobot(robot)
    requires key != Pressed('a') && key != Pressed('b')
    ensures Dispatch(state, key, rs, ps, robot) == Transition(state, NoCommand)
  {
  }

  /**
    T_arm_to_depth closes the kinematic chain: going from the robot base to
    the arm frame, then to the depth camera, then to the chessboard gives
    the stored T_baxter_to_chess back.
  */
  lemma ArmToDepthClosesChain(baxterToChess: Matrix, rs: seq<Matrix>, ps: seq<Vector>, robot: RobotPoses)
    requires IsMatrix(baxterToChess, 4, 4) && WellFormedPoses(rs, ps) && WellFormedRobot(robot)
    requires IsRigid(BaxterToArm(robot)) && IsOrthonormal(rs[1])
    ensures Mul(Mul(BaxterToArm(robot), ArmToDepth(baxterToChess, rs, ps, robot)), FormT(rs[1], ps[1])) == baxterToChess
  {
    var a, f := BaxterToArm(robot), FormT(rs[1], ps[1]);
    var ai, fi := RigidInverse(a), RigidInverse(f);
    FormTBlocks(rs[1], ps[1]);
    calc {
      Mul(Mul(a, Mul(Mul(ai, baxterToChess), fi)), f);
      { MulAssociative(a, Mul(Mul(ai, baxterToChess), fi), f); }
      Mul(a, Mul(Mul(Mul(ai, baxterToChess), fi), f));
      { MulAssociative(Mul(ai, baxterToChess), fi, f); }
      Mul(a, Mul(Mul(ai, baxterToChess), Mul(fi, f)));
      { RigidInverseLeft(f); MulIdentityRight(Mul(ai, baxterToChess)); }
      Mul(a, Mul(ai, baxterToChess));
      { MulAssociative(a, ai, baxterToChess); }
      Mul(Mul(a, ai), baxterToChess);
      { RigidInverseRight(a); MulIdentityLeft(baxterToChess); }
      baxterToChess;
    }
  }

  /**
    Debug mode with both topics on one camera: when both detections give
    the same rigid pose, 'a' followed by 'b' saves the 4x4 identity.
  */
  lemma DebugCaptureCancels(state: Option<Matrix>, r: Matrix, p: Vector)
    requires ValidState(state) && IsPose(r, p) && IsOrthonormal(r)
    ensures var rs, ps := [r, r], [p, p];
      var afterA := Dispatch(state, Pressed('a'), rs, ps, DebugIdentity);
      Dispatch(afterA.state, Pressed('b'), rs, ps, DebugIdentity).outcome == SavedArmToDepth(Identity(4))
  {
    var rs, ps := [r, r], [p, p];
    var f := FormT(r, p);
    CaptureAInDebugMode(state, rs, ps);
    FormTBlocks(r, p);
    RigidInverseOfIdentity();
    MulIdentityLeft(f);
    RigidInverseRight(f);
  }

  /**
    Both cameras coincide and see the board one metre straight ahead, in
    debug mode: 'a' stores form_T(I, (0, 0, 1)) and 'b' then saves the identity.
  */
  lemma CoincidentCamerasScenario()
    ensures var rs, ps := [Identity(3), Identity(3)], [[0.0, 0.0, 1.0], [0.0, 0.0, 1.0]];
      var afterA := Dispatch(None, Pressed('a'), rs, ps, DebugIdentity);
      && afterA.state == Some(FormT(Identity(3), [0.0, 0.0, 1.0]))
      && Dispatch(afterA.state, Pressed('b'), rs, ps, DebugIdentity).outcome == SavedArmToDepth(Identity(4))
  {
    var rs, ps := [Identity(3), Identity(3)], [[0.0, 0.0, 1.0], [0.0, 0.0, 1.0]];
    IdentityIsOrthonormal();
    CaptureAInDebugMode(None, rs, ps);
    DebugCaptureCancels(None, Identity(3), [0.0, 0.0, 1.0]);
  }

  /** A run without any 'a' leaves the stored transform as it was. */
  lemma {:induction false} TraceWithoutCaptureKeepsState(state: Option<Matrix>, cycles: seq<Cycle>)
    requires ValidState(state) && forall i :: 0 <= i < |cycles| ==> WellFormedCycle(cycles[i])
    requires forall i :: 0 <= i < |cycles| ==> cycles[i].key != Pressed('a')
    ensures Trace(state, cycles).state == state
    decreases |cycles|
  {
    if |cycles| > 0 {
      var n := |cycles|;
      var init := cycles[..n - 1];
      assert forall i :: 0 <= i < n - 1 ==> init[i] == cycles[i];
      TraceWithoutCaptureKeepsState(state, init);
    }
  }

  /** After a run, the store holds what the run's last 'a' computed. */
  lemma {:induction false} TraceKeepsLastCapture(state: Option<Matrix>, cycles: seq<Cycle>, i: nat)
    requires ValidState(state) && forall k :: 0 <= k < |cycles| ==> WellFormedCycle(cycles[k])
    requires i < |cycles| && cycles[i].key == Pressed('a')
    requires forall k :: i < k < |cycles| ==> cycles[k].key != Pressed('a')
    ensures Trace(state, cycles).state
      == Some(BaxterToChess(Rotations(cycles[i].detections), Translations(cycles[i].detections), cycles[i].robot))
    decreases |cycles|
  {
    var n := |cycles|;
    var init := cycles[..n - 1];
    assert forall k :: 0 <= k < n - 1 ==> init[k] == cycles[k];
    if i < n - 1 {
      TraceKeepsLastCapture(state, init, i);
    }
  }

  /** Outcome j of a run is the dispatch of cycle j on the state left by the cycles before it. */
  lemma {:induction false} TraceOutcomeAt(state: Option<Matrix>, cycles: seq<Cycle>, j: nat)
    requires ValidState(state) && forall k :: 0 <= k < |cycles| ==> WellFormedCycle(cycles[k])
    requires j < |cycles|
    ensures Trace(state, cycles).outcomes[j] == DispatchCycle(Trace(state, cycles[..j]).state, cycles[j]).outcome
    decreases |cycles|
  {
    var n := |cycles|;
    var init := cycles[..n - 1];
    assert forall k :: 0 <= k < n - 1 ==> init[k] == cycles[k];
    if j < n - 1 {
      TraceOutcomeAt(state, init, j);
      assert init[..j] == cycles[..j];
    } else {
      assert init == cycles[..j];
    }
  }

  /**
    A 'b' in cycle j saves ArmToDepth of whatever the last 'a' before it
    stored, however many cycles ago, with cycle j's own depth detection and
    arm pose.
  */
  lemma CaptureBUsesLastCapture(state: Option<Matrix>, cycles: seq<Cycle>, i: nat, j: nat)
    requires ValidState(state) && forall k :: 0 <= k < |cycles| ==> WellFormedCycle(cycles[k])
    requires i < j < |cycles| && cycles[i].key == Pressed('a') && cycles[j].key == Pressed('b')
    requires forall k :: i < k < j ==> cycles[k].key != Pressed('a')
    ensures var ci, cj := cycles[i], cycles[j];
      Trace(state, cycles).outcomes[j] == SavedArmToDepth(ArmToDepth(
        BaxterToChess(Rotations(ci.detections), Translations(ci.detections), ci.robot),
        Rotations(cj.detections), Translations(cj.detections), cj.robot))
  {
    TraceOutcomeAt(state, cycles, j);
    var before := cycles[..j];
    assert forall k :: 0 <= k < j ==> before[k] == cycles[k];
    TraceKeepsLastCapture(state, before, i);
  }

  /** The stored transform, when there is one, has bottom row [0, 0, 0, 1]. */
  predicate HomogeneousState(state: Option<Matrix>)
  {
    state.Some? ==> IsHomogeneous(state.value)
  }

  /** The stored transform, when there is one, is rigid. */
  predicate RigidState(state: Option<Matrix>)
  {
    state.Some? ==> IsRigid(state.value)
  }

  /** A saved transform, if the outcome has one, is homogeneous. */
  predicate HomogeneousOutcome(o: Outcome)
  {
    (o.SavedBaxterToChess? || o.SavedArmToDepth?) ==> IsHomogeneous(o.t)
  }

  /** A saved transform, if the outcome has one, is rigid. */
  predicate RigidOutcome(o: Outcome)
  {
    (o.SavedBaxterToChess? || o.SavedArmToDepth?) ==> IsRigid(o.t)
  }

  /** The robot reports homogeneous transforms for both frames. */
  predicate HomogeneousRobot(robot: RobotPoses)
    requires WellFormedRobot(robot)
  {
    IsHomogeneous(BaxterToColor(robot)) && IsHomogeneous(BaxterToArm(robot))
  }

  /** The robot reports rigid transforms for both frames. */
  predicate RigidRobot(robot: RobotPoses)
    requires WellFormedRobot(robot)
  {
    IsRigid(BaxterToColor(robot)) && IsRigid(BaxterToArm(robot))
  }

  /**
    With homogeneous robot poses, a dispatch keeps the stored transform
    homogeneous, and whatever it saves, T_baxter_to_chess or T_arm_to_depth,
    is homogeneous too.
  */
  lemma DispatchKeepsHomogeneous(state: Option<Matrix>, key: Key, rs: seq<Matrix>, ps: seq<Vector>, robot: RobotPoses)
    requires ValidState(state) && WellFormedPoses(rs, ps) && WellFormedRobot(robot)
    requires HomogeneousState(state) && HomogeneousRobot(robot)
    ensures HomogeneousState(Dispatch(state, key, rs, ps, robot).state)
    ensures HomogeneousOutcome(Dispatch(state, key, rs, ps, robot).outcome)
  {
    if key == Pressed('a') {
      FormTBlocks(rs[0], ps[0]);
      MulHomogeneous(BaxterToColor(robot), FormT(rs[0], ps[0]));
    } else if key == Pressed('b') && state.Some? {
      var ai, fi := RigidInverse(BaxterToArm(robot)), RigidInverse(FormT(rs[1], ps[1]));
      MulHomogeneous(ai, state.value);
      MulHomogeneous(Mul(ai, state.value), fi);
    }
  }

  /**
    With rigid robot poses and orthonormal detected rotations for the
    camera the key uses, a dispatch keeps the stored transform rigid, and
    whatever it saves is rigid.
  */
  lemma DispatchKeepsRigid(state: Option<Matrix>, key: Key, rs: seq<Matrix>, ps: seq<Vector>, robot: RobotPoses)
    requires ValidState(state) && WellFormedPoses(rs, ps) && WellFormedRobot(robot)
    requires RigidState(state) && RigidRobot(robot)
    requires key == Pressed('a') ==> IsOrthonormal(rs[0])
    requires key == Pressed('b') ==> IsOrthonormal(rs[1])
    ensures RigidState(Dispatch(state, key, rs, ps, robot).state)
    ensures RigidOutcome(Dispatch(state, key, rs, ps, robot).outcome)
  {
    if key == Pressed('a') {
      FormTBlocks(rs[0], ps[0]);
      MulRigid(BaxterToColor(robot), FormT(rs[0], ps[0]));
    } else if key == Pressed('b') && state.Some? {
      var f := FormT(rs[1], ps[1]);
      FormTBlocks(rs[1], ps[1]);
      var ai, fi := RigidInverse(BaxterToArm(robot)), RigidInverse(f);
      RigidInverseRigid(BaxterToArm(robot));
      RigidInverseRigid(f);
      MulRigid(ai, state.value);
      MulRigid(Mul(ai, state.value), fi);
    }
  }

  /** The conditions of DispatchKeepsRigid for one cycle. */
  predicate RigidCycle(c: Cycle)
    requires WellFormedCycle(c)
  {
    RigidRobot(c.robot)
    && (c.key == Pressed('a') ==> IsOrthonormal(c.detections[0].r))
    && (c.key == Pressed('b') ==> IsOrthonormal(c.detections[1].r))
  }

  /** Over a run with homogeneous robot poses, the store and every saved transform stay homogeneous. */
  lemma {:induction false} TraceKeepsHomogeneous(state: Option<Matrix>, cycles: seq<Cycle>)
    requires ValidState(state) && forall k :: 0 <= k < |cycles| ==> WellFormedCycle(cycles[k])
    requires HomogeneousState(state) && forall k :: 0 <= k < |cycles| ==> WellFormedCycle(cycles[k]) && HomogeneousRobot(cycles[k].robot)
    ensures HomogeneousState(Trace(state, cycles).state)
    ensures forall k :: 0 <= k < |cycles| ==> HomogeneousOutcome(Trace(state, cycles).outcomes[k])
    decreases |cycles|
  {
    if |cycles| > 0 {
      var n := |cycles|;
      var init := cycles[..n - 1];
      assert forall k :: 0 <= k < n - 1 ==> init[k] == cycles[k];
      TraceKeepsHomogeneous(state, init);
      var c := cycles[n - 1];
      DispatchKeepsHomogeneous(Trace(state, init).state, c.key, Rotations(c.detections), Translations(c.detections), c.robot);
    }
  }

  /** Over a run whose cycles meet RigidCycle, the store and every saved transform stay rigid. */
  lemma {:induction false} TraceKeepsRigid(state: Option<Matrix>, cycles: seq<Cycle>)
    requires ValidState(state) && forall k :: 0 <= k < |cycles| ==> WellFormedCycle(cycles[k])
    requires RigidState(state) && forall k :: 0 <= k < |cycles| ==> WellFormedCycle(cycles[k]) && RigidCycle(cycles[k])
    ensures RigidState(Trace(state, cycles).state)
    ensures forall k :: 0 <= k < |cycles| ==> RigidOutcome(Trace(state, cycles).outcomes[k])
    decreases |cycles|
  {
    if |cycles| > 0 {
      var n := |cycles|;
      var init := cycles[..n - 1];
      assert forall k :: 0 <= k < n - 1 ==> init[k] == cycles[k];
      TraceKeepsRigid(state, init);
      var c := cycles[n - 1];
      DispatchKeepsRigid(Trace(state, init).state, c.key, Rotations(c.detections), Translations(c.detections), c.robot);
    }
  }

  /** A run that starts unset and never sees 'a' saves no T_arm_to_depth. */
  lemma {:induction false} NoArmToDepthWithoutCapture(cycles: seq<Cycle>)
    requires forall i :: 0 <= i < |cycles| ==> WellFormedCycle(cycles[i])
    requires forall i :: 0 <= i < |cycles| ==> cycles[i].key != Pressed('a')
    ensures Trace(None, cycles).state == None
    ensures forall i :: 0 <= i < |cycles| ==> !Trace(None, cycles).outcomes[i].SavedArmToDepth?
    decreases |cycles|
  {
    if |cycles| > 0 {
      var n := |cycles|;
      var init := cycles[..n - 1];
      assert forall i :: 0 <= i < n - 1 ==> init[i] == cycles[i];
      NoArmToDepthWithoutCapture(init);
    }
  }

  /** The calibration session: the one piece of state the loop keeps across cycles. */
  class CalibrationSession {
    /** T_baxter_to_chess, `None` until the first 'a'. */
    var baxterToChess: Option<Matrix>

    ghost predicate Valid()
      reads this
    {
      ValidState(baxterToChess)
    }

    constructor ()
      ensures Valid() && baxterToChess == None
    {
      baxterToChess := None;
    }

    /** The `for i in range(2)` loop: one R and one p per camera, whether or not the board was found. */
    static method CollectPoses(detections: seq<Detection>) returns (rs: seq<Matrix>, ps: seq<Vector>)
      ensures |rs| == |detections| && |ps| == |detections|
      ensures forall i :: 0 <= i < |detections| ==> rs[i] == detections[i].r && ps[i] == detections[i].p
    {
      rs, ps := [], [];
      for i := 0 to |detections|
        invariant |rs| == i && |ps| == i
        invariant forall k :: 0 <= k < i ==> rs[k] == detections[k].r && ps[k] == detections[k].p
      {
        rs := rs + [detections[i].r];
        ps := ps + [detections[i].p];
      }
    }

    /** One command dispatch of the main loop. */
    method Step(key: Key, rs: seq<Matrix>, ps: seq<Vector>, robot: RobotPoses) returns (outcome: Outcome)
      requires Valid() && WellFormedPoses(rs, ps) && WellFormedRobot(robot)
      modifies this
      ensures Valid()
      ensures Transition(baxterToChess, outcome) == Dispatch(old(baxterToChess), key, rs, ps, robot)
    {
      if key == Pressed('a') {
        var colorToChess := FormT(rs[0], ps[0]);
        var baxterToColor := BaxterToColor(robot);
        var t := Mul(baxterToColor, colorToChess);
        baxterToChess := Some(t);
        outcome := SavedBaxterToChess(t);
      } else if key == Pressed('b') {
        if baxterToChess == None {
          outcome := CaptureAFirst;
        } else {
          var depthToChess := FormT(rs[1], ps[1]);
          var baxterToArm := BaxterToArm(robot);
          var chessToDepth := RigidInverse(depthToChess);
          var armToBaxter := RigidInverse(baxterToArm);
          outcome := SavedArmToDepth(Mul(Mul(armToBaxter, baxterToChess.value), chessToDepth));
        }
      } else {
        outcome := NoCommand;
      }
    }

    /** The `while not rospy.is_shutdown()` loop, over the cycles that happen before shutdown. */
    method Run(cycles: seq<Cycle>) returns (outcomes: seq<Outcome>)
      requires Valid() && forall i :: 0 <= i < |cycles| ==> WellFormedCycle(cycles[i])
      modifies this
      ensures Valid()
      ensures History(baxterToChess, outcomes) == Trace(old(baxterToChess), cycles)
    {
      outcomes := [];
      var i := 0;
      while i < |cycles|
        invariant 0 <= i <= |cycles|
        invariant Valid()
        invariant History(baxterToChess, outcomes) == Trace(old(baxterToChess), cycles[..i])
      {
        var c := cycles[i];
        var rs, ps := CollectPoses(c.detections);
        assert rs == Rotations(c.detections) && ps == Translations(c.detections);
        var outcome := Step(c.key, rs, ps, c.robot);
        outcomes := outcomes + [outcome];
        assert cycles[..i + 1][..i] == cycles[..i];
        i := i + 1;
      }
      assert cycles[..|cycles|] == cycles;
    }
  }
}
