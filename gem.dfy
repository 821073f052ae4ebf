/** One interactive gem (the Diamond and Radiant components are the same
    controller with a different resting rotation and base position): the eased
    rotation transition started whenever `isSelected` changes, and the
    per-frame step that lifts the gem, spins it, steers the camera and saves
    the camera pose on the first selected frame. */
module Gem {
  import opened Common
  import opened Vectors
  import opened Easing
  import opened CameraRig

  /** A rotation transition lasts 1.5 s; its clock runs in seconds. */
  const TransitionSeconds: real := 1.5
  /** How far a selected gem rises above its base position. */
  const MaxLift: real := 0.2
  const EasingFactor: real := 0.15
  const RiseSpeed: real := 7.5
  /** The share of the remaining gap the camera covers on each selected frame. */
  const FocusLerp: real := 0.1

  /** The resting rotations and base positions App gives the two gems. */
  const DiamondResting := Vec3(0.0, 0.0, 0.715)
  const RadiantResting := Vec3(0.0, 0.0, 0.8)
  const DiamondBase := Vec3(0.0, -0.175 + 0.5, 0.0)
  const RadiantBase := Vec3(0.0, -0.175 + 0.2, -3.5)

  // ---------------------------------------------------------------------------
  // The rotation transition

  /** Where a rotation transition heads: upright when selected, the gem's
      resting rotation otherwise. */
  function RotationTarget(selected: bool, resting: Vec3): (r: Vec3)
    ensures selected ==> r == Zero
    ensures !selected ==> r == resting
  {
    if selected then Zero else resting
  }

  /** Seconds between two millisecond timestamps. */
  function ElapsedSeconds(start: real, time: real): real {
    (time - start) / 1000.0
  }

  /** The rotation a transition from `from` to `to` shows `elapsed` seconds
      after its first frame: each Euler component eased by cubicEaseInOut of
      the clamped progress. */
  function RotationAt(from: Vec3, to: Vec3, elapsed: real): Vec3 {
    Lerp(from, to, CubicEaseInOut(Progress(elapsed, TransitionSeconds)))
  }

  /** On its first frame a transition shows exactly the rotation it started from. */
  lemma RotationStartsAtInitial(from: Vec3, to: Vec3)
    ensures RotationAt(from, to, 0.0) == from
  {
    assert Progress(0.0, TransitionSeconds) == 0.0;
    EaseInOutEndpoints();
    LerpEndpoints(from, to);
  }

  /** From 1.5 s on, a transition shows exactly its target rotation. */
  lemma RotationEndsAtTarget(from: Vec3, to: Vec3, elapsed: real)
    requires elapsed >= TransitionSeconds
    ensures RotationAt(from, to, elapsed) == to
  {
    var p := Progress(elapsed, TransitionSeconds);
    assert p == 1.0;
    EaseInOutEndpoints();
    assert CubicEaseInOut(p) == 1.0;
    LerpEndpoints(from, to);
  }

  /** No frame of a transition overshoots: each component lies between its
      initial value and its target. */
  lemma RotationNoOvershoot(from: Vec3, to: Vec3, elapsed: real)
    requires elapsed >= 0.0
    ensures VecBetween(from, to, RotationAt(from, to, elapsed))
  {
    EaseBounds(Progress(elapsed, TransitionSeconds));
    LerpNoOvershoot(from, to, CubicEaseInOut(Progress(elapsed, TransitionSeconds)));
  }

  /** As time goes on a transition only gets closer to its target, component by component. */
  lemma RotationApproachesTarget(from: Vec3, to: Vec3, e1: real, e2: real)
    requires 0.0 <= e1 <= e2
    ensures Abs(RotationAt(from, to, e2).x - to.x) <= Abs(RotationAt(from, to, e1).x - to.x)
    ensures Abs(RotationAt(from, to, e2).y - to.y) <= Abs(RotationAt(from, to, e1).y - to.y)
    ensures Abs(RotationAt(from, to, e2).z - to.z) <= Abs(RotationAt(from, to, e1).z - to.z)
  {
    var p1, p2 := Progress(e1, TransitionSeconds), Progress(e2, TransitionSeconds);
    assert p1 <= p2 by {
      assert e1 / TransitionSeconds <= e2 / TransitionSeconds;
    }
    EaseInOutMonotone(p1, p2);
    EaseBounds(p1);
    EaseBounds(p2);
    var k1, k2 := CubicEaseInOut(p1), CubicEaseInOut(p2);
    LerpScalarCloser(from.x, to.x, k1, k2);
    LerpScalarCloser(from.y, to.y, k1, k2);
    LerpScalarCloser(from.z, to.z, k1, k2);
  }

  // ---------------------------------------------------------------------------
  // The lift

  /** The height a gem is pulled towards: MaxLift above its base when selected, its base otherwise. */
  function LiftTarget(baseY: real, selected: bool): (r: real)
    ensures baseY <= r <= baseY + MaxLift
    ensures r == baseY + MaxLift <==> selected
  {
    if selected then baseY + MaxLift else baseY
  }

  /** The combined rate of the lift, 0.15 * 7.5 per second. */
  const LiftRate: real := EasingFactor * RiseSpeed

  /** One frame of the lift: the height moves by `delta * 1.125` of its
      distance to the target, so the remaining gap is scaled by `1 - 1.125 * delta`. */
  function LiftStep(y: real, target: real, delta: real): (r: real)
    ensures r - target == (1.0 - LiftRate * delta) * (y - target)
  {
    assert (target - y) * EasingFactor * delta * RiseSpeed == (target - y) * (LiftRate * delta);
    y + (target - y) * EasingFactor * delta * RiseSpeed
  }

  /** A frame no longer than 1/1.125 s never carries the gem past its target,
      and a frame of positive length strictly closes the gap. */
  lemma LiftNoOvershoot(y: real, target: real, delta: real)
    requires 0.0 < LiftRate * delta <= 1.0
    ensures Between(y, target, LiftStep(y, target, delta))
    ensures Abs(LiftStep(y, target, delta) - target) <= Abs(y - target)
    ensures y != target ==> Abs(LiftStep(y, target, delta) - target) < Abs(y - target)
  {
    var k := LiftRate * delta;
    assert LiftStep(y, target, delta) == LerpScalar(y, target, k);
    LerpScalarNoOvershoot(y, target, k);
    var g := y - target;
    assert LiftStep(y, target, delta) - target == (1.0 - k) * g;
    if g > 0.0 {
      assert 0.0 <= (1.0 - k) * g < g;
    } else if g < 0.0 {
      assert g < (1.0 - k) * g <= 0.0;
    }
  }

  /** For a gem that is off its target, a frame keeps it on its side of the
      target exactly when 1.125 * delta <= 1; a longer frame carries it past. */
  lemma LiftOvershootIff(y: real, target: real, delta: real)
    requires delta > 0.0 && y != target
    ensures Between(y, target, LiftStep(y, target, delta)) <==> LiftRate * delta <= 1.0
  {
    var k := LiftRate * delta;
    var g := y - target;
    var r := LiftStep(y, target, delta);
    if k <= 1.0 {
      LiftNoOvershoot(y, target, delta);
    } else {
      assert r - target == -((k - 1.0) * g);
      if g > 0.0 {
        MulPositive(k - 1.0, g);
        assert r < target < y;
      } else {
        MulPositive(k - 1.0, -g);
        assert (k - 1.0) * -g == -((k - 1.0) * g);
        assert y < target < r;
      }
    }
  }

  /** The height after frames of the given lengths, all pulled towards one target. */
  function LiftRun(y: real, target: real, deltas: seq<real>): real
    decreases |deltas|
  {
    if deltas == [] then y else LiftRun(LiftStep(y, target, deltas[0]), target, deltas[1..])
  }

  /** While every frame is at most 1/1.125 s long, the gem never passes its
      target and never moves away from it, however many frames run. */
  lemma {:induction false} LiftRunNoOvershoot(y: real, target: real, deltas: seq<real>)
    requires forall i :: 0 <= i < |deltas| ==> 0.0 < LiftRate * deltas[i] <= 1.0
    ensures Between(y, target, LiftRun(y, target, deltas))
    ensures Abs(LiftRun(y, target, deltas) - target) <= Abs(y - target)
    decreases |deltas|
  {
    if deltas != [] {
      var next := LiftStep(y, target, deltas[0]);
      LiftNoOvershoot(y, target, deltas[0]);
      LiftRunNoOvershoot(next, target, deltas[1..]);
      BetweenNarrows(y, target, next, LiftRun(next, target, deltas[1..]));
    }
  }

  // ---------------------------------------------------------------------------
  // The camera while a gem is selected

  /** Where the camera heads while this gem is selected: level with the
      raised gem, 4.5 to its left and 5 in front of it. */
  function FocusPosition(base: Vec3): (r: Vec3)
    ensures r.y == FocusLookAt(base).y
    ensures r.x == FocusLookAt(base).x - 4.5 && r.z == FocusLookAt(base).z + 5.0
  {
    Vec3(base.x - 4.5, base.y + MaxLift, base.z + 5.0)
  }

  /** The point the camera looks at while this gem is selected: the gem at
      its raised height. */
  function FocusLookAt(base: Vec3): (r: Vec3)
    ensures r.x == base.x && r.z == base.z
    ensures r.y == LiftTarget(base.y, true)
  {
    Vec3(base.x, base.y + MaxLift, base.z)
  }

  /** The camera position after `n` selected frames towards `target`. */
  function FocusRun(c: Vec3, target: Vec3, n: nat): Vec3 {
    if n == 0 then c else Lerp(FocusRun(c, target, n - 1), target, FocusLerp)
  }

  /** After n selected frames the camera's gap to the focus position is 0.9^n
      of what it was, whatever the frames' lengths: the approach is counted in
      frames, not in seconds. */
  lemma {:induction false} FocusRunGap(c: Vec3, target: Vec3, n: nat)
    ensures FocusRun(c, target, n).x - target.x == Pow(1.0 - FocusLerp, n) * (c.x - target.x)
    ensures FocusRun(c, target, n).y - target.y == Pow(1.0 - FocusLerp, n) * (c.y - target.y)
    ensures FocusRun(c, target, n).z - target.z == Pow(1.0 - FocusLerp, n) * (c.z - target.z)
  {
    if n > 0 {
      FocusRunGap(c, target, n - 1);
      LerpGap(FocusRun(c, target, n - 1), target, FocusLerp);
      var q := Pow(1.0 - FocusLerp, n - 1);
      assert (1.0 - FocusLerp) * (q * (c.x - target.x)) == ((1.0 - FocusLerp) * q) * (c.x - target.x);
      assert (1.0 - FocusLerp) * (q * (c.y - target.y)) == ((1.0 - FocusLerp) * q) * (c.y - target.y);
      assert (1.0 - FocusLerp) * (q * (c.z - target.z)) == ((1.0 - FocusLerp) * q) * (c.z - target.z);
    }
  }

  // ---------------------------------------------------------------------------
  // The `lifting` edge trigger

  /** The `lifting` flag after a frame: set on a selected frame, cleared on a
      deselected one, so it always equals the frame's selection. */
  function LiftingAfter(lifting: bool, selected: bool): (r: bool)
    ensures r == selected
  {
    if selected then (if !lifting then true else lifting)
    else (if lifting then false else lifting)
  }

  /** A frame saves the camera pose when the gem is selected and not yet
      lifting: exactly the frame on which `lifting` turns on. */
  function SavesPose(lifting: bool, selected: bool): (r: bool)
    ensures r <==> !lifting && LiftingAfter(lifting, selected)
  {
    selected && !lifting
  }

  /** What one frame contributes to the edge trigger: whether the gem is
      selected, and the camera pose after the frame's focus move. */
  datatype FrameInput = FrameInput(selected: bool, pose: Pose)

  /** The gem's `lifting` flag together with App's saved camera pose. */
  datatype EdgeState = EdgeState(lifting: bool, saved: Pose)

  function EdgeFrame(st: EdgeState, f: FrameInput): EdgeState {
    EdgeState(LiftingAfter(st.lifting, f.selected),
              if SavesPose(st.lifting, f.selected) then f.pose else st.saved)
  }

  /** The edge-trigger state after a sequence of frames. */
  function EdgeRun(st: EdgeState, frames: seq<FrameInput>): EdgeState
    decreases |frames|
  {
    if frames == [] then st else EdgeFrame(EdgeRun(st, frames[..|frames| - 1]), frames[|frames| - 1])
  }

  /** Frame j is the first of a run of selected frames. */
  predicate RisingEdge(lifting: bool, frames: seq<FrameInput>, j: int)
    requires 0 <= j < |frames|
  {
    frames[j].selected && !(if j == 0 then lifting else frames[j - 1].selected)
  }

  /** If the frames from j on are all selected and frame j starts that run,
      the saved pose is the one captured on frame j: later selected frames
      never overwrite it. */
  lemma {:induction false} SavedAtRisingEdge(st: EdgeState, frames: seq<FrameInput>, j: nat)
    requires j < |frames| && RisingEdge(st.lifting, frames, j)
    requires forall i :: j <= i < |frames| ==> frames[i].selected
    ensures EdgeRun(st, frames).saved == frames[j].pose
    ensures EdgeRun(st, frames).lifting
    decreases |frames|
  {
    var n := |frames|;
    var prefix := frames[..n - 1];
    if j == n - 1 {
      var before := EdgeRun(st, prefix);
      if j > 0 {
        assert prefix[..|prefix| - 1] == frames[..n - 2];
        assert before.lifting == frames[j - 1].selected;
      } else {
        assert prefix == [];
      }
    } else {
      assert RisingEdge(st.lifting, prefix, j);
      SavedAtRisingEdge(st, prefix, j);
    }
  }

  /** Deselected frames never save: across frames none of which is selected,
      the saved pose is untouched. */
  lemma {:induction false} DeselectedFramesKeepSaved(st: EdgeState, frames: seq<FrameInput>)
    requires forall i :: 0 <= i < |frames| ==> !frames[i].selected
    ensures EdgeRun(st, frames).saved == st.saved
    ensures frames != [] ==> !EdgeRun(st, frames).lifting
    decreases |frames|
  {
    if frames != [] {
      DeselectedFramesKeepSaved(st, frames[..|frames| - 1]);
    }
  }

  /** A gem that is already lifting keeps the saved pose over any run of selected frames. */
  lemma {:induction false} LiftingFramesKeepSaved(st: EdgeState, frames: seq<FrameInput>)
    requires st.lifting
    requires forall i :: 0 <= i < |frames| ==> frames[i].selected
    ensures EdgeRun(st, frames) == st
    decreases |frames|
  {
    if frames != [] {
      LiftingFramesKeepSaved(st, frames[..|frames| - 1]);
    }
  }

  // ---------------------------------------------------------------------------
  // The gem itself

  /** The mutable state of a mounted gem: its mesh's rotation and height, the
      `lifting` flag and the one rotation transition that currently owns the rotation. */
  class GemController {
    const resting: Vec3
    const base: Vec3
    var rotation: Vec3
    var y: real
    var lifting: bool
    var originalRotation: Vec3
    var from: Vec3
    var to: Vec3
    var startTime: Option<real>
    var animating: bool

    /** Mounting places the mesh at its props (resting rotation, base height),
        clears `lifting`, and runs the selection effect once. */
    constructor (resting: Vec3, base: Vec3, selected: bool)
      ensures this.resting == resting && this.base == base
      ensures rotation == resting && y == base.y && !lifting && originalRotation == resting
      ensures from == resting && to == RotationTarget(selected, resting)
      ensures startTime.None? && animating
    {
      this.resting := resting;
      this.base := base;
      rotation := resting;
      y := base.y;
      lifting := false;
      originalRotation := resting;
      from := resting;
      to := RotationTarget(selected, resting);
      startTime := None;
      animating := true;
    }

    /** The effect on `isSelected`: start a fresh 1.5 s transition from the
        current rotation towards the selection's target. On select the
        current rotation is also recorded as the original one. */
    method OnSelectionChange(selected: bool)
      modifies this
      ensures from == old(rotation) && to == RotationTarget(selected, resting)
      ensures startTime.None? && animating
      ensures originalRotation == if selected then old(rotation) else old(originalRotation)
      ensures rotation == old(rotation) && y == old(y) && lifting == old(lifting)
    {
      if selected {
        originalRotation := rotation;
      }
      from := rotation;
      to := RotationTarget(selected, resting);
      startTime := None;
      animating := true;
    }

    /** One animation frame of the rotation transition at timestamp `time`
        (milliseconds); it runs only while the transition is scheduled. It
        records the start on the first frame, shows the eased rotation, and
        stays scheduled only while less than 1.5 s have passed. */
    method TickRotation(time: real)
      requires animating
      modifies this
      ensures startTime == Some(if old(startTime).None? then time else old(startTime).value)
      ensures rotation == RotationAt(from, to, ElapsedSeconds(startTime.value, time))
      ensures animating == (ElapsedSeconds(startTime.value, time) < TransitionSeconds)
      ensures from == old(from) && to == old(to)
      ensures y == old(y) && lifting == old(lifting) && originalRotation == old(originalRotation)
    {
      if startTime.None? {
        startTime := Some(time);
      }
      var elapsedTime := ElapsedSeconds(startTime.value, time);
      rotation := RotationAt(from, to, elapsedTime);
      animating := elapsedTime < TransitionSeconds;
    }

    /** The per-frame callback, `delta` seconds after the previous frame. The
        height moves by LiftStep towards LiftTarget. While selected the camera
        covers a tenth of its gap to FocusPosition and faces the raised gem,
        the gem spins by `delta` about Y, and on the first selected frame the
        resulting camera pose is handed back to be saved; a deselected frame
        leaves the rotation and the camera alone and clears `lifting`. */
    method Step(delta: real, selected: bool, camera: Camera) returns (save: Option<Pose>)
      modifies this, camera
      ensures y == LiftStep(old(y), LiftTarget(base.y, selected), delta)
      ensures rotation == if selected then old(rotation).(y := old(rotation).y + delta) else old(rotation)
      ensures camera.position ==
        if selected then Lerp(old(camera.position), FocusPosition(base), FocusLerp) else old(camera.position)
      ensures camera.rotation ==
        if selected then Facing(camera.position, FocusLookAt(base)) else old(camera.rotation)
      ensures lifting == LiftingAfter(old(lifting), selected)
      ensures save == if SavesPose(old(lifting), selected) then Some(Pose(camera.position, camera.rotation)) else None
      ensures originalRotation == old(originalRotation)
      ensures from == old(from) && to == old(to) && startTime == old(startTime) && animating == old(animating)
    {
      var targetY := LiftTarget(base.y, selected);
      var distanceToTarget := targetY - y;
      var liftAmount := distanceToTarget * EasingFactor * delta * RiseSpeed;
      y := y + liftAmount;
      save := None;
      if selected {
        camera.position := Lerp(camera.position, FocusPosition(base), FocusLerp);
        camera.LookAt(FocusLookAt(base));
        rotation := rotation.(y := rotation.y + 1.0 * delta);
        if !lifting {
          save := Some(Pose(camera.position, camera.rotation));
          lifting := true;
        }
      } else {
        if lifting {
          lifting := false;
        }
      }
    }
  }
}
