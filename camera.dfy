/** The shared scene camera and CameraHandler, which eases the camera back to
    the last saved pose once nothing is selected. */
module CameraRig {
  import opened Common
  import opened Vectors
  import opened Easing

  /** A camera orientation. three.js stores Euler angles; `lookAt` derives
      them from the eye and the point looked at by trigonometry, which is not
      modelled: such an orientation is kept as the pair it was derived from. */
  datatype Orientation = Angles(euler: Vec3) | Facing(eye: Vec3, target: Vec3)

  /** A camera pose as App saves it: a position and a rotation. */
  datatype Pose = Pose(position: Vec3, rotation: Orientation)

  /** The one camera of the canvas, moved in place by the gems and by CameraHandler. */
  class Camera {
    var position: Vec3
    var rotation: Orientation

    constructor (position: Vec3, rotation: Orientation)
      ensures this.position == position && this.rotation == rotation
    {
      this.position := position;
      this.rotation := rotation;
    }

    /** camera.lookAt(target): turn to face `target` from where the camera stands. */
    method LookAt(target: Vec3)
      modifies this
      ensures position == old(position)
      ensures rotation == Facing(position, target)
    {
      rotation := Facing(position, target);
    }
  }

  /** The return animation lasts 1.5 s; its clock runs in milliseconds. */
  const ReturnDurationMs: real := 1500.0

  /** `if (!start) start = time`: the clock starts at the first frame, and
      restarts while the recorded start is the falsy timestamp 0. */
  function ClockStart(start: Option<real>, time: real): (s: real)
    ensures start.None? ==> s == time
    ensures start.Some? && start.value != 0.0 ==> s == start.value
    ensures s == time || (start.Some? && s == start.value && start.value != 0.0)
  {
    if start.None? || start.value == 0.0 then time else start.value
  }

  /** Where one frame of the return animation leaves the camera: while the
      1.5 s run, a Vector3.lerp towards the saved position by the eased
      progress, starting from wherever the camera currently is; once they
      have passed, exactly the saved position. */
  function ReturnPosition(pos: Vec3, saved: Vec3, elapsedMs: real): Vec3 {
    if elapsedMs < ReturnDurationMs
    then Lerp(pos, saved, CubicEaseOut(Progress(elapsedMs, ReturnDurationMs)))
    else saved
  }

  /** The first frame of a return (no time elapsed yet) leaves the camera where it is. */
  lemma ReturnFirstFrameStill(pos: Vec3, saved: Vec3)
    ensures ReturnPosition(pos, saved, 0.0) == pos
  {
    assert Progress(0.0, ReturnDurationMs) == 0.0;
    EaseOutEndpoints();
    LerpEndpoints(pos, saved);
  }

  /** Once 1.5 s have elapsed the camera is exactly at the saved position. */
  lemma ReturnSnapsToSaved(pos: Vec3, saved: Vec3, elapsedMs: real)
    requires elapsedMs >= ReturnDurationMs
    ensures ReturnPosition(pos, saved, elapsedMs) == saved
  {
  }

  /** No frame of the return overshoots: every coordinate ends between where
      the camera was and the saved pose, and no coordinate's distance to the
      saved pose grows. */
  lemma ReturnNoOvershoot(pos: Vec3, saved: Vec3, elapsedMs: real)
    requires elapsedMs >= 0.0
    ensures VecBetween(pos, saved, ReturnPosition(pos, saved, elapsedMs))
    ensures Abs(ReturnPosition(pos, saved, elapsedMs).x - saved.x) <= Abs(pos.x - saved.x)
    ensures Abs(ReturnPosition(pos, saved, elapsedMs).y - saved.y) <= Abs(pos.y - saved.y)
    ensures Abs(ReturnPosition(pos, saved, elapsedMs).z - saved.z) <= Abs(pos.z - saved.z)
  {
    var p := Progress(elapsedMs, ReturnDurationMs);
    EaseBounds(p);
    LerpNoOvershoot(pos, saved, CubicEaseOut(p));
  }

  /** The camera position after a run of return frames at the timestamps
      `times`, starting from `pos` with the clock state `start`. */
  function ReturnRun(pos: Vec3, saved: Vec3, start: Option<real>, times: seq<real>): Vec3
    decreases |times|
  {
    if times == [] then pos
    else
      var s := ClockStart(start, times[0]);
      ReturnRun(ReturnPosition(pos, saved, times[0] - s), saved, Some(s), times[1..])
  }

  /** Frame timestamps never go backwards and none precedes a recorded start. */
  predicate Monotone(start: Option<real>, times: seq<real>) {
    (forall i, j :: 0 <= i < j < |times| ==> times[i] <= times[j]) &&
    (start.Some? ==> forall i :: 0 <= i < |times| ==> start.value <= times[i])
  }

  /** Over any run of frames with monotone timestamps, the camera never leaves
      the box spanned by its position when the return began and the saved pose. */
  lemma {:induction false} ReturnRunStaysBetween(pos: Vec3, saved: Vec3, start: Option<real>, times: seq<real>)
    requires Monotone(start, times)
    ensures VecBetween(pos, saved, ReturnRun(pos, saved, start, times))
    decreases |times|
  {
    if times != [] {
      var s := ClockStart(start, times[0]);
      var next := ReturnPosition(pos, saved, times[0] - s);
      ReturnNoOvershoot(pos, saved, times[0] - s);
      assert Monotone(Some(s), times[1..]);
      ReturnRunStaysBetween(next, saved, Some(s), times[1..]);
      var r := ReturnRun(next, saved, Some(s), times[1..]);
      BetweenNarrows(pos.x, saved.x, next.x, r.x);
      BetweenNarrows(pos.y, saved.y, next.y, r.y);
      BetweenNarrows(pos.z, saved.z, next.z, r.z);
    }
  }

  /** Once the camera is at the saved position, further return frames keep it there. */
  lemma {:induction false} ReturnRunAtSavedStays(saved: Vec3, start: Option<real>, times: seq<real>)
    ensures ReturnRun(saved, saved, start, times) == saved
    decreases |times|
  {
    if times != [] {
      var s := ClockStart(start, times[0]);
      LerpAtTarget(saved, CubicEaseOut(Progress(times[0] - s, ReturnDurationMs)));
      ReturnRunAtSavedStays(saved, Some(s), times[1..]);
    }
  }

  /** A run whose clock started at a non-zero timestamp and that contains a frame
      at least 1.5 s after the start ends exactly at the saved position. */
  lemma {:induction false} ReturnRunReachesSaved(pos: Vec3, saved: Vec3, start: real, times: seq<real>, k: nat)
    requires start != 0.0
    requires k < |times| && times[k] - start >= ReturnDurationMs
    ensures ReturnRun(pos, saved, Some(start), times) == saved
    decreases k
  {
    var next := ReturnPosition(pos, saved, times[0] - start);
    if k == 0 {
      ReturnRunAtSavedStays(saved, Some(start), times[1..]);
    } else {
      ReturnRunReachesSaved(next, saved, start, times[1..], k - 1);
    }
  }

  /** CameraHandler: the pose it returns to and the state of its animation loop. */
  class CameraHandler {
    var targetPosition: Vec3
    var targetRotation: Orientation
    var start: Option<real>
    var running: bool

    /** Mounting runs both effects once with the current selection and saved pose. */
    constructor (selection: Option<GemId>, saved: Option<Pose>)
      ensures selection.None? && saved.Some? ==>
        targetPosition == saved.value.position && targetRotation == saved.value.rotation && running
      ensures !(selection.None? && saved.Some?) ==>
        targetPosition == Zero && targetRotation == Angles(Zero) && !running
      ensures start.None?
    {
      if selection.None? && saved.Some? {
        targetPosition, targetRotation := saved.value.position, saved.value.rotation;
        running := true;
      } else {
        targetPosition, targetRotation := Zero, Angles(Zero);
        running := false;
      }
      start := None;
    }

    /** The effects keyed on the selection and the saved pose: with nothing
        selected and a saved pose present, aim at that pose and begin a fresh
        return; otherwise nothing changes (a return already under way goes on). */
    method OnChange(selection: Option<GemId>, saved: Option<Pose>)
      modifies this
      ensures selection.None? && saved.Some? ==>
        targetPosition == saved.value.position && targetRotation == saved.value.rotation &&
        start.None? && running
      ensures !(selection.None? && saved.Some?) ==> unchanged(this)
    {
      if selection.None? && saved.Some? {
        targetPosition, targetRotation := saved.value.position, saved.value.rotation;
        start := None;
        running := true;
      }
    }

    /** One animation frame at timestamp `time` (milliseconds). The camera
        takes the saved rotation at once and moves by ReturnPosition; once
        1.5 s have elapsed it sits exactly on the saved pose and the loop
        stops rescheduling itself. With no loop running nothing happens. */
    method Tick(time: real, camera: Camera)
      modifies this, camera
      ensures targetPosition == old(targetPosition) && targetRotation == old(targetRotation)
      ensures !old(running) ==> unchanged(this) && unchanged(camera)
      ensures old(running) ==>
        var s := ClockStart(old(start), time);
        start == Some(s) &&
        camera.position == ReturnPosition(old(camera.position), targetPosition, time - s) &&
        camera.rotation == targetRotation &&
        running == (time - s < ReturnDurationMs)
    {
      if running {
        if start.None? || start.value == 0.0 {
          start := Some(time);
        }
        var elapsed := time - start.value;
        var progress := Progress(elapsed, ReturnDurationMs);
        var eased := CubicEaseOut(progress);
        camera.position := Lerp(camera.position, targetPosition, eased);
        camera.rotation := targetRotation;
        if elapsed < ReturnDurationMs {
          running := true;
        } else {
          camera.position := targetPosition;
          camera.rotation := targetRotation;
          running := false;
        }
      }
    }
  }
}
