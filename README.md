# Diamond showcase: selection and animation controller

This project is a Dafny model of the interactive core of a React Three Fiber
scene. The scene shows two gems, the Diamond and the Radiant, on a shared
camera. Clicking a gem selects it. A selected gem turns upright over an eased
1.5 s transition, rises, and spins about its vertical axis. It also pulls the
camera in front of it, and on the first selected frame it hands the camera
pose to the App component to be saved. When the selection is cleared,
CameraHandler eases the camera back to that saved pose over 1.5 s. The App
component owns the selection, the saved pose, each gem's material settings
and the current visualization.

Modules, following `src/App.js`:

- `Common`: `Option`, the two gem identities, and the clamped progress `Math.min(elapsed / duration, 1)`.
- `Vectors`: three.js `Vector3`/`Euler` values as real triples, with `Vector3.lerp`.
- `Easing`: `cubicEaseInOut` and `cubicEaseOut`.
- `CameraRig`: the canvas camera (a class updated in place), saved poses, and `CameraHandler` with its return animation.
- `Gem`: one gem controller (a class), plus the pure step functions and lemmas that specify it.
  - As controllers, the Diamond (src/App.js:70-183) and the Radiant (src/App.js:207-320) differ only in their resting rotation.
  - App gives them different base positions as props (src/App.js:458, src/App.js:467).
  - Their rendering differs too (mesh asset, caustics radius, scale); that is left out with the rest of rendering.
  - One controller models both, and the model table cites the Diamond's lines.
- `App`: the root state and its pure transitions.
  - `RenderFrame` runs both gems' frame callbacks on the shared camera.

Notes on reading the code:

- Toggling the visualization does not clear the selection.
- The saved pose is the camera pose after the first selected frame's 0.1 lerp and `lookAt`, not the pose from before the selection.
- CameraHandler starts its clock with a falsy test (`if (!start)`). A recorded start timestamp of exactly 0 therefore restarts the clock on the next frame. `ClockStart` models this as written. `ReturnRunReachesSaved` assumes a non-zero start for that reason.
- The return animation lerps from wherever the camera currently is, by the eased progress of the whole run. It does not lerp from the position where the run began, so successive frames compound. Once 1.5 s have elapsed it snaps exactly to the saved pose.
- The saved pose is written on the first frame a gem is selected, whatever was selected before. Clicking the Radiant while the Diamond is selected therefore saves a pose taken while the camera is still near the Diamond. Clearing the selection afterwards returns the camera there, not to the free pose from before the first selection. `App.RenderFrame` and `Gem.SavedAtRisingEdge` state this behaviour.
- A selected gem's frame spins the rotation about Y. While a rotation transition is still scheduled, the transition's next frame overwrites the whole rotation, spin included. The model keeps these as two separate operations: `Step` and `TickRotation`.

Numbers are modelled as exact reals.

## Model

| member | source | states |
|---|---|---|
| Common.Progress | src/App.js:109 | clamped progress is at most 1, non-negative once time has started, and exactly 1 from the full duration on |
| Vectors.Lerp | src/App.js:166 | `Vector3.lerp`: each component moves the fraction k of the way to the target; its facts are stated by the lemmas below |
| Vectors.LerpEndpoints | src/App.js:113-117 | a lerp by 0 stays put and a lerp by 1 lands exactly on the target |
| Vectors.LerpGap | src/App.js:166 | `Vector3.lerp` by k leaves the fraction 1 - k of each component's gap to the target |
| Vectors.LerpAtTarget | src/App.js:46 | a vector already at its target stays there whatever the factor |
| Vectors.LerpScalarNoOvershoot | src/App.js:114 | a component interpolation with a factor in [0, 1] stays between start and target, and its gap keeps its sign and does not grow |
| Vectors.LerpNoOvershoot | src/App.js:46 | a vector lerp with a factor in [0, 1] stays in the box spanned by start and target, and no component's gap grows |
| Vectors.LerpScalarCloser | src/App.js:113-117 | a larger interpolation factor leaves a component at least as close to its target |
| Easing.CubicEaseInOut | src/App.js:21-23 | `cubicEaseInOut` with its two branches split at t = 0.5; its bounds, endpoints, continuity, symmetry and monotonicity are stated by the Easing lemmas below |
| Easing.CubicEaseOut | src/App.js:63-65 | `cubicEaseOut`, `1 - (1 - t)³`; its bounds, endpoints and monotonicity are stated by the Easing lemmas below |
| Easing.EaseBounds | src/App.js:21-23 | for progress in [0, 1], both cubicEaseInOut and cubicEaseOut stay in [0, 1] |
| Easing.EaseInOutEndpoints | src/App.js:21-23 | cubicEaseInOut(0) = 0 and cubicEaseInOut(1) = 1 |
| Easing.EaseInOutHalvesMeet | src/App.js:22 | the `4t³` half and the `1 - (-2t + 2)³ / 2` half both equal 0.5 at t = 0.5, so the curve is continuous |
| Easing.EaseInOutSymmetric | src/App.js:21-23 | cubicEaseInOut(1 - t) = 1 - cubicEaseInOut(t) for every t |
| Easing.EaseInOutMonotone | src/App.js:21-23 | cubicEaseInOut never decreases on [0, 1], across the branch switch as well |
| Easing.EaseOutEndpoints | src/App.js:63-65 | cubicEaseOut(0) = 0 and cubicEaseOut(1) = 1 |
| Easing.EaseOutMonotone | src/App.js:63-65 | cubicEaseOut never decreases on [0, 1] |
| CameraRig.Camera.constructor | src/App.js:448 | the canvas camera starts at the given position and rotation |
| CameraRig.Camera.LookAt | src/App.js:167 | `lookAt` keeps the camera position and makes the camera face the target from there |
| CameraRig.ClockStart | src/App.js:42 | the first frame starts the clock; a recorded start is kept unless it is the falsy timestamp 0 |
| CameraRig.ReturnPosition | src/App.js:43-54 | one return frame: a lerp towards the saved position by the eased progress, or exactly the saved position from 1500 ms on; stated by the Return lemmas below |
| CameraRig.ReturnFirstFrameStill | src/App.js:41-47 | the frame that starts the clock leaves the camera where it was |
| CameraRig.ReturnSnapsToSaved | src/App.js:48-54 | from 1500 ms on, a frame puts the camera exactly at the saved position |
| CameraRig.ReturnNoOvershoot | src/App.js:43-47 | no return frame leaves the box between the camera and the saved position, and no coordinate moves away from the saved one |
| CameraRig.ReturnRunStaysBetween | src/App.js:41-59 | over any run of frames with monotone timestamps, the camera stays in the box spanned by where the return began and the saved pose |
| CameraRig.ReturnRunAtSavedStays | src/App.js:41-54 | once at the saved position, further return frames keep the camera there |
| CameraRig.ReturnRunReachesSaved | src/App.js:41-54 | a run with a non-zero start that includes a frame 1500 ms after the start ends exactly at the saved position |
| CameraRig.CameraHandler.constructor | src/App.js:25-60 | mounting with nothing selected and a saved pose aims at that pose and schedules a return; otherwise nothing is scheduled |
| CameraRig.CameraHandler.OnChange | src/App.js:30-59 | when the selection clears while a pose is saved, it aims at that pose and begins a fresh return; any other change leaves the handler untouched |
| CameraRig.CameraHandler.Tick | src/App.js:41-55 | a frame starts or keeps the clock, sets the saved rotation, moves the camera by ReturnPosition, and stays scheduled exactly while under 1500 ms have elapsed; with no return scheduled nothing changes |
| Gem.RotationTarget | src/App.js:102-129 | a transition heads for (0, 0, 0) when the gem is selected and for its resting rotation otherwise |
| Gem.RotationAt | src/App.js:106-118 | the rotation a transition shows after a given number of seconds; stated by the Rotation lemmas below |
| Gem.RotationStartsAtInitial | src/App.js:106-118 | a rotation transition's first frame shows exactly the rotation it started from |
| Gem.RotationEndsAtTarget | src/App.js:106-118 | from 1.5 s on, a transition shows exactly its target rotation |
| Gem.RotationNoOvershoot | src/App.js:113-118 | every Euler component of a transition stays between its initial value and its target |
| Gem.RotationApproachesTarget | src/App.js:106-118 | as time passes, no component of a transition moves away from its target |
| Gem.LiftTarget | src/App.js:157 | the target height lies between the base and 0.2 above it, and is the raised height exactly when the gem is selected |
| Gem.LiftStep | src/App.js:157-160 | one lift frame scales the gap to the target height by 1 - 0.15 · 7.5 · delta |
| Gem.LiftNoOvershoot | src/App.js:157-160 | a frame with 0 < 1.125 · delta <= 1 stays between the height and its target, and strictly closes a non-zero gap |
| Gem.LiftOvershootIff | src/App.js:159 | off target, a frame keeps the gem on its side of the target exactly when 1.125 · delta <= 1 |
| Gem.LiftRunNoOvershoot | src/App.js:156-160 | over any run of such frames the height never passes its target and never moves away from it |
| Gem.FocusRunGap | src/App.js:163-166 | after n selected frames the camera's gap to the focus position is 0.9ⁿ of the original, whatever the frame lengths |
| Gem.FocusLookAt | src/App.js:164 | a selected gem's camera looks at the gem's base position at the raised height |
| Gem.FocusPosition | src/App.js:163 | a selected gem's camera heads for a point level with the look-at point, 4.5 to its left and 5 in front |
| Gem.SavesPose | src/App.js:171-177 | a frame saves the camera pose exactly when it is the frame on which `lifting` turns on |
| Gem.LiftingAfter | src/App.js:171-181 | after a frame, `lifting` equals the frame's selection |
| Gem.SavedAtRisingEdge | src/App.js:171-177 | over a run of selected frames, the saved pose is the one captured on the run's first frame; later frames never overwrite it |
| Gem.DeselectedFramesKeepSaved | src/App.js:178-182 | deselected frames never change the saved pose, and they leave `lifting` cleared |
| Gem.LiftingFramesKeepSaved | src/App.js:171-177 | a gem already lifting keeps both `lifting` and the saved pose over selected frames |
| Gem.GemController.constructor | src/App.js:90-154 | mounting places the gem at its resting rotation and base height with `lifting` cleared, and schedules a transition towards the selection's target |
| Gem.GemController.OnSelectionChange | src/App.js:97-104 | a change of `isSelected` starts a fresh transition from the current rotation towards upright or the resting rotation; on select it also records the original rotation |
| Gem.GemController.TickRotation | src/App.js:106-123 | a transition frame starts the clock on its first call, shows RotationAt of the elapsed seconds, and stays scheduled exactly while under 1.5 s have elapsed |
| Gem.GemController.Step | src/App.js:156-183 | a frame lifts by LiftStep, and while selected moves the camera a tenth of the way to the focus position, faces the raised gem, spins by delta, and hands back the pose on the first selected frame only |
| App.Initial | src/App.js:399-425 | at start nothing is selected, both gems have the default settings, and the two-gem view is shown |
| App.Click | src/App.js:427-433 | a click flips the clicked gem's selected flag and leaves every other gem deselected |
| App.ClickTwice | src/App.js:427-433 | two clicks on one gem restore its selection if it was selected and clear the selection otherwise |
| App.HandleClick | src/App.js:427-433 | a click changes the selection only |
| App.ClicksSelectLastOrNone | src/App.js:427-433 | after any clicks the selection is empty or the last-clicked gem, so at most one `isSelected` flag is true |
| App.SetProperties | src/App.js:435-440 | the given gem's entry is replaced, every other entry is kept, and nothing else changes |
| App.CommitConfig | src/App.js:84-88 | an edited configuration reaches App only while its gem is selected; otherwise App is unchanged |
| App.CommitOnlySelected | src/App.js:84-88 | when both gems commit in one render, only the selected gem's entry changes |
| App.ToggleVisualization | src/App.js:442-444 | the view flips and the selection, saved pose and settings are kept |
| App.ToggleTwice | src/App.js:442-444 | toggling twice restores the state |
| App.ApplySave | src/App.js:172-175 | a pose handed back by a gem becomes the saved camera pose; no pose leaves App unchanged |
| App.AtMostOneGemSaves | src/App.js:456-473 | the two gems read one selection, so no frame has both of them saving a pose |
| App.RenderFrame | src/App.js:456-473 | a frame with both gems (at the resting rotations and base positions App gives them) keeps the selection and settings, sets each gem's `lifting` to its flag, and changes the saved pose exactly on a gem's first selected frame, to the camera pose after that frame |

## Left out

- Rendering: meshes, materials, caustics, lights, shadows, the environment map and post-processing, the golden-ring scene, and asset and texture loading.
- The settings panel's internals: `useControls`, its ranges and its re-creation on `isSelected`. A committed configuration is any `Properties` value.
- OrbitControls: the user dragging, zooming and auto-rotating the camera. These only add further camera moves between the modelled ones.
- `lookAt`'s trigonometry. An orientation computed by `lookAt` is kept as the eye/target pair it came from.
- IEEE-754 double rounding. Every number is an exact real.
- Overlapping animation loops: a new transition supersedes the previous one. In the source an earlier `requestAnimationFrame` loop can keep running beside a newer one. It writes the same field with an older start rotation until its own 1.5 s end.
- The per-render reallocation of CameraHandler's `targetPosition`/`targetRotation`, and React's re-render scheduling. An effect is modelled as running exactly when one of its keyed values changes.
- Unmounting. Switching back to the two-gem view remounts the gems and the handler, which the constructors model.
  - In the source, animation loops scheduled before a switch are not cancelled when their components unmount.
  - A camera return still under way keeps moving the shared camera after CameraHandler is gone.
  - A gem's rotation loop keeps writing the rotation of a mesh that no longer exists (src/App.js:118, src/App.js:145).
  - The model has no state for an unmounted component, so it does not capture these loops.
- The `originalRotation` record is kept up to date but is never read in the source, so nothing is proved about it.
- The frame clock (timestamps and `delta`) is a parameter of the frame operations.
- App.RenderFrame: states App's own state, the `lifting` flags and the new saved pose. The gems' heights and rotations and the camera pose are stated by `Gem.GemController.Step`, which it calls.
