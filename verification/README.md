# Trajectory renderer: pellet pool and truncation pass

This project models the core of LibraMage's `TrajectoryRenderer`, the Unity
component that draws a projectile's predicted flight as a row of dot sprites
("pellets"). The model has two parts.

- **The pellet pool.** Pellets move between an `activePellets` list and a
  `pooledPellets` reserve. `Awake` creates five pellets and pools them.
  `GetPooledPelletIfAvailable` takes the last pooled pellet, or creates a new
  one once the reserve is empty. `PoolPellet` deactivates a pellet and
  appends it to the reserve.
- **`OnForceUpdate(v)`.** The method stores the launch velocity. It then
  walks the active list and places pellet `i` on the parabola at time
  `i * timeStep`. It adds up the distance between consecutive pellets and
  stops at the first index whose distance reaches the line of sight. Whenever
  it reaches the end of the list, it appends a pellet from the pool. Last, it
  returns every pellet from the break index on to the reserve.

A pellet is a natural-number id, and ids are handed out in creation order. A
`Pool` records the two lists, the next id, the `SetActive` flag of each
pellet, and each pellet's world position. The conservation invariant
`PelletPool.Valid` says four things:

- the two lists are duplicate-free and disjoint;
- together they hold exactly the created pellets;
- every created pellet has a flag and a position;
- a pellet's flag is set exactly when it is in the active list.

Modules:

- `Kinematics`: vectors, the settings and their clamping setters, the
  ballistic sample point, and path length under a distance function.
- `PelletPool`: the two lists and the pool operations.
- `TrajectoryRenderer`: `PositionPellet`, plus `OnForceUpdate` written as its
  two loops. The growth loop is `GrowAndPlace` and the release loop is
  `ReleaseFrom`. `UpdateOutcome` states the result of a whole pass as
  independent data: the break index is the first crossing of the sampled
  path; the lists are cut there, with the tail pooled in order; and the
  pellets up to the break stand on the parabola.
- `UpdateProperties`: what a pass promises to the screen, and what two
  passes in a row do.

Inputs the model does not compute:

- The renderer's transform position is the parameter `anchor`.
- `Vector3.Distance` is the parameter `dist`. Only its non-negativity is
  assumed.
- Floats are modelled as reals.

### A line of sight of zero

The distance at index 0 is `0 >= 0`, so the growth loop breaks at `i == 0`.
The release loop then starts at that same `i`, so it returns every active
pellet to the reserve and no pellet stays visible
(`UpdateProperties.ZeroSightEmpties`). With a positive line of sight, the
pellet at the break index is released too. Only the pellets whose distance is
still short of the line of sight stay (`UpdateProperties.KeptExactlyShort`).

## Model

| member | source | states |
|---|---|---|
| Kinematics.ClampNonNegative | src/renderers/TrajectoryRenderer.cs:20 | the clamped value is non-negative, at least the input, and either the input or zero |
| Kinematics.SetLineOfSight | src/renderers/TrajectoryRenderer.cs:18-22 | the stored line of sight is the value when non-negative and 0 otherwise; no other setting changes |
| Kinematics.SetTimeStep | src/renderers/TrajectoryRenderer.cs:33-36 | the stored time step is the value when non-negative and 0 otherwise; no other setting changes |
| Kinematics.SettersAreIdempotent | src/renderers/TrajectoryRenderer.cs:11-36 | setting a value twice, or writing back what the getter returns, leaves the settings as one set left them |
| Kinematics.SamplePoint | src/renderers/TrajectoryRenderer.cs:143-151 | a placed pellet keeps its own depth; at time 0 it stands on the anchor's x and y |
| Kinematics.SamplesFollowParabola | src/renderers/TrajectoryRenderer.cs:145-146 | x advances by `vx * h` per step `h`, and the second difference of y is `gravity * h * h`: the samples lie on a ballistic parabola |
| Kinematics.PathLengthMonotone | src/renderers/TrajectoryRenderer.cs:173-176 | with non-negative step distances, the accumulated `distanceCovered` never decreases along the path |
| PelletPool.Create | src/renderers/TrajectoryRenderer.cs:106-114 | a new pellet gets the next unused id, is active, stands at the world origin, and joins neither list; every other pellet's flag and position are kept |
| PelletPool.Acquire | src/renderers/TrajectoryRenderer.cs:116-134 | a non-empty reserve hands out its last pellet and shrinks by one; an empty one creates a pellet at the origin; either way the pellet is marked active and the active list is untouched |
| PelletPool.AcquireInto | src/renderers/TrajectoryRenderer.cs:164 | `activePellets.Add(GetPooledPelletIfAvailable())` appends the next handout to the active list, with the reserve and counter changed as in `Acquire` |
| PelletPool.AcquisitionsAt | src/renderers/TrajectoryRenderer.cs:120-129 | the `j`-th of several successive acquires hands out the reserve from the back, then fresh ids in order |
| PelletPool.AcquireKeepsValid | src/renderers/TrajectoryRenderer.cs:116-134 | acquiring into the active list keeps the conservation invariant |
| PelletPool.PoolPellet | src/renderers/TrajectoryRenderer.cs:136-141 | the pellet is flagged inactive and appended to the reserve; the active list, the positions and every other flag are kept |
| PelletPool.ReleaseAt | src/renderers/TrajectoryRenderer.cs:191-192 | one release turn removes index `i` from the active list and appends that pellet to the reserve, inactive |
| PelletPool.ReleaseKeepsValid | src/renderers/TrajectoryRenderer.cs:191-192 | pooling and removing an active pellet keeps the conservation invariant |
| PelletPool.CreatePooled | src/renderers/TrajectoryRenderer.cs:99 | `PoolPellet(CreatePellet())` appends a fresh id to the reserve, keeps the invariant and moves nobody |
| PelletPool.Prewarm | src/renderers/TrajectoryRenderer.cs:96-103 | `n` create-and-pool steps from empty lists give `n` distinct inactive pellets in the reserve, all at the origin, with the invariant |
| PelletPool.Awake | src/renderers/TrajectoryRenderer.cs:94-104 | after `Awake` the active list is empty and the reserve holds five distinct inactive pellets at the origin; the invariant holds |
| PelletPool.CountConserved | src/renderers/TrajectoryRenderer.cs:116-141 | pellets are never destroyed: in every pool satisfying the conservation invariant, the two lists together count every pellet ever created |
| PelletPool.AcquireThenPoolRestores | src/renderers/TrajectoryRenderer.cs:116-141 | pooling the pellet just taken from a non-empty reserve restores the pool exactly |
| TrajectoryRenderer.PositionPellet | src/renderers/TrajectoryRenderer.cs:143-151 | the pellet moves onto the parabola at time `t`, keeps its depth, and stands on the anchor's x and y when `t == 0`; the lists, flags and counter do not change |
| TrajectoryRenderer.PositionElsewhere | src/renderers/TrajectoryRenderer.cs:143-151 | positioning one pellet moves no other |
| TrajectoryRenderer.PositionKeepsValid | src/renderers/TrajectoryRenderer.cs:143-151 | positioning a created pellet keeps the conservation invariant |
| TrajectoryRenderer.TimeAtIsProduct | src/renderers/TrajectoryRenderer.cs:158-171 | the time accumulated by `timeCovered += timeStep` at index `j` is `j * timeStep` |
| TrajectoryRenderer.TravelMonotone | src/renderers/TrajectoryRenderer.cs:173-176 | the distance travelled up to an index never decreases as the index grows |
| TrajectoryRenderer.CrossingOnLongerPath | src/renderers/TrajectoryRenderer.cs:173-181 | the first index at which any longer stretch of the sampled path reaches the line of sight is the break index of the pass |
| TrajectoryRenderer.GrowReserve | src/renderers/TrajectoryRenderer.cs:183-186 | successive appends drain the reserve from the back and create fresh pellets only once it is empty |
| TrajectoryRenderer.GrowActive | src/renderers/TrajectoryRenderer.cs:183-186 | successive appends put the handouts at the end of the active list, in order |
| TrajectoryRenderer.GrowKeepsValid | src/renderers/TrajectoryRenderer.cs:162-186 | growing the active list keeps the conservation invariant |
| TrajectoryRenderer.PlaceNext | src/renderers/TrajectoryRenderer.cs:169-176 | one placement turn positions pellet `i`, advances the time to `(i+1)` steps, and makes the distance the path length up to sample `i` |
| TrajectoryRenderer.AppendNext | src/renderers/TrajectoryRenderer.cs:183-186 | appending the next handout keeps the pellets placed so far where they are and lengthens the list by one |
| TrajectoryRenderer.Advance | src/renderers/TrajectoryRenderer.cs:183-187 | a turn that did not break appends the next handout exactly when `i` is the last index, leaving the list as it was otherwise, and re-establishes the loop head at `i + 1` |
| TrajectoryRenderer.Start | src/renderers/TrajectoryRenderer.cs:157-165 | before the first turn a non-empty active list is left alone and an empty one receives exactly the next handout; the loop head holds at index 0 with time and distance zero |
| TrajectoryRenderer.Turn | src/renderers/TrajectoryRenderer.cs:167-187 | a turn makes the distance the path length up to `i` and breaks exactly when that reaches the line of sight, with pellets `0 .. i` placed; otherwise it re-establishes the loop head at `i + 1` |
| TrajectoryRenderer.GrowAndPlace | src/renderers/TrajectoryRenderer.cs:157-187 | the growth loop breaks at the first index `k` whose path length reaches the line of sight; it has grown the list just far enough to hold index `k` and placed pellets `0 .. k` |
| TrajectoryRenderer.ReleaseFrom | src/renderers/TrajectoryRenderer.cs:189-194 | the release loop keeps the active list up to `k`, appends the rest to the reserve in order, moves nobody and keeps the invariant |
| TrajectoryRenderer.OnForceUpdate | src/renderers/TrajectoryRenderer.cs:153-195 | the pass stores the velocity; it breaks at the first crossing `k`; it cuts the lists as described by `OutcomeLists`; it places pellets `0 .. k` on the parabola and moves no other; it changes no depth and keeps the pool valid |
| UpdateProperties.GrownAt | src/renderers/TrajectoryRenderer.cs:162-186 | index `j` of the grown list is the old active pellet there, or the handout that filled it |
| UpdateProperties.KeptExactlyShort | src/renderers/TrajectoryRenderer.cs:167-194 | when a pass breaks at the first crossing and cuts the lists there, index `j` stays active if and only if the distance travelled up to it is short of the line of sight |
| UpdateProperties.KeptOnParabola | src/renderers/TrajectoryRenderer.cs:169-171 | every active pellet `j` stands at the sample point of time `j` steps, at its own depth |
| UpdateProperties.ZeroSightEmpties | src/renderers/TrajectoryRenderer.cs:178-194 | with a line of sight of zero the pass breaks at 0 and the active list ends empty; a non-empty active list is appended to the reserve in order and nothing is created |
| UpdateProperties.ZeroSightFromEmpty | src/renderers/TrajectoryRenderer.cs:162-194 | with a line of sight of zero and an empty active list, the one pellet the guard takes goes straight back: a non-empty reserve and the counter end as they were, and an empty reserve ends holding one fresh pellet with the counter one higher |
| UpdateProperties.PositiveSightKeepsLaunch | src/renderers/TrajectoryRenderer.cs:162-181 | with a positive line of sight the pass keeps at least one pellet, and the first stands on the anchor's x and y |
| UpdateProperties.AwakeIsFlat | src/renderers/TrajectoryRenderer.cs:94-114 | after `Awake` every pellet is at depth zero |
| UpdateProperties.UpdateKeepsFlat | src/renderers/TrajectoryRenderer.cs:148 | a pass keeps every pellet at depth zero when all were at depth zero |
| UpdateProperties.FlatCrossing | src/renderers/TrajectoryRenderer.cs:167-181 | on two pools whose pellets are all at depth zero, a pass with the same settings breaks at the same index |
| UpdateProperties.RepeatBreaksAtSameIndex | src/renderers/TrajectoryRenderer.cs:167-181 | on a pool whose pellets are all at depth zero, a second pass with the same velocity breaks where the first did |
| UpdateProperties.SecondPassLists | src/renderers/TrajectoryRenderer.cs:183-194 | a pass that breaks at the end of the active list takes the last reserve pellet and pools it straight back, so the lists and counter end as they were |
| UpdateProperties.RepeatKeepsLists | src/renderers/TrajectoryRenderer.cs:162-194 | cutting the lists a second time at the same index keeps both lists and the counter |
| UpdateProperties.RepeatKeepsPositions | src/renderers/TrajectoryRenderer.cs:153-195 | on a pool whose pellets are all at depth zero, a repeated pass leaves every active pellet where the first pass put it |
| UpdateProperties.UpdateIsIdempotent | src/renderers/TrajectoryRenderer.cs:153-195 | repeating `OnForceUpdate` with the same velocity on a pool whose pellets are all at depth zero changes nothing visible: same break index, same lists and counter, same positions of the active pellets |
| UpdateProperties.ForceUpdateTwice | src/renderers/TrajectoryRenderer.cs:153-195 | calling `OnForceUpdate` twice with the same velocity on a depth-zero pool: the second call breaks at the same index, keeps the lists and counter, and moves no active pellet |
| UpdateProperties.StillPassTravelsNothing | src/renderers/TrajectoryRenderer.cs:171-176 | on a pool whose pellets are all at depth zero, under a distance that is zero from a point to itself, a zero time step makes every sample the launch point, so the distance covered stays zero |
| UpdateProperties.StillPassNeverBreaks | src/renderers/TrajectoryRenderer.cs:167-187 | on a pool whose pellets are all at depth zero, under a distance that is zero from a point to itself, a zero time step and a positive line of sight leave no index that is a crossing, so the growth loop of the code never ends |

## Left out

- The `Sprite` setter (src/renderers/TrajectoryRenderer.cs:47-60) and the sprite given to new pellets (lines 110-111). They only change rendering, not the lists or positions.
- `lineOfSightSquared` (lines 10 and 21). It is computed but never read.
- The `Gravity` and `InitialVelocity` setters (lines 71-74 and 85-88). They are plain stores, so they are fields of `Settings`. `OnForceUpdate` stores the velocity itself (line 155).
- Unity's scene graph: parenting new pellets to the renderer's transform (line 109) and the `SpriteRenderer` component. The `SetActive` call is kept as a per-pellet flag. Because pellets are children of the renderer, moving the renderer moves every existing pellet, while a pellet created later starts at world depth 0; a renderer moved in depth therefore yields exactly the pool with pellets at different depths that `UpdateProperties.UpdateIsIdempotent` leaves outside its hypothesis.
- PelletPool.PoolPellet: the C# method is public and accepts any game object. The conservation invariant, and with it `PelletPool.CountConserved`, assume that it is called only from `Awake` (lines 99-103) and from the release loop (line 191). A caller that pools a pellet still in the active list, or an object the renderer did not create, breaks the invariant; the model does not cover such calls.
- Single-precision float rounding. Reals are used, so the accumulated time is exactly `j * timeStep`.
- `Vector3.Distance` is a parameter. It is assumed non-negative only. No Euclidean formula is fixed.
- The renderer's world position is a parameter `anchor` of each pass.
- The other files of the repository are not part of this model. `Mathga.cs`, `Circle.cs` and `TangentCircleResult.cs` are geometry helpers, and `LibraMage.cs` holds `LibraMageUtils.GetCircleTangentToTwoLines`, a second copy of the tangent-circle helper; the renderer calls none of them. `Physicsga.CreateTrajectoryRenderer` (src/Physicsga.cs:7-15) is the factory that creates the renderer's game object under a parent transform and adds the component; the model starts from the state `Awake` leaves instead.
- TrajectoryRenderer.OnForceUpdate: assumes that some sample along the pass reaches the line of sight (the ghost `bound`). The code's growth loop has no other exit. When no sample ever reaches the line of sight, for example with a zero time step and a positive line of sight on a pool whose pellets are all at depth zero, under a distance that is zero from a point to itself (`UpdateProperties.StillPassNeverBreaks`), the code appends pellets without end.
- UpdateProperties.UpdateIsIdempotent: is proved for pools whose pellets are all at depth zero, the state `Awake` creates and every pass keeps (`AwakeIsFlat`, `UpdateKeepsFlat`). Depth zero is a sufficient condition, not a necessary one; when the pellets two passes place stand at different depths, the measured distances, and so the break index, can differ.
- UpdateProperties.ForceUpdateTwice: is proved for pools whose pellets are all at depth zero, the state `Awake` creates and every pass keeps; when the pellets two passes place stand at different depths, the measured distances, and so the break index, can differ.
