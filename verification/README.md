# Raycaster core in Dafny

A model of the logic inside a small Wolfenstein-style raycaster written in C
against raylib (`main.c`). Two parts of it are integer and grid logic inside a
float-heavy renderer, and those are what this project models and proves things
about:

- **The level and the DDA grid walk** (`CastRay`). The level is a fixed 10x10
  occupancy grid whose border ring is all walls. The walk starts from the
  player's tile and crosses one grid line at a time, always the nearer one.
  It stops when it enters a wall cell or when the recorded distance reaches
  10 tiles. A wall band is drawn only when a wall was hit.
- **The target-pose controller** (the top of the frame loop). The target pose
  is always on a tile centre, and its angle is a whole number of quarter
  turns, so the model keeps it as a tile plus a quarter-turn count. Each frame,
  Q/E turn it first. Then W/S/A/D each try to move it one tile, with every
  destination checked against the tile the target had at frame start.

Modules:

- `Wrappers` (`wrappers.dfy`): `Option`.
- `CArith` (`carith.dfy`): C's `(int)` cast and integer `/`, which truncate
  toward zero, and `fabs`.
- `Grid` (`grid.dfy`): the level, and the border-wall invariant
  `BorderWalled` that every lookup relies on.
- `Dda` (`dda.dfy`): the ray set-up, one loop iteration (`Advance`), the walk
  as a recursive reference (`Run`), the imperative loop (`Traverse`) proved
  equal to it, and the hit guard.
- `DdaScenarios` (`dda_scenarios.dfy`): concrete walks over the level.
- `Movement` (`movement.dfy`): the frame step over tiles and quarter turns.
- `MovementScenarios` (`movement_scenarios.dfy`): concrete frames from the
  start pose.

The walk is proved safe and terminating for any 10x10 grid whose border is
walls, and it uses nothing else about the level. From an interior start cell,
every step enters a cell of the grid. A step onto the border ring enters a
wall, and a wall stops the walk. So the number of cells left before the
border, counted in each step direction, decreases with every step. That
bounds the walk whatever the ray lengths are; the 10-tile cap is not needed
for termination.

Floats are modelled as exact reals, and `int` as unbounded integers. The
direction components `cos`/`sin` of the ray angle are real parameters.
`side` 0 and 1 are `XSide` and `YSide`.

Two examples of behaviour on this level:

- A ray cast due east from the start tile (1.5, 1.5) goes all the way along
  open row 1, since `map[1][2]` through `map[1][8]` are 0. It enters the
  wall at column 9, 7.5 tiles away.
- Moving south from tile (1, 1) reaches tile (1, 2), which is floor
  (`map[2][1]` is 0).

## Model

| member | source | states |
|---|---|---|
| `Grid.MapIsBorderWalled` | main.c:14-25 | The level's row 0, row 9, column 0 and column 9 are all walls, and every cell is 0 or 1. |
| `Grid.OpenCellIsInterior` | main.c:14-25 | In a grid with walled borders, every non-wall cell (and so every floor cell) lies in columns and rows 1..8. That is why a lookup one step from it stays in the array. |
| `CArith.Trunc` | main.c:38-39 | The `(int)` cast keeps the integer part, rounding toward zero: for a non-negative value it is the cell containing the value. |
| `CArith.Quot` | main.c:104-105 | C integer division by a positive divisor truncates toward zero, unlike Euclidean division, for negative dividends. |
| `CArith.Fabs` | main.c:41-48 | `fabs` is non-negative and equals the value or its negation. |
| `Dda.RayLength` | main.c:41-42 | The tile-crossing length is the reciprocal of the absolute direction component. A zero component gives the sentinel 10000 instead of a division. The result is always positive. |
| `Dda.UnitDirectionLength` | main.c:35-42 | For a component of a unit direction (absolute value at most 1), the crossing length is at least one tile. |
| `Dda.StepOf` | main.c:44-45 | The cell step is -1 exactly when the direction component is negative, and +1 otherwise, including for 0. |
| `Dda.StartDist` | main.c:47-48 | For a position inside its cell, the distance to the first grid line is the gap to the cell's edge in the step direction (the far edge when stepping forward, the near edge when stepping back) times the crossing length. So it lies between 0 and one crossing length, and it is positive when stepping forward. |
| `Dda.Begin` | main.c:38-48 | The set-up gives a well-formed ray. The start cell contains the player's position in tile units. Each first-crossing distance is the gap from that position to the cell's edge in the step direction, times that axis's crossing length, and so lies between 0 and the crossing length. |
| `Dda.BeginInInterior` | main.c:38-39 | A player whose pixel position lies in tiles 1..8 on both axes starts the walk from an interior cell. |
| `Dda.Advance` | main.c:56-66 | One iteration moves exactly one coordinate, by its step. Only that axis's crossing distance grows, by that axis's length. `side` names the axis that moved. X moves exactly when its crossing is strictly nearer, so a tie steps along Y. `distance` is the nearer of the two crossings, and it is no further than either next crossing. |
| `Dda.AdvanceMonotone` | main.c:56-66 | `distance` never decreases from one iteration to the next. |
| `Dda.Run` | main.c:52-68 | The walk ends on a cell inside the grid. `hit` holds exactly when that cell is a wall. It stops on a wall or with `distance` at least 10. Every lookup on the way is in bounds, and the walk terminates, using only the border-wall invariant. |
| `Dda.RunIsFirstStop` | main.c:52-68 | The walk stops at the first iteration that enters a wall or records a distance of at least 10. Every earlier iteration entered an open cell of the grid short of the cap. The stop's cell, side and distance are those of that iteration. |
| `Dda.FirstStopShifts` | main.c:52-68 | If the first iteration does not end the loop, a first stop of the walk from the next state is, one iteration later, a first stop of the walk from this state. |
| `Dda.RunMonotone` | main.c:54-66 | The final distance is at least the first crossing distance. The walk never moves backwards along either step direction. |
| `Dda.RunDistance` | main.c:47-66 | The reported distance is where the ray entered the last cell. Counting `k` cells advanced on the axis of the last step (k at least 1), it is that axis's first crossing plus k-1 crossing lengths. |
| `Dda.Traverse` | main.c:52-68 | The C loop computes the same stop state as the reference walk. Its body runs at least once, so `side` (uninitialised in C) is set at exit. Its lookups stay in bounds, and it exits on a hit or at the cap. |
| `Dda.Band` | main.c:71 | A band is produced exactly when the walk ended on a wall, and it carries the walk's distance and side. |
| `Dda.CastRay` | main.c:32-71 | From an interior start tile, casting yields the band of the reference walk from the set-up. Any band it yields has a non-negative distance. |
| `DdaScenarios.EastwardRayFromStart` | main.c:14-71 | From pixel (30, 30) facing east, the Y axis gets the sentinel length. The walk enters the wall `map[1][9]` across an X grid line at distance 7.5, and a band is drawn. |
| `DdaScenarios.CappedRayDrawsNothing` | main.c:54-71 | A walk whose first crossing is already 10 tiles away stops in an open cell without a hit, and no band is drawn. The direction (0.05, 0.05) is a model-level input, not a unit vector `cos`/`sin` could produce. It is chosen so that the cap is reached before any wall. |
| `Movement.Heading` | main.c:101-102 | The snapped heading `(tcos, tsin)` is always one of the four unit cardinal vectors. It is east exactly when the turn count is a multiple of four. |
| `Movement.QuarterTurnRotates` | main.c:98-102 | E (one quarter turn on) rotates the heading by +90 degrees, and Q rotates it by -90 degrees. |
| `Movement.HeadingPeriodic` | main.c:98-102 | Four quarter turns give back the same heading. |
| `Movement.Offset` | main.c:106-121 | Every move key shifts the target by a unit cardinal vector: one tile along exactly one axis. W's offset is the heading `(tcos, tsin)` itself. With `StrafeIsTurnedForward` this fixes all four offsets. |
| `Movement.StrafeIsTurnedForward` | main.c:106-121 | A is forward after a quarter turn back, D is forward after a quarter turn on, and S is forward after a half turn. |
| `Movement.Frame` | main.c:96-121 | The turn count changes by -1 for Q and +1 for E, regardless of arrival. Without arrival, or without a move key held, the tile is unchanged. |
| `Movement.Shift` | main.c:106-121 | What one guarded move contributes to the frame is either nothing or exactly its key's offset for the new heading. It moves exactly when its guard holds: the key is held, the target has arrived, and the cell one offset from the frame-start tile is floor. This holds whatever other keys are held. |
| `Movement.MovesAreIndependent` | main.c:104-121 | The frame's tile is the frame-start tile plus the sum of the moves taken. Each move is decided on the frame-start tile alone, so the order of the four `if`s does not matter. |
| `Movement.AcceptedIsInterior` | main.c:106-121 | A move that is taken lands on an interior tile, because the cell it checked is floor and floor lies inside the border walls. |
| `Movement.SumStaysInterior` | main.c:106-121 | Optional unit steps forward, back, left and right of a cardinal heading, each allowed only onto an interior tile, add up to an interior tile at most one step away per axis. |
| `Movement.FrameStaysInterior` | main.c:104-121 | Whatever keys are held, the target moves at most one tile per axis and stays on an interior tile. So every lookup of this and later frames is in bounds. |
| `Movement.OnlyOneShift` | main.c:106-121 | With one move key held, that key's move is taken exactly when the target has arrived and its destination is floor, and no other move is taken. |
| `Movement.SingleMove` | main.c:98-121 | With one move key held, the target moves exactly one tile in that key's direction if and only if it has arrived and the destination is floor. The direction uses the heading after this frame's turns. Otherwise only the turn count changes. |
| `Movement.OneKeyKeepsOnFloor` | main.c:88-121 | With at most one move key held, a target on a floor tile is on an interior tile and stays on a floor tile. |
| `Movement.CentreRoundTrip` | main.c:104-120 | `(int)x / TILE_SIZE` recovers the tile from a tile-centre pixel coordinate. Moving by whole tiles keeps a centre on centres. So the tile-level state is exact. |
| `MovementScenarios.StartOnFloor` | main.c:88-89 | The level is border-walled, and the start pose (tile 1, 1, angle 0) is on floor. |
| `MovementScenarios.TwoKeysCutIntoWall` | main.c:104-121 | W and D held together from the start facing east each check a floor cell, (2, 1) and (1, 2). The target ends on (2, 2), a wall that was never checked. |
| `MovementScenarios.TurnAppliesBeforeMove` | main.c:98-109 | Pressing E while holding W from the start moves the target south to (1, 2), because the turn is applied before the heading is taken. |

## Left out

- Window, input and drawing calls (`InitWindow`, `IsKeyPressed`, `IsKeyDown`, `BeginDrawing`, `DrawRectangle` and the rest): raylib I/O is not part of this model. Key states are boolean inputs to the frame step.
- Trigonometry: `cos`/`sin` of the ray angle become the real parameters `dirX`/`dirY`, and `round(cos)`/`round(sin)` of a quarter-turn angle become `Heading`.
- Angle normalisation with `fmodf` (main.c:33): this is float numerics, and `fmodf` keeps the sign, so a negative ray angle is not brought into [0, 2π). The model makes no such claim.
- Movement.Heading: the source adds and subtracts the float π/2 to `target.angle`, so rounding error builds up with every turn. The model treats the angle as an exact count of quarter turns.
- Wall-height projection and fisheye correction (main.c:12, 73-74): float numerics. `FOVCHANGE` takes `tan` of 45 radians, not 45 degrees.
- The stripe-drawing loop (main.c:76-81): drawing code that mixes an `int` counter with a float step.
- Display-pose smoothing and the arrival threshold (main.c:96, 123-124): a float lerp. Arrival is the boolean `isThere` input to `Movement.Frame`.
- The sweep of ray angles across the field of view (main.c:92-93, 127, 134): float accumulation of angles.
- Float rounding in the walk: distances and positions are exact reals.
- Dda.CastRay: it requires the start tile to be interior (pixel coordinates in [20, 180)). In the running program the display pose, which lerps between tile centres, satisfies this, but the model does not prove it.
